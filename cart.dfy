/** The session cart of server.js: a list of lines `{product_id, name, slug, price_uah, qty}` that
  * `/cart/add`, `/cart/update` and `/cart/remove` change in place, with `cartTotal` and the
  * `cartCount` shown in the header as sums over the lines.
  *
  * The quantity `/cart/add` reads is a `JsNumber`: a whole number, an infinity or NaN. In
  * `/cart/update` and `/cart/remove`, `Number(...)` of a form field is an `Option<int>`, `None`
  * standing for a value that is not a finite number (NaN or an infinity), which `isFinite`
  * refuses and which no line's product id equals. */
module ShoppingCart {
  import opened Common

  const MaxQty: int := 99

  datatype CartLine = CartLine(productId: int, name: string, slug: string, price: int, qty: int)

  /** `cartCount`: the sum of the quantities. */
  function Count(lines: seq<CartLine>): int {
    if lines == [] then 0 else lines[0].qty + Count(lines[1..])
  }

  /** `cartTotal`: the sum of price times quantity. */
  function Total(lines: seq<CartLine>): int {
    if lines == [] then 0 else lines[0].price * lines[0].qty + Total(lines[1..])
  }

  predicate QtyInRange(q: int) {
    1 <= q <= MaxQty
  }

  /** What the handlers keep true of a cart: every quantity in [1, 99] and at most one line per
    * product. */
  predicate ValidLines(lines: seq<CartLine>) {
    && (forall i :: 0 <= i < |lines| ==> QtyInRange(lines[i].qty))
    && (forall i, j :: 0 <= i < j < |lines| ==> lines[i].productId != lines[j].productId)
  }

  /** The quantity of product `pid` in the cart (that of its first line), 0 when it has none. */
  function QtyOf(lines: seq<CartLine>, pid: int): int {
    if lines == [] then 0
    else if lines[0].productId == pid then lines[0].qty
    else QtyOf(lines[1..], pid)
  }

  function LineOf(lines: seq<CartLine>, pid: int): Option<nat> {
    FirstIndex(lines, (l: CartLine) => l.productId == pid)
  }

  /** A JavaScript number as `Number(qty || 1)` yields it; fractions are not modelled. */
  datatype JsNumber = Finite(value: int) | PosInf | NegInf | NaN

  /** The quantity `/cart/add` adds: `Number(qty || 1)` clamped to [1, 99], where an infinity
    * clamps to the nearer bound and NaN counts as the default 1 (the code as written lets NaN
    * through; see `AddQuantityAsWritten`). */
  function AddQuantity(requested: JsNumber): (r: int)
    ensures QtyInRange(r)
    ensures requested.Finite? && QtyInRange(requested.value) ==> r == requested.value
    ensures requested.Finite? && requested.value < 1 ==> r == 1
    ensures requested.Finite? && requested.value > MaxQty ==> r == MaxQty
    ensures requested == PosInf ==> r == MaxQty
    ensures requested == NegInf ==> r == 1
    ensures requested == NaN ==> r == 1
  {
    match requested
    case Finite(v) => Clamp(v, 1, MaxQty)
    case PosInf => MaxQty
    case NegInf => 1
    case NaN => 1
  }

  // ----- the arithmetic of server.js:123-124 as written, on JavaScript numbers -----

  /** `Math.min`: NaN if either argument is NaN, else the smaller, -Infinity below every number. */
  function NumMin(a: JsNumber, b: JsNumber): JsNumber {
    if a == NaN || b == NaN then NaN
    else if a == NegInf || b == NegInf then NegInf
    else if a == PosInf then b
    else if b == PosInf then a
    else Finite(Min(a.value, b.value))
  }

  /** `Math.max`: NaN if either argument is NaN, else the larger, Infinity above every number. */
  function NumMax(a: JsNumber, b: JsNumber): JsNumber {
    if a == NaN || b == NaN then NaN
    else if a == PosInf || b == PosInf then PosInf
    else if a == NegInf then b
    else if b == NegInf then a
    else Finite(Max(a.value, b.value))
  }

  /** `+`: NaN if either argument is NaN or the two are opposite infinities. */
  function NumAdd(a: JsNumber, b: JsNumber): JsNumber {
    if a == NaN || b == NaN then NaN
    else if (a == PosInf && b == NegInf) || (a == NegInf && b == PosInf) then NaN
    else if a == PosInf || b == PosInf then PosInf
    else if a == NegInf || b == NegInf then NegInf
    else Finite(a.value + b.value)
  }

  /** `Math.max(1, Math.min(99, Number(qty || 1)))` exactly as written: a quantity in [1, 99],
    * except that NaN comes out as NaN. */
  function AddQuantityAsWritten(requested: JsNumber): (r: JsNumber)
    ensures r == NaN <==> requested == NaN
    ensures r != NaN ==> r.Finite? && QtyInRange(r.value)
  {
    NumMax(Finite(1), NumMin(Finite(MaxQty), requested))
  }

  /** For every input but NaN, infinities included, the corrected quantity is the one the code
    * computes. */
  lemma AddQuantityAgrees(requested: JsNumber)
    requires requested != NaN
    ensures AddQuantityAsWritten(requested) == Finite(AddQuantity(requested))
  {
  }

  /** A non-numeric `qty` such as "abc" gives `Number("abc") = NaN`, which both `Math.min` and
    * `Math.max` pass on: a new line would get quantity NaN, and an existing line's
    * `Math.min(99, existing.qty + NaN)` would turn NaN as well. */
  lemma AddQuantityNaNEscapes(existingQty: int)
    ensures AddQuantityAsWritten(NaN) == NaN
    ensures NumMin(Finite(MaxQty), NumAdd(Finite(existingQty), AddQuantityAsWritten(NaN))) == NaN
  {
  }

  // ----- /cart/add -----

  /** The lines after adding `line`: the first line of the same product has its quantity raised
    * by `line.qty`, capped at 99; if there is none, `line` is appended. */
  function Added(lines: seq<CartLine>, line: CartLine): seq<CartLine> {
    if lines == [] then [line]
    else if lines[0].productId == line.productId then
      [lines[0].(qty := Min(MaxQty, lines[0].qty + line.qty))] + lines[1..]
    else [lines[0]] + Added(lines[1..], line)
  }

  /** With a line of the product at `i` (and none before it), adding updates that line alone. */
  lemma {:induction false} AddedAt(lines: seq<CartLine>, line: CartLine, i: nat)
    requires i < |lines| && lines[i].productId == line.productId
    requires forall k :: 0 <= k < i ==> lines[k].productId != line.productId
    ensures Added(lines, line) == lines[i := lines[i].(qty := Min(MaxQty, lines[i].qty + line.qty))]
  {
    if i > 0 {
      AddedAt(lines[1..], line, i - 1);
    }
  }

  /** Without a line of the product, adding appends. */
  lemma {:induction false} AddedAbsent(lines: seq<CartLine>, line: CartLine)
    requires forall k :: 0 <= k < |lines| ==> lines[k].productId != line.productId
    ensures Added(lines, line) == lines + [line]
  {
    if lines != [] {
      AddedAbsent(lines[1..], line);
    }
  }

  /** Adding keeps quantities in range and one line per product. */
  lemma AddedValid(lines: seq<CartLine>, line: CartLine)
    requires ValidLines(lines) && QtyInRange(line.qty)
    ensures ValidLines(Added(lines, line))
  {
    match LineOf(lines, line.productId)
    case Some(i) => AddedAt(lines, line, i);
    case None => AddedAbsent(lines, line);
  }

  /** The product's quantity becomes `min(99, old + added)`; every other product keeps its own;
    * `cartCount` changes by exactly the difference. */
  lemma AddedQuantities(lines: seq<CartLine>, line: CartLine, other: int)
    requires QtyInRange(line.qty) && other != line.productId
    ensures QtyOf(Added(lines, line), line.productId) == Min(MaxQty, QtyOf(lines, line.productId) + line.qty)
    ensures QtyOf(Added(lines, line), other) == QtyOf(lines, other)
    ensures Count(Added(lines, line))
         == Count(lines) + Min(MaxQty, QtyOf(lines, line.productId) + line.qty) - QtyOf(lines, line.productId)
  {
    match LineOf(lines, line.productId)
    case Some(i) =>
      AddedAt(lines, line, i);
      var q := Min(MaxQty, lines[i].qty + line.qty);
      QtyOfFirst(lines, line.productId, i);
      QtyOfUpdate(lines, i, q, line.productId);
      QtyOfUpdate(lines, i, q, other);
      CountUpdate(lines, i, q);
    case None =>
      AddedAbsent(lines, line);
      QtyOfAbsent(lines, line.productId);
      QtyOfAppend(lines, line, line.productId);
      QtyOfAppend(lines, line, other);
      CountAppend(lines, line);
  }

  /** A product new to the cart adds its price times quantity to `cartTotal`. */
  lemma AddedTotalNew(lines: seq<CartLine>, line: CartLine)
    requires LineOf(lines, line.productId).None?
    ensures Total(Added(lines, line)) == Total(lines) + line.price * line.qty
  {
    AddedAbsent(lines, line);
    TotalAppend(lines, line);
  }

  /** A product already in the cart at line `i` adds its cart price times the quantity
    * increase to `cartTotal`. */
  lemma AddedTotalExisting(lines: seq<CartLine>, line: CartLine, i: nat)
    requires LineOf(lines, line.productId) == Some(i)
    ensures Total(Added(lines, line))
         == Total(lines) + lines[i].price * (Min(MaxQty, lines[i].qty + line.qty) - lines[i].qty)
  {
    AddedAt(lines, line, i);
    TotalUpdate(lines, i, Min(MaxQty, lines[i].qty + line.qty));
  }

  // ----- sums and lookups under the two ways the cart changes -----

  lemma {:induction false} CountAppend(lines: seq<CartLine>, line: CartLine)
    ensures Count(lines + [line]) == Count(lines) + line.qty
  {
    if lines != [] {
      assert (lines + [line])[1..] == lines[1..] + [line];
      CountAppend(lines[1..], line);
    }
  }

  lemma {:induction false} TotalAppend(lines: seq<CartLine>, line: CartLine)
    ensures Total(lines + [line]) == Total(lines) + line.price * line.qty
  {
    if lines != [] {
      assert (lines + [line])[1..] == lines[1..] + [line];
      TotalAppend(lines[1..], line);
    }
  }

  lemma {:induction false} CountUpdate(lines: seq<CartLine>, i: nat, q: int)
    requires i < |lines|
    ensures Count(lines[i := lines[i].(qty := q)]) == Count(lines) - lines[i].qty + q
  {
    if i > 0 {
      assert lines[i := lines[i].(qty := q)][1..] == lines[1..][i - 1 := lines[i].(qty := q)];
      CountUpdate(lines[1..], i - 1, q);
    } else {
      assert lines[i := lines[i].(qty := q)][1..] == lines[1..];
    }
  }

  lemma {:induction false} TotalUpdate(lines: seq<CartLine>, i: nat, q: int)
    requires i < |lines|
    ensures Total(lines[i := lines[i].(qty := q)]) == Total(lines) + lines[i].price * (q - lines[i].qty)
  {
    if i > 0 {
      assert lines[i := lines[i].(qty := q)][1..] == lines[1..][i - 1 := lines[i].(qty := q)];
      TotalUpdate(lines[1..], i - 1, q);
    } else {
      assert lines[i := lines[i].(qty := q)][1..] == lines[1..];
    }
  }

  lemma {:induction false} QtyOfFirst(lines: seq<CartLine>, pid: int, i: nat)
    requires i < |lines| && lines[i].productId == pid
    requires forall k :: 0 <= k < i ==> lines[k].productId != pid
    ensures QtyOf(lines, pid) == lines[i].qty
  {
    if i > 0 {
      QtyOfFirst(lines[1..], pid, i - 1);
    }
  }

  lemma {:induction false} QtyOfAbsent(lines: seq<CartLine>, pid: int)
    requires forall k :: 0 <= k < |lines| ==> lines[k].productId != pid
    ensures QtyOf(lines, pid) == 0
  {
    if lines != [] {
      QtyOfAbsent(lines[1..], pid);
    }
  }

  lemma {:induction false} QtyOfAppend(lines: seq<CartLine>, line: CartLine, pid: int)
    requires forall k :: 0 <= k < |lines| ==> lines[k].productId != line.productId
    ensures QtyOf(lines + [line], pid) == QtyOf(lines, pid) + (if pid == line.productId then line.qty else 0)
  {
    if lines == [] {
      assert [] + [line] == [line];
    } else {
      assert (lines + [line])[1..] == lines[1..] + [line];
      QtyOfAppend(lines[1..], line, pid);
    }
  }

  /** Changing the quantity of the first line of a product changes that product's quantity only. */
  lemma {:induction false} QtyOfUpdate(lines: seq<CartLine>, i: nat, q: int, pid: int)
    requires i < |lines|
    requires forall k :: 0 <= k < i ==> lines[k].productId != lines[i].productId
    ensures QtyOf(lines[i := lines[i].(qty := q)], pid) == if pid == lines[i].productId then q else QtyOf(lines, pid)
  {
    if i > 0 {
      assert lines[i := lines[i].(qty := q)][1..] == lines[1..][i - 1 := lines[i].(qty := q)];
      QtyOfUpdate(lines[1..], i - 1, q, pid);
    }
  }

  // ----- /cart/update -----

  /** A line after `/cart/update`: a line whose product is named in the form gets the given
    * number clamped to [1, 99], or its own quantity clamped when the number is not finite;
    * any other line is left as it is. */
  function UpdatedLine(line: CartLine, updates: map<int, Option<int>>): (r: CartLine)
    ensures r.productId == line.productId && r.name == line.name && r.slug == line.slug && r.price == line.price
    ensures line.productId !in updates ==> r == line
    ensures line.productId in updates && updates[line.productId].Some? ==>
      r.qty == Clamp(updates[line.productId].value, 1, MaxQty)
    ensures line.productId in updates && updates[line.productId].None? ==> r.qty == Clamp(line.qty, 1, MaxQty)
  {
    if line.productId in updates then
      var v := match updates[line.productId] case Some(n) => n case None => line.qty;
      line.(qty := Clamp(v, 1, MaxQty))
    else line
  }

  /** The lines after `/cart/update`: each line updated on its own, count and order kept. */
  function ApplyUpdates(lines: seq<CartLine>, updates: map<int, Option<int>>): (r: seq<CartLine>)
    ensures |r| == |lines|
    ensures forall k :: 0 <= k < |lines| ==> r[k] == UpdatedLine(lines[k], updates)
  {
    if lines == [] then [] else [UpdatedLine(lines[0], updates)] + ApplyUpdates(lines[1..], updates)
  }

  /** Updating keeps quantities in range and one line per product. */
  lemma UpdatesValid(lines: seq<CartLine>, updates: map<int, Option<int>>)
    requires ValidLines(lines)
    ensures ValidLines(ApplyUpdates(lines, updates))
  {
  }

  /** Submitting the same form twice has the effect of submitting it once. */
  lemma UpdatesIdempotent(lines: seq<CartLine>, updates: map<int, Option<int>>)
    ensures ApplyUpdates(ApplyUpdates(lines, updates), updates) == ApplyUpdates(lines, updates)
  {
    var once := ApplyUpdates(lines, updates);
    var twice := ApplyUpdates(once, updates);
    forall k | 0 <= k < |lines|
      ensures twice[k] == once[k]
    {
      assert twice[k] == UpdatedLine(once[k], updates);
    }
  }

  /** A form that names no product of the cart changes nothing. */
  lemma UpdatesUnrelated(lines: seq<CartLine>, updates: map<int, Option<int>>)
    requires forall k :: 0 <= k < |lines| ==> lines[k].productId !in updates
    ensures ApplyUpdates(lines, updates) == lines
  {
  }

  /** After an update every line holds between 1 and 99 items, so `cartCount` lies between the
    * number of lines and 99 times that. */
  lemma {:induction false} UpdatedCountBounds(lines: seq<CartLine>, updates: map<int, Option<int>>)
    requires ValidLines(lines)
    ensures |lines| <= Count(ApplyUpdates(lines, updates)) <= MaxQty * |lines|
  {
    ValidCountBounds(ApplyUpdates(lines, updates));
    UpdatesValid(lines, updates);
  }

  /** In a valid cart `cartCount` lies between the number of lines and 99 times that. */
  lemma {:induction false} ValidCountBounds(lines: seq<CartLine>)
    requires forall i :: 0 <= i < |lines| ==> QtyInRange(lines[i].qty)
    ensures |lines| <= Count(lines) <= MaxQty * |lines|
  {
    if lines != [] {
      ValidCountBounds(lines[1..]);
    }
  }

  // ----- /cart/remove -----

  /** `items.filter(i => i.product_id !== pid)`: a NaN id equals no id, so nothing is removed. */
  function Without(lines: seq<CartLine>, pid: Option<int>): (r: seq<CartLine>)
    ensures |r| <= |lines|
  {
    if lines == [] then []
    else if Some(lines[0].productId) == pid then Without(lines[1..], pid)
    else [lines[0]] + Without(lines[1..], pid)
  }

  /** Exactly the lines of product `pid` go: a line is kept iff it was there with another id. */
  lemma {:induction false} WithoutMembers(lines: seq<CartLine>, pid: Option<int>, l: CartLine)
    ensures l in Without(lines, pid) <==> l in lines && Some(l.productId) != pid
  {
    if lines != [] {
      WithoutMembers(lines[1..], pid, l);
      assert lines == [lines[0]] + lines[1..];
    }
  }

  /** The kept lines stay in their relative order: what is left is a subsequence. */
  lemma {:induction false} WithoutSubsequence(lines: seq<CartLine>, pid: Option<int>)
    ensures IsSubsequence(Without(lines, pid), lines)
  {
    if lines != [] {
      WithoutSubsequence(lines[1..], pid);
    }
  }

  /** `a` is `b` with some elements dropped, the rest in order. */
  predicate IsSubsequence(a: seq<CartLine>, b: seq<CartLine>)
    decreases |b|
  {
    if a == [] then true
    else if b == [] then false
    else (a[0] == b[0] && IsSubsequence(a[1..], b[1..])) || IsSubsequence(a, b[1..])
  }

  /** Removing a product the cart does not hold changes nothing. */
  lemma {:induction false} WithoutAbsent(lines: seq<CartLine>, pid: Option<int>)
    requires forall k :: 0 <= k < |lines| ==> Some(lines[k].productId) != pid
    ensures Without(lines, pid) == lines
  {
    if lines != [] {
      WithoutAbsent(lines[1..], pid);
    }
  }

  /** Removing keeps a valid cart valid, and `cartCount` drops by the removed product's
    * quantity. */
  lemma {:induction false} WithoutValid(lines: seq<CartLine>, pid: int)
    requires ValidLines(lines)
    ensures ValidLines(Without(lines, Some(pid)))
    ensures Count(Without(lines, Some(pid))) == Count(lines) - QtyOf(lines, pid)
  {
    if lines != [] {
      WithoutValid(lines[1..], pid);
      var r := Without(lines[1..], Some(pid));
      if lines[0].productId == pid {
        QtyOfAbsent(lines[1..], pid);
      } else {
        forall j | 0 <= j < |r|
          ensures r[j].productId != lines[0].productId
        {
          WithoutMembers(lines[1..], Some(pid), r[j]);
          var k :| 0 <= k < |lines[1..]| && lines[1..][k] == r[j];
          assert lines[k + 1] == r[j];
        }
        var s := [lines[0]] + r;
        assert s[1..] == r;
        forall i, j | 0 <= i < j < |s|
          ensures s[i].productId != s[j].productId
        {
          if i > 0 {
            assert s[i] == r[i - 1] && s[j] == r[j - 1];
          }
        }
      }
    }
  }

  /** The session cart: `req.session.cart = { items: [] }`. */
  class Cart {
    var items: seq<CartLine>

    predicate Valid()
      reads this
    {
      ValidLines(items)
    }

    /** `{ items: [] }`. */
    constructor ()
      ensures items == [] && Valid()
    {
      items := [];
    }

    /** The cart part of `/cart/add` for an active product: `cart.items.find` the product's
      * line and raise its quantity, or push a new line. */
    method Add(productId: int, name: string, slug: string, price: int, requested: JsNumber)
      requires Valid()
      modifies this
      ensures Valid()
      ensures items == Added(old(items), CartLine(productId, name, slug, price, AddQuantity(requested)))
    {
      var qty := AddQuantity(requested);
      var line := CartLine(productId, name, slug, price, qty);
      var existing := LineOf(items, productId);
      AddedValid(items, line);
      match existing {
        case Some(i) =>
          AddedAt(items, line, i);
          items := items[i := items[i].(qty := Min(MaxQty, items[i].qty + qty))];
        case None =>
          AddedAbsent(items, line);
          items := items + [line];
      }
    }

    /** The loop of `/cart/update`: `for (const it of cart.items)`, assigning `it.qty` for the
      * lines named in the form. */
    method Update(updates: map<int, Option<int>>)
      requires Valid()
      modifies this
      ensures Valid()
      ensures items == ApplyUpdates(old(items), updates)
    {
      UpdatesValid(items, updates);
      var i := 0;
      while i < |items|
        invariant 0 <= i <= |items| == |old(items)|
        invariant forall k :: 0 <= k < i ==> items[k] == UpdatedLine(old(items)[k], updates)
        invariant forall k :: i <= k < |items| ==> items[k] == old(items)[k]
      {
        var it := items[i];
        if it.productId in updates {
          var v := updates[it.productId];
          var q := match v case Some(n) => n case None => it.qty;
          items := items[i := it.(qty := Clamp(q, 1, MaxQty))];
        }
        i := i + 1;
      }
    }

    /** `cart.items = cart.items.filter(i => i.product_id !== pid)`. */
    method Remove(pid: Option<int>)
      requires Valid()
      modifies this
      ensures Valid()
      ensures items == Without(old(items), pid)
    {
      match pid {
        case Some(id) => WithoutValid(items, id);
        case None => WithoutAbsent(items, pid);
      }
      items := Without(items, pid);
    }
  }
}
