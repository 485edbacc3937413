/** The cart routes of server.js on a session: `/cart/add`, `/cart/update` and `/cart/remove`
  * each take the session's cart with `getCart` (creating an empty one on first use) and change
  * it in place. `Number(product_id)` is an `Option<int>`, `None` standing for NaN or an infinity,
  * which no row's id equals; the quantity of `/cart/add` is a `JsNumber`. */
module CartRoutes {
  import opened Common
  import opened Store
  import opened ShoppingCart
  import opened Sessions

  /** The lines of the session's cart, none while it has no cart. */
  function LinesOf(s: Session): seq<CartLine>
    reads s, s.cart
  {
    if s.cart == null then [] else s.cart.items
  }

  /** The product `/cart/add` accepts: the row with id `Number(product_id)`, when it is active.
    * A NaN id is bound as NULL and finds no row. */
  function Addable(ps: seq<Product>, productId: Option<int>): (r: Option<nat>)
    ensures r.Some? ==> r.value < |ps| && Some(ps[r.value].id) == productId && ps[r.value].isActive
  {
    if productId.None? then None
    else match ProductWithId(ps, productId.value)
      case None => None
      case Some(k) => if ps[k].isActive then Some(k) else None
  }

  /** Row ids are unique, so a product is accepted exactly when an active row has the id. */
  lemma AddableIff(ps: seq<Product>, next: int, productId: Option<int>)
    requires ProductsValid(ps, next)
    ensures Addable(ps, productId).Some?
        <==> exists k :: 0 <= k < |ps| && Some(ps[k].id) == productId && ps[k].isActive
  {
  }

  /** The line `/cart/add` adds for product `p`: its id, name, slug and price, and the clamped
    * quantity. */
  function LineFor(p: Product, qty: JsNumber): (l: CartLine)
    ensures l.productId == p.id && l.price == p.price && QtyInRange(l.qty)
  {
    CartLine(p.id, p.name, p.slug, p.price, AddQuantity(qty))
  }

  /** `POST /cart/add`: an unknown or inactive product is refused before the cart is touched;
    * otherwise the product's line is raised or appended. */
  method CartAdd(s: Session, db: Database, productId: Option<int>, qty: JsNumber) returns (ok: bool)
    requires s.Valid()
    modifies s, s.cart
    ensures s.Valid() && s.admin == old(s.admin)
    ensures ok <==> Addable(db.products, productId).Some?
    ensures !ok ==> s.cart == old(s.cart) && LinesOf(s) == old(LinesOf(s))
    ensures ok ==>
      && s.cart != null
      && LinesOf(s) == Added(old(LinesOf(s)), LineFor(db.products[Addable(db.products, productId).value], qty))
  {
    var k := Addable(db.products, productId);
    if k.None? {
      return false;
    }
    var p := db.products[k.value];
    var cart := GetCart(s);
    cart.Add(p.id, p.name, p.slug, p.price, qty);
    ok := true;
  }

  /** `POST /cart/update`: every line named in the form gets its clamped quantity. */
  method CartUpdate(s: Session, updates: map<int, Option<int>>)
    requires s.Valid()
    modifies s, s.cart
    ensures s.Valid() && s.admin == old(s.admin) && s.cart != null
    ensures LinesOf(s) == ApplyUpdates(old(LinesOf(s)), updates)
  {
    var cart := GetCart(s);
    cart.Update(updates);
  }

  /** `POST /cart/remove`: the lines of the product go. */
  method CartRemove(s: Session, productId: Option<int>)
    requires s.Valid()
    modifies s, s.cart
    ensures s.Valid() && s.admin == old(s.admin) && s.cart != null
    ensures LinesOf(s) == Without(old(LinesOf(s)), productId)
  {
    var cart := GetCart(s);
    cart.Remove(productId);
  }

  /** After an accepted `/cart/add` the header's count has grown by the quantity actually added,
    * and stays within 99 items per line. */
  lemma AddCount(lines: seq<CartLine>, p: Product, qty: JsNumber)
    requires ValidLines(lines)
    ensures var after := Added(lines, LineFor(p, qty));
      && ValidLines(after)
      && Count(after) == Count(lines) + Min(MaxQty, QtyOf(lines, p.id) + AddQuantity(qty)) - QtyOf(lines, p.id)
      && (Count(lines) < Count(after) <==> QtyOf(lines, p.id) < MaxQty)
  {
    var line := LineFor(p, qty);
    AddedValid(lines, line);
    AddedQuantities(lines, line, p.id + 1);
  }
}
