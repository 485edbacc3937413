/** `GET /catalog` of server.js: the active products, joined with their category, that pass every
  * filter the query string supplies, ordered by one of four keys, at most 60 of them. */
module Catalog {
  import opened Common
  import opened Store

  const PageSize: nat := 60

  /** A product with its category's name and slug from the LEFT JOIN (absent without one). */
  datatype CatalogRow = CatalogRow(product: Product, categoryName: Option<string>, categorySlug: Option<string>)

  /** The query string. An empty `search`, `category` or `brand` is no filter, as is a `None`
    * bound; a bound holds `Number(min)` or `Number(max)` of a non-empty parameter. */
  datatype CatalogQuery = CatalogQuery(
    search: string, category: string, brand: string, minPrice: Option<int>, maxPrice: Option<int>,
    inStock: Option<string>, sort: Option<string>)

  datatype SortKey = Newest | PriceAsc | PriceDesc | NameAsc

  /** `sort`: the three recognised values, anything else newest first. */
  function SortKeyOf(sort: Option<string>): (k: SortKey)
    ensures k == PriceAsc <==> sort == Some("price_asc")
    ensures k == PriceDesc <==> sort == Some("price_desc")
    ensures k == NameAsc <==> sort == Some("name_asc")
  {
    if sort == Some("price_asc") then PriceAsc
    else if sort == Some("price_desc") then PriceDesc
    else if sort == Some("name_asc") then NameAsc
    else Newest
  }

  /** The row of product `p`: the category whose id is `p.category_id`, if any. */
  function JoinRow(p: Product, cs: seq<Category>): (r: CatalogRow)
    ensures r.product == p
    ensures r.categorySlug.Some? <==> exists k :: 0 <= k < |cs| && Some(cs[k].id) == p.categoryId
  {
    var k := if p.categoryId.Some? then FirstIndex(cs, (c: Category) => c.id == p.categoryId.value) else None;
    match k
    case None => CatalogRow(p, None, None)
    case Some(i) => CatalogRow(p, Some(cs[i].name), Some(cs[i].slug))
  }

  function Joined(ps: seq<Product>, cs: seq<Category>): (r: seq<CatalogRow>)
    ensures |r| == |ps|
    ensures forall k :: 0 <= k < |ps| ==> r[k] == JoinRow(ps[k], cs)
  {
    if ps == [] then [] else [JoinRow(ps[0], cs)] + Joined(ps[1..], cs)
  }

  /** `t` occurs in `s` as a run of consecutive characters. */
  predicate Contains(s: string, t: string) {
    t <= s || (s != [] && Contains(s[1..], t))
  }

  /** The WHERE clause: active, and each supplied filter holds. */
  predicate Matches(q: CatalogQuery, r: CatalogRow) {
    && r.product.isActive
    && (q.search == "" || Contains(r.product.name, q.search) || Contains(r.product.sku, q.search))
    && (q.category == "" || r.categorySlug == Some(q.category))
    && (q.brand == "" || r.product.brand == q.brand)
    && (q.minPrice.None? || r.product.price >= q.minPrice.value)
    && (q.maxPrice.None? || r.product.price <= q.maxPrice.value)
    && (q.inStock != Some("1") || r.product.stock > 0)
  }

  function Filter(q: CatalogQuery, rows: seq<CatalogRow>): (r: seq<CatalogRow>)
    ensures |r| <= |rows|
    ensures forall k :: 0 <= k < |r| ==> Matches(q, r[k])
    ensures forall x :: x in r <==> x in rows && Matches(q, x)
  {
    if rows == [] then []
    else if Matches(q, rows[0]) then [rows[0]] + Filter(q, rows[1..])
    else Filter(q, rows[1..])
  }

  /** SQLite's BINARY collation on text: code points compared in order, a prefix first. */
  predicate LexLe(a: string, b: string) {
    a == [] || (b != [] && (a[0] < b[0] || (a[0] == b[0] && LexLe(a[1..], b[1..]))))
  }

  lemma {:induction false} LexLeTotal(a: string, b: string)
    ensures LexLe(a, b) || LexLe(b, a)
  {
    if a != [] && b != [] && a[0] == b[0] {
      LexLeTotal(a[1..], b[1..]);
    }
  }

  lemma {:induction false} LexLeTrans(a: string, b: string, c: string)
    requires LexLe(a, b) && LexLe(b, c)
    ensures LexLe(a, c)
  {
    if a != [] && b != [] && c != [] && a[0] == b[0] && b[0] == c[0] {
      LexLeTrans(a[1..], b[1..], c[1..]);
    }
  }

  /** `a` may come before `b` under the ORDER BY of `key`. */
  predicate InOrder(key: SortKey, a: CatalogRow, b: CatalogRow) {
    match key
    case Newest => a.product.createdAt >= b.product.createdAt
    case PriceAsc => a.product.price <= b.product.price
    case PriceDesc => a.product.price >= b.product.price
    case NameAsc => LexLe(a.product.name, b.product.name)
  }

  lemma InOrderTotal(key: SortKey, a: CatalogRow, b: CatalogRow)
    ensures InOrder(key, a, b) || InOrder(key, b, a)
  {
    if key == NameAsc {
      LexLeTotal(a.product.name, b.product.name);
    }
  }

  lemma InOrderTrans(key: SortKey, a: CatalogRow, b: CatalogRow, c: CatalogRow)
    requires InOrder(key, a, b) && InOrder(key, b, c)
    ensures InOrder(key, a, c)
  {
    if key == NameAsc {
      LexLeTrans(a.product.name, b.product.name, c.product.name);
    }
  }

  predicate Sorted(key: SortKey, s: seq<CatalogRow>) {
    forall i, j :: 0 <= i < j < |s| ==> InOrder(key, s[i], s[j])
  }

  /** `x` placed into the sorted `s` before the first row it may precede. */
  function Insert(key: SortKey, x: CatalogRow, s: seq<CatalogRow>): (r: seq<CatalogRow>)
    ensures multiset(r) == multiset(s) + multiset{x}
    ensures Sorted(key, s) ==> Sorted(key, r)
  {
    if s == [] then [x]
    else if InOrder(key, x, s[0]) then
      InsertFront(key, x, s);
      [x] + s
    else
      var t := Insert(key, x, s[1..]);
      InsertLater(key, x, s, t);
      [s[0]] + t
  }

  /** A row that may precede the first of a sorted sequence may precede all of it. */
  lemma InsertFront(key: SortKey, x: CatalogRow, s: seq<CatalogRow>)
    requires s != [] && InOrder(key, x, s[0])
    ensures Sorted(key, s) ==> Sorted(key, [x] + s)
  {
    if Sorted(key, s) {
      forall j | 0 <= j < |s| ensures InOrder(key, x, s[j]) {
        if j > 0 { InOrderTrans(key, x, s[0], s[j]); }
      }
      SortedCons(key, x, s);
    }
  }

  /** The first row of a sorted sequence may precede a row placed after it. */
  lemma InsertLater(key: SortKey, x: CatalogRow, s: seq<CatalogRow>, t: seq<CatalogRow>)
    requires s != [] && !InOrder(key, x, s[0])
    requires multiset(t) == multiset(s[1..]) + multiset{x}
    requires Sorted(key, s[1..]) ==> Sorted(key, t)
    ensures multiset([s[0]] + t) == multiset(s) + multiset{x}
    ensures Sorted(key, s) ==> Sorted(key, [s[0]] + t)
  {
    assert s == [s[0]] + s[1..];
    if Sorted(key, s) {
      InOrderTotal(key, x, s[0]);
      HeadFirst(key, s, x, t);
      SortedCons(key, s[0], t);
    }
  }

  /** The first row of a sorted `s` may precede every row of `s[1..]` with `x` added, when it
    * may precede `x`. */
  lemma HeadFirst(key: SortKey, s: seq<CatalogRow>, x: CatalogRow, t: seq<CatalogRow>)
    requires s != [] && Sorted(key, s) && InOrder(key, s[0], x)
    requires multiset(t) == multiset(s[1..]) + multiset{x}
    ensures forall j :: 0 <= j < |t| ==> InOrder(key, s[0], t[j])
  {
    forall j | 0 <= j < |t| ensures InOrder(key, s[0], t[j]) {
      assert t[j] in multiset(t);
      if t[j] != x {
        assert t[j] in multiset(s[1..]);
        var k :| 0 <= k < |s[1..]| && s[1..][k] == t[j];
        assert s[k + 1] == t[j];
      }
    }
  }

  /** A row that may precede every row of a sorted sequence keeps it sorted in front. */
  lemma SortedCons(key: SortKey, y: CatalogRow, t: seq<CatalogRow>)
    requires Sorted(key, t) && forall j :: 0 <= j < |t| ==> InOrder(key, y, t[j])
    ensures Sorted(key, [y] + t)
  {
    var r := [y] + t;
    forall i, j | 0 <= i < j < |r| ensures InOrder(key, r[i], r[j]) {
      if i > 0 {
        assert r[i] == t[i - 1] && r[j] == t[j - 1];
      } else {
        assert r[j] == t[j - 1];
      }
    }
  }

  /** ORDER BY `key`: an insertion sort, so rows the key does not tell apart keep an order of
    * the model's choosing, as they keep one of SQLite's. */
  function SortRows(key: SortKey, s: seq<CatalogRow>): (r: seq<CatalogRow>)
    ensures multiset(r) == multiset(s)
    ensures Sorted(key, r)
  {
    if s == [] then []
    else
      assert s == [s[0]] + s[1..];
      Insert(key, s[0], SortRows(key, s[1..]))
  }

  /** The page: the matching rows, sorted, the first 60. */
  function Select(q: CatalogQuery, ps: seq<Product>, cs: seq<Category>): seq<CatalogRow> {
    var sorted := SortRows(SortKeyOf(q.sort), Filter(q, Joined(ps, cs)));
    sorted[..Min(PageSize, |sorted|)]
  }

  /** Every row shown is an active product of the table that passes every supplied filter, the
    * page holds at most 60 rows, and they are in the order of the sort key. */
  lemma SelectSound(q: CatalogQuery, ps: seq<Product>, cs: seq<Category>)
    ensures var r := Select(q, ps, cs);
      && |r| <= PageSize
      && (forall k :: 0 <= k < |r| ==> Matches(q, r[k]) && r[k].product in ps)
      && Sorted(SortKeyOf(q.sort), r)
  {
    var f := Filter(q, Joined(ps, cs));
    var sorted := SortRows(SortKeyOf(q.sort), f);
    var r := Select(q, ps, cs);
    forall k | 0 <= k < |r|
      ensures Matches(q, r[k]) && r[k].product in ps
    {
      assert r[k] == sorted[k];
      assert r[k] in multiset(f);
      assert r[k] in Joined(ps, cs);
      var i :| 0 <= i < |Joined(ps, cs)| && Joined(ps, cs)[i] == r[k];
      assert r[k].product == ps[i];
    }
  }

  /** No matching row is lost except to the limit: if fewer than 61 rows match, the page is
    * exactly the matching rows; a matching row left off the page comes after every row on it. */
  lemma SelectComplete(q: CatalogQuery, ps: seq<Product>, cs: seq<Category>, x: CatalogRow)
    requires x in Filter(q, Joined(ps, cs))
    ensures |Filter(q, Joined(ps, cs))| <= PageSize ==>
      multiset(Select(q, ps, cs)) == multiset(Filter(q, Joined(ps, cs)))
    ensures x !in Select(q, ps, cs) ==>
      |Select(q, ps, cs)| == PageSize
      && forall k :: 0 <= k < PageSize ==> InOrder(SortKeyOf(q.sort), Select(q, ps, cs)[k], x)
  {
    var f := Filter(q, Joined(ps, cs));
    var sorted := SortRows(SortKeyOf(q.sort), f);
    assert x in multiset(sorted);
    PageCut(SortKeyOf(q.sort), sorted, x);
  }

  /** The first 60 of a sorted sequence: all of it when it is short, and otherwise rows that
    * may all precede any row left out. */
  lemma PageCut(key: SortKey, sorted: seq<CatalogRow>, x: CatalogRow)
    requires Sorted(key, sorted) && x in sorted
    ensures |sorted| <= PageSize ==> sorted[..Min(PageSize, |sorted|)] == sorted
    ensures var page := sorted[..Min(PageSize, |sorted|)];
      x !in page ==> |page| == PageSize && forall k :: 0 <= k < PageSize ==> InOrder(key, page[k], x)
  {
    var page := sorted[..Min(PageSize, |sorted|)];
    if |sorted| <= PageSize {
      assert page == sorted;
    }
    if x !in page {
      var j :| 0 <= j < |sorted| && sorted[j] == x;
      assert j >= PageSize;
    }
  }

  /** With no filters exactly the active products match. */
  lemma EmptyQueryActiveOnly(ps: seq<Product>, cs: seq<Category>, sort: Option<string>)
    ensures var q := CatalogQuery("", "", "", None, None, None, sort);
      forall x :: x in Filter(q, Joined(ps, cs)) <==> x in Joined(ps, cs) && x.product.isActive
  {
  }

  /** A filter that is supplied narrows the page: adding a search term, a category, a brand, a
    * bound or the in-stock flag never lets more rows match. */
  lemma MoreFiltersFewerRows(q: CatalogQuery, q2: CatalogQuery, r: CatalogRow)
    requires q2.sort == q.sort
    requires q.search == "" || q2.search == q.search
    requires q.category == "" || q2.category == q.category
    requires q.brand == "" || q2.brand == q.brand
    requires q.minPrice.None? || q2.minPrice == q.minPrice
    requires q.maxPrice.None? || q2.maxPrice == q.maxPrice
    requires q.inStock != Some("1") || q2.inStock == Some("1")
    requires Matches(q2, r)
    ensures Matches(q, r)
  {
  }
}
