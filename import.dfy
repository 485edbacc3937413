/** `POST /admin/import` of server.js: an authenticated admin uploads a CSV file; every parsed
  * row with a name creates or updates one product (found by SKU, then by slug), creating its
  * category by name when it is new. A statement that throws ends the import, keeping the rows
  * already written. `slugify` and JavaScript's `Number` on a non-empty cell are parameters. */
module CsvImport {
  import opened Common
  import opened Text
  import opened Store
  import opened Images
  import opened Auth
  import opened Csv

  /** `r[key]`: the trimmed cell, or undefined when the header has no such column. */
  function Get(rec: Record, key: string): (r: Option<string>)
    ensures r.Some? <==> key in rec
  {
    if key in rec then Some(rec[key]) else None
  }

  /** `safe(r[key])`. */
  function CellText(rec: Record, key: string): (r: string)
    ensures NoPadding(r)
    ensures key !in rec ==> r == ""
  {
    Safe(Get(rec, key))
  }

  /** `Number(r[key] || 0)`: a missing or empty cell is 0, anything else goes through `toNumber`,
    * whose `None` stands for NaN; an infinite value is not modelled. */
  function NumberCell(rec: Record, key: string, toNumber: string -> Option<int>): (r: Option<int>)
    ensures key !in rec || rec[key] == "" ==> r == Some(0)
    ensures key in rec && rec[key] != "" ==> r == toNumber(rec[key])
  {
    if key in rec && rec[key] != "" then toNumber(rec[key]) else Some(0)
  }

  /** The values the loop reads from one record before it touches the database. */
  datatype RowCells = RowCells(
    name: string, sku: string, price: Option<int>, stock: Option<int>, brand: string,
    category: string, description: string, images: string)

  function ReadCells(rec: Record, toNumber: string -> Option<int>): RowCells {
    RowCells(CellText(rec, "name"), CellText(rec, "sku"), NumberCell(rec, "price_uah", toNumber),
             NumberCell(rec, "stock", toNumber), CellText(rec, "brand"), CellText(rec, "category"),
             CellText(rec, "description"), NormalizeImages(Get(rec, "images"), '|'))
  }

  /** The text cells are read trimmed, and the image cell is stored as a clean list that the
    * product page splits back into the cell's non-empty trimmed entries. */
  lemma ReadCellsClean(rec: Record, toNumber: string -> Option<int>)
    ensures var c := ReadCells(rec, toNumber);
      && NoPadding(c.name) && NoPadding(c.sku) && NoPadding(c.category)
      && ImageList(c.images) == Pieces(SplitOn(Safe(Get(rec, "images")), '|'))
      && CleanList(ImageList(c.images))
  {
    NormalizeRoundTrip(Get(rec, "images"), '|');
  }

  /** The category of a row: none for an empty name, else the first category with that name,
    * else a new one, whose INSERT throws when its slug is taken. */
  datatype CategoryStep = Resolved(categoryId: Option<int>, tables: Tables) | CategoryFailed

  function ResolveCategory(t: Tables, name: string, slugify: string -> string): (r: CategoryStep)
    ensures name == "" ==> r == Resolved(None, t)
    ensures r.Resolved? && r.categoryId.Some? ==>
      name != "" && exists k :: 0 <= k < |r.tables.categories| && r.tables.categories[k].id == r.categoryId.value && r.tables.categories[k].name == name
    ensures r.Resolved? ==> r.tables.products == t.products && r.tables.clock == t.clock
    ensures r.Resolved? ==> r.tables.nextProductId == t.nextProductId
  {
    if name == "" then Resolved(None, t)
    else match CategoryNamed(t.categories, name)
      case Some(k) => Resolved(Some(t.categories[k].id), t)
      case None =>
        if CategorySlugTaken(t.categories, slugify(name)) then CategoryFailed
        else
          var t1 := AddCategory(t, name, slugify(name));
          assert t1.categories[|t.categories|] == Category(t.nextCategoryId, name, slugify(name));
          Resolved(Some(t.nextCategoryId), t1)
  }

  /** The existing product of a row: the first with its SKU when the SKU is not empty, else the
    * first with its slug. The SKU lookup comes first: a product with the SKU is found even when
    * another product has the slug, and a slug match counts only when no product has the SKU. */
  function FindExisting(ps: seq<Product>, sku: string, slug: string): (r: Option<nat>)
    ensures r.Some? ==> r.value < |ps| && ((sku != "" && ps[r.value].sku == sku) || ps[r.value].slug == slug)
    ensures r.None? ==> forall k :: 0 <= k < |ps| ==> ps[k].slug != slug && (sku == "" || ps[k].sku != sku)
    ensures sku != "" && (exists k :: 0 <= k < |ps| && ps[k].sku == sku) ==> r.Some? && ps[r.value].sku == sku
    ensures r.Some? && !(sku != "" && ps[r.value].sku == sku) ==>
      && ps[r.value].slug == slug
      && (sku == "" || forall k :: 0 <= k < |ps| ==> ps[k].sku != sku)
  {
    var bySku := if sku != "" then ProductWithSku(ps, sku) else None;
    if bySku.Some? then bySku else ProductWithSlug(ps, slug)
  }

  /** The columns a row writes; every imported product is active. */
  function CellFields(c: RowCells, slugify: string -> string, categoryId: Option<int>): ProductFields
    requires c.price.Some? && c.stock.Some?
  {
    ProductFields(c.name, slugify(c.name), c.sku, c.price.value, c.stock.value, c.brand, categoryId,
                  c.description, c.images, true)
  }

  datatype RowKind = Skipped | Updated | Created | Failed

  datatype RowStep = RowStep(kind: RowKind, tables: Tables)

  /** One row of the loop. A NaN price or stock is bound as NULL into a NOT NULL column and the
    * write throws; the category inserted for the row stays. */
  function ImportStep(t: Tables, c: RowCells, slugify: string -> string): RowStep {
    if c.name == "" then RowStep(Skipped, t)
    else match ResolveCategory(t, c.category, slugify)
      case CategoryFailed => RowStep(Failed, t)
      case Resolved(cid, t1) => WriteRow(t1, c, cid, slugify)
  }

  /** The product write of a row with a name, once its category is resolved. */
  function WriteRow(t: Tables, c: RowCells, cid: Option<int>, slugify: string -> string): RowStep {
    if c.price.None? || c.stock.None? then RowStep(Failed, t)
    else
      var f := CellFields(c, slugify, cid);
      Upsert(t, f, FindExisting(t.products, f.sku, f.slug))
  }

  /** UPDATE of the existing product, which throws when another product has the slug, or INSERT
    * of a new one. */
  function Upsert(t: Tables, f: ProductFields, existing: Option<nat>): RowStep
    requires existing.Some? ==> existing.value < |t.products|
  {
    match existing
    case Some(k) =>
      if SlugTakenByOther(t.products, f.slug, Some(k)) then RowStep(Failed, t)
      else RowStep(Updated, SetProduct(t, k, f))
    case None => RowStep(Created, AddProduct(t, f))
  }

  /** The counters of the loop and the tables after the rows so far; `failed` once a row threw. */
  datatype ImportState = ImportState(created: nat, updated: nat, skipped: nat, failed: bool, tables: Tables)

  /** The cells of every record, in file order. */
  function ReadAll(rows: seq<Record>, toNumber: string -> Option<int>): (r: seq<RowCells>)
    ensures |r| == |rows|
    decreases |rows|
  {
    if rows == [] then [] else ReadAll(rows[..|rows| - 1], toNumber) + [ReadCells(rows[|rows| - 1], toNumber)]
  }

  /** The loop over the rows, defined on their prefixes. */
  function ImportAll(t: Tables, cells: seq<RowCells>, slugify: string -> string): ImportState
    decreases |cells|
  {
    if cells == [] then ImportState(0, 0, 0, false, t)
    else Next(ImportAll(t, cells[..|cells| - 1], slugify), cells[|cells| - 1], slugify)
  }

  /** The state after one more row: nothing more happens once a row has failed. */
  function Next(s: ImportState, c: RowCells, slugify: string -> string): ImportState {
    if s.failed then s
    else Count(s, ImportStep(s.tables, c, slugify))
  }

  /** The counter a row's outcome increments, and the tables it leaves. */
  function Count(s: ImportState, st: RowStep): ImportState {
    match st.kind
    case Skipped => s.(skipped := s.skipped + 1)
    case Updated => s.(updated := s.updated + 1, tables := st.tables)
    case Created => s.(created := s.created + 1, tables := st.tables)
    case Failed => s.(failed := true, tables := st.tables)
  }

  datatype ImportOutcome =
    | ImportNotAuthed              // redirect to the login page
    | NoFile                       // 400 "No file"
    | Imported(created: nat, updated: nat, skipped: nat)  // redirect with the three counts
    | ImportFailed                 // a statement threw

  datatype ImportResult = ImportResult(outcome: ImportOutcome, tables: Tables)

  function ImportSpec(t: Tables, admin: Option<string>, file: Option<string>, slugify: string -> string,
                      toNumber: string -> Option<int>): ImportResult {
    if !IsAuthed(admin) then ImportResult(ImportNotAuthed, t)
    else if file.None? then ImportResult(NoFile, t)
    else
      var s := ImportAll(t, ReadAll(ParsedRows(file.value), toNumber), slugify);
      if s.failed then ImportResult(ImportFailed, s.tables)
      else ImportResult(Imported(s.created, s.updated, s.skipped), s.tables)
  }

  // ----- validity -----

  lemma ResolveCategoryValid(t: Tables, name: string, slugify: string -> string)
    requires TablesValid(t)
    ensures var r := ResolveCategory(t, name, slugify);
      r.Resolved? ==> TablesValid(r.tables)
  {
    if name != "" && CategoryNamed(t.categories, name).None? && !CategorySlugTaken(t.categories, slugify(name)) {
      AddCategoryValid(t, name, slugify(name));
    }
  }

  /** An upsert of the product the row finds keeps the tables valid: an update checks the slug,
    * and an insert happens only when no product has it. */
  lemma UpsertValid(t: Tables, f: ProductFields)
    requires TablesValid(t)
    ensures TablesValid(Upsert(t, f, FindExisting(t.products, f.sku, f.slug)).tables)
  {
    match FindExisting(t.products, f.sku, f.slug)
    case Some(k) =>
      if !SlugTakenByOther(t.products, f.slug, Some(k)) {
        SetProductValid(t, k, f);
      }
    case None =>
      AddProductValid(t, f);
  }

  lemma WriteRowValid(t: Tables, c: RowCells, cid: Option<int>, slugify: string -> string)
    requires TablesValid(t)
    ensures TablesValid(WriteRow(t, c, cid, slugify).tables)
  {
    if c.price.Some? && c.stock.Some? {
      UpsertValid(t, CellFields(c, slugify, cid));
    }
  }

  /** Every row keeps the tables valid, whatever it does. */
  lemma ImportStepValid(t: Tables, c: RowCells, slugify: string -> string)
    requires TablesValid(t)
    ensures TablesValid(ImportStep(t, c, slugify).tables)
  {
    if c.name != "" {
      ResolveCategoryValid(t, c.category, slugify);
      match ResolveCategory(t, c.category, slugify)
      case CategoryFailed =>
      case Resolved(cid, t1) =>
        WriteRowValid(t1, c, cid, slugify);
    }
  }

  /** The import keeps the tables valid, also when it stops at a failing row. */
  lemma {:induction false} ImportAllValid(t: Tables, cells: seq<RowCells>, slugify: string -> string)
    requires TablesValid(t)
    ensures TablesValid(ImportAll(t, cells, slugify).tables)
    decreases |cells|
  {
    if cells != [] {
      var s := ImportAll(t, cells[..|cells| - 1], slugify);
      ImportAllValid(t, cells[..|cells| - 1], slugify);
      ImportStepValid(s.tables, cells[|cells| - 1], slugify);
    }
  }

  // ----- counts -----

  /** When no row fails, every row is counted exactly once as created, updated or skipped. */
  lemma {:induction false} ImportCounts(t: Tables, cells: seq<RowCells>, slugify: string -> string)
    ensures var s := ImportAll(t, cells, slugify);
      !s.failed ==> s.created + s.updated + s.skipped == |cells|
    ensures var s := ImportAll(t, cells, slugify);
      s.created + s.updated + s.skipped <= |cells|
    decreases |cells|
  {
    if cells != [] {
      ImportCounts(t, cells[..|cells| - 1], slugify);
      var s := ImportAll(t, cells[..|cells| - 1], slugify);
      if !s.failed {
        CountStep(s, ImportStep(s.tables, cells[|cells| - 1], slugify));
      }
    }
  }

  /** A row that does not fail adds one to exactly one counter. */
  lemma CountStep(s: ImportState, st: RowStep)
    ensures var r := Count(s, st);
      && r.failed == (s.failed || st.kind == Failed)
      && r.created + r.updated + r.skipped == s.created + s.updated + s.skipped + (if st.kind == Failed then 0 else 1)
  {
  }

  /** Once a row has failed the rest of the file is not read. */
  lemma {:induction false} FailureStops(t: Tables, cells: seq<RowCells>, i: nat, slugify: string -> string)
    requires i <= |cells| && ImportAll(t, cells[..i], slugify).failed
    ensures ImportAll(t, cells, slugify) == ImportAll(t, cells[..i], slugify)
    decreases |cells|
  {
    if i < |cells| {
      assert cells[..|cells| - 1][..i] == cells[..i];
      FailureStops(t, cells[..|cells| - 1], i, slugify);
    } else {
      assert cells[..i] == cells;
    }
  }

  /** A file whose rows all lack a name changes nothing and reports every row skipped. */
  lemma {:induction false} NamelessRowsSkipped(t: Tables, cells: seq<RowCells>, slugify: string -> string)
    requires forall k :: 0 <= k < |cells| ==> cells[k].name == ""
    ensures ImportAll(t, cells, slugify) == ImportState(0, 0, |cells|, false, t)
    decreases |cells|
  {
    if cells != [] {
      NamelessRowsSkipped(t, cells[..|cells| - 1], slugify);
    }
  }

  /** Reading the whole file reads record `i` into the cells of row `i`. */
  lemma {:induction false} ReadAllAt(rows: seq<Record>, toNumber: string -> Option<int>, i: nat)
    requires i < |rows|
    ensures ReadAll(rows, toNumber)[i] == ReadCells(rows[i], toNumber)
    decreases |rows|
  {
    if i < |rows| - 1 {
      assert rows[..|rows| - 1][i] == rows[i];
      ReadAllAt(rows[..|rows| - 1], toNumber, i);
    }
  }

  // ----- one row -----

  /** An upsert never skips, and one that fails changes nothing. */
  lemma UpsertKinds(t: Tables, f: ProductFields, existing: Option<nat>)
    requires existing.Some? ==> existing.value < |t.products|
    ensures var st := Upsert(t, f, existing);
      && st.kind != Skipped
      && (st.kind == Failed ==> st.tables == t)
  {
  }

  /** A row is skipped exactly when its trimmed name is empty, and a skipped row changes nothing;
    * a failing row leaves the products as they were; a row with a name and a NaN price fails. */
  lemma RowOutcomes(t: Tables, c: RowCells, slugify: string -> string)
    ensures var st := ImportStep(t, c, slugify);
      && (st.kind == Skipped <==> c.name == "")
      && (st.kind == Skipped ==> st.tables == t)
      && (st.kind == Failed ==> st.tables.products == t.products)
      && (c.name != "" && c.price.None? ==> st.kind == Failed)
  {
    if c.name != "" {
      match ResolveCategory(t, c.category, slugify)
      case CategoryFailed =>
      case Resolved(cid, t1) =>
        if c.price.Some? && c.stock.Some? {
          var f := CellFields(c, slugify, cid);
          UpsertKinds(t1, f, FindExisting(t1.products, f.sku, f.slug));
        }
    }
  }

  /** A created row is appended with the next product id, active, under the row's name and its
    * slug, and with the row's price and stock; no earlier product had that slug or SKU. */
  lemma RowCreates(t: Tables, c: RowCells, slugify: string -> string)
    requires ImportStep(t, c, slugify).kind == Created
    ensures var ps := ImportStep(t, c, slugify).tables.products;
      && |ps| == |t.products| + 1 && ps[..|t.products|] == t.products
      && ps[|t.products|].id == t.nextProductId && ps[|t.products|].isActive
      && ps[|t.products|].name == c.name && ps[|t.products|].slug == slugify(c.name)
      && Some(ps[|t.products|].price) == c.price && Some(ps[|t.products|].stock) == c.stock
      && forall k :: 0 <= k < |t.products| ==>
           t.products[k].slug != slugify(c.name) && (c.sku == "" || t.products[k].sku != c.sku)
  {
    match ResolveCategory(t, c.category, slugify)
    case Resolved(cid, t1) =>
      var f := CellFields(c, slugify, cid);
      assert ImportStep(t, c, slugify).tables == AddProduct(t1, f);
  }

  /** An updated row keeps its id, its position and its creation time and takes the row's
    * columns; it is the product `FindExisting` picks, by SKU first and then by slug, and no
    * other product changes. */
  lemma RowUpdates(t: Tables, c: RowCells, slugify: string -> string)
    requires ImportStep(t, c, slugify).kind == Updated
    ensures var ps := ImportStep(t, c, slugify).tables.products;
      && |ps| == |t.products|
      && exists k :: 0 <= k < |ps|
           && FindExisting(t.products, c.sku, slugify(c.name)) == Some(k)
           && ((c.sku != "" && t.products[k].sku == c.sku) || t.products[k].slug == slugify(c.name))
           && ps[k].id == t.products[k].id && ps[k].createdAt == t.products[k].createdAt
           && ps[k].name == c.name && ps[k].slug == slugify(c.name) && ps[k].sku == c.sku && ps[k].isActive
           && forall j :: 0 <= j < |ps| && j != k ==> ps[j] == t.products[j]
  {
    match ResolveCategory(t, c.category, slugify)
    case Resolved(cid, t1) =>
      var f := CellFields(c, slugify, cid);
      var k := FindExisting(t1.products, f.sku, f.slug).value;
      assert ImportStep(t, c, slugify).tables == SetProduct(t1, k, f);
  }

  // ----- importing the same row again -----

  /** No product before the one found has the row's (non-empty) SKU. */
  lemma FindExistingFirst(ps: seq<Product>, sku: string, slug: string)
    requires sku != "" && FindExisting(ps, sku, slug).Some?
    ensures forall k :: 0 <= k < FindExisting(ps, sku, slug).value ==> ps[k].sku != sku
  {
  }

  /** The product at `k` is the one a row with `sku` and `slug` finds: it alone has the slug, and
    * no product before it has the SKU. */
  lemma FoundAgain(ps: seq<Product>, k: nat, sku: string, slug: string)
    requires k < |ps| && ps[k].sku == sku && ps[k].slug == slug
    requires forall j :: 0 <= j < |ps| && j != k ==> ps[j].slug != slug
    requires sku != "" ==> forall j :: 0 <= j < k ==> ps[j].sku != sku
    ensures FindExisting(ps, sku, slug) == Some(k)
  {
    if sku != "" {
      FindExistingFirst(ps, sku, slug);
    }
  }

  /** A category resolved once resolves to the same id, with no insert, in any later tables
    * with the same categories. */
  lemma ResolveAgain(t: Tables, name: string, slugify: string -> string, t2: Tables)
    requires ResolveCategory(t, name, slugify).Resolved?
    requires t2.categories == ResolveCategory(t, name, slugify).tables.categories
    ensures ResolveCategory(t2, name, slugify) == Resolved(ResolveCategory(t, name, slugify).categoryId, t2)
  {
    if name != "" && CategoryNamed(t.categories, name).None? {
      var cs := t2.categories;
      assert cs == t.categories + [Category(t.nextCategoryId, name, slugify(name))];
      assert forall j :: 0 <= j < |t.categories| ==> cs[j].name != name;
      assert CategoryNamed(cs, name) == Some(|t.categories|);
    }
  }

  lemma WriteRowCategories(t: Tables, c: RowCells, cid: Option<int>, slugify: string -> string)
    ensures WriteRow(t, c, cid, slugify).tables.categories == t.categories
  {
  }

  /** A product that already holds exactly the row's columns, and is the one the row finds, is
    * rewritten to itself. */
  lemma RewriteSame(t: Tables, f: ProductFields, k: nat)
    requires TablesValid(t) && k < |t.products| && FieldsOf(t.products[k]) == f
    requires f.sku != "" ==> forall j :: 0 <= j < k ==> t.products[j].sku != f.sku
    ensures Upsert(t, f, FindExisting(t.products, f.sku, f.slug)) == RowStep(Updated, t)
  {
    var ps := t.products;
    forall j | 0 <= j < |ps| && j != k
      ensures ps[j].slug != f.slug
    {
      if j < k {
        assert ps[j].slug != ps[k].slug;
      } else {
        assert ps[k].slug != ps[j].slug;
      }
    }
    FoundAgain(ps, k, f.sku, f.slug);
    assert Overwrite(ps[k], f) == ps[k];
    assert ps[k := Overwrite(ps[k], f)] == ps;
  }

  /** Writing a row a second time finds the product the first write left and rewrites it to
    * itself. */
  lemma WriteAgain(t: Tables, c: RowCells, cid: Option<int>, slugify: string -> string)
    requires TablesValid(t)
    requires WriteRow(t, c, cid, slugify).kind in {Updated, Created}
    ensures var t2 := WriteRow(t, c, cid, slugify).tables;
      WriteRow(t2, c, cid, slugify) == RowStep(Updated, t2)
  {
    var f := CellFields(c, slugify, cid);
    var t2 := WriteRow(t, c, cid, slugify).tables;
    WriteRowValid(t, c, cid, slugify);
    match FindExisting(t.products, f.sku, f.slug)
    case Some(k) =>
      assert t2 == SetProduct(t, k, f);
      if f.sku != "" {
        FindExistingFirst(t.products, f.sku, f.slug);
      }
      RewriteSame(t2, f, k);
    case None =>
      assert t2 == AddProduct(t, f);
      RewriteSame(t2, f, |t.products|);
  }

  /** Importing a row that was just imported again reports it updated and changes nothing: the
    * second import of the same file counts its rows as updated, not created. */
  lemma ReimportUpdates(t: Tables, c: RowCells, slugify: string -> string)
    requires TablesValid(t)
    requires ImportStep(t, c, slugify).kind in {Updated, Created}
    ensures var t2 := ImportStep(t, c, slugify).tables;
      ImportStep(t2, c, slugify) == RowStep(Updated, t2)
  {
    ResolveCategoryValid(t, c.category, slugify);
    match ResolveCategory(t, c.category, slugify)
    case Resolved(cid, t1) =>
      WriteAgain(t1, c, cid, slugify);
      var t2 := WriteRow(t1, c, cid, slugify).tables;
      WriteRowCategories(t1, c, cid, slugify);
      ResolveAgain(t, c.category, slugify, t2);
  }

  // ----- the methods -----

  /** One iteration of the loop, on the database. */
  method ImportRow(db: Database, c: RowCells, slugify: string -> string) returns (kind: RowKind)
    requires db.Valid()
    modifies db
    ensures db.Valid() && db.admins == old(db.admins)
    ensures RowStep(kind, db.Snapshot()) == ImportStep(old(db.Snapshot()), c, slugify)
  {
    if c.name == "" {
      return Skipped;
    }
    ghost var t0 := db.Snapshot();
    var categoryId: Option<int> := None;
    if c.category != "" {
      var k := CategoryNamed(db.categories, c.category);
      if k.None? {
        var cslug := slugify(c.category);
        if CategorySlugTaken(db.categories, cslug) {
          return Failed;
        }
        var id := db.InsertCategory(c.category, cslug);
        categoryId := Some(id);
      } else {
        categoryId := Some(db.categories[k.value].id);
      }
    }
    assert ResolveCategory(t0, c.category, slugify) == Resolved(categoryId, db.Snapshot());
    var slug := slugify(c.name);
    var existing := FindExisting(db.products, c.sku, slug);
    if c.price.None? || c.stock.None? {
      return Failed;
    }
    var f := CellFields(c, slugify, categoryId);
    if existing.Some? {
      if SlugTakenByOther(db.products, slug, existing) {
        return Failed;
      }
      db.UpdateProduct(existing.value, f);
      kind := Updated;
    } else {
      var _ := db.InsertProduct(f);
      kind := Created;
    }
  }

  /** The state after `i + 1` rows, from the state after `i` and the outcome of row `i`. */
  lemma PrefixStep(t: Tables, cells: seq<RowCells>, i: nat, slugify: string -> string, before: ImportState, st: RowStep)
    requires i < |cells| && ImportAll(t, cells[..i], slugify) == before && !before.failed
    requires st == ImportStep(before.tables, cells[i], slugify)
    ensures ImportAll(t, cells[..i + 1], slugify) == Count(before, st)
  {
    assert cells[..i + 1][..i] == cells[..i];
  }

  lemma CountIs(s: ImportState, st: RowStep, failed: bool, created: nat, updated: nat, skipped: nat)
    requires !s.failed && failed == (st.kind == Failed)
    requires created == s.created + (if st.kind == Created then 1 else 0)
    requires updated == s.updated + (if st.kind == Updated then 1 else 0)
    requires skipped == s.skipped + (if st.kind == Skipped then 1 else 0)
    requires st.kind == Skipped ==> st.tables == s.tables
    ensures Count(s, st) == ImportState(created, updated, skipped, failed, st.tables)
  {
  }

  /** One turn of the handler's loop: row `i`, read into `c`, imported and its counter
    * incremented. */
  method ImportNext(db: Database, ghost t0: Tables, ghost cells: seq<RowCells>, i: nat, c: RowCells,
                    slugify: string -> string, created: nat, updated: nat, skipped: nat)
    returns (failed: bool, created': nat, updated': nat, skipped': nat)
    requires i < |cells| && c == cells[i] && db.Valid()
    requires ImportAll(t0, cells[..i], slugify) == ImportState(created, updated, skipped, false, db.Snapshot())
    modifies db
    ensures db.Valid() && db.admins == old(db.admins)
    ensures ImportAll(t0, cells[..i + 1], slugify) == ImportState(created', updated', skipped', failed, db.Snapshot())
  {
    ghost var before := ImportState(created, updated, skipped, false, db.Snapshot());
    var kind := ImportRow(db, c, slugify);
    ghost var st := RowStep(kind, db.Snapshot());
    RowOutcomes(before.tables, c, slugify);
    PrefixStep(t0, cells, i, slugify, before, st);
    failed, created', updated', skipped' := false, created, updated, skipped;
    match kind
    case Skipped => skipped' := skipped + 1;
    case Updated => updated' := updated + 1;
    case Created => created' := created + 1;
    case Failed => failed := true;
    CountIs(before, st, failed, created', updated', skipped');
  }

  /** The loop of the handler over the parsed rows; a row that throws ends it. */
  method ImportRows(db: Database, rows: seq<Record>, slugify: string -> string, toNumber: string -> Option<int>)
    returns (s: ImportState)
    requires db.Valid()
    modifies db
    ensures db.Valid() && db.admins == old(db.admins)
    ensures s == ImportAll(old(db.Snapshot()), ReadAll(rows, toNumber), slugify) && s.tables == db.Snapshot()
  {
    ghost var t0 := db.Snapshot();
    ghost var cells := ReadAll(rows, toNumber);
    var created, updated, skipped := 0, 0, 0;
    assert cells[..0] == [];
    for i := 0 to |rows|
      invariant db.Valid() && db.admins == old(db.admins)
      invariant ImportAll(t0, cells[..i], slugify) == ImportState(created, updated, skipped, false, db.Snapshot())
    {
      var c := ReadCells(rows[i], toNumber);
      ReadAllAt(rows, toNumber, i);
      var failed;
      failed, created, updated, skipped := ImportNext(db, t0, cells, i, c, slugify, created, updated, skipped);
      if failed {
        FailureStops(t0, cells, i + 1, slugify);
        return ImportState(created, updated, skipped, true, db.Snapshot());
      }
    }
    assert cells[..|rows|] == cells;
    s := ImportState(created, updated, skipped, false, db.Snapshot());
  }

  /** `POST /admin/import`. */
  method ImportCsv(db: Database, admin: Option<string>, file: Option<string>, slugify: string -> string,
                   toNumber: string -> Option<int>) returns (outcome: ImportOutcome)
    requires db.Valid()
    modifies db
    ensures db.Valid() && db.admins == old(db.admins)
    ensures ImportResult(outcome, db.Snapshot()) == ImportSpec(old(db.Snapshot()), admin, file, slugify, toNumber)
  {
    if !IsAuthed(admin) {
      return ImportNotAuthed;
    }
    if file.None? {
      return NoFile;
    }
    var rows := ParseCsv(file.value);
    var s := ImportRows(db, rows, slugify, toNumber);
    if s.failed {
      return ImportFailed;
    }
    outcome := Imported(s.created, s.updated, s.skipped);
  }
}
