/** `POST /admin/products/save` of server.js: an authenticated admin creates a product, or
  * overwrites the product with the posted id. `slugify` is a parameter of the model. */
module ProductAdmin {
  import opened Common
  import opened Text
  import opened Store
  import opened Images
  import opened Auth

  /** The posted form. The handler's numeric conversions arrive converted, `None` standing for
    * NaN: `id` is `Number(body.id || 0)`, `price` is `Number(body.price_uah || 0)` (`None` also
    * for an infinite price), `stock` is `Number(body.stock || 0)`, and `categoryNumber` is
    * `Number(body.category_id)`, used only when `category` passes the handler's test. */
  datatype SaveBody = SaveBody(
    id: Option<int>, name: Option<string>, sku: Option<string>, price: Option<int>, stock: Option<int>,
    brand: Option<string>, description: Option<string>, images: Option<string>,
    isActive: Option<string>, category: Option<string>, categoryNumber: Option<int>)

  /** `category_id`: null unless the field is non-empty and not the text "null"; a NaN number is
    * bound as NULL too. */
  function CategoryChoice(category: Option<string>, categoryNumber: Option<int>): (r: Option<int>)
    ensures r.Some? <==> category.Some? && category.value != "" && category.value != "null" && categoryNumber.Some?
    ensures r.Some? ==> r == categoryNumber
  {
    if category.Some? && category.value != "" && category.value != "null" then categoryNumber
    else None
  }

  /** The values the handler reads from the form before it checks anything. */
  datatype Form = Form(
    id: Option<int>, name: string, sku: string, price: Option<int>, stock: Option<int>, brand: string,
    description: string, images: string, isActive: bool, categoryId: Option<int>)

  function ReadForm(b: SaveBody): Form {
    Form(b.id, Safe(b.name), Safe(b.sku), b.price, b.stock, Safe(b.brand), Safe(b.description),
         NormalizeImages(b.images, '\n'), b.isActive == Some("1"), CategoryChoice(b.category, b.categoryNumber))
  }

  /** The text fields are read trimmed, the product is active exactly when `is_active` is "1",
    * and the image lines are stored as a clean list that the product page splits back into the
    * non-empty trimmed lines (when no line holds a `|`). */
  lemma ReadFormClean(b: SaveBody)
    ensures var f := ReadForm(b);
      && NoPadding(f.name) && NoPadding(f.sku) && NoPadding(f.brand) && NoPadding(f.description)
      && (f.isActive <==> b.isActive == Some("1"))
      && f.categoryId == CategoryChoice(b.category, b.categoryNumber)
      && (b.images.None? || '|' !in b.images.value ==>
            ImageList(f.images) == Pieces(SplitOn(Safe(b.images), '\n')) && CleanList(ImageList(f.images)))
  {
    if b.images.None? || '|' !in b.images.value {
      NormalizeRoundTrip(b.images, '\n');
    }
  }

  /** The form is refused when the trimmed name is shorter than two characters or the price is
    * not a finite number. */
  predicate BadData(f: Form) {
    |f.name| < 2 || f.price.None?
  }

  /** The columns the handler writes for an accepted form. */
  function SaveFields(f: Form, slugify: string -> string): ProductFields
    requires !BadData(f) && f.stock.Some?
  {
    ProductFields(f.name, slugify(f.name), f.sku, f.price.value, f.stock.value, f.brand, f.categoryId,
                  f.description, f.images, f.isActive)
  }

  function SlugOf(f: Form, slugify: string -> string): string {
    slugify(f.name)
  }

  /** The write throws when the stock is NaN, which is bound as NULL into a NOT NULL column,
    * when the category id names no category (the FOREIGN KEY on products.category_id, which the
    * driver's SQLite enforces), or when another product has the slug (the UNIQUE index on
    * products.slug). */
  predicate WriteFails(t: Tables, f: Form, slugify: string -> string, except: Option<nat>) {
    f.stock.None? || CategoryMissing(t.categories, f.categoryId) || SlugTakenByOther(t.products, SlugOf(f, slugify), except)
  }

  /** An id of 0 (or a missing or non-numeric one) means a new product. */
  predicate IsUpdate(f: Form) {
    f.id.Some? && f.id.value != 0
  }

  datatype SaveOutcome =
    | SaveNotAuthed   // redirect to the login page
    | SaveBadData     // 400 "Bad data"
    | SaveFailed      // the INSERT or UPDATE throws
    | Saved           // redirect to the product list

  datatype SaveResult = SaveResult(outcome: SaveOutcome, tables: Tables)

  /** What the handler does to the tables, and how it answers. An UPDATE whose id names no row
    * changes nothing and still answers with the redirect. */
  function SaveSpec(t: Tables, admin: Option<string>, f: Form, slugify: string -> string): SaveResult {
    if !IsAuthed(admin) then SaveResult(SaveNotAuthed, t)
    else if BadData(f) then SaveResult(SaveBadData, t)
    else if IsUpdate(f) then
      match ProductWithId(t.products, f.id.value)
      case None => SaveResult(Saved, t)
      case Some(k) =>
        if WriteFails(t, f, slugify, Some(k)) then SaveResult(SaveFailed, t)
        else SaveResult(Saved, SetProduct(t, k, SaveFields(f, slugify)))
    else if WriteFails(t, f, slugify, None) then SaveResult(SaveFailed, t)
    else SaveResult(Saved, AddProduct(t, SaveFields(f, slugify)))
  }

  /** `POST /admin/products/save`. */
  method SaveProduct(db: Database, admin: Option<string>, b: SaveBody, slugify: string -> string)
    returns (outcome: SaveOutcome)
    requires db.Valid()
    modifies db
    ensures db.Valid() && db.admins == old(db.admins)
    ensures SaveResult(outcome, db.Snapshot()) == SaveSpec(old(db.Snapshot()), admin, ReadForm(b), slugify)
  {
    if !IsAuthed(admin) {
      return SaveNotAuthed;
    }
    var f := ReadForm(b);
    if |f.name| < 2 || f.price.None? {
      return SaveBadData;
    }
    if f.id.Some? && f.id.value != 0 {
      var k := ProductWithId(db.products, f.id.value);
      if k.None? {
        return Saved;
      }
      if f.stock.None? || CategoryMissing(db.categories, f.categoryId)
         || SlugTakenByOther(db.products, SlugOf(f, slugify), Some(k.value)) {
        return SaveFailed;
      }
      db.UpdateProduct(k.value, SaveFields(f, slugify));
    } else {
      if f.stock.None? || CategoryMissing(db.categories, f.categoryId)
         || SlugTakenByOther(db.products, SlugOf(f, slugify), None) {
        return SaveFailed;
      }
      var _ := db.InsertProduct(SaveFields(f, slugify));
    }
    outcome := Saved;
  }

  /** Saving keeps the tables valid. */
  lemma SaveValid(t: Tables, admin: Option<string>, f: Form, slugify: string -> string)
    requires TablesValid(t)
    ensures TablesValid(SaveSpec(t, admin, f, slugify).tables)
  {
    if IsAuthed(admin) && !BadData(f) {
      if IsUpdate(f) {
        match ProductWithId(t.products, f.id.value)
        case None =>
        case Some(k) =>
          if !WriteFails(t, f, slugify, Some(k)) {
            SetProductValid(t, k, SaveFields(f, slugify));
          }
      } else if !WriteFails(t, f, slugify, None) {
        AddProductValid(t, SaveFields(f, slugify));
      }
    }
  }

  /** Nothing is written unless an admin is logged in and the form is acceptable; a name shorter
    * than two characters or a non-finite price is refused exactly when the admin is logged in; a
    * new product, or an update of an existing row, fails exactly when its stock is NaN, its
    * category id names no category or its slug is taken by another product; an update of a
    * missing id changes nothing. */
  lemma SaveRefusals(t: Tables, admin: Option<string>, f: Form, slugify: string -> string)
    ensures var r := SaveSpec(t, admin, f, slugify);
      && (r.outcome == SaveNotAuthed <==> !IsAuthed(admin))
      && (r.outcome == SaveBadData <==> IsAuthed(admin) && BadData(f))
      && (r.outcome != Saved ==> r.tables == t)
      && (IsAuthed(admin) && !BadData(f) && !IsUpdate(f) ==>
            (r.outcome == SaveFailed <==> WriteFails(t, f, slugify, None)))
      && (IsAuthed(admin) && !BadData(f) && IsUpdate(f) ==>
            var k := ProductWithId(t.products, f.id.value);
            && (k.None? ==> r == SaveResult(Saved, t))
            && (k.Some? ==> (r.outcome == SaveFailed <==> WriteFails(t, f, slugify, k))))
  {
    if IsAuthed(admin) && !BadData(f) && IsUpdate(f) {
      match ProductWithId(t.products, f.id.value)
      case None =>
      case Some(k) =>
    }
  }

  /** A save with a non-zero id overwrites the row with that id in place: it keeps its id,
    * position and creation time, takes every posted column, and no other row changes. */
  lemma SaveUpdates(t: Tables, admin: Option<string>, f: Form, slugify: string -> string, k: nat)
    requires TablesValid(t) && IsAuthed(admin) && !BadData(f) && IsUpdate(f)
    requires k < |t.products| && t.products[k].id == f.id.value
    requires SaveSpec(t, admin, f, slugify).outcome == Saved
    ensures var ps := SaveSpec(t, admin, f, slugify).tables.products;
      && |ps| == |t.products|
      && ps[k].id == f.id.value && ps[k].createdAt == t.products[k].createdAt
      && FieldsOf(ps[k]) == SaveFields(f, slugify)
      && forall j :: 0 <= j < |ps| && j != k ==> ps[j] == t.products[j]
  {
    assert ProductWithId(t.products, f.id.value) == Some(k);
  }

  /** A save without an id appends one new product with the next id, carrying every posted
    * column. */
  lemma SaveInserts(t: Tables, admin: Option<string>, f: Form, slugify: string -> string)
    requires IsAuthed(admin) && !BadData(f) && !IsUpdate(f)
    requires SaveSpec(t, admin, f, slugify).outcome == Saved
    ensures var ps := SaveSpec(t, admin, f, slugify).tables.products;
      && ps[..|t.products|] == t.products && |ps| == |t.products| + 1
      && ps[|t.products|].id == t.nextProductId
      && FieldsOf(ps[|t.products|]) == SaveFields(f, slugify)
  {
    var ps := SaveSpec(t, admin, f, slugify).tables.products;
    assert ps == t.products + [NewProduct(t.nextProductId, SaveFields(f, slugify), t.clock)];
  }
}
