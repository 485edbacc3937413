/** The store's tables (the schema of src/db.js) held in memory: categories, products, orders,
  * order items and admins, each a sequence of rows in insertion (row id) order, with the
  * AUTOINCREMENT counters and an abstract clock standing for `datetime('now')`. */
module Store {
  import opened Common

  datatype Category = Category(id: int, name: string, slug: string)

  /** The columns that the admin save and the CSV import write. */
  datatype ProductFields = ProductFields(
    name: string, slug: string, sku: string, price: int, stock: int, brand: string,
    categoryId: Option<int>, description: string, images: string, isActive: bool)

  datatype Product = Product(
    id: int, name: string, slug: string, sku: string, price: int, stock: int, brand: string,
    categoryId: Option<int>, description: string, images: string, isActive: bool, createdAt: int)

  datatype Order = Order(
    id: int, fullName: string, phone: string, region: string, city: string, npBranch: string,
    comment: string, total: int, status: string, createdAt: int)

  datatype OrderItem = OrderItem(id: int, orderId: int, productId: int, name: string, price: int, qty: int)

  datatype Admin = Admin(id: int, username: string, passwordHash: string)

  /** The row an INSERT of `f` creates. */
  function NewProduct(id: int, f: ProductFields, createdAt: int): (p: Product)
    ensures p.id == id && p.createdAt == createdAt && FieldsOf(p) == f
  {
    Product(id, f.name, f.slug, f.sku, f.price, f.stock, f.brand, f.categoryId, f.description,
            f.images, f.isActive, createdAt)
  }

  /** The row an UPDATE of `p` to `f` leaves: every written column replaced, id and creation
    * time kept. */
  function Overwrite(p: Product, f: ProductFields): (r: Product)
    ensures r.id == p.id && r.createdAt == p.createdAt && FieldsOf(r) == f
  {
    NewProduct(p.id, f, p.createdAt)
  }

  function FieldsOf(p: Product): ProductFields {
    ProductFields(p.name, p.slug, p.sku, p.price, p.stock, p.brand, p.categoryId, p.description,
                  p.images, p.isActive)
  }

  /** The contents of the database as a value. */
  datatype Tables = Tables(
    categories: seq<Category>, products: seq<Product>, orders: seq<Order>, orderItems: seq<OrderItem>,
    nextCategoryId: int, nextProductId: int, nextOrderId: int, nextItemId: int, clock: int)

  predicate CategoriesValid(cs: seq<Category>, next: int) {
    && next >= 1
    && (forall i :: 0 <= i < |cs| ==> 1 <= cs[i].id < next)
    && (forall i, j :: 0 <= i < j < |cs| ==> cs[i].id < cs[j].id)
    && (forall i, j :: 0 <= i < j < |cs| ==> cs[i].slug != cs[j].slug)
  }

  predicate ProductsValid(ps: seq<Product>, next: int) {
    && next >= 1
    && (forall i :: 0 <= i < |ps| ==> 1 <= ps[i].id < next)
    && (forall i, j :: 0 <= i < j < |ps| ==> ps[i].id < ps[j].id)
    && (forall i, j :: 0 <= i < j < |ps| ==> ps[i].slug != ps[j].slug)
  }

  predicate OrdersValid(os: seq<Order>, next: int) {
    && next >= 1
    && (forall i :: 0 <= i < |os| ==> 1 <= os[i].id < next)
    && (forall i, j :: 0 <= i < j < |os| ==> os[i].id < os[j].id)
  }

  predicate ItemsValid(items: seq<OrderItem>, next: int) {
    && next >= 1
    && (forall i :: 0 <= i < |items| ==> 1 <= items[i].id < next)
    && (forall i, j :: 0 <= i < j < |items| ==> items[i].id < items[j].id)
  }

  /** Row ids are positive, increase in insertion order and stay below the AUTOINCREMENT
    * counter; slugs are UNIQUE among products and among categories; every order item refers to
    * an order id already handed out. */
  predicate TablesValid(t: Tables) {
    && CategoriesValid(t.categories, t.nextCategoryId)
    && ProductsValid(t.products, t.nextProductId)
    && OrdersValid(t.orders, t.nextOrderId)
    && ItemsValid(t.orderItems, t.nextItemId)
    && (forall i :: 0 <= i < |t.orderItems| ==> t.orderItems[i].orderId < t.nextOrderId)
  }

  /** `SELECT ... FROM products WHERE id=?`. */
  function ProductWithId(ps: seq<Product>, id: int): Option<nat> {
    FirstIndex(ps, (p: Product) => p.id == id)
  }

  /** `SELECT id FROM products WHERE sku=?`. */
  function ProductWithSku(ps: seq<Product>, sku: string): Option<nat> {
    FirstIndex(ps, (p: Product) => p.sku == sku)
  }

  /** `SELECT id FROM products WHERE slug=?`. */
  function ProductWithSlug(ps: seq<Product>, slug: string): Option<nat> {
    FirstIndex(ps, (p: Product) => p.slug == slug)
  }

  /** `SELECT id FROM categories WHERE name=?`. */
  function CategoryNamed(cs: seq<Category>, name: string): Option<nat> {
    FirstIndex(cs, (c: Category) => c.name == name)
  }

  /** `SELECT * FROM admins WHERE username=?`. */
  function AdminNamed(admins: seq<Admin>, username: string): Option<nat> {
    FirstIndex(admins, (a: Admin) => a.username == username)
  }

  /** Whether a product other than the one at `except` already has `slug`: the UNIQUE index on
    * products.slug then makes the write throw. */
  predicate SlugTakenByOther(ps: seq<Product>, slug: string, except: Option<nat>) {
    exists k :: 0 <= k < |ps| && ps[k].slug == slug && Some(k) != except
  }

  /** Whether `categoryId` names a category that does not exist: the FOREIGN KEY on
    * products.category_id then makes the write throw. A NULL category is always allowed. */
  predicate CategoryMissing(cs: seq<Category>, categoryId: Option<int>) {
    categoryId.Some? && forall k :: 0 <= k < |cs| ==> cs[k].id != categoryId.value
  }

  predicate CategorySlugTaken(cs: seq<Category>, slug: string) {
    exists k :: 0 <= k < |cs| && cs[k].slug == slug
  }

  // ----- the writes of the handlers, on the tables as a value -----

  /** `INSERT INTO categories (name, slug)`. */
  function AddCategory(t: Tables, name: string, slug: string): (r: Tables)
    ensures r.categories == t.categories + [Category(t.nextCategoryId, name, slug)]
    ensures r.products == t.products && r.orders == t.orders && r.orderItems == t.orderItems
  {
    t.(categories := t.categories + [Category(t.nextCategoryId, name, slug)],
       nextCategoryId := t.nextCategoryId + 1)
  }

  /** `INSERT INTO products (...)` stamped with the current time. */
  function AddProduct(t: Tables, f: ProductFields): (r: Tables)
    ensures r.products == t.products + [NewProduct(t.nextProductId, f, t.clock)]
    ensures r.categories == t.categories && r.orders == t.orders && r.orderItems == t.orderItems
  {
    t.(products := t.products + [NewProduct(t.nextProductId, f, t.clock)],
       nextProductId := t.nextProductId + 1, clock := t.clock + 1)
  }

  /** `UPDATE products SET ... WHERE id=@id` for the row at position `k`. */
  function SetProduct(t: Tables, k: nat, f: ProductFields): (r: Tables)
    requires k < |t.products|
    ensures |r.products| == |t.products| && r.products[k] == Overwrite(t.products[k], f)
    ensures forall j :: 0 <= j < |t.products| && j != k ==> r.products[j] == t.products[j]
    ensures r.categories == t.categories && r.orders == t.orders && r.orderItems == t.orderItems
  {
    t.(products := t.products[k := Overwrite(t.products[k], f)])
  }

  /** A category insert keeps the tables valid when its slug is free (else the UNIQUE index
    * refuses it). */
  lemma AddCategoryValid(t: Tables, name: string, slug: string)
    requires TablesValid(t) && !CategorySlugTaken(t.categories, slug)
    ensures TablesValid(AddCategory(t, name, slug))
  {
    var cs := AddCategory(t, name, slug).categories;
    forall i, j | 0 <= i < j < |cs|
      ensures cs[i].slug != cs[j].slug
    {
      if j == |cs| - 1 {
        assert cs[i] == t.categories[i];
      }
    }
  }

  /** A product insert keeps the tables valid when its slug is free. */
  lemma AddProductValid(t: Tables, f: ProductFields)
    requires TablesValid(t) && !SlugTakenByOther(t.products, f.slug, None)
    ensures TablesValid(AddProduct(t, f))
  {
    var ps := AddProduct(t, f).products;
    forall i, j | 0 <= i < j < |ps|
      ensures ps[i].slug != ps[j].slug
    {
      if j == |ps| - 1 {
        assert ps[i] == t.products[i];
      }
    }
  }

  /** An update keeps the tables valid when no other row has the new slug; the row keeps its
    * id. */
  lemma SetProductValid(t: Tables, k: nat, f: ProductFields)
    requires TablesValid(t) && k < |t.products| && !SlugTakenByOther(t.products, f.slug, Some(k))
    ensures TablesValid(SetProduct(t, k, f))
  {
    var ps := SetProduct(t, k, f).products;
    forall i, j | 0 <= i < j < |ps|
      ensures ps[i].slug != ps[j].slug && ps[i].id < ps[j].id
    {
      if i == k {
        assert ps[j] == t.products[j];
      } else if j == k {
        assert ps[i] == t.products[i];
      } else {
        assert ps[i] == t.products[i] && ps[j] == t.products[j];
      }
    }
  }

  /** The database: each table a sequence that the statements of the handlers change in place. */
  class Database {
    var categories: seq<Category>
    var products: seq<Product>
    var orders: seq<Order>
    var orderItems: seq<OrderItem>
    var admins: seq<Admin>
    var nextCategoryId: int
    var nextProductId: int
    var nextOrderId: int
    var nextItemId: int
    var clock: int

    /** The tables as a value, for the specifications of the handlers. */
    function Snapshot(): Tables
      reads this
    {
      Tables(categories, products, orders, orderItems, nextCategoryId, nextProductId, nextOrderId,
             nextItemId, clock)
    }

    predicate Valid()
      reads this
    {
      TablesValid(Snapshot())
    }

    /** An empty database (the tables `initDb` creates) with the given admins. */
    constructor (admins: seq<Admin>)
      ensures Valid() && this.admins == admins
      ensures Snapshot() == Tables([], [], [], [], 1, 1, 1, 1, 0)
    {
      this.categories, this.products, this.orders, this.orderItems := [], [], [], [];
      this.admins := admins;
      this.nextCategoryId, this.nextProductId, this.nextOrderId, this.nextItemId := 1, 1, 1, 1;
      this.clock := 0;
    }

    /** `INSERT INTO categories (name, slug)`; the caller has checked that the slug is free. */
    method InsertCategory(name: string, slug: string) returns (id: int)
      requires Valid() && !CategorySlugTaken(categories, slug)
      modifies this
      ensures Valid()
      ensures id == old(nextCategoryId)
      ensures Snapshot() == AddCategory(old(Snapshot()), name, slug)
      ensures admins == old(admins)
    {
      AddCategoryValid(Snapshot(), name, slug);
      id := nextCategoryId;
      categories := categories + [Category(id, name, slug)];
      nextCategoryId := nextCategoryId + 1;
    }

    /** `INSERT INTO products (...)` stamped with the current time; the caller has checked that
      * the slug is free. */
    method InsertProduct(f: ProductFields) returns (id: int)
      requires Valid() && !SlugTakenByOther(products, f.slug, None)
      modifies this
      ensures Valid()
      ensures id == old(nextProductId)
      ensures Snapshot() == AddProduct(old(Snapshot()), f)
      ensures admins == old(admins)
    {
      AddProductValid(Snapshot(), f);
      id := nextProductId;
      products := products + [NewProduct(id, f, clock)];
      nextProductId := nextProductId + 1;
      clock := clock + 1;
    }

    /** `UPDATE products SET ... WHERE id=@id` for the row at position `k`; the caller has
      * checked that no other row has the new slug. */
    method UpdateProduct(k: nat, f: ProductFields)
      requires Valid() && k < |products| && !SlugTakenByOther(products, f.slug, Some(k))
      modifies this
      ensures Valid()
      ensures Snapshot() == SetProduct(old(Snapshot()), k, f)
      ensures admins == old(admins)
    {
      SetProductValid(Snapshot(), k, f);
      products := products[k := Overwrite(products[k], f)];
    }

    /** `INSERT INTO orders (...)` with status 'new', stamped with the current time. */
    method InsertOrder(fullName: string, phone: string, region: string, city: string,
                       npBranch: string, comment: string, total: int) returns (id: int)
      requires Valid()
      modifies this
      ensures Valid()
      ensures id == old(nextOrderId)
      ensures Snapshot() == old(Snapshot()).(
        orders := old(orders) + [Order(id, fullName, phone, region, city, npBranch, comment, total, "new", old(clock))],
        nextOrderId := id + 1, clock := old(clock) + 1)
      ensures admins == old(admins)
    {
      id := nextOrderId;
      orders := orders + [Order(id, fullName, phone, region, city, npBranch, comment, total, "new", clock)];
      nextOrderId := nextOrderId + 1;
      clock := clock + 1;
    }

    /** `INSERT INTO order_items (order_id, product_id, name, price_uah, qty)`. */
    method InsertOrderItem(orderId: int, productId: int, name: string, price: int, qty: int) returns (id: int)
      requires Valid() && orderId < nextOrderId
      modifies this
      ensures Valid()
      ensures id == old(nextItemId)
      ensures Snapshot() == old(Snapshot()).(
        orderItems := old(orderItems) + [OrderItem(id, orderId, productId, name, price, qty)],
        nextItemId := id + 1)
      ensures admins == old(admins)
    {
      id := nextItemId;
      orderItems := orderItems + [OrderItem(id, orderId, productId, name, price, qty)];
      nextItemId := nextItemId + 1;
    }
  }
}
