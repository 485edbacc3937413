# 3D_MAKC Fishing store: a Dafny model of its business rules

This project models the in-memory business rules of a small Express + SQLite fishing-tackle shop:

- the CSV reader of `src/utils.js` (`splitCsvLine`, `parseCsv`) and the `safe` normaliser;
- the admin login (`isAuthed`, `requireAuth`, logout);
- the session cart (`getCart`, `cartTotal`, the `cartCount` of the page header, `/cart/add`,
  `/cart/update`, `/cart/remove`);
- checkout validation and order creation (`POST /checkout`);
- the catalog query (`GET /catalog`): filters, sort keys and the 60-row limit;
- the product save of the admin panel (`POST /admin/products/save`);
- the CSV product import (`POST /admin/import`), an upsert by SKU, then by slug;
- the normalisation of image lists and the product page's reading of them.

The database is a `Store.Database` object. Each table is a sequence of rows in row-id order,
next to the AUTOINCREMENT counters and a clock that stands for `datetime('now')`. The handlers
that write are methods. Each is proved equal to a specification function on a `Tables` value,
and the lemmas about those functions state what the handlers promise. The cart is a
`ShoppingCart.Cart` object whose `items` the route methods change in place. The CSV reader's
loops are methods proved against a recursive definition of what they compute.

Module by file:

| file | module | source |
|---|---|---|
| common.dfy | `Common` | `Option`, clamp, first match of a lookup |
| text.dfy | `Text` | JavaScript `trim`, `split`, `join`, global replace; `safe` |
| csv.dfy | `Csv` | `splitCsvLine`, `parseCsv` |
| store.dfy | `Store` | the schema of `src/db.js` and the INSERT/UPDATE statements |
| cart.dfy | `ShoppingCart` | the cart lines and the `Cart` object |
| sessions.dfy | `Sessions` | the session, `getCart`, `cartCount` |
| cart_routes.dfy | `CartRoutes` | `/cart/add`, `/cart/update`, `/cart/remove` |
| auth.dfy | `Auth` | `isAuthed`, `requireAuth`, `/admin/logout` |
| checkout.dfy | `Checkout` | `POST /checkout` |
| catalog.dfy | `Catalog` | `GET /catalog` |
| images.dfy | `Images` | image-list normalisation and the product page's split |
| admin.dfy | `ProductAdmin` | `POST /admin/products/save` |
| import.dfy | `CsvImport` | `POST /admin/import` |

Foreign calls are parameters of the model:

- `slugify(name)` is a function `string -> string`.
- The bcrypt comparison is a predicate `matches(password, hash)`.
- `Number(cell)` on a non-empty import cell is a function `string -> Option<int>`.

A JavaScript number that is NaN (or infinite where the code tests `isFinite`, or where an
infinity behaves as NaN does) is `None` of an `Option<int>`. The quantity of `/cart/add`, where
an infinity and NaN behave differently, is a `ShoppingCart.JsNumber`: a whole number, either
infinity, or NaN. SQLite binds NaN as NULL, so a NaN written into a NOT NULL column makes the
statement throw. A product save or an import row in that case ends in a failure outcome.

A UNIQUE slug collision makes the INSERT or UPDATE throw. So does a product save whose
`category_id` names no category: the FOREIGN KEY of `products.category_id` (src/db.js:35) is
treated as enforced, as the SQLite bundled with the database driver enforces foreign keys. Each is
modelled as a failure outcome (`SaveFailed`, a `Failed` import row), not excluded by a
precondition. An imported row always names a category that exists. The `Tables` invariant
(`Store.TablesValid`) holds the unique slugs, and every write is proved to keep it.

The store's written description says that importing the same file twice reports `created=K,
updated=0` on the second run. The code (server.js:337-347) finds every row of the second run by
its SKU or slug and counts it as updated. The model follows the code: `CsvImport.ReimportUpdates`
proves that a row imported again is counted as updated and changes nothing.

The written description also calls order placement atomic. The code (server.js:186-196) runs the
order INSERT and the item INSERTs as separate statements, with no transaction. The model writes
them in sequence and makes no all-or-nothing claim. In the model none of these writes can fail.

## Model

| member | source | states |
|---|---|---|
| Common.Clamp | server.js:123 | `Math.max(lo, Math.min(hi, v))` lies in [lo, hi], is v inside the range and the nearer bound outside it |
| Text.TrimStartFacts | src/utils.js:12 | `trimStart` keeps a suffix, drops only white space, and stops at a non-space character |
| Text.TrimEndFacts | src/utils.js:12 | `trimEnd` keeps a prefix, drops only white space, and stops at a non-space character |
| Text.Trim | src/utils.js:12 | the trimmed string has no leading or trailing white space and is no longer than the input |
| Text.TrimUnpadded | src/utils.js:12 | a string without padding is its own trim, so trimming is idempotent |
| Text.TrimEmptyIffAllSpace | src/utils.js:17 | a line trims to "" exactly when it is all white space |
| Text.Safe | src/utils.js:11-13 | `safe(undefined)` is ""; the result is unpadded; for a string it is the string's trim |
| Text.SafeIdempotent | src/utils.js:11-13 | `safe(safe(v)) == safe(v)` |
| Text.SplitOn | server.js:273 | `split` on one character gives at least one piece and no piece holds the separator |
| Text.JoinSplit | server.js:273 | joining the pieces of a split with the separator gives the string back |
| Text.SplitJoin | server.js:323 | splitting a join of separator-free parts gives the parts back |
| Text.RemoveChar | src/utils.js:17 | `replace(/\r/g, "")` leaves no `\r` and nothing longer |
| Text.StripSpace | server.js:176 | `replace(/\s+/g, "")` leaves no white-space character |
| Text.StripSpaceNone | server.js:176 | a string without white space is left as it is |
| Csv.PairStep | src/utils.js:39 | two quotes inside quotes add one quote to the field and skip both characters, keeping the loop invariant |
| Csv.ToggleStep | src/utils.js:40 | any other quote flips the quoting state and keeps the loop invariant |
| Csv.CommaStep | src/utils.js:41-42 | a comma outside quotes ends the current field and keeps the loop invariant |
| Csv.KeepStep | src/utils.js:43-45 | any other character is added to the current field and keeps the loop invariant |
| Csv.SplitCsvLine | src/utils.js:32-49 | the loop returns exactly the fields of the line under the quoting rules (`Fields`), at least one |
| Csv.FieldCount | src/utils.js:32-49 | a line splits into one field more than it has commas outside quotes |
| Csv.FieldsWithoutQuotes | src/utils.js:36-47 | on a line without quotes the fields are `line.split(",")` |
| Csv.JoinFieldsWithoutQuotes | src/utils.js:36-47 | the fields of a quote-free line hold no comma and join with "," to the line |
| Csv.QuotesFromPairs | src/utils.js:38-40 | on every line, the fields hold exactly as many quote characters as the line has `""` pairs read inside quotes |
| Csv.NoPairNoQuote | src/utils.js:38-40 | a line with no `""` pair read inside quotes, such as `a""b`, yields no quote in any field |
| Csv.QuoteOnlyFromPair | src/utils.js:38-40 | on a line without two adjacent quotes no field contains a quote |
| Csv.PairExamples | src/utils.js:38-40 | `a""b` reads as `ab`, and `"a""b"` reads as `a"b` |
| Csv.EscapedBody | src/utils.js:38-40 | inside quotes, a body with doubled quotes followed by the closing quote reads back as the original text |
| Csv.QuotedField | src/utils.js:36-47 | a quoted field followed by a comma or the line end contributes exactly its text |
| Csv.SplitEncodedRow | src/utils.js:32-49 | round trip: splitting a row written by a quoting CSV writer gives back every field, commas and quotes included |
| Csv.NonBlank | src/utils.js:17 | every kept line has a non-empty trim, and no line is added |
| Csv.Cell | src/utils.js:25 | every cell is unpadded |
| Csv.CellsOf | src/utils.js:24-26 | there is one cell per header column |
| Csv.CellsOfAt | src/utils.js:25 | cell j is `(cols[j] ?? "").trim()` |
| Csv.TrimAll | src/utils.js:19 | the header is the first line's fields, each trimmed |
| Csv.RecordsOf | src/utils.js:21-28 | one record per data line |
| Csv.BuildObject | src/utils.js:23-26 | the inner loop builds the record of the line under the header |
| Csv.ParseDataLines | src/utils.js:21-28 | the outer loop builds one record per data line, in order |
| Csv.ParseCsv | src/utils.js:16-30 | `parseCsv` returns exactly `ParsedRows(text)` |
| Csv.AssignKeys | src/utils.js:24-26 | the keys of a record are exactly the header names |
| Csv.AssignLastWins | src/utils.js:25 | when a header name repeats, the last column of that name wins |
| Csv.RecordShape | src/utils.js:19-26 | a record's keys are the trimmed header names; each value is the trimmed cell or "" when missing; extra cells are dropped |
| Csv.BlankTextNoRows | src/utils.js:17-18 | an empty or all-white-space text parses to no rows |
| Csv.CrlfRemoved | src/utils.js:17 | CR LF line ends lose their CR like any other |
| Csv.CrlfSameRows | src/utils.js:17 | CR LF and LF texts parse to the same rows, and CRs anywhere are ignored |
| Csv.RemoveCharTwice | src/utils.js:17 | removing `\r` twice is removing it once |
| Csv.RecordsOfAt | src/utils.js:21-28 | record i is built from data line i |
| Csv.ParsedRowCount | src/utils.js:16-30 | no rows without a non-blank line; otherwise the row count is the number of non-blank lines minus one |
| Csv.ParsedRowAt | src/utils.js:16-30 | the row count is the number of non-blank lines minus one; row i is built from non-blank line i + 1 under the first line's trimmed fields |
| Store.NewProduct | server.js:291-294 | an inserted row has the next id, the clock's creation time and exactly the written columns |
| Store.Overwrite | server.js:284-289 | an updated row keeps its id and creation time and takes exactly the written columns |
| Store.AddCategory | server.js:332 | a category insert appends one row with the next id and leaves the other tables alone |
| Store.AddProduct | server.js:349-352 | a product insert appends one row and leaves the other tables alone |
| Store.SetProduct | server.js:342-346 | an update overwrites row k alone, keeping the count, and leaves the other tables alone |
| Store.AddCategoryValid | src/db.js:16-20 | a category insert with a free slug keeps ids increasing and category slugs unique |
| Store.AddProductValid | src/db.js:22-36 | a product insert with a free slug keeps ids increasing and product slugs unique |
| Store.SetProductValid | src/db.js:25 | an update whose slug no other row has keeps product slugs unique and ids unchanged |
| Store.Database.constructor | src/db.js:15-36 | the tables start empty with every counter at 1, and are valid |
| Store.Database.InsertCategory | server.js:332 | the object's tables become `AddCategory` of the old ones; the new row id is returned |
| Store.Database.InsertProduct | server.js:349-352 | the object's tables become `AddProduct` of the old ones; the new row id is returned |
| Store.Database.UpdateProduct | server.js:342-346 | the object's tables become `SetProduct` of the old ones |
| Store.Database.InsertOrder | server.js:186-189 | one order with status 'new' and the current time is appended; the counters advance |
| Store.Database.InsertOrderItem | server.js:192-195 | one order item carrying the order id is appended |
| ShoppingCart.AddQuantity | server.js:123 | the added quantity is the requested number clamped to [1, 99]: 99 for +Infinity, 1 for -Infinity, and 1 for NaN |
| ShoppingCart.AddQuantityAsWritten | server.js:123 | the clamp as written yields NaN exactly for NaN, and otherwise a whole number in [1, 99] |
| ShoppingCart.AddQuantityAgrees | server.js:123 | for every input but NaN, infinities included, the clamp as written and the corrected one agree |
| ShoppingCart.AddQuantityNaNEscapes | server.js:123-125 | a non-numeric qty passes the clamp as NaN, and so does an existing line's new quantity |
| ShoppingCart.AddedAt | server.js:124-125 | with the product already in the cart, only its line changes, to `min(99, old + added)` |
| ShoppingCart.AddedAbsent | server.js:126 | with the product not in the cart, its line is appended |
| ShoppingCart.AddedValid | server.js:123-126 | adding keeps every quantity in [1, 99] and at most one line per product |
| ShoppingCart.AddedQuantities | server.js:123-126 | the product's quantity becomes `min(99, old + added)`, other products keep theirs, and the count changes by the difference |
| ShoppingCart.AddedTotalNew | server.js:47-49 | a new product adds price times quantity to `cartTotal` |
| ShoppingCart.AddedTotalExisting | server.js:47-49 | a product already in the cart adds its cart price times the quantity increase to `cartTotal` |
| ShoppingCart.CountAppend | server.js:37 | appending a line adds its quantity to `cartCount` |
| ShoppingCart.TotalAppend | server.js:47-49 | appending a line adds its price times quantity to `cartTotal` |
| ShoppingCart.CountUpdate | server.js:37 | changing one line's quantity changes `cartCount` by the difference |
| ShoppingCart.TotalUpdate | server.js:47-49 | changing one line's quantity changes `cartTotal` by its price times the difference |
| ShoppingCart.QtyOfUpdate | server.js:125 | changing a product's line changes that product's quantity only |
| ShoppingCart.UpdatedLine | server.js:139-142 | a named line gets its number clamped, or its own quantity clamped when the number is not finite; other lines and all other fields stay |
| ShoppingCart.ApplyUpdates | server.js:138-143 | the update keeps the line count and order and updates every line on its own |
| ShoppingCart.UpdatesValid | server.js:135-145 | updating keeps quantities in range and one line per product |
| ShoppingCart.UpdatesIdempotent | server.js:135-145 | submitting the same update twice is submitting it once |
| ShoppingCart.UpdatesUnrelated | server.js:139 | lines not named in the form are unchanged |
| ShoppingCart.UpdatedCountBounds | server.js:37 | after an update `cartCount` lies between the line count and 99 times it |
| ShoppingCart.ValidCountBounds | server.js:37 | in a valid cart `cartCount` lies between the line count and 99 times it |
| ShoppingCart.Without | server.js:150 | removing never adds lines |
| ShoppingCart.WithoutMembers | server.js:150 | a line is kept exactly when it was in the cart with another product id |
| ShoppingCart.WithoutSubsequence | server.js:150 | the kept lines keep their relative order |
| ShoppingCart.WithoutAbsent | server.js:149-150 | removing a product the cart lacks, or a NaN id, changes nothing |
| ShoppingCart.WithoutValid | server.js:147-152 | removing keeps the cart valid and lowers `cartCount` by the product's quantity |
| ShoppingCart.Cart.constructor | server.js:43 | a new cart is `{ items: [] }` |
| ShoppingCart.Cart.Add | server.js:122-126 | the items become `Added` of the old items and the line, and stay valid |
| ShoppingCart.Cart.Update | server.js:138-143 | the loop leaves the items equal to `ApplyUpdates` of the old items, and valid |
| ShoppingCart.Cart.Remove | server.js:150 | the items become `Without` of the old items, and stay valid |
| Sessions.Session.constructor | server.js:24-29 | a new session has no cart and no admin |
| Sessions.GetCart | server.js:42-45 | the session's cart is returned unchanged, or a fresh empty one is stored first |
| Sessions.CartCount | server.js:37 | the header count is 0 without a cart or for an empty cart, and within 1 to 99 per line in a valid cart |
| Sessions.CountBoundsIfValid | server.js:37 | a valid cart holds 1 to 99 items per line |
| CartRoutes.Addable | server.js:120-121 | a product the route accepts has the requested id and is active |
| CartRoutes.AddableIff | server.js:120-121 | with unique ids, a product is accepted exactly when an active row has the id |
| CartRoutes.LineFor | server.js:126 | the new line carries the product's id and price and a quantity in [1, 99] |
| CartRoutes.CartAdd | server.js:118-128 | an unknown or inactive product leaves the session and cart untouched; otherwise the cart becomes `Added` of its lines |
| CartRoutes.CartUpdate | server.js:135-145 | the session's cart becomes `ApplyUpdates` of its lines |
| CartRoutes.CartRemove | server.js:147-152 | the session's cart becomes `Without` of its lines |
| CartRoutes.AddCount | server.js:123-125 | `cartCount` grows by the quantity actually added, and grows at all exactly when the product had fewer than 99 |
| Auth.PasswordOf | src/utils.js:57 | a missing password is "" |
| Auth.UnknownUserRefused | src/utils.js:58-59 | a trimmed user name no admin has is refused |
| Auth.WrongPasswordRefused | src/utils.js:60-61 | a password that fails the hash check is refused |
| Auth.RightPasswordAccepted | src/utils.js:55-64 | with user names UNIQUE, the admin's right password is accepted |
| Auth.LoginIff | src/utils.js:55-64 | with user names UNIQUE, login succeeds exactly when an admin has the trimmed name and the password matches its hash |
| Auth.LoginIgnoresPadding | src/utils.js:56 | spaces around the user name do not change the outcome |
| Auth.RequireAuth | src/utils.js:55-64 | returns whether the login succeeds; on success the session records the trimmed name, on failure it is unchanged |
| Auth.LoginAuthenticates | src/utils.js:51-53 | after a successful login `isAuthed` holds, unless some admin's user name is empty |
| Auth.Logout | server.js:236-239 | logout clears the admin, after which the session is not authenticated |
| Checkout.FormOf | server.js:165-172 | every form field is `safe` of the posted value: unpadded, "" when missing |
| Checkout.ErrorsRules | server.js:174-178 | each rule's error is present exactly when the rule fails, the list is empty exactly when none fails, in check order without repeats |
| Checkout.ValidateRules | server.js:174-178 | name under 3, phone not matching, city under 2 and empty branch each give their error; the form is accepted exactly when all four pass |
| Checkout.PhoneOkWithoutSpaces | server.js:176 | for a number without white space the rule is the pattern itself |
| Checkout.PatternExamples | server.js:176 | `^\+?380\d{9}$` accepts +380931234567 and 380931234567 and refuses 0931234567, +38093123456 and abc |
| Checkout.PhoneExamplesAccepted | server.js:176 | the phone rule accepts numbers with and without the plus |
| Checkout.PhoneWithoutCountryCode | server.js:176 | a number without 380 is refused |
| Checkout.PhoneTooShort | server.js:176 | a number one digit short is refused |
| Checkout.PhoneNotANumber | server.js:176 | letters are refused |
| Checkout.PhoneSpacesIgnored | server.js:176 | a space anywhere in the phone does not change the verdict |
| Checkout.PhoneLength | server.js:176 | an accepted phone has 12 characters, or 13 starting with '+', once spaces are gone |
| Checkout.ItemsFor | server.js:191-196 | one order item per cart line, with the line's product, name, price and quantity and the order's id |
| Checkout.ItemsAmountIsTotal | server.js:184-196 | the written items add up to `cartTotal`, the order's total |
| Checkout.PlacedTables | server.js:184-196 | an accepted checkout appends one 'new' order with the cart total and the items of every line, and leaves products and categories alone |
| Checkout.PlacedOrderItems | server.js:184-196 | the tables stay valid, and the new order's items are exactly the rows written for it |
| Checkout.ItemsForSnoc | server.js:191-196 | the items are written one line at a time |
| Checkout.WriteOrder | server.js:184-196 | the loop of inserts leaves the tables equal to `PlacedTables` |
| Checkout.PlaceOrder | server.js:161-199 | an empty cart or a rejected form writes nothing and keeps the cart; an accepted form writes `PlacedTables` and leaves a fresh empty cart |
| Catalog.SortKeyOf | server.js:82-85 | the three recognised `sort` values select their keys, anything else newest first |
| Catalog.JoinRow | server.js:87-90 | a row carries its category's slug exactly when a category has its `category_id` |
| Catalog.Joined | server.js:87-90 | the LEFT JOIN keeps one row per product |
| Catalog.Filter | server.js:73-80 | the kept rows are exactly the rows that match every supplied filter |
| Catalog.LexLeTotal | server.js:85 | name order is total |
| Catalog.LexLeTrans | server.js:85 | name order is transitive |
| Catalog.InOrderTotal | server.js:82-85 | every sort key orders any two rows one way or the other |
| Catalog.InOrderTrans | server.js:82-85 | every sort key is transitive |
| Catalog.Insert | server.js:82-85 | inserting into a sorted list keeps it sorted and adds exactly that row |
| Catalog.SortRows | server.js:82-85 | ORDER BY gives a sorted permutation of the matching rows |
| Catalog.SelectSound | server.js:71-94 | every shown row is an active product of the table passing every filter; at most 60, in sort-key order |
| Catalog.SelectComplete | server.js:93 | with at most 60 matches the page shows them all; a matching row left off comes after the whole full page |
| Catalog.PageCut | server.js:93 | the first 60 of a sorted list precede any row left out |
| Catalog.EmptyQueryActiveOnly | server.js:73 | with no filter exactly the active products match |
| Catalog.MoreFiltersFewerRows | server.js:73-80 | supplying more filters never lets more rows match |
| Images.Pieces | server.js:273 | after trimming and dropping blanks no entry is empty or padded |
| Images.PiecesFree | server.js:273 | trimming lets in no character the entries did not have |
| Images.PiecesFixed | server.js:113 | entries already trimmed and non-empty pass unchanged |
| Images.JoinUnpadded | server.js:273 | unpadded non-empty entries joined with `|` give an unpadded string |
| Images.ImageListJoin | server.js:113 | the product page reads a stored clean list back as that list |
| Images.NormalizedClean | server.js:273 | normalised entries are non-empty, unpadded and free of `|` |
| Images.NormalizeRoundTrip | server.js:273 | the product page reads a normalised list back as its entries |
| Images.NormalizeIdempotent | server.js:323 | normalising a stored list again, as an import of it does, changes nothing |
| ProductAdmin.CategoryChoice | server.js:276-277 | `category_id` is set exactly when the field is non-empty, not "null" and numeric |
| ProductAdmin.ReadFormClean | server.js:265-277 | text fields are trimmed, `is_active` is "1" exactly, and images are stored as a clean list |
| ProductAdmin.SaveProduct | server.js:263-298 | the handler's outcome and tables are those of `SaveSpec`, and the tables stay valid |
| ProductAdmin.SaveValid | src/db.js:25 | a save keeps the tables valid |
| ProductAdmin.SaveRefusals | server.js:263-296 | without login nothing happens; a short name or NaN price is refused; only an accepted save writes; a new product fails exactly on NaN stock, a category id no category has, or a taken slug; an update of an existing row fails on the same conditions, and an update of a missing id changes nothing |
| ProductAdmin.SaveUpdates | server.js:283-289 | a save with an id overwrites that row in place, keeping its id and creation time; no other row changes |
| ProductAdmin.SaveInserts | server.js:290-295 | a save without an id appends one product with the next id and the posted columns |
| CsvImport.Get | server.js:315 | a column is present exactly when the header has it |
| CsvImport.CellText | server.js:315 | `safe(r[key])` is unpadded and "" for a missing column |
| CsvImport.NumberCell | server.js:318-319 | a missing or empty cell is 0, otherwise `Number` of the cell |
| CsvImport.ReadCellsClean | server.js:315-323 | the text cells are trimmed and the image cell is stored as a clean list |
| CsvImport.ResolveCategory | server.js:327-335 | an empty name gives no category; otherwise the id is of a category with that name; products are untouched |
| CsvImport.FindExisting | server.js:337-339 | the SKU lookup comes first: when a row has the non-empty SKU, a row with that SKU is found; a slug match is found only when no row has the SKU; none found means no row has either |
| CsvImport.FindExistingFirst | server.js:338 | no earlier row has the SKU |
| CsvImport.ResolveCategoryValid | src/db.js:19 | resolving a category keeps the tables valid |
| CsvImport.UpsertValid | src/db.js:25 | the upsert keeps product slugs unique |
| CsvImport.WriteRowValid | src/db.js:25 | a row's write keeps the tables valid |
| CsvImport.ImportStepValid | server.js:314-355 | every row keeps the tables valid, whatever it does |
| CsvImport.ImportAllValid | server.js:314-355 | the import keeps the tables valid, also when it stops early |
| CsvImport.ImportCounts | server.js:312-357 | without failure, created + updated + skipped is the row count |
| CsvImport.CountStep | server.js:316-353 | a row that does not fail adds one to exactly one counter |
| CsvImport.FailureStops | server.js:314-355 | after a throwing row nothing more happens |
| CsvImport.NamelessRowsSkipped | server.js:315-316 | rows without a name change nothing and are all counted skipped |
| CsvImport.ReadAllAt | server.js:314-324 | row i's cells are read from record i |
| CsvImport.UpsertKinds | server.js:341-354 | an upsert never skips, and a failing one changes nothing |
| CsvImport.RowOutcomes | server.js:315-354 | a row is skipped exactly when its name is empty, changing nothing; a failing row leaves the products; a NaN price fails |
| CsvImport.RowCreates | server.js:348-353 | a created row is appended, active, with the next id, the row's name, slug, price and stock; no earlier product had its slug or SKU |
| CsvImport.RowUpdates | server.js:341-347 | an updated row is the one `FindExisting` picks (by SKU first, then by slug), keeps its id and creation time, takes the columns and is active; no other row changes |
| CsvImport.FoundAgain | server.js:337-339 | a row with the only product of a slug, and no earlier holder of the SKU, finds that product |
| CsvImport.ResolveAgain | server.js:328-334 | a category resolved once resolves to the same id later, without an insert |
| CsvImport.WriteRowCategories | server.js:341-354 | a product write leaves the categories alone |
| CsvImport.RewriteSame | server.js:341-347 | rewriting a product with its own columns changes nothing and counts as updated |
| CsvImport.WriteAgain | server.js:337-354 | writing a row again finds the product the first write left and rewrites it to itself |
| CsvImport.ReimportUpdates | server.js:337-347 | a row imported again is counted as updated and changes nothing |
| CsvImport.ImportRow | server.js:314-355 | one iteration on the database gives the outcome and tables of `ImportStep` |
| CsvImport.PrefixStep | server.js:314-355 | the state after i + 1 rows is the state after i with row i counted |
| CsvImport.ImportNext | server.js:314-355 | one loop turn extends the specification by row i |
| CsvImport.ImportRows | server.js:314-355 | the loop's counters and tables are those of `ImportAll` over the rows' cells |
| CsvImport.ImportCsv | server.js:307-358 | the handler's outcome and tables are those of `ImportSpec`, and the tables stay valid |

## Left out

- `money`, `sendTelegram` and the order notice (src/utils.js:6-9, server.js:51-62, 201-218): currency formatting by a foreign library and network I/O.
- Routing, status codes, redirects and EJS rendering: handlers return outcome variants instead.
- The other routes (home page, product page query, `/admin/products/delete`, the order pages, the dashboard) are not part of this model. Of the product page only its split of the stored image list is modelled.
- The `multer` upload and the UTF-8 decoding of the file: the import takes the file text as a string.
- Prices, totals and quantities are integers: the REAL columns and fractional numbers are not modelled.
- `ShoppingCart.UpdatedLine`: does not model a fractional quantity such as 2.5, which the code stores as it is.
- `Catalog.Select`: an infinite price bound is not modelled. A NaN `min` or `max` (server.js:78-79) binds NULL, so no row matches; that case is not modelled.
- `Catalog.Matches`: models the search as plain substring containment. SQL `LIKE` also folds ASCII case and treats `%` and `_` in the search text as wildcards.
- `Catalog.SortRows`: rows that the sort key does not tell apart come in an order of the model's choosing. SQLite's order among equal keys is unspecified too.
- Strings are sequences of Unicode characters: a length test such as the name's `length < 2` counts characters, where JavaScript counts UTF-16 code units; the two differ only for characters outside the Basic Multilingual Plane.
- `ProductAdmin.SaveSpec`: an infinite stock, id or category number is not modelled.
- `ShoppingCart.AddQuantity`: does not model a fractional quantity such as 2.5; whole numbers, both infinities and NaN are modelled.
- `CsvImport.NumberCell`: does not model a cell whose `Number` is infinite, such as `Infinity` or `1e400`. The code writes that value into the REAL or INTEGER column and counts the row; in the model `toNumber` yields only whole numbers or NaN (`None`), and `None` fails the row.
- `ProductAdmin.SaveSpec`: a NaN id counts as no id, so the form inserts (`if (id)` is false for NaN).
- `ProductAdmin.ReadFormClean`: the image round trip is stated only for forms whose image lines hold no `|`; such a line is split again by the product page.
- Lookups by SKU, slug, name and user name take the first matching row in row-id order. SQLite returns an unspecified row when several match.
- Statements that throw leave earlier writes in place: the model keeps the rows an import wrote before the throwing row, and the category a failing row inserted. It does not model a database error other than a UNIQUE, NOT NULL or FOREIGN KEY violation.
- The order and its items are written without a transaction; in the model those inserts cannot fail, so no all-or-nothing claim is made.
- `CsvImport.ImportRow`: reads all cells of a row before its first write. The code reads them first as well; `slugify` and `Number` are pure.
- `created_at`: an integer clock advanced by each stamped insert stands for `datetime('now')`.
- `slugify`, `Number` on a non-empty import cell, and the bcrypt comparison are parameters; nothing is assumed about them.
- Express sessions, cookies and the session store: a session is an object with a cart and an admin field.
- `Sessions.CartCount`: the `|| 0` of the header count only matters for a NaN quantity, which the model's cart cannot hold.

## Findings

| source | as written | input that shows it | evidently intended | confidence | as-written member | corrected member |
|---|---|---|---|---|---|---|
| server.js:123 | `Math.max(1, Math.min(99, Number(qty \|\| 1)))` passes NaN through, so a new line gets quantity NaN and an existing line's `Math.min(99, qty + NaN)` becomes NaN | `POST /cart/add` with `qty=abc` | a quantity in [1, 99], the default 1 for NaN, as `/cart/update` guards with `isFinite` | not executed | ShoppingCart.AddQuantityNaNEscapes | ShoppingCart.AddQuantity |
