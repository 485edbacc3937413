/** `POST /checkout` of server.js: the customer's form is normalised with `safe`, checked by four
  * rules whose messages are all collected, and on success one order and one order item per cart
  * line are written before the session gets a fresh, empty cart. The Telegram notice that
  * follows is not part of this model. */
module Checkout {
  import opened Common
  import opened Text
  import opened Store
  import opened ShoppingCart
  import opened Sessions

  /** The posted fields, each a string or absent. */
  datatype CheckoutBody = CheckoutBody(
    fullName: Option<string>, phone: Option<string>, region: Option<string>, city: Option<string>,
    npBranch: Option<string>, comment: Option<string>)

  /** The `form` object: every field passed through `safe`. */
  datatype Form = Form(fullName: string, phone: string, region: string, city: string,
                       npBranch: string, comment: string)

  function FormOf(b: CheckoutBody): (f: Form)
    ensures NoPadding(f.fullName) && NoPadding(f.phone) && NoPadding(f.region)
    ensures NoPadding(f.city) && NoPadding(f.npBranch) && NoPadding(f.comment)
    ensures b.fullName.None? ==> f.fullName == ""
    ensures b.phone.None? ==> f.phone == ""
    ensures b.city.None? ==> f.city == ""
    ensures b.npBranch.None? ==> f.npBranch == ""
  {
    Form(Safe(b.fullName), Safe(b.phone), Safe(b.region), Safe(b.city), Safe(b.npBranch), Safe(b.comment))
  }

  /** The four rules, in the order the handler checks them. */
  datatype CheckoutError = NameTooShort | BadPhone | CityMissing | BranchMissing

  /** The message each rule pushes onto `errors`. */
  function Message(e: CheckoutError): string {
    match e
    case NameTooShort => "Введите ФИО"
    case BadPhone => "Телефон должен быть в формате +380XXXXXXXXX"
    case CityMissing => "Укажите город"
    case BranchMissing => "Укажите отделение Новой Почты"
  }

  function Rank(e: CheckoutError): int {
    match e
    case NameTooShort => 0
    case BadPhone => 1
    case CityMissing => 2
    case BranchMissing => 3
  }

  /** `\d` without the `u` flag: an ASCII digit. */
  predicate IsDigit(c: char) {
    '0' <= c <= '9'
  }

  /** `380` followed by exactly nine digits. */
  predicate IsCountryNumber(t: string) {
    |t| == 12 && t[..3] == "380" && forall k :: 3 <= k < 12 ==> IsDigit(t[k])
  }

  /** `/^\+?380\d{9}$/.test(s)`: an optional plus, then 380, then exactly nine digits. */
  predicate IsUaPhone(s: string) {
    if |s| > 0 && s[0] == '+' then IsCountryNumber(s[1..]) else IsCountryNumber(s)
  }

  /** The phone rule: the number matches once every white-space character is removed. */
  predicate PhoneOk(phone: string) {
    IsUaPhone(StripSpace(phone))
  }

  /** The errors of the four rules, given which of them fail, in the order of the checks. */
  function Errors(nameShort: bool, badPhone: bool, noCity: bool, noBranch: bool): seq<CheckoutError> {
    (if nameShort then [NameTooShort] else []) + (if badPhone then [BadPhone] else [])
    + (if noCity then [CityMissing] else []) + (if noBranch then [BranchMissing] else [])
  }

  /** The `errors` array: one entry per failing rule, in the order of the checks. */
  function Validate(f: Form): seq<CheckoutError> {
    Errors(|f.fullName| < 3, !PhoneOk(f.phone), |f.city| < 2, |f.npBranch| < 1)
  }

  /** Each rule's error is present exactly when the rule fails, and the errors come in the order
    * of the checks, none twice. */
  lemma ErrorsRules(nameShort: bool, badPhone: bool, noCity: bool, noBranch: bool)
    ensures var errs := Errors(nameShort, badPhone, noCity, noBranch);
      && (NameTooShort in errs <==> nameShort) && (BadPhone in errs <==> badPhone)
      && (CityMissing in errs <==> noCity) && (BranchMissing in errs <==> noBranch)
      && (errs == [] <==> !nameShort && !badPhone && !noCity && !noBranch)
      && forall i, j :: 0 <= i < j < |errs| ==> Rank(errs[i]) < Rank(errs[j])
  {
    if nameShort {
      if badPhone {
        if noCity {
          if noBranch {
            assert Errors(nameShort, badPhone, noCity, noBranch) == [NameTooShort, BadPhone, CityMissing, BranchMissing];
          } else {
            assert Errors(nameShort, badPhone, noCity, noBranch) == [NameTooShort, BadPhone, CityMissing];
          }
        } else {
          if noBranch {
            assert Errors(nameShort, badPhone, noCity, noBranch) == [NameTooShort, BadPhone, BranchMissing];
          } else {
            assert Errors(nameShort, badPhone, noCity, noBranch) == [NameTooShort, BadPhone];
          }
        }
      } else {
        if noCity {
          if noBranch {
            assert Errors(nameShort, badPhone, noCity, noBranch) == [NameTooShort, CityMissing, BranchMissing];
          } else {
            assert Errors(nameShort, badPhone, noCity, noBranch) == [NameTooShort, CityMissing];
          }
        } else {
          if noBranch {
            assert Errors(nameShort, badPhone, noCity, noBranch) == [NameTooShort, BranchMissing];
          } else {
            assert Errors(nameShort, badPhone, noCity, noBranch) == [NameTooShort];
          }
        }
      }
    } else {
      if badPhone {
        if noCity {
          if noBranch {
            assert Errors(nameShort, badPhone, noCity, noBranch) == [BadPhone, CityMissing, BranchMissing];
          } else {
            assert Errors(nameShort, badPhone, noCity, noBranch) == [BadPhone, CityMissing];
          }
        } else {
          if noBranch {
            assert Errors(nameShort, badPhone, noCity, noBranch) == [BadPhone, BranchMissing];
          } else {
            assert Errors(nameShort, badPhone, noCity, noBranch) == [BadPhone];
          }
        }
      } else {
        if noCity {
          if noBranch {
            assert Errors(nameShort, badPhone, noCity, noBranch) == [CityMissing, BranchMissing];
          } else {
            assert Errors(nameShort, badPhone, noCity, noBranch) == [CityMissing];
          }
        } else {
          if noBranch {
            assert Errors(nameShort, badPhone, noCity, noBranch) == [BranchMissing];
          } else {
            assert Errors(nameShort, badPhone, noCity, noBranch) == [];
          }
        }
      }
    }
  }

  /** The form is refused with each rule's message exactly when that rule fails: a name shorter
    * than three characters, a phone that does not match, a city shorter than two characters,
    * an empty branch; it is accepted exactly when all four hold. */
  lemma ValidateRules(f: Form)
    ensures var errs := Validate(f);
      && (NameTooShort in errs <==> |f.fullName| < 3)
      && (BadPhone in errs <==> !PhoneOk(f.phone))
      && (CityMissing in errs <==> |f.city| < 2)
      && (BranchMissing in errs <==> |f.npBranch| < 1)
      && (errs == [] <==> |f.fullName| >= 3 && PhoneOk(f.phone) && |f.city| >= 2 && |f.npBranch| >= 1)
      && forall i, j :: 0 <= i < j < |errs| ==> Rank(errs[i]) < Rank(errs[j])
  {
    ErrorsRules(|f.fullName| < 3, !PhoneOk(f.phone), |f.city| < 2, |f.npBranch| < 1);
  }

  /** For a number typed without spaces the rule is the pattern itself. */
  lemma PhoneOkWithoutSpaces(phone: string)
    requires forall k :: 0 <= k < |phone| ==> !IsSpace(phone[k])
    ensures PhoneOk(phone) <==> IsUaPhone(phone)
  {
    StripSpaceNone(phone);
  }

  /** The pattern on the store's own examples of numbers. */
  lemma PatternExamples()
    ensures IsUaPhone("+380931234567") && IsUaPhone("380931234567")
    ensures !IsUaPhone("0931234567") && !IsUaPhone("+38093123456") && !IsUaPhone("abc")
  {
    assert "+380931234567"[1..] == "380931234567";
    assert |"+38093123456"[1..]| == 11;
  }

  /** The store's own examples of accepted numbers: with and without the plus. */
  lemma PhoneExamplesAccepted()
    ensures PhoneOk("+380931234567") && PhoneOk("380931234567")
  {
    PatternExamples();
    PhoneOkWithoutSpaces("+380931234567");
    PhoneOkWithoutSpaces("380931234567");
  }

  /** A number without the country code is refused. */
  lemma PhoneWithoutCountryCode()
    ensures !PhoneOk("0931234567")
  {
    PatternExamples();
    PhoneOkWithoutSpaces("0931234567");
  }

  /** A number one digit short is refused. */
  lemma PhoneTooShort()
    ensures !PhoneOk("+38093123456")
  {
    PatternExamples();
    PhoneOkWithoutSpaces("+38093123456");
  }

  /** Letters are refused. */
  lemma PhoneNotANumber()
    ensures !PhoneOk("abc")
  {
    PatternExamples();
    PhoneOkWithoutSpaces("abc");
  }

  /** White space anywhere in the field is ignored: inserting spaces into an accepted number
    * leaves it accepted. */
  lemma PhoneSpacesIgnored(a: string, b: string)
    ensures PhoneOk(a + " " + b) <==> PhoneOk(a + b)
  {
    StripSpaceAppend(a + " ", b);
    StripSpaceAppend(a, " ");
    StripSpaceAppend(a, b);
    assert StripSpace(" ") == "";
    assert StripSpace(a + " " + b) == StripSpace(a + b);
  }

  /** An accepted number has 12 digits after the optional plus: 12 or 13 characters once the
    * spaces are gone. */
  lemma PhoneLength(phone: string)
    requires PhoneOk(phone)
    ensures |StripSpace(phone)| == 12 || |StripSpace(phone)| == 13
    ensures |StripSpace(phone)| == 13 ==> StripSpace(phone)[0] == '+'
  {
  }

  // ----- the rows an accepted checkout writes -----

  /** One `order_items` row per cart line, carrying the line's product, name, price and quantity,
    * with row ids counting up from `firstId`. */
  function ItemsFor(orderId: int, lines: seq<CartLine>, firstId: int): (r: seq<OrderItem>)
    ensures |r| == |lines|
    ensures forall k :: 0 <= k < |lines| ==>
      r[k] == OrderItem(firstId + k, orderId, lines[k].productId, lines[k].name, lines[k].price, lines[k].qty)
  {
    if lines == [] then []
    else [OrderItem(firstId, orderId, lines[0].productId, lines[0].name, lines[0].price, lines[0].qty)]
         + ItemsFor(orderId, lines[1..], firstId + 1)
  }

  /** The amount of a list of order items: the sum of price times quantity. */
  function ItemsAmount(items: seq<OrderItem>): int {
    if items == [] then 0 else items[0].price * items[0].qty + ItemsAmount(items[1..])
  }

  /** The items written for a cart add up to the cart total, which is the order's total. */
  lemma {:induction false} ItemsAmountIsTotal(orderId: int, lines: seq<CartLine>, firstId: int)
    ensures ItemsAmount(ItemsFor(orderId, lines, firstId)) == Total(lines)
  {
    if lines != [] {
      ItemsAmountIsTotal(orderId, lines[1..], firstId + 1);
      assert ItemsFor(orderId, lines, firstId)[1..] == ItemsFor(orderId, lines[1..], firstId + 1);
    }
  }

  /** The tables after an accepted checkout of `lines`. */
  function PlacedTables(t: Tables, f: Form, lines: seq<CartLine>): (r: Tables)
    ensures r.orders == t.orders + [Order(t.nextOrderId, f.fullName, f.phone, f.region, f.city, f.npBranch,
                                          f.comment, Total(lines), "new", t.clock)]
    ensures r.orderItems == t.orderItems + ItemsFor(t.nextOrderId, lines, t.nextItemId)
    ensures r.categories == t.categories && r.products == t.products
  {
    t.(orders := t.orders + [Order(t.nextOrderId, f.fullName, f.phone, f.region, f.city, f.npBranch,
                                   f.comment, Total(lines), "new", t.clock)],
       orderItems := t.orderItems + ItemsFor(t.nextOrderId, lines, t.nextItemId),
       nextOrderId := t.nextOrderId + 1,
       nextItemId := t.nextItemId + |lines|,
       clock := t.clock + 1)
  }

  /** An accepted checkout keeps the tables valid, and the new order's items are exactly the
    * rows that carry its id: one per cart line, adding up to its total. */
  lemma PlacedOrderItems(t: Tables, f: Form, lines: seq<CartLine>)
    requires TablesValid(t)
    ensures TablesValid(PlacedTables(t, f, lines))
    ensures var r := PlacedTables(t, f, lines);
      forall k :: 0 <= k < |r.orderItems| ==> (r.orderItems[k].orderId == t.nextOrderId <==> k >= |t.orderItems|)
  {
  }

  /** Writing the items one at a time: the rows for a longer prefix of the cart are those for
    * the shorter one followed by the next line's row. */
  lemma ItemsForSnoc(orderId: int, lines: seq<CartLine>, firstId: int, i: nat)
    requires i < |lines|
    ensures ItemsFor(orderId, lines[..i + 1], firstId)
         == ItemsFor(orderId, lines[..i], firstId)
            + [OrderItem(firstId + i, orderId, lines[i].productId, lines[i].name, lines[i].price, lines[i].qty)]
  {
  }

  datatype CheckoutOutcome =
    | CartEmpty                                       // redirect to /catalog
    | Rejected(errors: seq<CheckoutError>, form: Form) // 400 with the messages and the form
    | Placed(orderId: int)                            // the thank-you page

  /** The writes of an accepted checkout: the order row, then one item row per cart line. */
  method WriteOrder(db: Database, form: Form, lines: seq<CartLine>) returns (orderId: int)
    requires db.Valid()
    modifies db
    ensures db.Valid() && db.admins == old(db.admins)
    ensures orderId == old(db.nextOrderId)
    ensures db.Snapshot() == PlacedTables(old(db.Snapshot()), form, lines)
  {
    orderId := db.InsertOrder(form.fullName, form.phone, form.region, form.city, form.npBranch,
                              form.comment, Total(lines));
    ghost var t1 := db.Snapshot();
    var i := 0;
    while i < |lines|
      invariant 0 <= i <= |lines|
      invariant db.Valid() && db.admins == old(db.admins)
      invariant db.Snapshot() == t1.(orderItems := t1.orderItems + ItemsFor(orderId, lines[..i], t1.nextItemId),
                                     nextItemId := t1.nextItemId + i)
    {
      var it := lines[i];
      var _ := db.InsertOrderItem(orderId, it.productId, it.name, it.price, it.qty);
      ItemsForSnoc(orderId, lines, t1.nextItemId, i);
      i := i + 1;
    }
    assert lines[..i] == lines;
  }

  /** `POST /checkout`. */
  method PlaceOrder(s: Session, db: Database, body: CheckoutBody) returns (outcome: CheckoutOutcome)
    requires s.Valid() && db.Valid()
    modifies s, db
    ensures s.Valid() && db.Valid() && s.admin == old(s.admin) && db.admins == old(db.admins)
    ensures var lines := if old(s.cart) == null then [] else old(s.cart.items);
      && (lines == [] ==> outcome == CartEmpty && db.Snapshot() == old(db.Snapshot()))
      && (lines != [] && Validate(FormOf(body)) != [] ==>
            && outcome == Rejected(Validate(FormOf(body)), FormOf(body))
            && db.Snapshot() == old(db.Snapshot())
            && s.cart == old(s.cart) && s.cart.items == lines)
      && (lines != [] && Validate(FormOf(body)) == [] ==>
            && outcome == Placed(old(db.nextOrderId))
            && db.Snapshot() == PlacedTables(old(db.Snapshot()), FormOf(body), lines)
            && fresh(s.cart) && s.cart.items == [])
    ensures outcome.CartEmpty? ==> s.cart != null && s.cart.items == []
  {
    var cart := GetCart(s);
    var lines := cart.items;
    if |lines| == 0 {
      return CartEmpty;
    }
    var form := FormOf(body);
    var errors := Validate(form);
    if |errors| > 0 {
      return Rejected(errors, form);
    }
    var orderId := WriteOrder(db, form, lines);
    s.cart := new Cart();
    outcome := Placed(orderId);
  }
}
