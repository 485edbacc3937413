/** The part of `req.session` the store uses: the cart, created on first use by `getCart`
  * (server.js), and the logged-in admin, `session.admin`. */
module Sessions {
  import opened Common
  import opened ShoppingCart

  class Session {
    /** `session.cart`, absent until a handler first needs it. */
    var cart: Cart?
    /** `session.admin?.username`; `None` when `session.admin` is missing or null. */
    var admin: Option<string>

    /** A session as the cookie middleware creates it: no cart and nobody logged in. */
    constructor ()
      ensures cart == null && admin == None
    {
      cart := null;
      admin := None;
    }

    predicate Valid()
      reads this, cart
    {
      cart != null ==> cart.Valid()
    }
  }

  /** `getCart`: the session's cart, made empty and stored in the session on first use. */
  method GetCart(s: Session) returns (c: Cart)
    requires s.Valid()
    modifies s
    ensures s.cart == c && s.Valid() && s.admin == old(s.admin)
    ensures old(s.cart) != null ==> c == old(s.cart) && c.items == old(s.cart.items)
    ensures old(s.cart) == null ==> fresh(c) && c.items == []
  {
    if s.cart == null {
      s.cart := new Cart();
    }
    c := s.cart;
  }

  /** The `cartCount` the layout middleware shows: the number of items in the cart, 0 without
    * one. */
  function CartCount(s: Session): (r: int)
    reads s, s.cart
    ensures s.cart == null ==> r == 0
    ensures s.cart != null && s.cart.items == [] ==> r == 0
    ensures s.Valid() && s.cart != null ==> |s.cart.items| <= r <= MaxQty * |s.cart.items|
  {
    if s.cart == null then 0
    else
      CountBoundsIfValid(s.cart.items);
      Count(s.cart.items)
  }

  /** A cart whose quantities are all in [1, 99] holds between one and 99 items per line. */
  lemma CountBoundsIfValid(lines: seq<CartLine>)
    ensures ValidLines(lines) ==> |lines| <= Count(lines) <= MaxQty * |lines|
  {
    if ValidLines(lines) {
      ValidCountBounds(lines);
    }
  }
}
