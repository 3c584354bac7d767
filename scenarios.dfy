/** What a caller of the two stores can conclude from their contracts alone. */
module Scenarios {
  import opened Wrappers
  import opened SweetTypes
  import opened Inventory
  import opened Session

  /** The last unit sells once; the next purchase is refused and stock stays at zero. */
  method SellLastUnit(x: Sweet)
    requires x.quantity == 1
  {
    var store := new SweetStore([x]);
    var first := store.PurchaseSweet(x.id);
    var second := store.PurchaseSweet(x.id);
    assert first && !second;
    assert store.sweets[0].quantity == 0;
  }

  /** Restocking a sold-out item by five leaves five in stock. */
  method RestockSoldOut(x: Sweet)
    requires x.quantity == 0
  {
    var store := new SweetStore([x]);
    store.RestockSweet(x.id, 5);
    assert store.sweets[0].quantity == 5;
  }

  /** Deleting removes the one item; deleting it again changes nothing. */
  method DeleteTwice(x: Sweet, y: Sweet)
    requires x.id != y.id
  {
    var store := new SweetStore([x, y]);
    store.DeleteSweet(x.id);
    DeleteExactlyOne([x, y], x.id);
    assert |store.sweets| == 1;
    var once := store.sweets;
    store.DeleteSweet(x.id);
    DeleteIdempotent([x, y], x.id);
    assert store.sweets == once;
  }

  /** A short password is refused and leaves the session as it was; a good login replaces it. */
  method LoginSequence() {
    var session := new SessionStore();
    var ok := session.Login("a@b.com", "abc");
    assert !ok && !session.IsAuthenticated();
    ok := session.Login("a@b.com", "secret1");
    LoginExamples();
    assert ok && session.user == Some(LoginUser("a@b.com"));
    assert !session.user.value.isAdmin;
    session.Logout();
    session.Logout();
    assert !session.IsAuthenticated();
  }
}
