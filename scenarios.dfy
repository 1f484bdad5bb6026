/**
 * Request sequences that a client of the backend can rely on, proved from
 * the route contracts and the query definitions.
 */
module Scenarios {
  import opened Wrappers
  import opened Js
  import opened Tables
  import opened Server

  /** Registering a fresh name and then logging in with the same pair
      succeeds. */
  method RegisterThenLogin(s: Store, name: string, password: string) returns (registered: Status, login: Status)
    requires s.Valid() && name != "" && password != "" && !HasName(s.users, name)
    modifies s
    ensures s.Valid()
    ensures registered == Created201 && login == Ok200
  {
    registered := s.Register(Str(name), Str(password), false, false);
    login := s.Login(Str(name), Str(password), false);
  }

  /** A second registration of a name is a conflict whatever its password,
      and leaves the first password in force. */
  method RegisterTwice(s: Store, name: string, first: string, second: string)
    returns (again: Status, oldLogin: Status)
    requires s.Valid() && name != "" && first != "" && second != "" && !HasName(s.users, name)
    modifies s
    ensures s.Valid()
    ensures again == Conflict409 && oldLogin == Ok200
    ensures |s.users| == |old(s.users)| + 1
  {
    var registered := s.Register(Str(name), Str(first), false, false);
    assert s.users[|s.users| - 1] == Credential(name, first);
    again := s.Register(Str(name), Str(second), false, false);
    oldLogin := s.Login(Str(name), Str(first), false);
  }

  /** A price of 0 is falsy, so such an order is refused and nothing is
      stored. */
  method ZeroPriceOrderRefused(s: Store, username: string, productId: int, productName: string, image: string)
    returns (status: Status)
    requires s.Valid()
    modifies s
    ensures s.Valid()
    ensures status == BadRequest400 && s.State() == old(s.State())
  {
    status := s.PlaceOrder(Str(username), Num(productId), Str(productName), Num(0), Str(image), false);
  }

  /** Adding the same item twice leaves two equal rows in the cart. */
  method AddSameItemTwice(s: Store, username: string, productId: JsValue, title: JsValue, price: JsValue, image: JsValue)
    requires s.Valid() && username != ""
    modifies s
    ensures s.Valid()
    ensures |s.cart| == |old(s.cart)| + 2
    ensures s.cart[|s.cart| - 1] == s.cart[|s.cart| - 2]
    ensures CartOf(s.cart, username) != []
  {
    var first := s.AddToCart(Str(username), productId, title, price, image, false);
    var second := s.AddToCart(Str(username), productId, title, price, image, false);
    assert s.cart[|s.cart| - 1].username == username;
  }

  /** Two orders placed one after the other are listed newest first. */
  method OrdersListedNewestFirst(s: Store, username: string, item: string, first: string, second: string)
    returns (listed: Reply<seq<Order>>)
    requires s.Valid() && s.orders == [] && username != "" && item != "" && first != "" && second != ""
    modifies s
    ensures s.Valid()
    ensures listed.status == Ok200 && listed.body.Some? && |listed.body.value| == 2
    ensures listed.body.value[0].productName == second && listed.body.value[1].productName == first
  {
    ghost var id := s.nextOrderId;
    var a := s.PlaceOrder(Str(username), Str(item), Str(first), Str(item), Str(item), false);
    ghost var older := Order(id, username, item, first, item, item);
    assert s.orders == old(s.orders) + [older];
    var b := s.PlaceOrder(Str(username), Str(item), Str(second), Str(item), Str(item), false);
    ghost var newer := Order(id + 1, username, item, second, item, item);
    assert s.orders == [older] + [newer];
    listed := s.ListOrders(false);
    ListingOfTwo(s, older, newer);
  }

  /** A store holding two orders lists the one with the larger id first. */
  lemma ListingOfTwo(s: Store, a: Order, b: Order)
    requires s.orders == [a, b] && a.id < b.id
    ensures s.ListOrders(false) == Reply(Ok200, Some([b, a]))
  {
    SortTwo(a, b);
  }

  /** Of two rows, the one with the larger id is listed first. */
  lemma SortTwo(a: Order, b: Order)
    requires a.id < b.id
    ensures SortByIdDesc([a, b]) == [b, a]
  {
    assert [a, b][1..] == [b];
    assert [b][1..] == [];
    assert SortByIdDesc([b]) == InsertByIdDesc(b, []) == [b];
    assert InsertByIdDesc(a, [b]) == [b] + InsertByIdDesc(a, []);
  }

  /** On an empty database the order listing of a user is 404 while the
      user's cart is an empty success, and a product lookup is 404. */
  method EmptyDatabaseAnswers(username: string, id: int)
    returns (orders: Reply<seq<Order>>, cart: Reply<seq<CartItem>>, product: Reply<Product>)
    requires username != ""
    ensures orders == Reply(NotFound404, None)
    ensures cart == Reply(Ok200, Some([]))
    ensures product == Reply(NotFound404, None)
  {
    var s := new Store([]);
    orders := s.OrdersFor(username, false);
    cart := s.CartFor(username, false);
    product := s.GetProduct(id, false);
  }

  /** A stored detail row keeps the address as submitted, not trimmed, and
      receives the next detail id. */
  method DetailsKeepRawAddress(s: Store) returns (r: Reply<Detail>)
    requires s.Valid()
    modifies s
    ensures s.Valid()
    ensures r == Reply(Created201, Some(Detail(old(s.nextDetailId), "Jane Doe", "9876543210", "  12 Elm St ")))
  {
    Validation.PaddedAddressAccepted();
    r := s.SubmitDetails(Str("Jane Doe"), Str("9876543210"), Str("  12 Elm St "), false);
  }
}
