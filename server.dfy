/**
 * The route handlers of the storefront backend over an in-memory copy of
 * its database. Routes that insert are methods of `Store` that change its
 * tables; routes that only read are functions of the tables. A flag such as
 * `insertFails` stands for the database statement failing, which every
 * route reports as 500 without changing anything.
 */
module Server {
  import opened Wrappers
  import opened Js
  import opened Validation
  import opened Tables

  /** The HTTP status a route answers with. `NoResponse` is the details
      route raising a TypeError outside its try block: the handler sends no
      response itself (see README for what the framework then does). */
  datatype Status =
    | Ok200 | Created201 | BadRequest400 | Unauthorized401 | NotFound404 | Conflict409
    | InternalError500 | NoResponse

  /** A status and, for the routes that return rows, the JSON payload. The
      message bodies of the other answers are not modelled. */
  datatype Reply<T> = Reply(status: Status, body: Option<T>)

  /** Everything a `Store` holds, as one value, so that a route's effect can
      be stated as a single update of the old state. */
  datatype Db = Db(
    users: seq<Credential>, admins: seq<Credential>, orders: seq<Order>, cart: seq<CartItem>,
    details: seq<Detail>, products: seq<Product>,
    nextOrderId: nat, nextDetailId: nat, nextProductId: nat)

  class Store {
    var users: seq<Credential>      // table `register`
    var admins: seq<Credential>     // table `adminlogin`, never written here
    var orders: seq<Order>
    var cart: seq<CartItem>
    var details: seq<Detail>
    var products: seq<Product>
    var nextOrderId: nat            // the next value of each table's id sequence
    var nextDetailId: nat
    var nextProductId: nat

    ghost function State(): Db
      reads this
    {
      Db(users, admins, orders, cart, details, products, nextOrderId, nextDetailId, nextProductId)
    }

    /** User names are unique and storage-assigned ids are serial. */
    ghost predicate Valid()
      reads this
    {
      && UniqueNames(users)
      && OrdersSerial(orders, nextOrderId)
      && DetailsSerial(details, nextDetailId)
      && ProductsSerial(products, nextProductId)
    }

    /** A database whose only rows are the admin credentials. */
    constructor (admins: seq<Credential>)
      ensures Valid()
      ensures State() == Db([], admins, [], [], [], [], 1, 1, 1)
    {
      users, this.admins, orders, cart, details, products := [], admins, [], [], [], [];
      nextOrderId, nextDetailId, nextProductId := 1, 1, 1;
    }

    // ------------------------------------------------------------ identity

    /** POST /register: presence check, then the name lookup, then the
        insert; only a fresh name is added. */
    method Register(name: JsValue, password: JsValue, lookupFails: bool, insertFails: bool)
      returns (status: Status)
      requires Valid()
      modifies this
      ensures Valid()
      ensures status == BadRequest400 <==> !Truthy(name) || !Truthy(password)
      ensures status == Conflict409 <==> (Truthy(name) && Truthy(password) && !lookupFails
        && exists i :: 0 <= i < |old(users)| && old(users)[i].name == ToJsString(name))
      ensures status == Created201 <==> (Truthy(name) && Truthy(password) && !lookupFails && !insertFails
        && forall i :: 0 <= i < |old(users)| ==> old(users)[i].name != ToJsString(name))
      ensures status in {BadRequest400, Conflict409, Created201, InternalError500}
      ensures State() == if status == Created201
        then old(State()).(users := old(users) + [Credential(ToJsString(name), ToJsString(password))])
        else old(State())
    {
      if !Truthy(name) || !Truthy(password) {
        return BadRequest400;
      }
      if lookupFails {
        return InternalError500;
      }
      var row := Credential(ToJsString(name), ToJsString(password));
      if HasName(users, row.name) {
        return Conflict409;
      }
      if insertFails {
        return InternalError500;
      }
      AppendUser(row);
      status := Created201;
    }

    /** The insert of the register route once the name was found free. */
    method AppendUser(row: Credential)
      requires Valid() && !HasName(users, row.name)
      modifies this
      ensures Valid()
      ensures State() == old(State()).(users := old(users) + [row])
    {
      AppendFreshName(users, row);
      users := users + [row];
    }

    /** POST /login: 200 exactly when some `register` row holds both values. */
    function Login(username: JsValue, password: JsValue, queryFails: bool): (r: Status)
      reads this
      ensures r == BadRequest400 <==> !Truthy(username) || !Truthy(password)
      ensures r == InternalError500 <==> Truthy(username) && Truthy(password) && queryFails
      ensures r == Ok200 <==> (Truthy(username) && Truthy(password) && !queryFails
        && Credential(ToJsString(username), ToJsString(password)) in users)
      ensures r == Unauthorized401 <==> (Truthy(username) && Truthy(password) && !queryFails
        && Credential(ToJsString(username), ToJsString(password)) !in users)
    {
      if !Truthy(username) || !Truthy(password) then BadRequest400
      else if queryFails then InternalError500
      else if HasCredential(users, ToJsString(username), ToJsString(password)) then Ok200
      else Unauthorized401
    }

    /** POST /admin/login: the same decision against `adminlogin`. */
    function AdminLogin(username: JsValue, password: JsValue, queryFails: bool): (r: Status)
      reads this
      ensures r == BadRequest400 <==> !Truthy(username) || !Truthy(password)
      ensures r == InternalError500 <==> Truthy(username) && Truthy(password) && queryFails
      ensures r == Ok200 <==> (Truthy(username) && Truthy(password) && !queryFails
        && Credential(ToJsString(username), ToJsString(password)) in admins)
      ensures r == Unauthorized401 <==> (Truthy(username) && Truthy(password) && !queryFails
        && Credential(ToJsString(username), ToJsString(password)) !in admins)
    {
      if !Truthy(username) || !Truthy(password) then BadRequest400
      else if queryFails then InternalError500
      else if HasCredential(admins, ToJsString(username), ToJsString(password)) then Ok200
      else Unauthorized401
    }

    /** GET /customers: the name of every registered user, in table order. */
    function Customers(queryFails: bool): (r: Reply<seq<string>>)
      reads this
      ensures queryFails ==> r == Reply(InternalError500, None)
      ensures !queryFails ==> (r.status == Ok200 && r.body.Some?
        && |r.body.value| == |users|
        && forall i :: 0 <= i < |users| ==> r.body.value[i] == users[i].name)
    {
      if queryFails then Reply(InternalError500, None) else Reply(Ok200, Some(Names(users)))
    }

    // ------------------------------------------------------------ orders

    /** POST /orders: all five fields must be truthy, then one row is added
        with the next order id. */
    method PlaceOrder(username: JsValue, productId: JsValue, productName: JsValue, price: JsValue,
                      image: JsValue, insertFails: bool)
      returns (status: Status)
      requires Valid()
      modifies this
      ensures Valid()
      ensures status == BadRequest400 <==>
        !(Truthy(username) && Truthy(productId) && Truthy(productName) && Truthy(price) && Truthy(image))
      ensures status == Created201 <==>
        Truthy(username) && Truthy(productId) && Truthy(productName) && Truthy(price) && Truthy(image)
        && !insertFails
      ensures status in {BadRequest400, Created201, InternalError500}
      ensures State() == if status == Created201
        then old(State()).(
          orders := old(orders) + [Order(old(nextOrderId), ToJsString(username), ToJsString(productId),
                                         ToJsString(productName), ToJsString(price), ToJsString(image))],
          nextOrderId := old(nextOrderId) + 1)
        else old(State())
    {
      if !Truthy(username) || !Truthy(productId) || !Truthy(productName) || !Truthy(price) || !Truthy(image) {
        return BadRequest400;
      }
      if insertFails {
        return InternalError500;
      }
      var row := Order(nextOrderId, ToJsString(username), ToJsString(productId), ToJsString(productName),
                       ToJsString(price), ToJsString(image));
      AppendOrder(row);
      status := Created201;
    }

    /** The insert of the order route, which takes the next order id. */
    method AppendOrder(row: Order)
      requires Valid() && row.id == nextOrderId
      modifies this
      ensures Valid()
      ensures State() == old(State()).(orders := old(orders) + [row], nextOrderId := old(nextOrderId) + 1)
    {
      OrdersAppend(orders, nextOrderId, row);
      orders := orders + [row];
      nextOrderId := nextOrderId + 1;
    }

    /** GET /orders: every order, largest id first. */
    function ListOrders(queryFails: bool): (r: Reply<seq<Order>>)
      reads this
      ensures queryFails ==> r == Reply(InternalError500, None)
      ensures !queryFails ==> (r.status == Ok200 && r.body.Some?
        && SortedByIdDesc(r.body.value) && multiset(r.body.value) == multiset(orders))
    {
      if queryFails then Reply(InternalError500, None) else Reply(Ok200, Some(SortByIdDesc(orders)))
    }

    /** GET /orders/:username: the user's orders, or 404 when there are
        none. */
    function OrdersFor(username: string, queryFails: bool): (r: Reply<seq<Order>>)
      reads this
      ensures r.status == BadRequest400 <==> username == ""
      ensures r.status == InternalError500 <==> username != "" && queryFails
      ensures r.status == NotFound404 <==> (username != "" && !queryFails
        && forall i :: 0 <= i < |orders| ==> orders[i].username != username)
      ensures r.status == Ok200 <==> (username != "" && !queryFails
        && exists i :: 0 <= i < |orders| && orders[i].username == username)
      ensures r.status == Ok200 ==> (r.body.Some?
        && forall o :: multiset(r.body.value)[o] == if o.username == username then multiset(orders)[o] else 0)
      ensures r.status != Ok200 ==> r.body.None?
    {
      if username == "" then Reply(BadRequest400, None)
      else if queryFails then Reply(InternalError500, None)
      else
        var rows := OrdersOf(orders, username);
        if rows == [] then Reply(NotFound404, None) else Reply(Ok200, Some(rows))
    }

    // ------------------------------------------------------------ cart

    /** POST /add-to-cart: only the user name is checked; the row is added
        even when the same item is already in the cart. */
    method AddToCart(username: JsValue, productId: JsValue, title: JsValue, price: JsValue,
                     image: JsValue, insertFails: bool)
      returns (status: Status)
      requires Valid()
      modifies this
      ensures Valid()
      ensures status == BadRequest400 <==> !Truthy(username)
      ensures status == Ok200 <==> Truthy(username) && !insertFails
      ensures status in {BadRequest400, Ok200, InternalError500}
      ensures State() == if status == Ok200
        then old(State()).(cart := old(cart) + [CartItem(ToJsString(username), ToParam(productId),
                                                         ToParam(title), ToParam(price), ToParam(image))])
        else old(State())
    {
      if !Truthy(username) {
        return BadRequest400;
      }
      if insertFails {
        return InternalError500;
      }
      AppendCartItem(CartItem(ToJsString(username), ToParam(productId), ToParam(title), ToParam(price), ToParam(image)));
      status := Ok200;
    }

    /** The insert of the cart route; `cart` has no constraint to keep. */
    method AppendCartItem(row: CartItem)
      requires Valid()
      modifies this
      ensures Valid()
      ensures State() == old(State()).(cart := old(cart) + [row])
    {
      cart := cart + [row];
    }

    /** GET /cart/:username: the user's cart rows; an empty cart is a
        successful answer, never 404. */
    function CartFor(username: string, queryFails: bool): (r: Reply<seq<CartItem>>)
      reads this
      ensures r.status == BadRequest400 <==> username == ""
      ensures r.status == InternalError500 <==> username != "" && queryFails
      ensures r.status == Ok200 <==> username != "" && !queryFails
      ensures r.status == Ok200 ==> (r.body.Some?
        && forall c :: multiset(r.body.value)[c] == if c.username == username then multiset(cart)[c] else 0)
      ensures r.status != Ok200 ==> r.body.None?
    {
      if username == "" then Reply(BadRequest400, None)
      else if queryFails then Reply(InternalError500, None)
      else Reply(Ok200, Some(CartOf(cart, username)))
    }

    // ------------------------------------------------------------ details

    /** POST /details: the three checks in order, then one row with the
        next detail id, which is also the payload. */
    method SubmitDetails(name: JsValue, mobile: JsValue, address: JsValue, insertFails: bool)
      returns (r: Reply<Detail>)
      requires Valid()
      modifies this
      ensures Valid()
      ensures r.status == BadRequest400 <==> CheckDetails(name, mobile, address) in {BadName, BadMobile, BadAddress}
      ensures r.status == NoResponse <==> CheckDetails(name, mobile, address) == AddressThrows
      ensures r.status == InternalError500 <==> CheckDetails(name, mobile, address) == Accepted && insertFails
      ensures r.status == Created201 <==> CheckDetails(name, mobile, address) == Accepted && !insertFails
      ensures r.status == Created201 ==> (address.Str?
        && r.body == Some(Detail(old(nextDetailId), ToJsString(name), ToJsString(mobile), address.s)))
      ensures r.status != Created201 ==> r.body.None?
      ensures State() == if r.status == Created201
        then old(State()).(details := old(details) + [r.body.value], nextDetailId := old(nextDetailId) + 1)
        else old(State())
    {
      var check := CheckDetails(name, mobile, address);
      if check == AddressThrows {
        return Reply(NoResponse, None);
      }
      if check != Accepted {
        return Reply(BadRequest400, None);
      }
      if insertFails {
        return Reply(InternalError500, None);
      }
      var row := Detail(nextDetailId, ToJsString(name), ToJsString(mobile), address.s);
      AppendDetail(row);
      r := Reply(Created201, Some(row));
    }

    /** The `INSERT ... RETURNING *` of the details route once it succeeds. */
    method AppendDetail(row: Detail)
      requires Valid() && row.id == nextDetailId
      modifies this
      ensures Valid()
      ensures State() == old(State()).(details := old(details) + [row], nextDetailId := old(nextDetailId) + 1)
    {
      DetailsAppend(details, nextDetailId, row);
      details := details + [row];
      nextDetailId := nextDetailId + 1;
    }

    // ------------------------------------------------------------ products

    /** POST /product: nothing is checked; the row with its new id is the
        payload. */
    method CreateProduct(name: JsValue, description: JsValue, image: JsValue, price: JsValue, insertFails: bool)
      returns (r: Reply<Product>)
      requires Valid()
      modifies this
      ensures Valid()
      ensures r.status == Created201 <==> !insertFails
      ensures r.status in {Created201, InternalError500}
      ensures r.status == Created201 ==>
        r.body == Some(Product(old(nextProductId), ToParam(name), ToParam(description), ToParam(image), ToParam(price)))
      ensures r.status != Created201 ==> r.body.None?
      ensures State() == if r.status == Created201
        then old(State()).(products := old(products) + [r.body.value], nextProductId := old(nextProductId) + 1)
        else old(State())
    {
      if insertFails {
        return Reply(InternalError500, None);
      }
      var row := Product(nextProductId, ToParam(name), ToParam(description), ToParam(image), ToParam(price));
      AppendProduct(row);
      r := Reply(Created201, Some(row));
    }

    /** The insert of the product route, which takes the next product id. */
    method AppendProduct(row: Product)
      requires Valid() && row.id == nextProductId
      modifies this
      ensures Valid()
      ensures State() == old(State()).(products := old(products) + [row], nextProductId := old(nextProductId) + 1)
    {
      ProductsAppend(products, nextProductId, row);
      products := products + [row];
      nextProductId := nextProductId + 1;
    }

    /** GET /products: the whole table, in its natural order; an empty table
        is a successful answer. */
    function ListProducts(queryFails: bool): (r: Reply<seq<Product>>)
      reads this
      ensures r.status == InternalError500 <==> queryFails
      ensures r.status == InternalError500 ==> r.body.None?
      ensures !queryFails ==> r.status == Ok200 && r.body.Some? && multiset(r.body.value) == multiset(products)
    {
      if queryFails then Reply(InternalError500, None) else Reply(Ok200, Some(products))
    }

    /** GET /products/:id: the product with that id, or 404. */
    function GetProduct(id: int, queryFails: bool): (r: Reply<Product>)
      reads this
      ensures r.status == InternalError500 <==> queryFails
      ensures r.status == NotFound404 <==> !queryFails && forall i :: 0 <= i < |products| ==> products[i].id != id
      ensures r.status == Ok200 <==> !queryFails && exists i :: 0 <= i < |products| && products[i].id == id
      ensures r.status == Ok200 ==> r.body.Some? && r.body.value in products && r.body.value.id == id
      ensures r.status != Ok200 ==> r.body.None?
    {
      if queryFails then Reply(InternalError500, None)
      else
        var found := FindProduct(products, id);
        if found.None? then Reply(NotFound404, None) else Reply(Ok200, found)
    }
  }

  // ------------------------------------------------------------ properties over a store

  /** Once registered, a pair of a user name and a wrong password is refused. */
  lemma WrongPasswordUnauthorized(s: Store, name: string, stored: string, tried: string)
    requires s.Valid() && Credential(name, stored) in s.users
    requires tried != "" && tried != stored && name != ""
    ensures s.Login(Str(name), Str(tried), false) == Unauthorized401
  {
    WrongPasswordNeverMatches(s.users, name, stored, tried);
  }

  /** With serial ids, the order listing is the table read backwards: the
      most recent order first. */
  lemma ListOrdersNewestFirst(s: Store)
    requires s.Valid()
    ensures s.ListOrders(false) == Reply(Ok200, Some(Reversed(s.orders)))
  {
    SerialOrdersNewestFirst(s.orders, s.nextOrderId);
  }

  /** With serial ids, looking a product up by its own id returns exactly
      that product. */
  lemma GetProductByOwnId(s: Store, p: Product)
    requires s.Valid() && p in s.products
    ensures s.GetProduct(p.id, false) == Reply(Ok200, Some(p))
  {
    FindProductExact(s.products, s.nextProductId, p);
  }
}
