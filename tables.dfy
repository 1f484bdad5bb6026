/**
 * The six database tables as sequences of rows in their natural (insertion)
 * order, and the queries the routes run on them: credential lookup, the
 * filters by user name, the lookup by product id, the name projection and
 * the `ORDER BY id DESC` sort.
 */
module Tables {
  import opened Wrappers
  import opened Js

  /** A row of `register` (name, password) or of `adminlogin`
      (username, password); both tables hold the two values verbatim. */
  datatype Credential = Credential(name: string, password: string)

  /** A row of `orders`; every column but the id holds a value the order
      route checked to be present, so none of them is NULL. */
  datatype Order = Order(id: nat, username: string, productId: string, productName: string, price: string, image: string)

  /** A row of `cart`; only the user name is checked, the rest may be NULL. */
  datatype CartItem = CartItem(username: string, productId: SqlValue, title: SqlValue, price: SqlValue, image: SqlValue)

  /** A row of `details`, as inserted once all three checks passed. */
  datatype Detail = Detail(id: nat, name: string, mobile: string, address: string)

  /** A row of `products`; the product route checks nothing, so every
      column but the id may be NULL. */
  datatype Product = Product(id: nat, name: SqlValue, description: SqlValue, image: SqlValue, price: SqlValue)

  // ---------------------------------------------------------------- credentials

  ghost predicate UniqueNames(t: seq<Credential>) {
    forall i, j :: 0 <= i < j < |t| ==> t[i].name != t[j].name
  }

  /** `SELECT * FROM register WHERE name = $1` returns a row. */
  function HasName(t: seq<Credential>, name: string): (r: bool)
    ensures r <==> exists i :: 0 <= i < |t| && t[i].name == name
  {
    if t == [] then false
    else t[0].name == name || HasName(t[1..], name)
  }

  /** `SELECT * FROM <table> WHERE name = $1 AND password = $2` returns a
      row. */
  function HasCredential(t: seq<Credential>, name: string, password: string): (r: bool)
    ensures r <==> Credential(name, password) in t
  {
    if t == [] then false
    else t[0] == Credential(name, password) || HasCredential(t[1..], name, password)
  }

  /** Appending a name that is not yet taken keeps names unique. */
  lemma AppendFreshName(t: seq<Credential>, c: Credential)
    requires UniqueNames(t) && !HasName(t, c.name)
    ensures UniqueNames(t + [c])
  {
  }

  /** With unique names, a known name and a password other than the stored
      one never match a row. */
  lemma WrongPasswordNeverMatches(t: seq<Credential>, name: string, stored: string, tried: string)
    requires UniqueNames(t) && Credential(name, stored) in t && tried != stored
    ensures !HasCredential(t, name, tried)
  {
  }

  /** `SELECT name FROM register`: every name, in table order. */
  function Names(t: seq<Credential>): (r: seq<string>)
    ensures |r| == |t|
    ensures forall i :: 0 <= i < |t| ==> r[i] == t[i].name
  {
    if t == [] then [] else [t[0].name] + Names(t[1..])
  }

  // ---------------------------------------------------------------- ids

  /** Storage-assigned ids grow with insertion order and stay below the
      id the table's sequence will hand out next. */
  ghost predicate OrdersSerial(s: seq<Order>, next: nat) {
    (forall i, j :: 0 <= i < j < |s| ==> s[i].id < s[j].id)
    && (forall i :: 0 <= i < |s| ==> s[i].id < next)
  }

  ghost predicate DetailsSerial(s: seq<Detail>, next: nat) {
    (forall i, j :: 0 <= i < j < |s| ==> s[i].id < s[j].id)
    && (forall i :: 0 <= i < |s| ==> s[i].id < next)
  }

  ghost predicate ProductsSerial(s: seq<Product>, next: nat) {
    (forall i, j :: 0 <= i < j < |s| ==> s[i].id < s[j].id)
    && (forall i :: 0 <= i < |s| ==> s[i].id < next)
  }

  /** A row inserted with the id the sequence hands out next keeps the
      table serial, one id further on. */
  lemma OrdersAppend(s: seq<Order>, next: nat, o: Order)
    requires OrdersSerial(s, next) && o.id == next
    ensures OrdersSerial(s + [o], next + 1)
  {
  }

  lemma DetailsAppend(s: seq<Detail>, next: nat, d: Detail)
    requires DetailsSerial(s, next) && d.id == next
    ensures DetailsSerial(s + [d], next + 1)
  {
  }

  lemma ProductsAppend(s: seq<Product>, next: nat, p: Product)
    requires ProductsSerial(s, next) && p.id == next
    ensures ProductsSerial(s + [p], next + 1)
  {
  }

  // ---------------------------------------------------------------- filters

  /** `SELECT * FROM orders WHERE username = $1`: the matching rows, each as
      often as the table holds it, and no others. */
  function OrdersOf(s: seq<Order>, username: string): (r: seq<Order>)
    ensures forall o :: multiset(r)[o] == if o.username == username then multiset(s)[o] else 0
    ensures r == [] <==> forall i :: 0 <= i < |s| ==> s[i].username != username
  {
    if s == [] then []
    else
      assert s == [s[0]] + s[1..];
      var rest := OrdersOf(s[1..], username);
      if s[0].username == username then [s[0]] + rest else rest
  }

  /** `SELECT * FROM cart WHERE username = $1`, likewise. */
  function CartOf(s: seq<CartItem>, username: string): (r: seq<CartItem>)
    ensures forall c :: multiset(r)[c] == if c.username == username then multiset(s)[c] else 0
    ensures r == [] <==> forall i :: 0 <= i < |s| ==> s[i].username != username
  {
    if s == [] then []
    else
      assert s == [s[0]] + s[1..];
      var rest := CartOf(s[1..], username);
      if s[0].username == username then [s[0]] + rest else rest
  }

  /** `SELECT * FROM products WHERE id = $1`, first row: the first product
      with that id, or none when no row has it. */
  function FindProduct(s: seq<Product>, id: int): (r: Option<Product>)
    ensures r.None? <==> forall i :: 0 <= i < |s| ==> s[i].id != id
    ensures r.Some? ==> exists i :: 0 <= i < |s| && s[i] == r.value && r.value.id == id
                                    && (forall j :: 0 <= j < i ==> s[j].id != id)
  {
    if s == [] then None
    else if s[0].id == id then Some(s[0])
    else
      var r := FindProduct(s[1..], id);
      if r.Some? then
        var i :| 0 <= i < |s[1..]| && s[1..][i] == r.value && r.value.id == id
                 && (forall j :: 0 <= j < i ==> s[1..][j].id != id);
        assert s[i + 1] == r.value;
        r
      else r
  }

  /** With serial ids a product is found exactly when it is in the table. */
  lemma FindProductExact(s: seq<Product>, next: nat, p: Product)
    requires ProductsSerial(s, next)
    ensures FindProduct(s, p.id) == Some(p) <==> p in s
  {
    if p in s {
      var k :| 0 <= k < |s| && s[k] == p;
      var r := FindProduct(s, p.id);
      var i :| 0 <= i < |s| && s[i] == r.value && r.value.id == p.id
               && (forall j :: 0 <= j < i ==> s[j].id != p.id);
      assert i == k;
    }
  }

  // ---------------------------------------------------------------- ORDER BY id DESC

  ghost predicate SortedByIdDesc(s: seq<Order>) {
    forall i, j :: 0 <= i < j < |s| ==> s[i].id >= s[j].id
  }

  /** Places `o` in front of the first row whose id is not larger. */
  function InsertByIdDesc(o: Order, s: seq<Order>): (r: seq<Order>)
    requires SortedByIdDesc(s)
    ensures SortedByIdDesc(r)
    ensures multiset(r) == multiset(s) + multiset{o}
    ensures |r| == |s| + 1 && (r[0] == o || (s != [] && r[0] == s[0]))
  {
    if s == [] || s[0].id <= o.id then [o] + s
    else
      assert s == [s[0]] + s[1..];
      [s[0]] + InsertByIdDesc(o, s[1..])
  }

  /** `SELECT * FROM orders ORDER BY id DESC`: a permutation of the table
      with the largest ids first. */
  function SortByIdDesc(s: seq<Order>): (r: seq<Order>)
    ensures SortedByIdDesc(r)
    ensures multiset(r) == multiset(s)
  {
    if s == [] then []
    else
      assert s == [s[0]] + s[1..];
      InsertByIdDesc(s[0], SortByIdDesc(s[1..]))
  }

  function Reversed(s: seq<Order>): (r: seq<Order>)
  {
    if s == [] then [] else Reversed(s[1..]) + [s[0]]
  }

  lemma {:induction false} InsertBelowAll(o: Order, s: seq<Order>)
    requires SortedByIdDesc(s)
    requires forall i :: 0 <= i < |s| ==> s[i].id > o.id
    ensures InsertByIdDesc(o, s) == s + [o]
  {
    if s != [] {
      var tail := s[1..];
      assert forall i :: 0 <= i < |tail| ==> tail[i] == s[i + 1];
      InsertBelowAll(o, tail);
      assert [s[0]] + (tail + [o]) == s + [o];
    }
  }

  /** With serial ids, every row after the first has a larger id. */
  lemma LaterIdsLarger(s: seq<Order>, next: nat)
    requires OrdersSerial(s, next) && s != []
    ensures forall x :: x in s[1..] ==> x.id > s[0].id
  {
    forall x | x in s[1..] ensures x.id > s[0].id {
      var k :| 0 <= k < |s[1..]| && s[1..][k] == x;
      assert s[k + 1] == x;
    }
  }

  /** With serial ids, newest first is the table read backwards. */
  lemma {:induction false} SerialOrdersNewestFirst(s: seq<Order>, next: nat)
    requires OrdersSerial(s, next)
    ensures SortByIdDesc(s) == Reversed(s)
  {
    if s != [] {
      var tail := s[1..];
      assert OrdersSerial(tail, next);
      SerialOrdersNewestFirst(tail, next);
      LaterIdsLarger(s, next);
      var sorted := SortByIdDesc(tail);
      forall i | 0 <= i < |sorted| ensures sorted[i].id > s[0].id {
        assert sorted[i] in multiset(tail);
      }
      InsertBelowAll(s[0], sorted);
    }
  }
}
