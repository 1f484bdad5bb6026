# Storefront backend: request-validated persistence, in Dafny

This project models the request handlers of a small e-commerce backend
(`index.js`, an Express application over PostgreSQL). Each route checks its
input fields, makes at most one decision against the database, and answers
with one status from a fixed set. The database is modelled as six tables held
in memory, each a sequence of rows in insertion order: `register` (users),
`adminlogin`, `orders`, `cart`, `details` and `products`.

- `js.dfy` (module `Js`): request-body fields as JavaScript scalars
  (`JsValue`: `undefined`, `null`, booleans, integers, strings). It defines
  truthiness (`Truthy`, the meaning of `!x`) and `String(x)` (`ToJsString`).
  A regular-expression test applies `String(x)` to its argument, and the
  PostgreSQL client sends statement parameters as that text (`ToParam`;
  `null` and `undefined` become SQL NULL).
- `validation.dfy` (module `Validation`): the two anchored patterns of the
  details route, `^[A-Za-z\s]+$` and `^\d{10}$`, both written as small
  recursive matchers. Also `String.prototype.trim` and the three ordered
  checks (`CheckDetails`). White space is the ECMAScript set of white-space
  and line-terminator code points.
- `tables.dfy` (module `Tables`): row types and the SQL queries the routes
  issue, as functions on sequences. These are the credential lookups, the
  filters by user name, the lookup by product id, the name projection and
  `ORDER BY id DESC`.
- `server.dfy` (module `Server`): a `Store` class with one field per table
  and one id counter per serial column. The inserting routes (`/register`,
  `POST /orders`, `/add-to-cart`, `/details`, `/product`) are methods that
  modify the store. Each states its status and its whole new state, as one
  update of the old state. The reading routes are functions of the store.
  `Valid()` is the invariant every inserting route keeps: user names are
  unique, and ids increase with insertion order. The successful insert of
  each route is a small `Append…` method of its own that keeps `Valid()`.
- `scenarios.dfy` (module `Scenarios`): request sequences proved from the
  route contracts and the query definitions. Examples: register then log in, a second
  registration conflicts, the same item added twice gives two rows.

A failing database statement is a boolean parameter of the route
(`queryFails`, `insertFails`; `/register` has one flag per statement). The
route then answers 500 and the store is unchanged. The driver's reasons for
failing are not modelled.

`/details` runs its checks before its `try` block. An `address` that is not
a string (missing, `null`, a number or a boolean) has no `trim` method, so
the handler raises a TypeError. Under Express 4
nothing catches the rejected promise of the async handler and no response is
sent. The model gives this case its own outcome: `AddressThrows` from
`CheckDetails` and `NoResponse` from `Store.SubmitDetails`. Nothing is
inserted. A stricter server would answer 400 here; the model keeps the code's
behaviour.

## Model

| member | source | states |
|---|---|---|
| `Validation.MatchesName` | index.js:211 | the name pattern accepts exactly the non-empty strings made only of ASCII letters and white space |
| `Validation.MatchesDigits` | index.js:214 | the mobile pattern (with n = 10) accepts exactly the strings of n ASCII digits and nothing else |
| `Validation.Trim` | index.js:217 | trimming yields a piece of the input with only white space cut off on both sides, with no white space at either end; it is empty exactly when the input is blank |
| `Validation.TrimIdempotent` | index.js:217 | trimming twice is the same as trimming once |
| `Validation.CheckDetails` | index.js:210-219 | the checks run name, mobile, address; each outcome holds exactly when the earlier checks pass and its own fails; an address that is not a string throws; a submission is accepted iff all three pass |
| `Validation.SampleFieldsPass` | index.js:211-216 | the sample name "Jane Doe" and mobile "9876543210" pass the first two checks |
| `Validation.DigitsInNameRejected` | index.js:211-213 | the sample name "John123", which contains digits, is rejected by the first check |
| `Validation.ShortMobileRejected` | index.js:214-216 | the sample five-digit mobile "12345" is rejected by the second check |
| `Validation.BlankAddressRejected` | index.js:217-219 | the sample address "   " of spaces only is rejected by the third check |
| `Validation.WellFormedDetailsAccepted` | index.js:210-219 | the sample submission of a letters-and-space name, a ten-digit mobile and a non-blank address passes all three checks |
| `Validation.PaddedAddressAccepted` | index.js:217 | the sample address "  12 Elm St ", with leading and trailing spaces, is not blank and is accepted |
| `Validation.NumericMobileAccepted` | index.js:214 | a mobile sent as a ten-digit JSON number passes, because the pattern test converts it to text first |
| `Validation.NameCoercion` | index.js:211 | `null` fails the presence test although its text would match; `true` passes because its text "true" matches |
| `Js.FalsyValues` | index.js:87 | the presence test `!x` rejects exactly `undefined`, `null`, `false`, `0` and the empty string |
| `Js.ToJsStringText` | index.js:211-214 | the text a pattern test sees: a string is itself; an integer is its decimal digits without leading zeros ("0" for 0), preceded by a minus sign exactly when negative; `undefined`, `null`, `true` and `false` give "undefined", "null", "true" and "false" |
| `Js.NumberTextInjective` | index.js:214 | two integers with the same text are equal (for the integers JavaScript holds exactly) |
| `Js.PresentParamIsText` | index.js:87-92 | a value that passed the presence test is sent to PostgreSQL as its text, never NULL, which is why checked columns hold plain strings |
| `Js.FalsyParams` | index.js:180-182 | of the falsy values an unchecked field may hold (here and in the products insert, index.js:238-241), only `undefined` and `null` become SQL NULL; `false`, `0` and `""` are sent as the texts "false", "0" and "" |
| `Validation.AsciiWhiteSpace` | index.js:211-217 | the white space of `\s` and `trim` is, among ASCII characters, exactly tab, line feed, vertical tab, form feed, carriage return and space, and never a letter or a digit |
| `Js.NatToDecimal` | index.js:214 | the text of a number is a non-empty digit string, without a leading zero, that is "0" for 0 and reads back as the number |
| `Tables.HasName` | index.js:40-42 | the uniqueness lookup finds a row iff some `register` row has exactly that name |
| `Tables.HasCredential` | index.js:65-70 | the credential lookup finds a row iff the table contains exactly that name and password pair |
| `Tables.AppendFreshName` | index.js:39-47 | inserting a name the lookup did not find keeps user names unique |
| `Tables.WrongPasswordNeverMatches` | index.js:65-73 | with unique names, a registered name with a password other than its own never matches |
| `Tables.Names` | index.js:114-115 | the customer projection has one name per `register` row, in table order |
| `Tables.OrdersOf` | index.js:160 | the orders filter keeps every order of the user as often as the table holds it, and no other row; it is empty iff no order has that user name |
| `Tables.CartOf` | index.js:198 | the cart filter keeps every cart row of the user as often as the table holds it, and no other row |
| `Tables.OrdersAppend` | index.js:91-92 | an order inserted with the next sequence value keeps order ids increasing and below the next one |
| `Tables.DetailsAppend` | index.js:223-226 | the same for a detail row |
| `Tables.ProductsAppend` | index.js:238-241 | the same for a product row |
| `Tables.FindProduct` | index.js:260-264 | the id lookup returns nothing iff no product has the id, else the first product with that id |
| `Tables.FindProductExact` | index.js:260-264 | with serial ids, looking up a product's id returns that product exactly when it is in the table |
| `Tables.InsertByIdDesc` | index.js:105 | inserting into a list sorted by descending id keeps it sorted and adds exactly that row |
| `Tables.SortByIdDesc` | index.js:105 | the sorted listing is ordered by descending id and is a permutation of the table |
| `Tables.SerialOrdersNewestFirst` | index.js:105 | with serial ids, sorting by descending id gives the table in reverse insertion order |
| `Server.Store.Register` | index.js:31-54 | 400 iff name or password is falsy; 409 iff the lookup ran and found the name; 201 iff it ran, found nothing and the insert succeeded, which appends exactly one row with the name and password; every other case changes nothing; user names stay unique |
| `Server.Store.Login` | index.js:56-80 | 400 iff a field is falsy; otherwise 500 on a failed query, else 200 iff `register` contains exactly that pair, else 401; nothing changes |
| `Server.Store.AdminLogin` | index.js:125-149 | the same decision against `adminlogin` |
| `Server.Store.Customers` | index.js:112-120 | 200 with the name of every registered user in table order, or 500 |
| `Server.Store.PlaceOrder` | index.js:81-99 | 400 iff any of the five fields is falsy (so a price or product id of 0 is refused); 201 iff all are present and the insert succeeds, which appends one order with the next id and the five values; otherwise nothing changes |
| `Server.Store.ListOrders` | index.js:103-111 | 200 with every order, sorted by descending id, as a permutation of the table; or 500 |
| `Server.Store.OrdersFor` | index.js:152-171 | 400 iff the user name is empty; 404 iff no order has that user name; 200 iff one does, with exactly that user's orders |
| `Server.Store.AddToCart` | index.js:172-189 | 400 iff the user name is falsy; otherwise 200 and one appended row, even for an item already in the cart, unless the insert fails (500, nothing changes) |
| `Server.Store.CartFor` | index.js:190-204 | 400 iff the user name is empty; otherwise 200 with exactly that user's cart rows, possibly none; never 404 |
| `Server.Store.SubmitDetails` | index.js:207-234 | 400 iff a check fails; no response iff the address is not a string; 201 iff all checks pass and the insert succeeds, which appends a row with the next id and the untrimmed address and returns it; otherwise nothing changes |
| `Server.Store.CreateProduct` | index.js:235-247 | no field is checked: 201 with the new row (next id, the four values or NULL) iff the insert succeeds, else 500 with nothing changed |
| `Server.Store.ListProducts` | index.js:248-256 | 500 iff the query fails, with no body; otherwise 200 with a permutation of the products table, so an empty list for an empty table |
| `Server.Store.GetProduct` | index.js:257-269 | 404 iff no product has the id; 200 iff one does, with a product from the table that has that id; 500 on a failed query |
| `Server.WrongPasswordUnauthorized` | index.js:60-74 | a registered user name with a wrong password gets 401 |
| `Server.ListOrdersNewestFirst` | index.js:105-106 | in a valid store the order listing is the table in reverse insertion order |
| `Server.GetProductByOwnId` | index.js:257-264 | in a valid store, looking up a stored product's id returns exactly that product |
| `Scenarios.RegisterThenLogin` | index.js:35-71 | registering a fresh name and then logging in with the same pair gives 201 then 200 |
| `Scenarios.RegisterTwice` | index.js:39-48 | a second registration of a name gets 409 whatever the password, and the first password still logs in |
| `Scenarios.ZeroPriceOrderRefused` | index.js:87-89 | an order with price 0 gets 400 and stores nothing |
| `Scenarios.AddSameItemTwice` | index.js:175-184 | adding the same item twice leaves two equal rows in the cart |
| `Scenarios.OrdersListedNewestFirst` | index.js:91-106 | on an empty orders table, two orders placed in turn are listed with the later one first |
| `Scenarios.ListingOfTwo` | index.js:103-106 | a store holding two orders answers the order listing with the one with the larger id first |
| `Scenarios.SortTwo` | index.js:105 | of two orders, the one with the larger id is listed first |
| `Scenarios.EmptyDatabaseAnswers` | index.js:160-166 | on an empty database a user's orders give 404, the same user's cart gives 200 with no rows, and a product lookup gives 404 |
| `Scenarios.DetailsKeepRawAddress` | index.js:217-229 | the sample submission with a padded address is accepted, and its address is stored and returned as sent, with its spaces, under the next id |

## Left out

- Express setup, CORS, JSON body parsing, dotenv and `app.listen` (index.js:1-14, 271-273) are framework plumbing.
- The PostgreSQL client, its connection string, its TLS settings and `db.connect()` (index.js:17-28) are a network client. Tables are sequences and statements are functions or updates on them.
- The reasons a statement fails are not modelled. A failure is a boolean parameter that forces 500 and changes nothing.
- Concurrency is out of scope. Requests are modelled one at a time, so the race between two `/register` calls for the same name is not modelled.
- Console logging and the wording of message bodies (`message` versus `error` keys) are not modelled. Replies carry the status, plus the rows for routes that return rows.
- JSON objects and arrays as field values are not modelled. Fields are scalars only.
- Floating-point numbers are not modelled. `Num(n)` stands for an integer JavaScript holds exactly, |n| <= 2^53; prices with fractions, `NaN` and `Infinity` are out.
- Js.ToJsString: integers of magnitude above 2^53 and their text are not modelled. JavaScript rounds them to a double when parsing the body, so two different literals can become the same number and print as the same text (`String(2**60)` is "1152921504606847000"); from 10^21 on they print in exponent form. The model prints every integer exactly in plain decimal, so for such values the register/login name match (index.js:40, 66) and the stored text of numeric fields (index.js:92, 182, 240) can differ from the source. Neither pattern accepts such a number either way.
- Column types are not modelled, because the schema is not part of this repository. Cells keep the text the client sent. The storage's type conversions, and the type of each column in returned rows, are not modelled.
- Server.Store.GetProduct: takes the id as an integer. PostgreSQL's conversion of the path text to an integer is not modelled; a non-numeric id failing there falls under the failure flag.
- Server.Store.GetProduct: its contract says the payload is a product with the requested id. `Server.GetProductByOwnId` adds that under serial ids it is the only one.
- Ids of `register` rows are not modelled; the source neither reads nor returns them. Cart rows are modelled by the five columns the source inserts; any further column of `cart` that GET /cart/:username would return with `SELECT *` (index.js:198-199) is not modelled.
- A failed insert leaves the id counter unchanged. In PostgreSQL a sequence value may be used up even when its INSERT fails.
- What happens after the TypeError in `/details` (index.js:217) is not modelled. Under Express 4 the request hangs or, depending on the Node version, the process ends; under Express 5 the router catches the rejected promise and its default error handler answers 500. The repository pins no Express version.
- Strings are sequences of Unicode scalar values, not UTF-16 code units. The patterns accept only ASCII letters, ASCII digits and white space, all of which are single code units, so the checks are unaffected.
- Server.Store.ListProducts: `SELECT * FROM products` (index.js:250) has no ORDER BY. The body returns the rows in insertion order, but the contract promises only a permutation of the table.
- Server.Store.Customers: its contract lists the names in table order. `SELECT name FROM register` (index.js:114) has no ORDER BY, and its natural order is likewise modelled as insertion order.
