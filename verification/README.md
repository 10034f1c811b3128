# Vins Bakery: order cart and order placement, in Dafny

This project models the order logic of the Vins Bakery management
application:

- the **client-side order draft** (`pedidoActual` in `frontend/src/App.js`):
  a list of order lines keyed by product id, with add, remove and
  quantity-edit handlers, the subtotal/discount/total display, the guards
  of order submission, and the password checks of sign-up;
- the **server-side order placement** (`POST /api/pedidos` in
  `backend/server.js`), run as a transaction that either commits the full
  new state or leaves the store as it was;
- the **store effects of the simpler handlers**: registration, the product
  and customer listings, logical product deletion, and customer lookup by
  phone.

The store is an immutable record holding one sequence of rows per table
(`Tables.Store`). Handlers are pure functions of the old store; each returns the
new store, its reply, or both. Order placement is a method that issues the handler's
statements in order on a working copy. Money is exact (`real`).
Quantities and stock are unbounded integers.

Files:

- `tables.dfy`: rows, the order line, the store, `Option`/`Result`.
- `money.dfy`: line amount, the reference subtotal, the percentage discount.
- `sorting.dfy`: lexicographic name order and a stable insertion sort (`ORDER BY nombre`).
- `cart.dfy`: the client's order draft, its handlers and guards.
- `server.dfy`: registration, listings, logical delete, phone lookup.
- `orders.dfy`: order placement and its committed state.

The order handler checks only that the customer row exists. Every
failure, including an unknown customer, rolls back and answers 500
(backend/server.js:327-330). The model checks nothing more.

## Model

| member | source | states |
|---|---|---|
| `Cart.AddProduct` | frontend/src/App.js:170-193 | If the product is already in the cart, every line for it gains exactly one unit and every other line is unchanged. Otherwise one line is appended at the end, holding the product's id, name and price with quantity 1. Distinct product ids stay distinct. |
| `Cart.AddProductSubtotal` | frontend/src/App.js:170-191 | Adding a product raises the cart subtotal by one unit price: the snapshot price of its existing line, or the catalogue price for a new line. |
| `Cart.AddExistingIsIncrement` | frontend/src/App.js:173-181 | In a cart with distinct ids, adding a product that is present equals setting its quantity to its old quantity plus one. |
| `Cart.RemoveProduct` | frontend/src/App.js:195-200 | Afterwards no line for the id remains. Every remaining line was in the cart, and every line for another product is kept. Removing an absent id leaves the cart unchanged. |
| `Cart.RemoveKeepsOrder` | frontend/src/App.js:195-200 | In a cart with distinct ids, removing the product of line k yields exactly the lines before k followed by the lines after k, in their original order. |
| `Cart.RemovePreservesDistinct` | frontend/src/App.js:195-200 | Removing a product keeps product ids pairwise distinct. |
| `Cart.RemoveUndoesAdd` | frontend/src/App.js:182-200 | Adding a product that is not in the cart and then removing it gives back the original cart. |
| `Cart.RemoveProductSubtotal` | frontend/src/App.js:195-205 | Removing a product lowers the subtotal by exactly the amount of its line(s). |
| `Cart.SetQuantity` | frontend/src/App.js:625-634 | Only lines with the matching product id change, and only in their quantity. Every other line, and the order of lines, is kept. |
| `Cart.SetQuantityPreservesDistinct` | frontend/src/App.js:625-634 | Editing a quantity keeps product ids pairwise distinct. |
| `Cart.SetQuantitySubtotal` | frontend/src/App.js:625-634 | After setting a product's quantity to q, the subtotal loses that product's old amount and gains q times its unit price. |
| `Cart.FoldIsSubtotal` | frontend/src/App.js:203-205 | The left-to-right `reduce` starting from an accumulator equals the accumulator plus the reference subtotal. |
| `Cart.BumpSubtotal` | frontend/src/App.js:176-180 | Adding one unit to the lines of a product raises the subtotal by the sum of their unit prices. |
| `Cart.CartTotals` | frontend/src/App.js:202-212 | The displayed subtotal is the sum of unit price times quantity over the lines. The discount is subtotal × percentage / 100 when a customer is selected, and 0 otherwise. The total is subtotal minus discount. |
| `Cart.Submit` | frontend/src/App.js:214-230 | Without a customer, submission fails with `NoCustomer`; this is checked first. Otherwise an empty cart fails with `EmptyCart`. A request exists exactly when both guards pass, and it carries the customer's id, the lines and the notes unchanged. |
| `Cart.SignUp` | frontend/src/App.js:51-74 | A confirmation different from the password is refused first. Otherwise a password shorter than 6 characters is refused. A request exists exactly when both checks pass, and it always asks for the role `administrador`. |
| `Money.SubtotalNonNegative` | backend/server.js:294-297 | With non-negative prices and quantities, the subtotal is non-negative. |
| `Money.DiscountWithinTotal` | backend/server.js:300-301 | For a non-negative total and a percentage in [0, 100], the discount lies in [0, total] and so does the final amount. The code itself imposes no such range. |
| `Money.FinalAmountWithinSubtotal` | frontend/src/App.js:202-211 | For non-negative lines and a percentage in [0, 100], subtotal minus discount lies in [0, subtotal]. |
| `Sorting.SortBy` | backend/server.js:118-120 | The result is a permutation of the input, and its keys are in non-decreasing lexicographic order. |
| `Sorting.NameLeqTotal` | backend/server.js:119 | Any two names are comparable under the name order. |
| `Sorting.NameLeqTransitive` | backend/server.js:119 | The name order is transitive. |
| `Server.ListProducts` | backend/server.js:116-121 | The listing contains exactly the active products, each active row as often as it occurs in the table. It is sorted by name. |
| `Server.ListCustomers` | backend/server.js:183-188 | The listing contains exactly the active customers and is sorted by name. |
| `Server.DeleteProduct` | backend/server.js:164-171 | Logical delete: the rows with that id get `active = false` and keep all other fields. No row is removed, and no other row or table changes. An unknown id changes nothing. |
| `Server.DeleteHidesOnlyThatProduct` | backend/server.js:164-171 | After a delete, a product is listed exactly when it was listed before and has another id. |
| `Server.DeleteIdempotent` | backend/server.js:168-171 | Deleting the same product twice has the same effect as deleting it once. |
| `Server.FindByPhone` | backend/server.js:196-209 | The lookup returns an active customer with that phone, namely the first in table order. It answers not-found exactly when no active customer has that phone. |
| `Server.EffectiveRole` | backend/server.js:100 | A missing or empty role becomes `administrador`; any other role is kept. |
| `Server.Register` | backend/server.js:79-110 | Registration is refused with `EmailTaken` exactly when the email is already used. Otherwise it fails with `InsertFailed` exactly when the database rejects the insert. Both failures leave the store unchanged. On success exactly one user is appended with the given name, email, hashed password and effective role, and nothing else changes. The reply then carries the new user's id, name, email and role (the `RETURNING` columns), never the hash. |
| `Server.RegisterKeepsEmailsUnique` | backend/server.js:84-101 | If emails are unique before registration, they are unique after it. |
| `Server.RegisterTwiceRejected` | backend/server.js:84-91 | Unless the first registration failed at the insert, a second registration with the same email is always refused. |
| `Orders.CustomerRow` | backend/server.js:286-291 | The discount is read from a customer row with the requested id, whether or not the customer is active. There is no row exactly when no customer has that id. |
| `Orders.ApplyOrder` | backend/server.js:304-322 | The committed state appends one header and one detail row per line, in line order. Each detail row snapshots the line and has subtotal quantity × unit price. Each product's stock drops by the total quantity ordered of it, summed over repeated lines. Products not in the order, users and customers are unchanged. |
| `Orders.PlaceOrder` | backend/server.js:277-334 | The transaction is all-or-nothing. It commits exactly when the customer row exists and no statement is rejected, and then the store is exactly `ApplyOrder` at that customer's percentage and the returned header is `OrderHeader`. Otherwise the store is returned unchanged. A missing customer rolls back with `CustomerMissing`. |
| `Orders.SumLines` | backend/server.js:294-297 | The first loop's running total ends at the reference subtotal of the lines. |
| `Orders.InsertLines` | backend/server.js:312-322 | The second loop succeeds exactly when no detail insert or stock update of any line is rejected. It then has appended every line's detail row and applied every line's stock update, in line order. On failure it names a rejected per-line statement. |
| `Orders.DeductAllStock` | backend/server.js:312-321 | Applying the per-line stock updates in order lowers each product row's stock by the total quantity ordered of its id. |
| `Orders.OrderedQtyAbsent` | backend/server.js:318-321 | A product named by no line has an ordered quantity of zero. |
| `Orders.DetailRowsTotal` | backend/server.js:294-316 | The detail subtotals (quantity × unit price) sum to the header total (the sum of unit price × quantity). |
| `Orders.DetailsMatchHeader` | backend/server.js:304-316 | Under an order id not yet used by any detail row, the new order's detail rows in the committed store sum to its header total. |
| `Orders.HeaderFinalWithinTotal` | backend/server.js:294-301 | With non-negative prices and quantities and a percentage in [0, 100], the stored final amount lies between 0 and the stored total. |
| `Orders.ServerAgreesWithClient` | backend/server.js:294-301 | When the customer's stored percentage is the one the client holds, the header the server stores for a submitted cart has the same subtotal, discount and total that `calcularTotalPedido` (frontend/src/App.js:202-211) displayed. |

## Left out

- Login (backend/server.js:38-77, which calls `bcrypt.compare` and `jwt.sign`) and password hashing (`bcrypt`) are left out; registration takes the hash as a parameter. No handler verifies a token, so none of the modelled handlers has an authentication gate.
- The identifiers the database assigns (`id_usuario`, `id_pedido`) are parameters. PostgreSQL does not roll back a consumed serial value, and that counter is not part of the modelled store.
- Which SQL statements the database rejects depends on schema constraints (foreign keys, NOT NULL, CHECK, UNIQUE) that are not part of this model. Order placement therefore takes the set of rejected statements as a parameter, and registration takes whether its insert is rejected. A failure to acquire a pooled connection happens outside the transaction and is not modelled.
- Order columns the database fills by default (`fecha_pedido`, status) are not modelled. Neither are customer columns the core does not use (loyalty tier, purchase count, amount spent).
- Creating and updating products, creating customers, reading orders, reading one order's details, and the statistics endpoint are left out. These are read-only or single-statement handlers outside the order core.
- React rendering, hooks, alerts, `localStorage`, the axios calls and `toLocaleString` formatting are left out. So are the disabled "add" button for a product with zero stock (frontend/src/App.js:589) and the customer selection widgets. These are user-interface concerns.
- Cart.SetQuantity: takes an integer, so the NaN that `parseInt` yields for a cleared field is not modelled. The HTML `min="1"` is only a hint, so any integer, including 0 or a negative one, can be entered.
- JavaScript numbers are floating point; the model uses exact reals, so no rounding is modelled. PostgreSQL `numeric` values arriving as strings, and coerced by `*`, are taken as already numeric.
- A NULL `descuento_actual` would make the discount 0 through JavaScript coercion. The model's customer always has a percentage.
- Server.ListProducts: SQL `ORDER BY nombre` uses the database collation and leaves the order of equal names open. The model compares character codes and fixes one order (stable) among those allowed.
- Server.ListCustomers: same ordering remark as for products.
- Server.FindByPhone: the query has no ORDER BY, so the row `rows[0]` names is whichever the database returns first. The model takes the first in table order.
- Cart.SignUp: the password length is counted in Dafny characters; JavaScript counts UTF-16 code units, and these differ outside the Basic Multilingual Plane.
- Server.ListProducts: a database error answers 500 (backend/server.js:122-125); the model's query always succeeds.
- Server.ListCustomers: a database error answers 500 (backend/server.js:189-192); the model's query always succeeds.
- Server.DeleteProduct: a database error answers 500 (backend/server.js:174-177); the model's update always succeeds. The id is an `int`, so a non-numeric path id such as `abc`, which PostgreSQL would refuse, cannot be expressed.
- Server.FindByPhone: a database error answers 500 (backend/server.js:210-213); the model's query always succeeds.
- Server.Register: only the insert may fail. A failure of the duplicate-email query (backend/server.js:84-87) or of salt generation or hashing (backend/server.js:94-95) would also answer 500 with the store unchanged; these are not modelled separately.
- Concurrent requests are outside this sequential model.
