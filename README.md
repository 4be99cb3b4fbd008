# Cart and order rules of a NestJS e-commerce backend, in Dafny

This project models the business rules of the shop's three services. It leaves out the HTTP layer and the ORM:
- the cart service (`CartsService`): add a product, remove it, change its quantity, look the cart up;
- the order service (`OrdersService`): look an order up, change its status, apply a coupon, turn a cart into an order;
- the user service (`UsersService.getOrders`): a user's order history.

## The model

- **The database** is one object, `Store.Db`, that the three services share, as the injected Prisma client is.
  Its fields are the tables:
  - `users`: a set of user ids;
  - `products`: id to name, description, price and stock;
  - `carts`: user id to cart id and running total;
  - `cartItems`: the cart-item table as a sequence of rows, keyed by (cartId, productId);
  - `orders`: id to user, date, status, total and items;
  - `nextOrderId`: the order table's autoincrement;
  - `coupons`: code to discount and expiration.

  `Db.Valid()` states the schema's constraints (`Store.Wellformed` over the tables' values). The `Db` constructor gives an empty store that meets them:
  - no stock is negative;
  - foreign keys resolve: every cart's user exists, every cart-item row's cart and product exist, every order's user exists, and every order item's product exists;
  - no two users share a cart id, and every order id is below the autoincrement;
  - cart-item keys are unique, and cart-item quantities are at least 1;
  - no order names a product twice.
- **Writes** (`addProduct`, `removeProduct`, `updateCart`, `updateOrderStatus`, `applyCoupon`, `createOrder`) are methods.
  - Each one reads, checks, then updates the tables in the source's order.
  - Each `modifies` only the tables the source writes.
  - Each states its whole new state in terms of the old one.
  - Each method treats its sequence of ORM calls as one atomic step, including each `$transaction`.
- **Lookups** (`getCart`, `getOrder`, `getOrders`) are functions that read the database.
- **Thrown exceptions** become `Tables.Result`:
  - `NotFound` is 404;
  - `Conflict` is 409;
  - `Gone` is 410.

  Every method states exactly which inputs lead to each outcome. On failure, no table changes.
- **Prices and totals** are exact reals. Timestamps are integers, and "now" is a parameter of `applyCoupon` and `createOrder`.
- **The cart's running total.**
  - `CartRows.LineTotal` is the sum of quantity × price over a cart's rows.
  - `Db.TotalsConsistent()` says that every cart's `total` equals it.
  - Each of the three cart writes changes the total by the value its row change adds (`LineTotalAppend`, `LineTotalUpdate`, `LineTotalDelete`).
  - So each cart write keeps `TotalsConsistent()`, and so do the order writes.
- **Stock.**
  - `Stock.Destocked` takes every item's quantity off its product's stock. `Stock.Restocked` puts it back.
  - `createOrder` checks every item against stock before any write. Because a cart names each product once, the stock it then takes never goes negative (`DestockedNonNegative`).
  - `Restocked` undoes `Destocked` (`RestockUndoesDestock`). So cancelling the order just created restores every product's stock (`Orders.CreateThenCancel`).
  - Moving into `Canceled` always gives stock back. So an order moved Canceled → Pending → Canceled gives its stock back twice; the model keeps this behaviour.
- **Coupons.** Nothing records that a coupon was applied, so coupons compound (`Orders.CouponsCompound`).

## Model

| member | source | states |
|---|---|---|
| `Carts.AddProduct` | src/carts/carts.service.ts:21-69 | NotFound exactly when the user has no cart or the product is missing. Conflict exactly when stock is 0. Neither changes a table. Otherwise the cart total rises by one unit price, and the cart's row for the product gains 1 (or a row of quantity 1 is appended). No other row, cart or product changes, and consistent totals stay consistent |
| `Carts.BumpKeepsInvariants` | src/carts/carts.service.ts:38-60 | when the cart already holds the product, raising its row by 1 and the cart's total by the unit price keeps every schema constraint, and consistent running totals stay consistent |
| `Carts.FirstUnitKeepsInvariants` | src/carts/carts.service.ts:38-68 | when the cart does not hold the product, appending a row of quantity 1 and raising the cart's total by the unit price keeps every schema constraint, and consistent running totals stay consistent |
| `Carts.RemoveProduct` | src/carts/carts.service.ts:78-112 | NotFound exactly when the cart, the product or the cart's row for it is missing, with no change. Otherwise the total drops by price × the row's quantity and exactly that row is deleted. Consistent totals stay consistent |
| `Carts.GetCart` | src/carts/carts.service.ts:120-141 | NotFound exactly when the user has no cart. Otherwise the cart's id and total, and its rows in order, each joined with its product's name, description and price |
| `Carts.CartViewAddsUp` | src/carts/carts.service.ts:120-141 | when totals are consistent, the total getCart shows is the sum of quantity × shown price over its lines |
| `Carts.UpdateCart` | src/carts/carts.service.ts:150-192 | NotFound exactly when the cart, the product or the row is missing. Conflict exactly when the new quantity minus the old exceeds stock. Neither changes a table. Otherwise the total becomes old − oldQty × price + newQty × price, and only that row's quantity changes, to the new value. Consistent totals stay consistent |
| `CartRows.Find` | src/carts/carts.service.ts:46-48 | the position of the row with key (cartId, productId), or None exactly when no row has that key |
| `CartRows.ItemsOf` | src/orders/orders.service.ts:119-128 | the rows of one cart: every row of that cart and no other |
| `CartRows.WithoutCart` | src/orders/orders.service.ts:170-172 | the table after deleting one cart's rows: every row of other carts and none of that cart's |
| `CartRows.Snapshot` | src/orders/orders.service.ts:161-167 | order items copy cart items one for one, product and quantity, in order |
| `CartRows.LineTotalAppend` | src/carts/carts.service.ts:61-67 | creating a row adds exactly that row's quantity × price to its own cart's line total and nothing to any other cart's |
| `CartRows.LineTotalUpdate` | src/carts/carts.service.ts:183-191 | changing a row changes its cart's line total by new line value − old line value |
| `CartRows.LineTotalDelete` | src/carts/carts.service.ts:103-110 | deleting a row takes exactly its quantity × price off its cart's line total |
| `CartRows.LineTotalWithoutCart` | src/orders/orders.service.ts:170-176 | after a cart's rows are deleted its line total is 0, and every other cart's is unchanged |
| `CartRows.UpdateKeepsOtherTotals` | src/carts/carts.service.ts:183-191 | changing a row of one cart leaves every other cart's line total unchanged |
| `CartRows.AppendKeepsOtherTotals` | src/carts/carts.service.ts:61-67 | creating a row of one cart leaves every other cart's line total unchanged |
| `CartRows.DeleteKeepsOtherTotals` | src/carts/carts.service.ts:103-110 | deleting a row of one cart leaves every other cart's line total unchanged |
| `CartRows.CartChangeKeepsTotals` | src/carts/carts.service.ts:38-43 | if a cart's rows gain exactly what its total gains and no other cart's rows change, every cart's total still equals the sum over its items |
| `CartRows.ClearedCartIsEmpty` | src/orders/orders.service.ts:170-172 | after deleteMany on a cart, that cart has no items, and every other cart keeps its items |
| `CartRows.SnapshotValue` | src/orders/orders.service.ts:151-167 | a cart's line total equals the value of the order items copied from it, so a consistent cart total becomes an order total equal to its items' value |
| `CartRows.ItemsOfDistinct` | src/carts/carts.service.ts:53-56 | with unique (cartId, productId) keys, a cart names each product at most once |
| `CartRows.SnapshotWellFormed` | src/orders/orders.service.ts:160-167 | the items an order copies from a cart name each product once, only existing products, and quantities of at least 1 |
| `CartRows.WithoutCartUnique` | src/orders/orders.service.ts:170-172 | deleting a cart's rows keeps the keys unique |
| `CartRows.TotalChangeKeepsCartIds` | src/carts/carts.service.ts:38-43 | updating a cart's total leaves the set of cart ids as it was, so every cart-item row still belongs to a cart |
| `CartRows.DeleteUnique` | src/carts/carts.service.ts:103-110 | deleting one row keeps the keys unique |
| `CartRows.UpdateKeepsRowsWellFormed` | src/carts/carts.service.ts:52-60 | raising a row's quantity in place keeps the keys unique, the carts and products existing and the quantities at least 1 |
| `CartRows.AppendKeepsRowsWellFormed` | src/carts/carts.service.ts:62-68 | creating a row under a key no row has, for an existing cart and product with quantity 1, keeps the cart-item table well formed |
| `CartRows.DeleteKeepsRowsWellFormed` | src/carts/carts.service.ts:103-110 | deleting one row keeps the cart-item table well formed |
| `CartRows.ClearKeepsRowsWellFormed` | src/orders/orders.service.ts:170-172 | deleting one cart's rows keeps the cart-item table well formed |
| `Store.CartWriteKeepsWellformed` | src/carts/carts.service.ts:38-43 | a cart write that changes one cart's total and leaves a well-formed cart-item table keeps every constraint of the schema |
| `Stock.QtyOfNonNegative` | src/orders/orders.service.ts:68-76 | items of positive quantity never give back a negative amount of stock |
| `Stock.QtyOfDistinct` | src/orders/orders.service.ts:142-147 | when items name each product once, the stock moved for a product is its one item's quantity, or 0 |
| `Stock.DestockStep` | src/orders/orders.service.ts:142-147 | taking the items one at a time, each step is one product update that decrements by the item's quantity |
| `Stock.RestockStep` | src/orders/orders.service.ts:69-74 | giving the items back one at a time, each step is one product update that increments by the item's quantity |
| `Stock.DestockedPerItem` | src/orders/orders.service.ts:142-147 | ordering lowers each ordered product's stock by exactly its item's quantity and leaves other products unchanged |
| `Stock.RestockedPerItem` | src/orders/orders.service.ts:68-76 | cancelling raises each ordered product's stock by exactly its item's quantity and leaves other products unchanged |
| `Stock.RestockUndoesDestock` | src/orders/orders.service.ts:68-76 | giving back the quantities taken for the same items restores every product exactly |
| `Stock.DestockedNonNegative` | src/orders/orders.service.ts:131-148 | when stock covers every item of a list that names each product once, taking the items leaves every stock ≥ 0 |
| `Stock.StockMovesKeepPrices` | src/orders/orders.service.ts:142-147 | stock moves change no price |
| `Store.Details` | src/orders/orders.service.ts:25-36 | each item is shown with its product's name, description and current price, one line per item, in order |
| `Store.DetailsValue` | src/carts/carts.service.ts:124-134 | the shown lines are worth the items' value at current prices |
| `Orders.StatusChangeKeepsWellformed` | src/orders/orders.service.ts:64-77 | a status change keeps every constraint of the schema, including the stock a cancellation gives back |
| `Orders.TotalChangeKeepsWellformed` | src/orders/orders.service.ts:105-108 | a new order total keeps every constraint of the schema |
| `Orders.OrderPlacedKeepsWellformed` | src/orders/orders.service.ts:140-178 | turning a cart whose items the stock covers into a new order keeps every constraint of the schema: no stock goes negative, the order names existing products once each, and the cart's rows are gone |
| `Orders.OrderPlacedKeepsTotals` | src/orders/orders.service.ts:151-178 | turning a cart into an order keeps every running total consistent, the emptied cart's at 0, and the order's total is the value of its items at current prices |
| `Orders.GetOrder` | src/orders/orders.service.ts:21-42 | NotFound exactly when the order is missing. Otherwise the stored order with each item joined to its product. A lookup changes nothing |
| `Orders.ReturnStock` | src/orders/orders.service.ts:68-76 | the per-item increments, done one product at a time, leave exactly `Restocked` |
| `Orders.TakeStock` | src/orders/orders.service.ts:142-148 | the per-item decrements, done one product at a time, leave exactly `Destocked` |
| `Orders.UpdateOrderStatus` | src/orders/orders.service.ts:52-81 | NotFound exactly when the order is missing. Conflict exactly when the status would not change. Neither changes a table. Otherwise only the status changes. Stock is given back by every item's quantity if and only if the new status is Canceled, and otherwise no product changes |
| `Orders.Discounted` | src/orders/orders.service.ts:107 | a discount of 0 keeps the total and a discount of 100 zeroes it. A discount in 0..100 keeps a non-negative total non-negative and never raises it |
| `Orders.CouponsCompound` | src/orders/orders.service.ts:105-108 | two coupons applied in turn multiply their factors |
| `Orders.ApplyCoupon` | src/orders/orders.service.ts:90-109 | NotFound exactly when the order or the coupon is missing. Gone exactly when the coupon expired before now. Neither changes a table. Otherwise only the order's total changes, to its discounted value |
| `Orders.FindShortage` | src/orders/orders.service.ts:131-137 | None exactly when stock covers every item. Otherwise the first item whose quantity exceeds its product's stock |
| `Orders.CreateOrder` | src/orders/orders.service.ts:118-180 | NotFound exactly without a cart. Conflict exactly when some cart item exceeds its product's stock. Neither changes a table. Otherwise, in one step, every product's stock drops by its cart quantity and stays ≥ 0. One new Pending order is created under the id the autoincrement hands out, which then advances by 1, with the cart's total, the given date and the cart's items. All the cart's items are deleted and its total becomes 0. Other carts and orders are unchanged, and with consistent totals the order's total is its items' value |
| `Orders.CreateThenCancel` | src/orders/orders.service.ts:142-148 | creating an order and then cancelling it leaves every product's stock as before the order |
| `Users.GetOrders` | src/users/users.service.ts:14-22 | NotFound exactly when the user does not exist. Otherwise exactly the orders whose userId is the user's, all of them and only them. A lookup changes nothing |
| `Users.NoOrdersIsEmptyHistory` | src/users/users.service.ts:18-21 | an existing user without orders gets an empty history, not NotFound |
| `Users.OrderListedForItsUser` | src/users/users.service.ts:19-21 | every order getOrder finds is in its user's history and in no other user's |

## Left out

- HTTP routing, request validation and API documentation (the controllers, DTOs, module wiring) are left out. Two DTO constraints are kept: the cart quantity of at least 1, as a precondition of `UpdateCart`, and the four order statuses, as the `Status` datatype.
- The seeding script and the Prisma client are left out. The database is the `Db` object; a failure of the data store (HTTP 500) is not modelled.
- Concurrency between requests is not modelled, because each call runs alone here. That includes the race between `createOrder`'s stock check and its transaction.
- A crash between the two writes of `addProduct`, `removeProduct` or `updateCart` is not modelled: they are not in a transaction, and each call is one atomic step here.
- JavaScript floating-point rounding of prices, totals and discounts is not modelled; the arithmetic is exact.
- `new Date()` is the parameter `now`, and dates are integers.
- `Users.GetOrders` returns the user's orders as a map keyed by order id. The order of the list the query returns is not modelled.
- Exception messages are not modelled, including the product name in `createOrder`'s Conflict message. The failing item is returned by `Orders.FindShortage`.
- `Orders.CreateOrder`, `Orders.UpdateOrderStatus`, `Orders.ApplyCoupon` and `Users.GetOrders`: the model's `Order` value carries its items; the rows that the source's `order.create`, `order.update` and `order.findMany` return do not.
- `Orders.TakeStock`, `Orders.ReturnStock` and `Orders.FindShortage` require every item's product to exist. The foreign keys guarantee this (`Db.Valid()`). In the source, an update of a missing product would throw and roll back.
- `Carts.GetCart` and `Orders.GetOrder` require `Db.Valid()`, so that every item's product can be joined. The foreign keys guarantee this.
- `Orders.Discounted`: the bounds hold only for discounts in 0..100. The source does not limit a coupon's discount.
