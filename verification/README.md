# Shopping-Cart inventory-and-cart ledger in Dafny

This project models the ledger behind the storefront's Redis calls. The ledger
has three maps:

- the product catalog: product id to name, price and stock;
- the cart lines: (user, product) to name, price and quantity;
- the orders: (user, timestamp) to items and total.

Every route and every MULTI block is one atomic transition. It is a pure
function from a `Store` to a `Step(outcome, store)`. The typed keys
`CartKey(user, item)` and `OrderKey(user, timestamp)` replace the store's
`cart:<user>:item:<item>` and `order:<user>:<timestamp>` strings.

Modules, following the two source files:

- `Ledger` (ledger.dfy): the data model and the predicates over it. These
  include "other users' lines untouched", "no negative stock", "every line
  holds at least one unit", and `IsEnumeration`. `IsEnumeration` says that a
  `keys` sequence lists each of a user's lines exactly once. A KEYS scan
  returns the lines in an arbitrary order, so every loop over a cart takes that
  order as a parameter.
- `Sums` (sums.dfy): two sums over the whole cart that do not depend on order.
  The first is the units of a product reserved across all users' carts. The
  second is the value `price * quantity` of one user's cart. Lemmas show that a
  loop over any enumeration of a user's lines ends with that value.
- `Catalog` (catalog.dfy): start-up seeding of the ten initial products.
- `CartService` (cart_service.dfy): `addItemToCart` with its validation, stock
  check and reservation, plus `clearCart` and `getCartItems`.
- `CartRoutes` (cart_routes.dfy): the server's cart routes (view, add, update,
  remove, clear) and the cart total shown on the store and checkout pages.
- `Checkout` (checkout.dfy): `POST /checkout` and `POST /place-order`. Both are
  built on one loop, `StockLoop`. When its `consume` flag is set, it deletes
  each line as it goes.
- `Interplay` (interplay.dfy): invariants kept across operations, and what
  happens when the service's reserving add meets the server's routes.

How stock moves in the code:

- `cartService.js` reserves stock at add time, but `server.js` never calls it.
  The server's cart routes neither reserve nor release stock, and both
  checkout paths decrement stock again.
- `ServiceAddThenPlaceOrderTakesStockTwice` shows the double decrement.
  `LastUnitsCannotBeOrdered` shows that a cart holding the last units cannot be
  ordered. `ServiceAddThenRouteRemoveLosesStock` shows that removing a reserved
  line leaves the stock short.
- Neither checkout path is all-or-nothing. A stop at a blocked line keeps the
  decrements already made for earlier lines. `POST /checkout` also keeps the
  deletions of those lines.
- The service accepts a negative price. Only a NaN price is refused.
- `POST /place-order` on an empty cart writes an order with no items and a
  total of 0.
- `POST /cart/:userId/clear` clears the cart but never sends a response. The
  model has no outcome for it.

Quantities, prices and stock are unbounded integers. The seed prices are
integers. Service arguments are modelled as follows:

- The ids and the name are `Option<string>`. They are falsy when absent or
  empty.
- The quantity and the price are `NumArg`: absent, not a number once parsed,
  or a parsed integer.
- The order timestamp, which comes from the clock in the source, is a
  parameter.

## Model

| member | source | states |
|---|---|---|
| CartService.AddItemToCart | cartService.js:30-70 | The result is "Missing required fields" exactly when an id or the name is falsy, or the quantity or price is undefined. Otherwise it is "Invalid quantity or price" exactly when either does not parse or the quantity is not positive. Then "Product not found" exactly when the id is not in the catalog. Then "Not enough stock" exactly when stock < quantity. Every error leaves the store unchanged. A success writes back that product's record with only its stock changed: reduced by exactly the quantity and still at or above 0. It leaves other products, orders and other users' lines unchanged. |
| CartService.AddedLine | cartService.js:57-64 | After a successful add, an existing line holds the old quantity plus the added one, with its name and price kept. A new line holds the caller's name, quantity and price. No other line changes. |
| CartService.AddConservesStockPlusReserved | cartService.js:53-65 | For every product, stock plus the units in all users' carts is the same before and after any add. |
| CartService.AddKeepsStockNonNegative | cartService.js:51-55 | No add takes any product's stock below zero. |
| CartService.ClearCart | cartService.js:14-22 | No line of the user is left. Other users' lines, stock and orders are unchanged. On a user with no lines it changes nothing. |
| CartService.GetCartItems | cartService.js:78-88 | Returns exactly the lines whose key belongs to the user, with their stored values. |
| CartService.ListingFollowsOwnership | cartService.js:78-88 | After a clear, the user's listing is empty. Another user's listing is unchanged by any transition that leaves their lines alone. |
| Catalog.Seed | server.js:29-47 | An empty catalog becomes the ten initial products. A non-empty catalog, the carts and the orders are left as they are. |
| Catalog.SeedIdempotent | server.js:29-47 | After seeding the catalog is non-empty, so seeding again is a no-op. |
| Catalog.SeededCatalogWellFormed | server.js:31-42 | Seeding keeps stock non-negative. Every seeded product has a name and a non-negative price. |
| CartRoutes.ViewCart | server.js:143-158 | Returns the user's lines keyed by product id: exactly the products the user has a line for, with those lines. |
| CartRoutes.ViewMatchesListing | server.js:145-156 | The route's view and the service's listing show the same lines of a user: a product id is in the view exactly when the listing holds that user's key for it, and both give the same line. |
| CartRoutes.Add | server.js:160-177 | An existing line grows by the given quantity, with no stock check. Otherwise a missing product gives 404 and no change. Otherwise a new line gets the product's name and price snapshot. Stock, orders and other users' lines never change. |
| CartRoutes.Update | server.js:179-197 | "increase" adds exactly one unit. "decrease" deletes a line of at most one unit and otherwise subtracts one, so a surviving line keeps at least one unit. Both keep the line's name and price, changing only its quantity. Any other action changes nothing. Only the targeted line changes, and stock never does. |
| CartRoutes.Remove | server.js:199-206 | Deletes only the targeted line. Stock, orders and every other line are unchanged. |
| CartRoutes.Clear | server.js:208-213 | Afterwards the user's cart view is empty. Every other user's view, stock and orders are unchanged. |
| CartRoutes.DisplayedTotal | server.js:85-95 | The loop over the user's lines, in whatever order KEYS gives, returns the sum of price * quantity over all of the user's lines. The checkout page (server.js, lines 221-226) runs the same loop. |
| CartRoutes.IncreaseThenDecrease | server.js:187-195 | Increase followed by decrease gives back the store when the line holds at least one unit. |
| CartRoutes.AddThenRemove | server.js:165-204 | Adding a product the user had no line for, then removing it, gives back the store. |
| Checkout.FirstBlocked | server.js:279-283 | Gives the index of the first line whose product is missing or has less stock than the line's quantity, or the number of lines when there is none. |
| Checkout.StockLoopHalt | server.js:276-283 | The walk over the lines completes exactly when no line is blocked. Otherwise it stops at the first blocked line: the 500 path for a missing product, and "not enough stock" with the product's name otherwise. |
| Checkout.StockLoopProducts | server.js:276-287 | Each line before the first blocked one has its quantity taken off its product's stock, with the rest of the product record kept. Every other product is unchanged, and so is the catalog's key set. |
| Checkout.StockLoopCarts | server.js:237-248 | When consuming, the lines before the first blocked one are deleted. All other lines are kept unchanged. |
| Checkout.CheckoutEffect | server.js:231-254 | POST /checkout succeeds exactly when no line is blocked. The lines before the first blocked one are deleted, and their products are written back with only the stock reduced by the line's quantity; that line and the rest remain. Orders and other users' lines are unchanged. On success the user's cart is empty. |
| Checkout.OrderItems | server.js:289-294 | Gives one order item per line in loop order, carrying the line's product id, name, quantity and price. |
| Checkout.ItemsTotalIsSeqTotal | server.js:289-295 | The sum of quantity * price over the order items equals the loop's running total. |
| Checkout.PlaceOrderPlaced | server.js:269-310 | An order is placed exactly when no line is blocked. Each product with a line is written back with only its stock reduced by the user's quantity of it. The order under (user, timestamp) lists one item per line, in loop order, with the line's product id, name, quantity and price; its total is the value of the cart. The user's cart is empty. Other users' lines are unchanged. The orders map gains exactly that one order and is otherwise unchanged. |
| Checkout.PlaceOrderOnEmptyCart | server.js:272-308 | On a user with no lines, place-order succeeds and writes an order with no items and a total of 0. Nothing else changes. |
| Checkout.PlaceOrderRefused | server.js:276-287 | A refused order answers 500 exactly when the first blocked line's product is missing. Otherwise it answers 400, naming that product's catalog name. The products of earlier lines stay written back with only their stock reduced. No order is written and the cart is unchanged. |
| Checkout.StockLoopKeepsStockNonNegative | server.js:279-287 | The shared loop only takes stock from a product holding at least the line's quantity, so non-negative stock stays non-negative. |
| Checkout.CheckoutKeepsStockNonNegative | server.js:241-244 | Neither checkout path takes any product's stock below zero. |
| Interplay.ServiceAddKeepsLinesPositive | cartService.js:40-64 | The service add keeps every line at one unit or more. |
| Interplay.RouteAddKeepsLinesPositive | server.js:160-177 | The route add keeps lines positive when the quantity is at least 1. A quantity of 0 or less on a new line breaks that, since the route does not check it. |
| Interplay.RouteEditsKeepLinesPositive | server.js:187-211 | Update, remove and clear keep every line at one unit or more. |
| Interplay.CheckoutKeepsLinesPositive | server.js:237-308 | Both checkout paths keep every line at one unit or more, since they only delete lines. |
| Interplay.ServiceAddThenRouteRemoveLosesStock | server.js:199-206 | A reserving add followed by the route's remove gives back the cart but leaves the stock short by the reserved quantity. Stock plus reserved units drops by that quantity. |
| Interplay.ServiceAddThenPlaceOrderTakesStockTwice | server.js:285-287 | A reserving add of q units followed by place-order takes 2q units off the stock for an order of q units. |
| Interplay.LastUnitsCannotBeOrdered | server.js:281-283 | A reserving add of a product's last units succeeds, but place-order then refuses with "not enough stock" and changes nothing. |

## Left out

- HTTP plumbing is left out: Express routing, middleware, sessions, `isLoggedIn` / `validateUserMatch`, register/login with bcrypt, QR codes, page rendering and the thank-you page. Every route is given an already-authenticated user id.
- The Redis client and its failures are left out. This covers the `exec()` failure that answers "Transaction failed", the catch-all "Error adding item to cart", the error that `clearCart` rethrows, and the error value that `getCartItems` returns. The store is assumed to answer every call.
- Concurrency is left out. Each route and each MULTI block is one atomic step. In `addItemToCart` the product is read before the MULTI block without WATCH, so two concurrent adds can both pass the stock check; the model does not show that interleaving.
- CartService.AddItemToCart: `parseInt` / `parseFloat` text parsing is abstracted to "number or NaN". Prices are integers, not floats. JavaScript falsy values other than an absent or empty string (null, 0, false) are not distinguished.
- CartRoutes.Update: on a line that does not exist, Redis HINCRBY would create a hash holding only a quantity (1 for increase, -1 for decrease). The model leaves the store unchanged instead, because a line without a name and a price has no place in the typed ledger.
- CartRoutes.Add: the quantity is taken as an integer. A non-integer quantity is not modelled: on an existing line HINCRBY would reject it, and on a new line HSET stores it unchecked.
- Interplay.RouteEditsKeepLinesPositive: holds only because `CartRoutes.Update` leaves a missing line missing. In server.js (lines 183-193), "decrease" on a missing line parses the absent quantity as NaN, fails the `<= 1` test and runs HINCRBY -1, creating a line of quantity -1. "increase" on a missing line creates a quantity-only line of 1.
- Key strings are left out. The typed `CartKey` and `OrderKey` assume that user and product ids contain neither the glob characters `*`, `?`, `[` nor the separator `:`. Registration (server.js, lines 109-117) accepts any username. In the code a user named `*` makes the pattern `cart:*:item:*` match every user's lines, so clear, checkout and place-order would delete or decrement them. A product id such as `a:b` is read back as `a` by `key.split(':')[3]`. Every `OtherUsersUntouched` contract holds only under this assumption.
- The running total that `POST /checkout` computes is never used by that route, so it is not modelled.
- The text form of stored values is left out: the `toFixed(2)` formatting of the order total, the JSON encoding of order items, and JavaScript's string-to-number coercion in `stock < quantity`. Numeric fields are assumed throughout.
- `Date.now()` is the `timestamp` parameter of `Checkout.PlaceOrder`.
