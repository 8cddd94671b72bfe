/** How the operations behave together: the ledger invariants every operation
    keeps, and what happens when the service's reserving add is combined with
    the server's routes, which neither reserve nor release stock.
 */
module Interplay {
  import opened Ledger
  import opened Sums
  import CartService
  import CartRoutes
  import Checkout

  /** A successful service add leaves every line with at least one unit. */
  lemma ServiceAddKeepsLinesPositive(s: Store, userId: Option<string>, itemId: Option<string>,
                                     name: Option<string>, quantity: CartService.NumArg, price: CartService.NumArg)
    requires PositiveLines(s.carts)
    ensures PositiveLines(CartService.AddItemToCart(s, userId, itemId, name, quantity, price).store.carts)
  {
  }

  /** The route add keeps lines positive only when given a positive quantity,
      which the route does not check. */
  lemma RouteAddKeepsLinesPositive(s: Store, u: UserId, p: ProductId, quantity: int)
    requires PositiveLines(s.carts)
    ensures quantity >= 1 ==> PositiveLines(CartRoutes.Add(s, u, p, quantity).store.carts)
    ensures quantity <= 0 && p in s.products && CartKey(u, p) !in s.carts ==>
      !PositiveLines(CartRoutes.Add(s, u, p, quantity).store.carts)
  {
    if quantity <= 0 && p in s.products && CartKey(u, p) !in s.carts {
      assert CartRoutes.Add(s, u, p, quantity).store.carts[CartKey(u, p)].quantity == quantity;
    }
  }

  /** Update, remove and clear keep lines positive. */
  lemma RouteEditsKeepLinesPositive(s: Store, u: UserId, p: ProductId, action: CartRoutes.Action)
    requires PositiveLines(s.carts)
    ensures PositiveLines(CartRoutes.Update(s, u, p, action).carts)
    ensures PositiveLines(CartRoutes.Remove(s, u, p).carts)
    ensures PositiveLines(CartRoutes.Clear(s, u).carts)
  {
  }

  /** Both checkout paths keep lines positive: they only delete lines. */
  lemma CheckoutKeepsLinesPositive(s: Store, u: UserId, keys: seq<ProductId>, timestamp: int)
    requires PositiveLines(s.carts)
    requires IsEnumeration(s.carts, u, keys)
    ensures PositiveLines(Checkout.CheckoutRoute(s, u, keys).store.carts)
    ensures PositiveLines(Checkout.PlaceOrder(s, u, keys, timestamp).store.carts)
  {
    Checkout.CheckoutEffect(s, u, keys);
    Checkout.PlaceOrderRefused(s, u, keys, timestamp);
    Checkout.PlaceOrderPlaced(s, u, keys, timestamp);
  }

  /** The reservation taken by the service add is not returned by the
      server's remove: after adding `q` units of `p` to an empty line and
      removing the line, the cart is as before but the stock is `q` short. */
  lemma ServiceAddThenRouteRemoveLosesStock(s: Store, u: UserId, p: ProductId, name: string, q: int, price: int)
    requires u != "" && p != "" && name != ""
    requires p in s.products && 0 < q <= s.products[p].stock
    requires CartKey(u, p) !in s.carts
    ensures var a := CartService.AddItemToCart(s, Some(u), Some(p), Some(name), CartService.Num(q), CartService.Num(price));
      && a.outcome == CartService.Added
      && var r := CartRoutes.Remove(a.store, u, p);
      && r.carts == s.carts
      && r.products[p].stock == s.products[p].stock - q
      && r.products[p].stock + Reserved(r.carts, p) == s.products[p].stock + Reserved(s.carts, p) - q
  {
    var a := CartService.AddItemToCart(s, Some(u), Some(p), Some(name), CartService.Num(q), CartService.Num(price));
    var k := CartKey(u, p);
    assert a.store.carts == s.carts[k := CartLine(name, price, q)];
    assert a.store.carts - {k} == s.carts;
  }

  /** The stock is taken twice on the way from the service add to an order:
      once by the reservation and again by place-order. */
  lemma ServiceAddThenPlaceOrderTakesStockTwice(s: Store, u: UserId, p: ProductId, name: string,
                                                q: int, price: int, timestamp: int)
    requires u != "" && p != "" && name != ""
    requires p in s.products && 0 < q && 2 * q <= s.products[p].stock
    requires forall k :: k in s.carts ==> k.user != u
    ensures var a := CartService.AddItemToCart(s, Some(u), Some(p), Some(name), CartService.Num(q), CartService.Num(price));
      && a.outcome == CartService.Added
      && IsEnumeration(a.store.carts, u, [p])
      && var r := Checkout.PlaceOrder(a.store, u, [p], timestamp);
      && r.outcome == Checkout.OrderPlaced
      && p in r.store.products && r.store.products[p].stock == s.products[p].stock - 2 * q
      && r.store.orders[OrderKey(u, timestamp)].items == [OrderItem(p, name, q, price)]
  {
    var a := CartService.AddItemToCart(s, Some(u), Some(p), Some(name), CartService.Num(q), CartService.Num(price));
    var k := CartKey(u, p);
    assert a.store.carts[k] == CartLine(name, price, q);
    assert IsEnumeration(a.store.carts, u, [p]);
    assert Checkout.FirstBlocked(a.store.products, a.store.carts, u, [p]) == 1;
    Checkout.PlaceOrderPlaced(a.store, u, [p], timestamp);
  }

  /** A cart holding the last units of a product cannot be ordered: the
      reservation took them, and place-order asks for them again. */
  lemma LastUnitsCannotBeOrdered(s: Store, u: UserId, p: ProductId, name: string, q: int, price: int, timestamp: int)
    requires u != "" && p != "" && name != ""
    requires p in s.products && 0 < q == s.products[p].stock
    requires forall k :: k in s.carts ==> k.user != u
    ensures var a := CartService.AddItemToCart(s, Some(u), Some(p), Some(name), CartService.Num(q), CartService.Num(price));
      && a.outcome == CartService.Added
      && IsEnumeration(a.store.carts, u, [p])
      && var r := Checkout.PlaceOrder(a.store, u, [p], timestamp);
      && r.outcome == Checkout.NotEnoughStockFor(s.products[p].name)
      && r.store == a.store
  {
    var a := CartService.AddItemToCart(s, Some(u), Some(p), Some(name), CartService.Num(q), CartService.Num(price));
    var k := CartKey(u, p);
    assert a.store.carts[k] == CartLine(name, price, q);
    assert IsEnumeration(a.store.carts, u, [p]);
  }
}
