/** The two checkout paths of the web server. Both walk the user's lines in
    KEYS order, re-read each product, stop at the first line whose product is
    missing or short of stock, and otherwise take the line's quantity off the
    product's stock. `POST /checkout` deletes each line as it goes;
    `POST /place-order` keeps the lines until the whole cart has passed, then
    writes an order and clears the cart. Neither undoes the decrements made
    before a stop.
 */
module Checkout {
  import opened Ledger
  import opened Sums

  /** Why the walk over the lines ended. */
  datatype Halt =
    | Done                       // every line passed
    | OutOfStock(name: string)   // a product had less stock than the line's quantity
    | Crashed                    // a line named a product missing from the catalog

  datatype Walk = Walk(halt: Halt, products: map<ProductId, Product>, carts: map<CartKey, CartLine>)

  datatype CheckoutOutcome = ThankYou | CheckoutFailed    // redirect / 500 "Checkout failed"

  datatype OrderOutcome =
    | OrderPlaced                   // redirect to the thank-you page
    | NotEnoughStockFor(name: string)  // 400 "Not enough stock for <name>"
    | FailedToPlaceOrder            // 500 "Failed to place order"

  /** The line of (`u`, `p`) cannot be taken: its product is missing or short. */
  predicate Blocked(products: map<ProductId, Product>, c: map<CartKey, CartLine>, u: UserId, p: ProductId)
    requires CartKey(u, p) in c
  {
    p !in products || products[p].stock < c[CartKey(u, p)].quantity
  }

  /** Index of the first blocked line of `keys`, or `|keys|` when none is. */
  function FirstBlocked(products: map<ProductId, Product>, c: map<CartKey, CartLine>, u: UserId,
                        keys: seq<ProductId>): (j: nat)
    requires AllPresent(c, u, keys)
    ensures j <= |keys|
    ensures forall i :: 0 <= i < j ==> !Blocked(products, c, u, keys[i])
    ensures j < |keys| ==> Blocked(products, c, u, keys[j])
    decreases |keys|
  {
    if keys == [] then 0
    else if Blocked(products, c, u, keys[0]) then 0
    else 1 + FirstBlocked(products, c, u, keys[1..])
  }

  /** `product` with the line's quantity taken off its stock. */
  function Taken(product: Product, line: CartLine): (r: Product)
  {
    product.(stock := product.stock - line.quantity)
  }

  /** The loop shared by both checkout paths; `consume` deletes each line
      right after its stock is taken. */
  function StockLoop(products: map<ProductId, Product>, c: map<CartKey, CartLine>, u: UserId,
                     keys: seq<ProductId>, consume: bool): (w: Walk)
    requires Distinct(keys) && AllPresent(c, u, keys)
    decreases |keys|
  {
    if keys == [] then Walk(Done, products, c)
    else
      var p := keys[0];
      var k := CartKey(u, p);
      if p !in products then Walk(Crashed, products, c)
      else if products[p].stock < c[k].quantity then Walk(OutOfStock(products[p].name), products, c)
      else
        var c' := if consume then c - {k} else c;
        assert forall i :: 1 <= i < |keys| ==> keys[i] != p;
        StockLoop(products[p := Taken(products[p], c[k])], c', u, keys[1..], consume)
  }

  /** Blocking only depends on the products and lines named in `keys`. */
  lemma {:induction false} FirstBlockedFrame(pr: map<ProductId, Product>, c: map<CartKey, CartLine>,
                                             pr': map<ProductId, Product>, c': map<CartKey, CartLine>,
                                             u: UserId, keys: seq<ProductId>)
    requires AllPresent(c, u, keys) && AllPresent(c', u, keys)
    requires forall i :: 0 <= i < |keys| ==>
      && (keys[i] in pr <==> keys[i] in pr')
      && (keys[i] in pr ==> pr[keys[i]] == pr'[keys[i]])
      && c[CartKey(u, keys[i])] == c'[CartKey(u, keys[i])]
    ensures FirstBlocked(pr, c, u, keys) == FirstBlocked(pr', c', u, keys)
    decreases |keys|
  {
    if keys != [] {
      FirstBlockedFrame(pr, c, pr', c', u, keys[1..]);
    }
  }

  /** After a passing first line, the first blocked line of the rest, in the
      store the step leaves, is one before the first blocked line overall. */
  lemma FirstBlockedStep(products: map<ProductId, Product>, c: map<CartKey, CartLine>,
                         u: UserId, keys: seq<ProductId>, consume: bool)
    requires Distinct(keys) && AllPresent(c, u, keys) && keys != []
    requires !Blocked(products, c, u, keys[0])
    ensures var k := CartKey(u, keys[0]);
      var pr' := products[keys[0] := Taken(products[keys[0]], c[k])];
      var c' := if consume then c - {k} else c;
      && AllPresent(c', u, keys[1..])
      && FirstBlocked(products, c, u, keys) == 1 + FirstBlocked(pr', c', u, keys[1..])
  {
    var p := keys[0];
    var k := CartKey(u, p);
    var rest := keys[1..];
    assert forall i :: 0 <= i < |rest| ==> rest[i] != p;
    var pr' := products[p := Taken(products[p], c[k])];
    var c' := if consume then c - {k} else c;
    FirstBlockedFrame(products, c, pr', c', u, rest);
  }

  /** A non-empty prefix is the head followed by a prefix of the tail. */
  lemma PrefixAfterHead(keys: seq<ProductId>, j: nat)
    requires 1 <= j <= |keys|
    ensures keys[..j] == [keys[0]] + keys[1..][..j - 1]
  {
    assert forall i :: 0 <= i < j ==> keys[..j][i] == ([keys[0]] + keys[1..][..j - 1])[i];
  }

  /** The loop reports `Done` exactly when no line is blocked, and otherwise
      says why the first blocked line is blocked. */
  lemma {:induction false} StockLoopHalt(products: map<ProductId, Product>, c: map<CartKey, CartLine>,
                                         u: UserId, keys: seq<ProductId>, consume: bool)
    requires Distinct(keys) && AllPresent(c, u, keys)
    ensures var w := StockLoop(products, c, u, keys, consume);
      var j := FirstBlocked(products, c, u, keys);
      && (w.halt.Done? <==> j == |keys|)
      && (j < |keys| ==> (w.halt.Crashed? <==> keys[j] !in products))
      && (j < |keys| && keys[j] in products ==> w.halt == OutOfStock(products[keys[j]].name))
    decreases |keys|
  {
    if keys != [] && !Blocked(products, c, u, keys[0]) {
      var p := keys[0];
      var k := CartKey(u, p);
      var pr' := products[p := Taken(products[p], c[k])];
      var c' := if consume then c - {k} else c;
      FirstBlockedStep(products, c, u, keys, consume);
      StockLoopHalt(pr', c', u, keys[1..], consume);
      assert forall i :: 1 <= i < |keys| ==> keys[i] != p;
      var j := FirstBlocked(products, c, u, keys);
      if j < |keys| {
        assert keys[j] == keys[1..][j - 1];
      }
    }
  }

  /** The lines before the first blocked one have their stock taken; every
      other product is unchanged. */
  lemma {:induction false} StockLoopProducts(products: map<ProductId, Product>, c: map<CartKey, CartLine>,
                                             u: UserId, keys: seq<ProductId>, consume: bool)
    requires Distinct(keys) && AllPresent(c, u, keys)
    ensures var w := StockLoop(products, c, u, keys, consume);
      var j := FirstBlocked(products, c, u, keys);
      && w.products.Keys == products.Keys
      && (forall i :: 0 <= i < j ==> w.products[keys[i]] == Taken(products[keys[i]], c[CartKey(u, keys[i])]))
      && (forall p :: p in products && p !in keys[..j] ==> w.products[p] == products[p])
    decreases |keys|
  {
    if keys != [] && !Blocked(products, c, u, keys[0]) {
      var p := keys[0];
      var k := CartKey(u, p);
      var pr' := products[p := Taken(products[p], c[k])];
      var c' := if consume then c - {k} else c;
      var rest := keys[1..];
      FirstBlockedStep(products, c, u, keys, consume);
      StockLoopProducts(pr', c', u, rest, consume);
      assert forall i :: 0 <= i < |rest| ==> rest[i] != p;
      var w := StockLoop(products, c, u, keys, consume);
      var j := FirstBlocked(products, c, u, keys);
      PrefixAfterHead(keys, j);
      forall i | 0 <= i < j
        ensures w.products[keys[i]] == Taken(products[keys[i]], c[CartKey(u, keys[i])])
      {
        if i == 0 {
          assert p !in rest[..j - 1];
          assert w.products[p] == pr'[p];
        } else {
          var q := rest[i - 1];
          assert keys[i] == q && q != p;
          assert q in rest[..j - 1];
          assert pr'[q] == products[q] && c'[CartKey(u, q)] == c[CartKey(u, q)];
        }
      }
    }
  }

  /** When consuming, the lines before the first blocked one are deleted;
      every other line is unchanged. */
  lemma {:induction false} StockLoopCarts(products: map<ProductId, Product>, c: map<CartKey, CartLine>,
                                          u: UserId, keys: seq<ProductId>, consume: bool)
    requires Distinct(keys) && AllPresent(c, u, keys)
    ensures var w := StockLoop(products, c, u, keys, consume);
      var j := FirstBlocked(products, c, u, keys);
      && (forall k :: k in w.carts <==> k in c && !(consume && k.user == u && k.item in keys[..j]))
      && (forall k :: k in w.carts ==> w.carts[k] == c[k])
    decreases |keys|
  {
    if keys != [] && !Blocked(products, c, u, keys[0]) {
      var p := keys[0];
      var k := CartKey(u, p);
      var pr' := products[p := Taken(products[p], c[k])];
      var c' := if consume then c - {k} else c;
      var rest := keys[1..];
      FirstBlockedStep(products, c, u, keys, consume);
      StockLoopCarts(pr', c', u, rest, consume);
      var j := FirstBlocked(products, c, u, keys);
      PrefixAfterHead(keys, j);
    }
  }

  /** `POST /checkout`: the outcome is the redirect when every line passed,
      and the 500 page otherwise. */
  function CheckoutRoute(s: Store, u: UserId, keys: seq<ProductId>): (r: Step<CheckoutOutcome>)
    requires IsEnumeration(s.carts, u, keys)
  {
    var w := StockLoop(s.products, s.carts, u, keys, true);
    Step(if w.halt.Done? then ThankYou else CheckoutFailed, s.(products := w.products, carts := w.carts))
  }

  /** One order item per line, in KEYS order. */
  function OrderItems(c: map<CartKey, CartLine>, u: UserId, keys: seq<ProductId>): (r: seq<OrderItem>)
    requires AllPresent(c, u, keys)
    ensures |r| == |keys|
    ensures forall i :: 0 <= i < |keys| ==>
      var line := c[CartKey(u, keys[i])];
      r[i] == OrderItem(keys[i], line.name, line.quantity, line.price)
    decreases |keys|
  {
    if keys == [] then []
    else
      var last := |keys| - 1;
      var line := c[CartKey(u, keys[last])];
      OrderItems(c, u, keys[..last]) + [OrderItem(keys[last], line.name, line.quantity, line.price)]
  }

  /** The sum of quantity * price over order items. */
  function ItemsTotal(items: seq<OrderItem>): (total: int)
    decreases |items|
  {
    if items == [] then 0
    else
      var last := |items| - 1;
      ItemsTotal(items[..last]) + items[last].quantity * items[last].price
  }

  /** `POST /place-order` at time `timestamp`. */
  function PlaceOrder(s: Store, u: UserId, keys: seq<ProductId>, timestamp: int): (r: Step<OrderOutcome>)
    requires IsEnumeration(s.carts, u, keys)
  {
    var w := StockLoop(s.products, s.carts, u, keys, false);
    match w.halt
    case Crashed => Step(FailedToPlaceOrder, s.(products := w.products))
    case OutOfStock(name) => Step(NotEnoughStockFor(name), s.(products := w.products))
    case Done =>
      var order := Order(OrderItems(s.carts, u, keys), SeqTotal(s.carts, u, keys), timestamp);
      Step(OrderPlaced, Store(w.products, ClearUserLines(s.carts, u), s.orders[OrderKey(u, timestamp) := order]))
  }

  /** The order's items total to the running total the loop computed. */
  lemma {:induction false} ItemsTotalIsSeqTotal(c: map<CartKey, CartLine>, u: UserId, keys: seq<ProductId>)
    requires AllPresent(c, u, keys)
    ensures ItemsTotal(OrderItems(c, u, keys)) == SeqTotal(c, u, keys)
    decreases |keys|
  {
    if keys != [] {
      var last := |keys| - 1;
      var front := keys[..last];
      assert OrderItems(c, u, keys)[..last] == OrderItems(c, u, front);
      ItemsTotalIsSeqTotal(c, u, front);
    }
  }

  /** A placed order: the cart held no blocked line, each product's stock
      dropped by the user's quantity of it, the order lists one item per line
      and totals the cart's value, the user's cart is empty, and other users'
      lines and other orders are unchanged. */
  lemma PlaceOrderPlaced(s: Store, u: UserId, keys: seq<ProductId>, timestamp: int)
    requires IsEnumeration(s.carts, u, keys)
    ensures var r := PlaceOrder(s, u, keys, timestamp);
      r.outcome == OrderPlaced <==> FirstBlocked(s.products, s.carts, u, keys) == |keys|
    ensures var r := PlaceOrder(s, u, keys, timestamp);
      r.outcome == OrderPlaced ==>
        && r.store.products.Keys == s.products.Keys
        && (forall p :: p in s.products && CartKey(u, p) in s.carts ==>
              r.store.products[p] == Taken(s.products[p], s.carts[CartKey(u, p)]))
        && (forall p :: p in s.products && CartKey(u, p) !in s.carts ==> r.store.products[p] == s.products[p])
        && OrderKey(u, timestamp) in r.store.orders
        && var order := r.store.orders[OrderKey(u, timestamp)];
        && order.timestamp == timestamp
        && |order.items| == |keys|
        && order.items == OrderItems(s.carts, u, keys)
        && (forall i :: 0 <= i < |keys| ==>
              var line := s.carts[CartKey(u, keys[i])];
              order.items[i] == OrderItem(keys[i], line.name, line.quantity, line.price))
        && order.total == ItemsTotal(order.items) == CartValue(s.carts, u)
        && (forall k :: k in r.store.carts ==> k.user != u)
        && OtherUsersUntouched(s.carts, r.store.carts, u)
        && (forall o :: o in s.orders && o != OrderKey(u, timestamp) ==> o in r.store.orders && r.store.orders[o] == s.orders[o])
        && r.store.orders == s.orders[OrderKey(u, timestamp) := order]
  {
    StockLoopHalt(s.products, s.carts, u, keys, false);
    var r := PlaceOrder(s, u, keys, timestamp);
    if r.outcome == OrderPlaced {
      StockLoopTakesEveryLine(s.products, s.carts, u, keys);
      ItemsTotalIsSeqTotal(s.carts, u, keys);
      EnumerationTotal(s.carts, u, keys);
    }
  }

  /** When no line is blocked, the loop takes each line's quantity off its
      product and leaves every product without a line of `u` alone. */
  lemma StockLoopTakesEveryLine(products: map<ProductId, Product>, c: map<CartKey, CartLine>,
                                u: UserId, keys: seq<ProductId>)
    requires IsEnumeration(c, u, keys)
    requires FirstBlocked(products, c, u, keys) == |keys|
    ensures var w := StockLoop(products, c, u, keys, false);
      && w.products.Keys == products.Keys
      && (forall p :: p in products && CartKey(u, p) in c ==> w.products[p] == Taken(products[p], c[CartKey(u, p)]))
      && (forall p :: p in products && CartKey(u, p) !in c ==> w.products[p] == products[p])
  {
    StockLoopProducts(products, c, u, keys, false);
    var w := StockLoop(products, c, u, keys, false);
    assert keys[..|keys|] == keys;
    forall p | p in products && CartKey(u, p) in c
      ensures w.products[p] == Taken(products[p], c[CartKey(u, p)])
    {
      var i :| 0 <= i < |keys| && keys[i] == p;
    }
  }

  /** Place-order on an empty cart still writes an order, with no items and
      a total of 0, and changes nothing else. */
  lemma PlaceOrderOnEmptyCart(s: Store, u: UserId, timestamp: int)
    requires forall k :: k in s.carts ==> k.user != u
    ensures IsEnumeration(s.carts, u, [])
    ensures var r := PlaceOrder(s, u, [], timestamp);
      && r.outcome == OrderPlaced
      && r.store == s.(orders := s.orders[OrderKey(u, timestamp) := Order([], 0, timestamp)])
  {
    assert ClearUserLines(s.carts, u) == s.carts;
  }

  /** A refused order: the first blocked line decides between the 400 and
      the 500 answer; the stock taken for the lines before it stays taken, no
      order is written and the cart is left as it was. */
  lemma PlaceOrderRefused(s: Store, u: UserId, keys: seq<ProductId>, timestamp: int)
    requires IsEnumeration(s.carts, u, keys)
    ensures var r := PlaceOrder(s, u, keys, timestamp);
      var j := FirstBlocked(s.products, s.carts, u, keys);
      r.outcome != OrderPlaced ==>
        && j < |keys|
        && (r.outcome == FailedToPlaceOrder <==> keys[j] !in s.products)
        && (keys[j] in s.products ==> r.outcome == NotEnoughStockFor(s.products[keys[j]].name))
        && r.store.carts == s.carts
        && r.store.orders == s.orders
        && r.store.products.Keys == s.products.Keys
        && (forall i :: 0 <= i < j ==>
              r.store.products[keys[i]] == Taken(s.products[keys[i]], s.carts[CartKey(u, keys[i])]))
        && (forall p :: p in s.products && p !in keys[..j] ==> r.store.products[p] == s.products[p])
  {
    StockLoopHalt(s.products, s.carts, u, keys, false);
    StockLoopProducts(s.products, s.carts, u, keys, false);
    StockLoopCarts(s.products, s.carts, u, keys, false);
    var w := StockLoop(s.products, s.carts, u, keys, false);
    assert w.carts == s.carts;
  }

  /** `POST /checkout`: with `j` the first blocked line, the lines before it
      have their stock taken and are deleted, the rest of the cart stays, and
      the route succeeds exactly when no line is blocked; orders are never
      written. */
  lemma CheckoutEffect(s: Store, u: UserId, keys: seq<ProductId>)
    requires IsEnumeration(s.carts, u, keys)
    ensures var r := CheckoutRoute(s, u, keys);
      var j := FirstBlocked(s.products, s.carts, u, keys);
      && (r.outcome == ThankYou <==> j == |keys|)
      && r.store.orders == s.orders
      && r.store.products.Keys == s.products.Keys
      && (forall i :: 0 <= i < j ==>
            r.store.products[keys[i]] == Taken(s.products[keys[i]], s.carts[CartKey(u, keys[i])])
            && CartKey(u, keys[i]) !in r.store.carts)
      && (forall i :: j <= i < |keys| ==> CartKey(u, keys[i]) in r.store.carts)
      && (forall p :: p in s.products && p !in keys[..j] ==> r.store.products[p] == s.products[p])
      && (forall k :: k in r.store.carts ==> k in s.carts && r.store.carts[k] == s.carts[k])
      && OtherUsersUntouched(s.carts, r.store.carts, u)
      && (r.outcome == ThankYou ==> forall k :: k in r.store.carts ==> k.user != u)
  {
    StockLoopHalt(s.products, s.carts, u, keys, true);
    StockLoopProducts(s.products, s.carts, u, keys, true);
    StockLoopCarts(s.products, s.carts, u, keys, true);
    var j := FirstBlocked(s.products, s.carts, u, keys);
    var r := CheckoutRoute(s, u, keys);
    forall i | j <= i < |keys|
      ensures CartKey(u, keys[i]) in r.store.carts
    {
      assert forall i' :: 0 <= i' < j ==> keys[..j][i'] != keys[i];
    }
    if r.outcome == ThankYou {
      assert keys[..j] == keys;
    }
  }

  /** Neither checkout path can drive a product's stock below zero. */
  lemma CheckoutKeepsStockNonNegative(s: Store, u: UserId, keys: seq<ProductId>, timestamp: int)
    requires IsEnumeration(s.carts, u, keys)
    requires StockNonNegative(s.products)
    ensures StockNonNegative(CheckoutRoute(s, u, keys).store.products)
    ensures StockNonNegative(PlaceOrder(s, u, keys, timestamp).store.products)
  {
    StockLoopKeepsStockNonNegative(s.products, s.carts, u, keys, true);
    StockLoopKeepsStockNonNegative(s.products, s.carts, u, keys, false);
  }

  /** The loop only takes stock from a product holding at least the line's
      quantity, so no stock goes below zero. */
  lemma {:induction false} StockLoopKeepsStockNonNegative(products: map<ProductId, Product>, c: map<CartKey, CartLine>,
                                                          u: UserId, keys: seq<ProductId>, consume: bool)
    requires Distinct(keys) && AllPresent(c, u, keys)
    requires StockNonNegative(products)
    ensures StockNonNegative(StockLoop(products, c, u, keys, consume).products)
    decreases |keys|
  {
    if keys != [] && !Blocked(products, c, u, keys[0]) {
      var p := keys[0];
      var k := CartKey(u, p);
      var c' := if consume then c - {k} else c;
      assert forall i :: 1 <= i < |keys| ==> keys[i] != p;
      StockLoopKeepsStockNonNegative(products[p := Taken(products[p], c[k])], c', u, keys[1..], consume);
    }
  }
}
