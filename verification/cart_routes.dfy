/** The cart routes of the web server: view, add, update, remove and clear,
    and the cart total shown on the store and checkout pages. None of them
    touches stock.
 */
module CartRoutes {
  import opened Ledger
  import opened Sums
  import CartService

  datatype AddOutcome = ProductAdded | ProductMissing   // 200 "Product added" / 404 "Product not found"

  datatype Action = Increase | Decrease | OtherAction

  /** `GET /cart/:userId`: the user's lines keyed by product id. */
  function ViewCart(c: map<CartKey, CartLine>, u: UserId): (r: map<ProductId, CartLine>)
    ensures forall p :: p in r <==> CartKey(u, p) in c
    ensures forall p :: p in r ==> r[p] == c[CartKey(u, p)]
  {
    map p | p in UserItems(c, u) :: c[CartKey(u, p)]
  }

  /** `POST /cart/:userId/add`: an existing line grows by `quantity`; a new
      line takes the product's name and price. There is no stock check and no
      validation of `quantity`. */
  function Add(s: Store, u: UserId, p: ProductId, quantity: int): (r: Step<AddOutcome>)
    ensures r.store.products == s.products && r.store.orders == s.orders
    ensures OtherUsersUntouched(s.carts, r.store.carts, u)
    ensures r.outcome == ProductMissing <==> CartKey(u, p) !in s.carts && p !in s.products
    ensures r.outcome == ProductMissing ==> r.store == s
    ensures r.outcome == ProductAdded ==>
      && CartKey(u, p) in r.store.carts
      && r.store.carts.Keys == s.carts.Keys + {CartKey(u, p)}
      && (forall k :: k in s.carts && k != CartKey(u, p) ==> r.store.carts[k] == s.carts[k])
    ensures CartKey(u, p) in s.carts ==>
      r.store.carts[CartKey(u, p)] == s.carts[CartKey(u, p)].(quantity := s.carts[CartKey(u, p)].quantity + quantity)
    ensures CartKey(u, p) !in s.carts && p in s.products ==>
      r.store.carts[CartKey(u, p)] == CartLine(s.products[p].name, s.products[p].price, quantity)
  {
    var k := CartKey(u, p);
    if k in s.carts then
      Step(ProductAdded, s.(carts := s.carts[k := s.carts[k].(quantity := s.carts[k].quantity + quantity)]))
    else if p !in s.products then
      Step(ProductMissing, s)
    else
      Step(ProductAdded, s.(carts := s.carts[k := CartLine(s.products[p].name, s.products[p].price, quantity)]))
  }

  /** `POST /cart/:userId/update`: "increase" adds one unit, "decrease"
      removes one unit or deletes a line holding at most one, any other
      action does nothing. A missing line is left missing. */
  function Update(s: Store, u: UserId, p: ProductId, action: Action): (r: Store)
    ensures r.products == s.products && r.orders == s.orders
    ensures OtherUsersUntouched(s.carts, r.carts, u)
    ensures forall k :: k != CartKey(u, p) ==> (k in r.carts <==> k in s.carts)
    ensures forall k :: k != CartKey(u, p) && k in s.carts ==> r.carts[k] == s.carts[k]
    ensures CartKey(u, p) in r.carts ==> CartKey(u, p) in s.carts
    ensures action.Increase? && CartKey(u, p) in s.carts ==>
      && CartKey(u, p) in r.carts
      && r.carts[CartKey(u, p)] == s.carts[CartKey(u, p)].(quantity := s.carts[CartKey(u, p)].quantity + 1)
    ensures action.Decrease? && CartKey(u, p) in s.carts ==>
      if s.carts[CartKey(u, p)].quantity <= 1 then CartKey(u, p) !in r.carts
      else
        && CartKey(u, p) in r.carts
        && r.carts[CartKey(u, p)] == s.carts[CartKey(u, p)].(quantity := s.carts[CartKey(u, p)].quantity - 1)
    ensures action.Decrease? && CartKey(u, p) in r.carts ==> r.carts[CartKey(u, p)].quantity >= 1
    ensures action.OtherAction? ==> r == s
  {
    var k := CartKey(u, p);
    if k !in s.carts then s
    else
      var line := s.carts[k];
      match action
      case Increase => s.(carts := s.carts[k := line.(quantity := line.quantity + 1)])
      case Decrease =>
        if line.quantity <= 1 then s.(carts := s.carts - {k})
        else s.(carts := s.carts[k := line.(quantity := line.quantity - 1)])
      case OtherAction => s
  }

  /** `POST /cart/:userId/remove`: deletes the one line. */
  function Remove(s: Store, u: UserId, p: ProductId): (r: Store)
    ensures r.products == s.products && r.orders == s.orders
    ensures CartKey(u, p) !in r.carts
    ensures forall k :: k != CartKey(u, p) ==> (k in r.carts <==> k in s.carts)
    ensures forall k :: k in r.carts ==> r.carts[k] == s.carts[k]
  {
    s.(carts := s.carts - {CartKey(u, p)})
  }

  /** `POST /cart/:userId/clear`: the same transition as the service's clear;
      seen through the cart view, the user's cart is empty and every other
      user's view is unchanged. */
  function Clear(s: Store, u: UserId): (r: Store)
    ensures r.products == s.products && r.orders == s.orders
    ensures ViewCart(r.carts, u) == map[]
    ensures forall v :: v != u ==> ViewCart(r.carts, v) == ViewCart(s.carts, v)
  {
    CartService.ClearCart(s, u)
  }

  /** The total shown on the store and checkout pages: a loop over the
      user's lines in KEYS order adding price * quantity. Whatever the
      order, it is the value of the user's cart. */
  method DisplayedTotal(c: map<CartKey, CartLine>, u: UserId, keys: seq<ProductId>) returns (total: int)
    requires IsEnumeration(c, u, keys)
    ensures total == CartValue(c, u)
  {
    total := 0;
    var i := 0;
    while i < |keys|
      invariant 0 <= i <= |keys|
      invariant total == SeqTotal(c, u, keys[..i])
    {
      var line := c[CartKey(u, keys[i])];
      assert keys[..i + 1][..i] == keys[..i];
      total := total + line.price * line.quantity;
      i := i + 1;
    }
    assert keys[..i] == keys;
    EnumerationTotal(c, u, keys);
  }

  /** The route's view and the service's listing show the same lines of a
      user, keyed by product id in one and by cart key in the other. */
  lemma ViewMatchesListing(c: map<CartKey, CartLine>, u: UserId)
    ensures forall p :: p in ViewCart(c, u) <==> CartKey(u, p) in CartService.GetCartItems(c, u)
    ensures forall k :: k in CartService.GetCartItems(c, u) ==>
      k.item in ViewCart(c, u) && ViewCart(c, u)[k.item] == CartService.GetCartItems(c, u)[k]
  {
  }

  /** Increase followed by decrease gives back the line of at least one unit. */
  lemma IncreaseThenDecrease(s: Store, u: UserId, p: ProductId)
    requires CartKey(u, p) in s.carts && s.carts[CartKey(u, p)].quantity >= 1
    ensures Update(Update(s, u, p, Increase), u, p, Decrease) == s
  {
    var k := CartKey(u, p);
    assert s.carts[k := s.carts[k]] == s.carts;
  }

  /** Adding a product the user did not have and then removing it gives back the store. */
  lemma AddThenRemove(s: Store, u: UserId, p: ProductId, quantity: int)
    requires CartKey(u, p) !in s.carts && p in s.products
    ensures Add(s, u, p, quantity).outcome == ProductAdded
    ensures Remove(Add(s, u, p, quantity).store, u, p) == s
  {
    var k := CartKey(u, p);
    assert s.carts[k := CartLine(s.products[p].name, s.products[p].price, quantity)] - {k} == s.carts;
  }
}
