/** The cart service: adding an item with a stock reservation, clearing a
    user's cart, and listing a user's cart lines.
 */
module CartService {
  import opened Ledger
  import opened Sums

  /** A numeric argument as the service receives it: absent, present but not
      a number once parsed, or a parsed number. */
  datatype NumArg = Undefined | NaN | Num(n: int)

  datatype AddOutcome =
    | Added
    | MissingFields            // "Missing required fields"
    | InvalidQuantityOrPrice   // "Invalid quantity or price"
    | ProductNotFound          // "Product not found"
    | NotEnoughStock           // "Not enough stock"

  /** A string argument is falsy when it is absent or empty. */
  predicate Falsy(v: Option<string>)
  {
    v.None? || v.value == ""
  }

  /** Deletes every line of user `u`; stock and orders are not touched. */
  function ClearCart(s: Store, u: UserId): (r: Store)
    ensures forall k :: k in r.carts ==> k.user != u
    ensures OtherUsersUntouched(s.carts, r.carts, u)
    ensures r.products == s.products && r.orders == s.orders
    ensures UserItems(s.carts, u) == {} ==> r == s
  {
    s.(carts := ClearUserLines(s.carts, u))
  }

  /** The lines of user `u`, keyed by their cart key. */
  function GetCartItems(c: map<CartKey, CartLine>, u: UserId): (r: map<CartKey, CartLine>)
    ensures forall k :: k in r <==> k in c && k.user == u
    ensures forall k :: k in r ==> r[k] == c[k]
  {
    map k | k in c && k.user == u :: c[k]
  }

  /** The MULTI block: take `q` units from the stock of `p` and put them in
      the line of (`u`, `p`), merging into an existing line or creating one
      with the caller's name and price. */
  function Reserve(s: Store, u: UserId, p: ProductId, name: string, q: int, price: int): (r: Store)
    requires p in s.products
  {
    var k := CartKey(u, p);
    var line :=
      if k in s.carts then s.carts[k].(quantity := s.carts[k].quantity + q)
      else CartLine(name, price, q);
    s.(products := s.products[p := s.products[p].(stock := s.products[p].stock - q)],
       carts := s.carts[k := line])
  }

  /** Service-level add. Validates the arguments, checks that the product
      exists and has enough stock, then reserves atomically. */
  function AddItemToCart(s: Store, userId: Option<string>, itemId: Option<string>, name: Option<string>,
                         quantity: NumArg, price: NumArg): (r: Step<AddOutcome>)
    ensures r.outcome == MissingFields <==>
      Falsy(userId) || Falsy(itemId) || Falsy(name) || quantity.Undefined? || price.Undefined?
    ensures r.outcome == InvalidQuantityOrPrice <==>
      r.outcome != MissingFields && (quantity.NaN? || price.NaN? || (quantity.Num? && quantity.n <= 0))
    ensures r.outcome == ProductNotFound <==>
      r.outcome != MissingFields && quantity.Num? && quantity.n > 0 && price.Num? && itemId.value !in s.products
    ensures r.outcome == NotEnoughStock <==>
      && r.outcome != MissingFields && quantity.Num? && quantity.n > 0 && price.Num?
      && itemId.value in s.products && s.products[itemId.value].stock < quantity.n
    ensures r.outcome != Added ==> r.store == s
    ensures r.outcome == Added ==>
      && itemId.value in s.products
      && r.store.products.Keys == s.products.Keys
      && r.store.products[itemId.value]
         == s.products[itemId.value].(stock := s.products[itemId.value].stock - quantity.n)
      && r.store.products[itemId.value].stock >= 0
      && (forall p :: p in s.products && p != itemId.value ==> r.store.products[p] == s.products[p])
      && r.store.orders == s.orders
      && OtherUsersUntouched(s.carts, r.store.carts, userId.value)
  {
    if Falsy(userId) || Falsy(itemId) || Falsy(name) || quantity.Undefined? || price.Undefined? then
      Step(MissingFields, s)
    else if quantity.NaN? || price.NaN? || quantity.n <= 0 then
      Step(InvalidQuantityOrPrice, s)
    else if itemId.value !in s.products then
      Step(ProductNotFound, s)
    else if s.products[itemId.value].stock < quantity.n then
      Step(NotEnoughStock, s)
    else
      Step(Added, Reserve(s, userId.value, itemId.value, name.value, quantity.n, price.n))
  }

  /** A successful add merges into the existing line or creates a new one
      holding the caller's name, quantity and price; the user's other lines
      stay as they were. */
  lemma AddedLine(s: Store, userId: Option<string>, itemId: Option<string>, name: Option<string>,
                  quantity: NumArg, price: NumArg)
    ensures var r := AddItemToCart(s, userId, itemId, name, quantity, price);
      r.outcome == Added ==>
        var k := CartKey(userId.value, itemId.value);
        && k in r.store.carts
        && (k in s.carts ==> r.store.carts[k] == s.carts[k].(quantity := s.carts[k].quantity + quantity.n))
        && (k !in s.carts ==> r.store.carts[k] == CartLine(name.value, price.n, quantity.n))
        && (forall k' :: k' != k ==> (k' in r.store.carts <==> k' in s.carts))
        && (forall k' :: k' != k && k' in s.carts ==> r.store.carts[k'] == s.carts[k'])
  {
  }

  /** A successful add moves units from stock into carts: for every product,
      stock plus the units reserved in all users' carts is unchanged. */
  lemma AddConservesStockPlusReserved(s: Store, userId: Option<string>, itemId: Option<string>,
                                      name: Option<string>, quantity: NumArg, price: NumArg, p: ProductId)
    requires p in s.products
    ensures var r := AddItemToCart(s, userId, itemId, name, quantity, price);
      && p in r.store.products
      && r.store.products[p].stock + Reserved(r.store.carts, p) == s.products[p].stock + Reserved(s.carts, p)
  {
    var r := AddItemToCart(s, userId, itemId, name, quantity, price);
    if r.outcome == Added {
      var k := CartKey(userId.value, itemId.value);
      SumUpdate(s.carts, k, r.store.carts[k], ReservedOf(p));
    }
  }

  /** An add never drives any product's stock below zero. */
  lemma AddKeepsStockNonNegative(s: Store, userId: Option<string>, itemId: Option<string>,
                                 name: Option<string>, quantity: NumArg, price: NumArg)
    requires StockNonNegative(s.products)
    ensures StockNonNegative(AddItemToCart(s, userId, itemId, name, quantity, price).store.products)
  {
  }

  /** Listing after a clear shows nothing for that user, and other users'
      listings are unaffected by anything that leaves their lines alone. */
  lemma ListingFollowsOwnership(c: map<CartKey, CartLine>, c': map<CartKey, CartLine>, u: UserId, v: UserId)
    requires OtherUsersUntouched(c, c', u) && v != u
    ensures GetCartItems(ClearUserLines(c, u), u) == map[]
    ensures GetCartItems(c', v) == GetCartItems(c, v)
  {
  }
}
