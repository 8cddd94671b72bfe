/** The ledger's data model: the product catalog, the cart lines and the
    orders that the storefront keeps in its key-value store, with the typed
    keys that replace the store's `cart:<user>:item:<product>` and
    `order:<user>:<timestamp>` strings.
 */
module Ledger {

  type UserId = string
  type ProductId = string

  datatype Option<+T> = None | Some(value: T)

  /** A catalog record, kept as JSON under its id in the `products` hash. */
  datatype Product = Product(name: string, price: int, stock: int)

  /** Typed form of the cart key `cart:<user>:item:<item>`. */
  datatype CartKey = CartKey(user: UserId, item: ProductId)

  /** A cart line: name and price snapshots plus the quantity in the cart. */
  datatype CartLine = CartLine(name: string, price: int, quantity: int)

  /** Typed form of the order key `order:<user>:<timestamp>`. */
  datatype OrderKey = OrderKey(user: UserId, timestamp: int)

  datatype OrderItem = OrderItem(id: ProductId, name: string, quantity: int, price: int)

  datatype Order = Order(items: seq<OrderItem>, total: int, timestamp: int)

  /** Everything the core reads and writes in the store. */
  datatype Store = Store(
    products: map<ProductId, Product>,
    carts: map<CartKey, CartLine>,
    orders: map<OrderKey, Order>)

  /** The result of one atomic transition: what the caller is told, and the new store. */
  datatype Step<+O> = Step(outcome: O, store: Store)

  /** The product ids of the lines that belong to user `u`. */
  function UserItems(c: map<CartKey, CartLine>, u: UserId): (r: set<ProductId>)
    ensures forall p :: p in r <==> CartKey(u, p) in c
  {
    set k | k in c && k.user == u :: k.item
  }

  /** The cart with every line of user `u` deleted. */
  function ClearUserLines(c: map<CartKey, CartLine>, u: UserId): (r: map<CartKey, CartLine>)
    ensures forall k :: k in r <==> k in c && k.user != u
    ensures forall k :: k in r ==> r[k] == c[k]
  {
    map k | k in c && k.user != u :: c[k]
  }

  /** Lines of users other than `u` are the same in `c` and `c'`. */
  predicate OtherUsersUntouched(c: map<CartKey, CartLine>, c': map<CartKey, CartLine>, u: UserId)
  {
    && (forall k :: k in c && k.user != u ==> k in c' && c'[k] == c[k])
    && (forall k :: k in c' && k.user != u ==> k in c)
  }

  predicate Distinct(keys: seq<ProductId>)
  {
    forall i, j :: 0 <= i < j < |keys| ==> keys[i] != keys[j]
  }

  /** Every id in `keys` names a line of user `u`. */
  predicate AllPresent(c: map<CartKey, CartLine>, u: UserId, keys: seq<ProductId>)
  {
    forall i :: 0 <= i < |keys| ==> CartKey(u, keys[i]) in c
  }

  /** `keys` lists each line of user `u` exactly once, in the arbitrary order
      in which a KEYS scan of `cart:<u>:item:*` returns them. */
  predicate IsEnumeration(c: map<CartKey, CartLine>, u: UserId, keys: seq<ProductId>)
  {
    && Distinct(keys)
    && AllPresent(c, u, keys)
    && (forall k :: k in c && k.user == u ==> k.item in keys)
  }

  /** No product has negative stock. */
  predicate StockNonNegative(products: map<ProductId, Product>)
  {
    forall p :: p in products ==> products[p].stock >= 0
  }

  /** Every cart line holds at least one unit. */
  predicate PositiveLines(c: map<CartKey, CartLine>)
  {
    forall k :: k in c ==> c[k].quantity >= 1
  }
}
