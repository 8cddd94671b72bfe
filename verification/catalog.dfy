/** The product catalog and its one-time seeding at start-up. */
module Catalog {
  import opened Ledger

  /** The ten products written when the store starts with an empty catalog. */
  const InitialProducts: map<ProductId, Product> := map[
    "1" := Product("T-shirt", 2, 10),
    "2" := Product("Apple", 2, 10),
    "3" := Product("Banana", 1, 15),
    "4" := Product("Milk", 3, 8),
    "5" := Product("Bread", 2, 12),
    "6" := Product("Sushi", 2, 12),
    "7" := Product("Ice cream", 3, 6),
    "8" := Product("Ramen", 2, 9),
    "9" := Product("Cheese", 2, 2),
    "10" := Product("Noodle", 3, 20)
  ]

  /** Start-up seeding: the initial products are written only into an empty catalog. */
  function Seed(s: Store): (r: Store)
    ensures |s.products| == 0 ==> r.products == InitialProducts
    ensures |s.products| != 0 ==> r.products == s.products
    ensures r.carts == s.carts && r.orders == s.orders
  {
    if |s.products| == 0 then s.(products := InitialProducts) else s
  }

  /** Seeding leaves a non-empty catalog, so seeding again changes nothing. */
  lemma SeedIdempotent(s: Store)
    ensures |Seed(s).products| > 0
    ensures Seed(Seed(s)) == Seed(s)
  {
    assert "1" in InitialProducts;
  }

  /** Every seeded product has a name, a non-negative price and non-negative stock. */
  lemma SeededCatalogWellFormed(s: Store)
    requires StockNonNegative(s.products)
    ensures StockNonNegative(Seed(s).products)
    ensures |s.products| == 0 ==>
      forall p :: p in Seed(s).products ==> Seed(s).products[p].price >= 0 && Seed(s).products[p].name != ""
  {
    forall p | p in InitialProducts
      ensures InitialProducts[p].price >= 0 && InitialProducts[p].stock >= 0 && InitialProducts[p].name != ""
    {
    }
  }
}
