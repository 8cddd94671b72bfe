/** Sums over the cart: the quantity of a product reserved across all users'
    carts, and the value `price * quantity` of one user's cart, both as
    order-independent sums over the cart's key set, and the running total a
    loop over a KEYS enumeration computes.
 */
module Sums {
  import opened Ledger

  /** What a cart line contributes to a sum. */
  datatype Measure =
    | ReservedOf(product: ProductId)   // the line's quantity, for lines of `product`
    | ValueOf(user: UserId)            // the line's price * quantity, for lines of `user`

  function LineValue(line: CartLine): (v: int)
  {
    line.price * line.quantity
  }

  function Weight(m: Measure, k: CartKey, line: CartLine): (w: int)
  {
    match m
    case ReservedOf(p) => if k.item == p then line.quantity else 0
    case ValueOf(u) => if k.user == u then LineValue(line) else 0
  }

  /** The sum of `m` over the lines of `c` whose keys are in `ks`. */
  ghost function SumOver(c: map<CartKey, CartLine>, ks: set<CartKey>, m: Measure): (sum: int)
    requires ks <= c.Keys
    decreases ks
  {
    if ks == {} then 0
    else
      var k :| k in ks;
      Weight(m, k, c[k]) + SumOver(c, ks - {k}, m)
  }

  /** Units of product `p` held in carts, over all users. */
  ghost function Reserved(c: map<CartKey, CartLine>, p: ProductId): (units: int)
  {
    SumOver(c, c.Keys, ReservedOf(p))
  }

  /** The value of user `u`'s cart: the sum of price * quantity over their lines. */
  ghost function CartValue(c: map<CartKey, CartLine>, u: UserId): (value: int)
  {
    SumOver(c, c.Keys, ValueOf(u))
  }

  /** The running total of a loop that visits the lines of `u` in the order of `keys`. */
  function SeqTotal(c: map<CartKey, CartLine>, u: UserId, keys: seq<ProductId>): (total: int)
    requires AllPresent(c, u, keys)
    decreases |keys|
  {
    if keys == [] then 0
    else
      var last := |keys| - 1;
      SeqTotal(c, u, keys[..last]) + LineValue(c[CartKey(u, keys[last])])
  }

  /** Any element may be taken out of the sum first. */
  lemma {:induction false} SumPick(c: map<CartKey, CartLine>, ks: set<CartKey>, k: CartKey, m: Measure)
    requires ks <= c.Keys && k in ks
    ensures SumOver(c, ks, m) == Weight(m, k, c[k]) + SumOver(c, ks - {k}, m)
    decreases ks
  {
    var x :| x in ks && SumOver(c, ks, m) == Weight(m, x, c[x]) + SumOver(c, ks - {x}, m);
    if x != k {
      SumPick(c, ks - {x}, k, m);
      SumPick(c, ks - {k}, x, m);
      assert ks - {x} - {k} == ks - {k} - {x};
    }
  }

  /** The sum only depends on the lines it ranges over. */
  lemma {:induction false} SumFrame(c: map<CartKey, CartLine>, c': map<CartKey, CartLine>, ks: set<CartKey>, m: Measure)
    requires ks <= c.Keys && ks <= c'.Keys
    requires forall k :: k in ks ==> c[k] == c'[k]
    ensures SumOver(c, ks, m) == SumOver(c', ks, m)
    decreases ks
  {
    if ks != {} {
      var k :| k in ks;
      SumPick(c, ks, k, m);
      SumPick(c', ks, k, m);
      SumFrame(c, c', ks - {k}, m);
    }
  }

  /** Writing one line changes the whole-cart sum by the difference of its weights. */
  lemma SumUpdate(c: map<CartKey, CartLine>, k: CartKey, line: CartLine, m: Measure)
    ensures SumOver(c[k := line], c[k := line].Keys, m)
         == SumOver(c, c.Keys, m) - (if k in c then Weight(m, k, c[k]) else 0) + Weight(m, k, line)
  {
    var c' := c[k := line];
    var rest := c'.Keys - {k};
    SumPick(c', c'.Keys, k, m);
    SumFrame(c, c', rest, m);
    if k in c {
      SumPick(c, c.Keys, k, m);
      assert c.Keys - {k} == rest;
    } else {
      assert c.Keys == rest;
    }
  }

  /** Deleting one line takes its weight out of the whole-cart sum. */
  lemma SumRemove(c: map<CartKey, CartLine>, k: CartKey, m: Measure)
    requires k in c
    ensures SumOver(c - {k}, (c - {k}).Keys, m) == SumOver(c, c.Keys, m) - Weight(m, k, c[k])
  {
    var c' := c - {k};
    SumPick(c, c.Keys, k, m);
    assert c'.Keys == c.Keys - {k};
    SumFrame(c, c', c'.Keys, m);
  }

  /** Lines that all weigh nothing sum to nothing. */
  lemma {:induction false} SumOfWeightless(c: map<CartKey, CartLine>, ks: set<CartKey>, m: Measure)
    requires ks <= c.Keys
    requires forall k :: k in ks ==> Weight(m, k, c[k]) == 0
    ensures SumOver(c, ks, m) == 0
    decreases ks
  {
    if ks != {} {
      var k :| k in ks;
      SumPick(c, ks, k, m);
      SumOfWeightless(c, ks - {k}, m);
    }
  }

  /** A loop over any enumeration of `u`'s lines ends with the value of `u`'s
      cart, whatever order the enumeration has. */
  lemma {:induction false} SeqTotalIsCartValue(c: map<CartKey, CartLine>, u: UserId, keys: seq<ProductId>, ks: set<CartKey>)
    requires ks <= c.Keys
    requires Distinct(keys) && AllPresent(c, u, keys)
    requires forall i :: 0 <= i < |keys| ==> CartKey(u, keys[i]) in ks
    requires forall k :: k in ks && k.user == u ==> k.item in keys
    ensures SeqTotal(c, u, keys) == SumOver(c, ks, ValueOf(u))
    decreases |keys|
  {
    if keys == [] {
      SumOfWeightless(c, ks, ValueOf(u));
    } else {
      var last := |keys| - 1;
      var k := CartKey(u, keys[last]);
      var front := keys[..last];
      assert forall i :: 0 <= i < |front| ==> front[i] == keys[i];
      forall k' | k' in ks - {k} && k'.user == u
        ensures k'.item in front
      {
        var i :| 0 <= i < |keys| && keys[i] == k'.item;
        assert i != last;
      }
      SeqTotalIsCartValue(c, u, front, ks - {k});
      SumPick(c, ks, k, ValueOf(u));
    }
  }

  /** The enumeration form of `SeqTotalIsCartValue`. */
  lemma EnumerationTotal(c: map<CartKey, CartLine>, u: UserId, keys: seq<ProductId>)
    requires IsEnumeration(c, u, keys)
    ensures SeqTotal(c, u, keys) == CartValue(c, u)
  {
    SeqTotalIsCartValue(c, u, keys, c.Keys);
  }
}
