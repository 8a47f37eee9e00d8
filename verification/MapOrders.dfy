/** Ranging over a Go map: every key once, in an order that nobody chose. */
module MapOrders {

  ghost predicate IsOrderOf<K>(order: seq<K>, keys: set<K>) {
    && (forall k :: k in keys ==> k in order)
    && (forall i :: 0 <= i < |order| ==> order[i] in keys)
    && (forall i, j :: 0 <= i < j < |order| ==> order[i] != order[j])
  }

  lemma AppendToOrder<K>(order: seq<K>, keys: set<K>, k: K)
    requires IsOrderOf(order, keys) && k !in keys
    ensures IsOrderOf(order + [k], keys + {k})
  {
  }

  /** Ranging over `keys`, with `order` behind and `remaining` ahead, the next key is `k`. */
  lemma VisitNext<K>(order: seq<K>, keys: set<K>, remaining: set<K>, k: K)
    requires k in remaining && remaining <= keys && IsOrderOf(order, keys - remaining)
    ensures IsOrderOf(order + [k], keys - (remaining - {k}))
  {
    AppendToOrder(order, keys - remaining, k);
    assert keys - remaining + {k} == keys - (remaining - {k});
  }

  /** Any finite set of keys can be put in an order. */
  lemma SomeOrder<K>(keys: set<K>) returns (order: seq<K>)
    ensures IsOrderOf(order, keys)
    decreases |keys|
  {
    if keys == {} {
      order := [];
    } else {
      var k :| k in keys;
      var rest := SomeOrder(keys - {k});
      AppendToOrder(rest, keys - {k}, k);
      assert keys - {k} + {k} == keys;
      order := rest + [k];
    }
  }

  lemma {:induction false} OrderHasSizeOfKeys<K>(order: seq<K>, keys: set<K>)
    requires IsOrderOf(order, keys)
    ensures |order| == |keys|
    decreases |order|
  {
    if order == [] {
      assert keys == {};
    } else {
      var n := |order| - 1;
      assert forall k :: k in order <==> k in order[..n] || k == order[n];
      OrderHasSizeOfKeys(order[..n], keys - {order[n]});
    }
  }

  /** A map filled by storing, for each item in turn, the pair that `entry` makes of it. */
  function Collect<K, D(==), E>(entry: K -> (D, E), items: seq<K>): map<D, E> {
    if items == [] then map[]
    else
      var n := |items| - 1;
      Collect(entry, items[..n])[entry(items[n]).0 := entry(items[n]).1]
  }

  /** The map holds the key of every item, and nothing that did not come from an item. */
  lemma {:induction false} CollectHolds<K, D, E>(entry: K -> (D, E), items: seq<K>)
    ensures forall k :: k in items ==> entry(k).0 in Collect(entry, items)
    ensures forall d :: d in Collect(entry, items) ==>
              exists k :: k in items && entry(k) == (d, Collect(entry, items)[d])
  {
    if items != [] {
      var n := |items| - 1;
      CollectHolds(entry, items[..n]);
      var before, after := Collect(entry, items[..n]), Collect(entry, items);
      assert forall k :: k in items <==> k in items[..n] || k == items[n];
      forall d | d in after
        ensures exists k :: k in items && entry(k) == (d, after[d])
      {
        if d == entry(items[n]).0 {
          assert entry(items[n]) == (d, after[d]);
        } else {
          var k :| k in items[..n] && entry(k) == (d, before[d]);
        }
      }
    }
  }

  /** The item that left the pair that is held for `d`. */
  lemma CollectedFrom<K, D, E>(entry: K -> (D, E), items: seq<K>, d: D) returns (k: K)
    requires d in Collect(entry, items)
    ensures k in items && entry(k) == (d, Collect(entry, items)[d])
  {
    CollectHolds(entry, items);
    k :| k in items && entry(k) == (d, Collect(entry, items)[d]);
  }

  /** Items that are stored as they were give back the map they were taken from. */
  lemma CollectSame<K, E>(entry: K -> (K, E), order: seq<K>, m: map<K, E>)
    requires IsOrderOf(order, m.Keys)
    requires forall k :: k in m ==> entry(k) == (k, m[k])
    ensures Collect(entry, order) == m
  {
    CollectHolds(entry, order);
    assert Collect(entry, order).Keys == m.Keys;
  }

  ghost predicate EntriesAgree<K, D, E>(entry: K -> (D, E), keys: set<K>) {
    forall k1, k2 :: k1 in keys && k2 in keys && entry(k1).0 == entry(k2).0 ==> entry(k1).1 == entry(k2).1
  }

  ghost predicate OrderDoesNotMatter<K(!new), D, E>(entry: K -> (D, E), keys: set<K>) {
    forall o1, o2 :: IsOrderOf(o1, keys) && IsOrderOf(o2, keys) ==> Collect(entry, o1) == Collect(entry, o2)
  }

  /** Every order fills the same map exactly when items that share a key share their value. */
  lemma OrderIndependence<K(!new), D, E>(entry: K -> (D, E), keys: set<K>)
    ensures OrderDoesNotMatter(entry, keys) <==> EntriesAgree(entry, keys)
  {
    if EntriesAgree(entry, keys) {
      forall o1, o2 | IsOrderOf(o1, keys) && IsOrderOf(o2, keys)
        ensures Collect(entry, o1) == Collect(entry, o2)
      {
        CollectHolds(entry, o1);
        CollectHolds(entry, o2);
      }
    } else {
      var k1, k2 :| k1 in keys && k2 in keys && entry(k1).0 == entry(k2).0 && entry(k1).1 != entry(k2).1;
      var rest := SomeOrder(keys - {k1, k2});
      var o1, o2 := rest + [k2, k1], rest + [k1, k2];
      assert IsOrderOf(o1, keys) && IsOrderOf(o2, keys);
      var d := entry(k1).0;
      assert Collect(entry, o1)[d] == entry(k1).1;
      assert Collect(entry, o2)[d] == entry(k2).1;
    }
  }
}
