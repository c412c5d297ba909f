/** Filling a map from a sequence of items, one after the other. */
module Maps {
  /** Each item `x` goes under `key(x)`; a later item overwrites an earlier one of the same key. */
  function PutAll<T, K, V>(key: T -> K, value: T -> V, m: map<K, V>, xs: seq<T>): map<K, V> {
    if xs == [] then m
    else PutAll(key, value, m, xs[..|xs| - 1])[key(xs[|xs| - 1]) := value(xs[|xs| - 1])]
  }

  predicate DistinctKeys<T, K(==)>(key: T -> K, xs: seq<T>) {
    forall i, j | 0 <= i < j < |xs| :: key(xs[i]) != key(xs[j])
  }

  lemma {:induction false} PutAllConcat<T, K, V>(key: T -> K, value: T -> V, m: map<K, V>, xs: seq<T>, ys: seq<T>)
    ensures PutAll(key, value, m, xs + ys) == PutAll(key, value, PutAll(key, value, m, xs), ys)
  {
    if ys == [] {
      assert xs + ys == xs;
    } else {
      PutAllConcat(key, value, m, xs, ys[..|ys| - 1]);
      assert (xs + ys)[..|xs + ys| - 1] == xs + ys[..|ys| - 1];
    }
  }

  /** Every key comes from an item. */
  lemma {:induction false} PutAllKey<T, K, V>(key: T -> K, value: T -> V, xs: seq<T>, k: K) returns (j: nat)
    requires k in PutAll(key, value, map[], xs)
    ensures j < |xs| && k == key(xs[j])
  {
    j := |xs| - 1;
    if k != key(xs[j]) {
      j := PutAllKey(key, value, xs[..|xs| - 1], k);
    }
  }

  lemma {:induction false} PutAllAt<T, K, V>(key: T -> K, value: T -> V, xs: seq<T>, j: nat)
    requires DistinctKeys(key, xs) && j < |xs|
    ensures key(xs[j]) in PutAll(key, value, map[], xs) && PutAll(key, value, map[], xs)[key(xs[j])] == value(xs[j])
  {
    if j < |xs| - 1 {
      PutAllAt(key, value, xs[..|xs| - 1], j);
    }
  }

  /** The map has one entry for each item exactly when no two items share a key. */
  lemma {:induction false} PutAllSize<T, K, V>(key: T -> K, value: T -> V, xs: seq<T>)
    ensures |PutAll(key, value, map[], xs)| <= |xs|
    ensures |PutAll(key, value, map[], xs)| == |xs| <==> DistinctKeys(key, xs)
  {
    if xs != [] {
      var init, last := xs[..|xs| - 1], xs[|xs| - 1];
      var m := PutAll(key, value, map[], init);
      PutAllSize(key, value, init);
      if key(last) in m {
        var j := PutAllKey(key, value, init, key(last));
        assert key(xs[j]) == key(xs[|xs| - 1]);
        assert |m[key(last) := value(last)]| == |m|;
      } else if DistinctKeys(key, init) {
        forall j | 0 <= j < |xs| - 1 ensures key(xs[j]) != key(last) {
          PutAllAt(key, value, init, j);
        }
      } else {
        assert forall j | 0 <= j < |init| :: init[j] == xs[j];
      }
    }
  }
}
