/**
 * Sums of a measure over the values of a map, in no particular key order:
 * what the coverage classes accumulate when they iterate over a hash map.
 */
module MapSums {

  /** The sum of `f` over the values stored under `keys`. */
  ghost function SumOver<K, V>(m: map<K, V>, f: V -> int, keys: set<K>): int
    requires keys <= m.Keys
    decreases keys
  {
    if keys == {} then 0
    else
      var k :| k in keys;
      f(m[k]) + SumOver(m, f, keys - {k})
  }

  /** Any key can be taken out first: the sum does not depend on the order. */
  lemma {:induction false} SumOverRemove<K, V>(m: map<K, V>, f: V -> int, keys: set<K>, k: K)
    requires keys <= m.Keys && k in keys
    ensures SumOver(m, f, keys) == f(m[k]) + SumOver(m, f, keys - {k})
    decreases keys
  {
    var j :| j in keys && SumOver(m, f, keys) == f(m[j]) + SumOver(m, f, keys - {j});
    if j != k {
      SumOverRemove(m, f, keys - {j}, k);
      SumOverRemove(m, f, keys - {k}, j);
      assert keys - {j} - {k} == keys - {k} - {j};
    }
  }

  /** A non-negative measure sums to at least as much over a larger key set. */
  lemma {:induction false} SumOverSubset<K, V>(m: map<K, V>, f: V -> int, small: set<K>, big: set<K>)
    requires small <= big <= m.Keys
    requires forall k :: k in big ==> f(m[k]) >= 0
    ensures SumOver(m, f, small) <= SumOver(m, f, big)
    decreases big
  {
    if big != small {
      var k :| k in big && k !in small;
      SumOverRemove(m, f, big, k);
      SumOverSubset(m, f, small, big - {k});
    }
  }

  /** Sums over the same keys compare as their terms do. */
  lemma {:induction false} SumOverPointwise<K, V>(m: map<K, V>, n: map<K, V>, f: V -> int, keys: set<K>)
    requires keys <= m.Keys && keys <= n.Keys
    requires forall k :: k in keys ==> f(m[k]) <= f(n[k])
    ensures SumOver(m, f, keys) <= SumOver(n, f, keys)
    decreases keys
  {
    if keys != {} {
      var k :| k in keys;
      SumOverRemove(m, f, keys, k);
      SumOverRemove(n, f, keys, k);
      SumOverPointwise(m, n, f, keys - {k});
    }
  }

  /** Sums over the same keys of maps that agree on them are equal. */
  lemma {:induction false} SumOverAgree<K, V>(m: map<K, V>, n: map<K, V>, f: V -> int, keys: set<K>)
    requires keys <= m.Keys && keys <= n.Keys
    requires forall k :: k in keys ==> m[k] == n[k]
    ensures SumOver(m, f, keys) == SumOver(n, f, keys)
    decreases keys
  {
    if keys != {} {
      var k :| k in keys;
      SumOverRemove(m, f, keys, k);
      SumOverRemove(n, f, keys, k);
      SumOverAgree(m, n, f, keys - {k});
    }
  }

  /** Keys outside `known` whose terms are non-negative only add to the sum. */
  lemma {:induction false} SumOverNewKeys<K, V>(m: map<K, V>, f: V -> int, known: set<K>)
    requires known <= m.Keys
    requires forall k :: k in m.Keys ==> f(m[k]) >= 0 || k in known
    ensures SumOver(m, f, known) <= SumOver(m, f, m.Keys)
    decreases m.Keys - known
  {
    if known != m.Keys {
      var k :| k in m.Keys && k !in known;
      SumOverRemove(m, f, known + {k}, k);
      assert known + {k} - {k} == known;
      SumOverNewKeys(m, f, known + {k});
    }
  }

  /** The real-valued counterpart of `SumOver`. */
  ghost function RealSumOver<K, V>(m: map<K, V>, f: V -> real, keys: set<K>): real
    requires keys <= m.Keys
    decreases keys
  {
    if keys == {} then 0.0
    else
      var k :| k in keys;
      f(m[k]) + RealSumOver(m, f, keys - {k})
  }

  lemma {:induction false} RealSumOverRemove<K, V>(m: map<K, V>, f: V -> real, keys: set<K>, k: K)
    requires keys <= m.Keys && k in keys
    ensures RealSumOver(m, f, keys) == f(m[k]) + RealSumOver(m, f, keys - {k})
    decreases keys
  {
    var j :| j in keys && RealSumOver(m, f, keys) == f(m[j]) + RealSumOver(m, f, keys - {j});
    if j != k {
      RealSumOverRemove(m, f, keys - {j}, k);
      RealSumOverRemove(m, f, keys - {k}, j);
      assert keys - {j} - {k} == keys - {k} - {j};
    }
  }
}
