/** Sums over the values of a finite map, in no particular order. */
module Sums {

  lemma SizeRemove<K, V>(m: map<K, V>, k: K)
    requires k in m
    ensures |m - {k}| == |m| - 1
  {
    assert (m - {k}).Keys == m.Keys - {k};
  }

  ghost function SumMap<K>(m: map<K, int>): int
    decreases |m|
  {
    if |m| == 0 then 0
    else
      var k :| k in m;
      SizeRemove(m, k);
      m[k] + SumMap(m - {k})
  }

  lemma SumMapSomeKey<K>(m: map<K, int>) returns (j: K)
    requires |m| > 0
    ensures j in m && SumMap(m) == m[j] + SumMap(m - {j})
  {
    j :| j in m && SumMap(m) == m[j] + SumMap(m - {j});
  }

  /** Any entry can be taken out first: the sum does not depend on the order. */
  lemma {:induction false} SumMapRemove<K>(m: map<K, int>, k: K)
    requires k in m
    ensures SumMap(m) == m[k] + SumMap(m - {k})
    decreases |m|
  {
    var j := SumMapSomeKey(m);
    if j != k {
      SizeRemove(m, j);
      SizeRemove(m, k);
      var mj, mk := m - {j}, m - {k};
      assert k in mj && j in mk;
      SumMapRemove(mj, k);
      SumMapRemove(mk, j);
      assert mj - {k} == mk - {j};
    }
  }

  lemma {:induction false} SumMapZero<K>(m: map<K, int>)
    requires forall k :: k in m ==> m[k] == 0
    ensures SumMap(m) == 0
    decreases |m|
  {
    if |m| > 0 {
      var k := SumMapSomeKey(m);
      SizeRemove(m, k);
      SumMapZero(m - {k});
    }
  }

  /** Setting one entry changes the sum by the difference (a new key adds its value). */
  lemma SumMapUpdate<K>(m: map<K, int>, k: K, v: int)
    ensures SumMap(m[k := v]) == SumMap(m) - (if k in m then m[k] else 0) + v
  {
    SumMapRemove(m[k := v], k);
    assert m[k := v] - {k} == m - {k};
    if k in m {
      SumMapRemove(m, k);
    } else {
      assert m - {k} == m;
    }
  }
}
