/** Finite sums over maps, the shape every billing invariant is stated in. */
module Sums {

  /** The sum of a map's values, in whatever order the keys are taken. */
  ghost function Sum<K(!new)>(m: map<K, int>): int
    decreases |m|
  {
    if m == map[] then 0
    else
      var k :| k in m;
      m[k] + Sum(m - {k})
  }

  /** Any key can be taken out first. */
  lemma {:induction false} SumTakes<K(!new)>(m: map<K, int>, k: K)
    requires k in m
    ensures Sum(m) == m[k] + Sum(m - {k})
    decreases |m|
  {
    var j :| j in m && Sum(m) == m[j] + Sum(m - {j});
    if j != k {
      SumTakes(m - {j}, k);
      SumTakes(m - {k}, j);
      assert m - {j} - {k} == m - {k} - {j};
    }
  }

  /** Writing one key moves the sum by the difference it makes at that key. */
  lemma SumWrites<K(!new)>(m: map<K, int>, k: K, v: int)
    ensures Sum(m[k := v]) == Sum(m) + v - (if k in m then m[k] else 0)
  {
    SumTakes(m[k := v], k);
    assert m[k := v] - {k} == m - {k};
    if k in m {
      SumTakes(m, k);
    } else {
      assert m - {k} == m;
    }
  }

  /** A sum of zeros is zero. */
  lemma {:induction false} SumOfZeros<K(!new)>(m: map<K, int>)
    requires forall k :: k in m ==> m[k] == 0
    ensures Sum(m) == 0
    decreases |m|
  {
    if m != map[] {
      var k :| k in m && Sum(m) == m[k] + Sum(m - {k});
      SumOfZeros(m - {k});
    }
  }

  /** Pointwise comparison carries over to sums. */
  lemma {:induction false} SumMonotone<K(!new)>(m: map<K, int>, n: map<K, int>)
    requires m.Keys == n.Keys
    requires forall k :: k in m ==> m[k] <= n[k]
    ensures Sum(m) <= Sum(n)
    decreases |m|
  {
    if m == map[] {
      assert n.Keys == {};
      assert n == map[];
    } else {
      var k :| k in m && Sum(m) == m[k] + Sum(m - {k});
      SumTakes(n, k);
      SumMonotone(m - {k}, n - {k});
    }
  }

  /** With no negative value, one value is at most the sum, which is not negative. */
  lemma {:induction false} SumAtLeast<K(!new)>(m: map<K, int>)
    requires forall k :: k in m ==> m[k] >= 0
    ensures Sum(m) >= 0
    ensures forall k :: k in m ==> m[k] <= Sum(m)
    decreases |m|
  {
    if m != map[] {
      var j :| j in m && Sum(m) == m[j] + Sum(m - {j});
      SumAtLeast(m - {j});
      forall k | k in m
        ensures m[k] <= Sum(m)
      {
        if k != j {
          assert k in m - {j};
        }
      }
    }
  }
}
