/** Sums over the values of a finite map, and counts of the keys whose value satisfies a predicate.
    HashMap iteration order is unspecified, so the sum picks keys in an arbitrary order. */
module Sums {

  ghost function Sum<K(!new)>(m: map<K, nat>): nat {
    if m == map[] then 0 else
      var k :| k in m;
      m[k] + Sum(m - {k})
  }

  /** The order in which keys are picked does not matter. */
  lemma {:induction false} SumSplit<K(!new)>(m: map<K, nat>, k: K)
    requires k in m
    ensures Sum(m) == m[k] + Sum(m - {k})
    decreases |m|
  {
    var p :| p in m && Sum(m) == m[p] + Sum(m - {p});
    if p != k {
      SumSplit(m - {p}, k);
      SumSplit(m - {k}, p);
      assert m - {p} - {k} == m - {k} - {p};
    }
  }

  lemma {:induction false} SumUpdate<K(!new)>(m: map<K, nat>, k: K, v: nat)
    ensures Sum(m[k := v]) == Sum(m - {k}) + v
    ensures k in m ==> Sum(m[k := v]) == Sum(m) - m[k] + v
    ensures k !in m ==> Sum(m[k := v]) == Sum(m) + v
  {
    SumSplit(m[k := v], k);
    assert m[k := v] - {k} == m - {k};
    if k in m {
      SumSplit(m, k);
    } else {
      assert m - {k} == m;
    }
  }

  lemma {:induction false} SumMonotone<K(!new)>(a: map<K, nat>, b: map<K, nat>)
    requires a.Keys == b.Keys && forall k | k in a :: a[k] <= b[k]
    ensures Sum(a) <= Sum(b)
    decreases |a|
  {
    if a == map[] {
      assert b == map[];
    } else {
      var k :| k in a;
      SumSplit(a, k);
      SumSplit(b, k);
      SumMonotone(a - {k}, b - {k});
    }
  }

  lemma {:induction false} SumAdd<K(!new)>(a: map<K, nat>, b: map<K, nat>)
    requires a.Keys == b.Keys
    ensures Sum(map k | k in a :: a[k] + b[k]) == Sum(a) + Sum(b)
    decreases |a|
  {
    var both := map k | k in a :: a[k] + b[k];
    if a == map[] {
      assert b == map[] && both == map[];
    } else {
      var k :| k in a;
      SumSplit(a, k);
      SumSplit(b, k);
      SumSplit(both, k);
      SumAdd(a - {k}, b - {k});
      assert both - {k} == map j | j in a - {k} :: (a - {k})[j] + (b - {k})[j];
    }
  }

  /** Dropping keys that hold zero leaves the sum unchanged. */
  lemma {:induction false} SumRestrict<K(!new)>(m: map<K, nat>, keep: set<K>)
    requires forall k | k in m && k !in keep :: m[k] == 0
    ensures Sum(map k | k in m && k in keep :: m[k]) == Sum(m)
    decreases |m|
  {
    var r := map k | k in m && k in keep :: m[k];
    if k :| k in m && k !in keep {
      SumSplit(m, k);
      SumRestrict(m - {k}, keep);
      assert r == map j | j in m - {k} && j in keep :: (m - {k})[j];
    } else {
      assert r == m;
    }
  }
}
