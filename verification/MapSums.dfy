/** Sums of the values of a finite map, and how updates change them. */
module MapSums {

  ghost function Sum<K(!new)>(m: map<K, int>): int
    decreases m.Keys
  {
    if m.Keys == {} then 0
    else
      var k :| k in m.Keys;
      m[k] + Sum(m - {k})
  }

  /** The value stored at a key, zero when there is none. */
  function At<K>(m: map<K, int>, k: K): int {
    if k in m then m[k] else 0
  }

  /** Any key can be the one that is split off. */
  lemma {:induction false} SumRemove<K(!new)>(m: map<K, int>, k: K)
    requires k in m
    ensures Sum(m) == m[k] + Sum(m - {k})
    decreases m.Keys
  {
    var x :| x in m.Keys && Sum(m) == m[x] + Sum(m - {x});
    if x != k {
      SumRemove(m - {x}, k);
      SumRemove(m - {k}, x);
      assert m - {x} - {k} == m - {k} - {x};
    }
  }

  lemma SumDrop<K(!new)>(m: map<K, int>, k: K)
    ensures Sum(m - {k}) == Sum(m) - At(m, k)
  {
    if k in m {
      SumRemove(m, k);
    } else {
      assert m - {k} == m;
    }
  }

  lemma SumUpdate<K(!new)>(m: map<K, int>, k: K, v: int)
    ensures Sum(m[k := v]) == Sum(m) - At(m, k) + v
  {
    SumRemove(m[k := v], k);
    assert m[k := v] - {k} == m - {k};
    SumDrop(m, k);
  }

  /** Sums of maps over the same keys combine linearly. */
  lemma {:induction false} SumLinear<K(!new)>(m: map<K, int>, a: map<K, int>, b: map<K, int>, d: int)
    requires m.Keys == a.Keys == b.Keys
    requires forall k :: k in m ==> m[k] == a[k] + d * b[k]
    ensures Sum(m) == Sum(a) + d * Sum(b)
    decreases m.Keys
  {
    if m.Keys != {} {
      var k :| k in m.Keys;
      SumRemove(m, k);
      SumRemove(a, k);
      SumRemove(b, k);
      SumLinear(m - {k}, a - {k}, b - {k}, d);
      assert d * (b[k] + Sum(b - {k})) == d * b[k] + d * Sum(b - {k});
    }
  }

  /** Values that are never negative bound their own sum from below, one by one. */
  lemma {:induction false} SumBounds<K(!new)>(m: map<K, int>)
    requires forall k :: k in m ==> 0 <= m[k]
    ensures 0 <= Sum(m)
    ensures forall k :: k in m ==> m[k] <= Sum(m)
    decreases m.Keys
  {
    forall k | k in m
      ensures m[k] <= Sum(m)
    {
      SumRemove(m, k);
      SumBounds(m - {k});
    }
    if m.Keys != {} {
      var k :| k in m.Keys;
      assert 0 <= m[k] <= Sum(m);
    }
  }

  /** A pointwise smaller map has a smaller sum. */
  lemma SumMonotone<K(!new)>(m: map<K, int>, n: map<K, int>)
    requires m.Keys == n.Keys
    requires forall k :: k in m ==> m[k] <= n[k]
    ensures Sum(m) <= Sum(n)
  {
    var gap := map k | k in m :: n[k] - m[k];
    SumLinear(n, gap, m, 1);
    SumBounds(gap);
  }

  /** A sum splits over a set of keys and the rest. */
  lemma {:induction false} SumSplit<K(!new)>(m: map<K, int>, ks: set<K>)
    ensures Sum(m) == Sum(Only(m, ks)) + Sum(m - ks)
    decreases ks
  {
    if ks == {} {
      assert m - ks == m;
      assert Only(m, ks).Keys == {};
    } else {
      var k :| k in ks;
      SumSplit(m, ks - {k});
      SumDrop(m - (ks - {k}), k);
      assert m - (ks - {k}) - {k} == m - ks;
      if k in m {
        assert Only(m, ks) == Only(m, ks - {k})[k := m[k]];
        SumUpdate(Only(m, ks - {k}), k, m[k]);
      } else {
        assert Only(m, ks) == Only(m, ks - {k});
      }
    }
  }

  /** The part of a map over a set of keys. */
  function Only<K, V>(m: map<K, V>, ks: set<K>): map<K, V> {
    map k | k in m && k in ks :: m[k]
  }
}
