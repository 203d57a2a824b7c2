/** Go maps from keys to counters, as the source uses them everywhere: reading an absent key yields 0. */
module GoMaps {

  /** `m[k]` in Go, for a map of ints. */
  function Get<K>(m: map<K, int>, k: K): int {
    if k in m then m[k] else 0
  }

  function Min(a: int, b: int): int {
    if a < b then a else b
  }

  function Max(a: int, b: int): int {
    if a > b then a else b
  }

  /** The next key that a range over a map visits. */
  method Any<K(==)>(todo: set<K>) returns (k: K)
    requires todo != {}
    ensures k in todo
  {
    k :| k in todo;
  }

  lemma SomeIn<K>(s: set<K>) returns (k: K)
    requires s != {}
    ensures k in s
  {
    k :| k in s;
  }

  /** The sum of two maps, key by key. */
  ghost function Plus<K>(a: map<K, int>, b: map<K, int>): map<K, int> {
    map k | k in a.Keys + b.Keys :: Get(a, k) + Get(b, k)
  }

  ghost predicate NonNegative<K>(m: map<K, int>) {
    forall k | k in m :: m[k] >= 0
  }

  ghost predicate Positive<K>(m: map<K, int>) {
    forall k | k in m :: m[k] > 0
  }

  /** The map without its zero entries. Two maps that read the same everywhere have the same normal form. */
  ghost function Norm<K(!new)>(m: map<K, int>): (r: map<K, int>)
    ensures forall k :: Get(r, k) == Get(m, k)
    ensures NonNegative(m) ==> Positive(r)
  {
    map k | k in m && m[k] != 0 :: m[k]
  }

  /** Sum of all the values of a map. The order in which a Go `range` visits the keys does not matter. */
  ghost function Total<K>(m: map<K, int>): int
    decreases |m|
  {
    if m == map[] then 0 else
      var k :| k in m;
      assert |m - {k}| < |m| by { RemoveShrinks(m, k); }
      m[k] + Total(m - {k})
  }

  lemma RemoveShrinks<K, V>(m: map<K, V>, k: K)
    requires k in m
    ensures |m - {k}| == |m| - 1
  {
    assert (m - {k}).Keys == m.Keys - {k};
  }

  lemma {:induction false} TotalRemove<K>(m: map<K, int>, k: K)
    requires k in m
    ensures Total(m) == m[k] + Total(m - {k})
    decreases |m|
  {
    var j :| j in m && Total(m) == m[j] + Total(m - {j});
    RemoveShrinks(m, j);
    if j != k {
      TotalRemove(m - {j}, k);
      RemoveShrinks(m, k);
      TotalRemove(m - {k}, j);
      assert m - {j} - {k} == m - {k} - {j};
    }
  }

  lemma TotalUpdate<K>(m: map<K, int>, k: K, v: int)
    ensures Total(m[k := v]) == Total(m) - Get(m, k) + v
  {
    TotalRemove(m[k := v], k);
    assert m[k := v] - {k} == m - {k};
    if k in m {
      TotalRemove(m, k);
    } else {
      assert m - {k} == m;
    }
  }

  /** A sum of non-negative values is non-negative, and positive exactly when some value is. */
  lemma {:induction false} TotalPositive<K>(m: map<K, int>)
    requires NonNegative(m)
    ensures Total(m) >= 0
    ensures Total(m) > 0 <==> exists k :: k in m && m[k] > 0
    decreases |m|
  {
    if m != map[] {
      var j :| j in m;
      TotalRemove(m, j);
      RemoveShrinks(m, j);
      TotalPositive(m - {j});
      if k :| k in m && m[k] > 0 && k != j {
        assert k in m - {j};
      }
    }
  }

  lemma NormDrop<K(!new)>(m: map<K, int>, k: K)
    requires k in m && m[k] == 0
    ensures Norm(m - {k}) == Norm(m)
  {
  }

  lemma NormKeeps<K(!new)>(m: map<K, int>)
    requires forall k | k in m :: m[k] != 0
    ensures Norm(m) == m
  {
  }

  /** Entries that are 0 do not change a sum. */
  lemma {:induction false} TotalNorm<K(!new)>(m: map<K, int>)
    ensures Total(Norm(m)) == Total(m)
    decreases |m|
  {
    hide Total, Norm;
    if k :| k in m && m[k] == 0 {
      TotalRemove(m, k);
      RemoveShrinks(m, k);
      TotalNorm(m - {k});
      NormDrop(m, k);
    } else {
      NormKeeps(m);
    }
  }

  lemma TotalSame<K(!new)>(a: map<K, int>, b: map<K, int>)
    requires forall k :: Get(a, k) == Get(b, k)
    ensures Total(a) == Total(b)
  {
    NormSame(a, b);
    TotalNorm(a);
    TotalNorm(b);
  }

  lemma NormSame<K(!new)>(a: map<K, int>, b: map<K, int>)
    requires forall k :: Get(a, k) == Get(b, k)
    ensures Norm(a) == Norm(b)
  {
    forall k ensures k in Norm(a) <==> k in Norm(b) {
      assert Get(a, k) == Get(b, k);
    }
    forall k | k in Norm(a) ensures Norm(a)[k] == Norm(b)[k] {
      assert Get(a, k) == Get(b, k);
    }
  }

  /** Maps without zero entries are determined by what they read. */
  lemma PositiveSame<K(!new)>(a: map<K, int>, b: map<K, int>)
    requires Positive(a) && Positive(b) && forall k :: Get(a, k) == Get(b, k)
    ensures a == b
  {
    assert Norm(a) == a && Norm(b) == b;
    NormSame(a, b);
  }
}
