/** Go slices: grouping loops and the standard library's stable sort. */
module Lists {

  ghost predicate NoDup<T>(s: seq<T>) {
    forall i, j | 0 <= i < j < |s| :: s[i] != s[j]
  }

  lemma NoDupSnoc<T>(s: seq<T>, x: T)
    requires NoDup(s) && x !in s
    ensures NoDup(s + [x])
  {
  }

  lemma NotAllTheSame<T>(s: seq<T>, x: T)
    requires NoDup(s) && |s| > 1
    ensures exists y :: y in s && y != x
  {
    assert s[0] in s && s[1] in s && s[0] != s[1];
  }

  lemma TwiceInMultiset<T>(s: seq<T>, i: nat, j: nat)
    requires i < j < |s| && s[i] == s[j]
    ensures multiset(s)[s[i]] >= 2
  {
    assert s == s[..j] + [s[j]] + s[j + 1..];
    assert s[i] in s[..j];
  }

  lemma {:induction false} OnceInMultiset<T>(s: seq<T>, x: T)
    requires NoDup(s)
    ensures multiset(s)[x] <= 1
  {
    if s != [] {
      var n := |s| - 1;
      assert s == s[..n] + [s[n]];
      OnceInMultiset(s[..n], x);
      if x == s[n] {
        assert x !in s[..n];
      }
    }
  }

  lemma SplitAt<T>(s: seq<T>, j: nat)
    requires j < |s|
    ensures s == s[..j] + [s[j]] + s[j + 1..]
    ensures multiset(s) == multiset(s[..j] + s[j + 1..]) + multiset{s[j]}
  {
    assert s == s[..j] + [s[j]] + s[j + 1..];
  }

  lemma CancelOne<T>(a: multiset<T>, b: multiset<T>, x: T)
    requires a + multiset{x} == b + multiset{x}
    ensures a == b
  {
    assert a == a + multiset{x} - multiset{x};
    assert b == b + multiset{x} - multiset{x};
  }

  /** Where the last element of `a` is in a permutation of `a`; taking it out of both leaves permutations again. */
  lemma FindLast<T>(a: seq<T>, b: seq<T>) returns (j: nat)
    requires a != [] && multiset(a) == multiset(b)
    ensures j < |b| && b[j] == a[|a| - 1]
    ensures multiset(a[..|a| - 1]) == multiset(b[..j] + b[j + 1..])
  {
    var n := |a| - 1;
    SplitAt(a, n);
    assert a[..n] + a[n + 1..] == a[..n];
    assert a[n] in multiset(b);
    j :| 0 <= j < |b| && b[j] == a[n];
    SplitAt(b, j);
    CancelOne(multiset(a[..n]), multiset(b[..j] + b[j + 1..]), a[n]);
  }

  // ----- grouping -----

  /** The elements of `s` whose key is `k`, in their order: one bucket of a grouping loop. */
  ghost function Pick<K, V>(s: seq<V>, key: V -> K, k: K): seq<V> {
    if s == [] then [] else
      var n := |s| - 1;
      if key(s[n]) == k then Pick(s[..n], key, k) + [s[n]] else Pick(s[..n], key, k)
  }

  lemma {:induction false} PickMembers<K, V>(s: seq<V>, key: V -> K, k: K)
    ensures forall x | x in Pick(s, key, k) :: x in s && key(x) == k
    ensures forall x | x in s && key(x) == k :: x in Pick(s, key, k)
    ensures |Pick(s, key, k)| <= |s|
  {
    if s != [] {
      var n := |s| - 1;
      assert s == s[..n] + [s[n]];
      PickMembers(s[..n], key, k);
    }
  }

  lemma {:induction false} PickAppend<K, V>(a: seq<V>, b: seq<V>, key: V -> K, k: K)
    ensures Pick(a + b, key, k) == Pick(a, key, k) + Pick(b, key, k)
  {
    if b == [] {
      assert a + b == a;
    } else {
      var n := |b| - 1;
      PickAppend(a, b[..n], key, k);
      assert (a + b)[..|a + b| - 1] == a + b[..n] && (a + b)[|a + b| - 1] == b[n];
    }
  }

  /** Each element is found, as often as in `s`, in the bucket of its own key. */
  lemma {:induction false} PickCount<K, V>(s: seq<V>, key: V -> K, x: V)
    ensures multiset(Pick(s, key, key(x)))[x] == multiset(s)[x]
  {
    if s != [] {
      var n := |s| - 1;
      assert s == s[..n] + [s[n]];
      PickCount(s[..n], key, x);
    }
  }

  /** Lists with the same buckets hold the same elements. */
  lemma PickDetermines<K(!new), V(!new)>(a: seq<V>, b: seq<V>, key: V -> K)
    requires forall k :: Pick(a, key, k) == Pick(b, key, k)
    ensures multiset(a) == multiset(b)
  {
    forall x ensures multiset(a)[x] == multiset(b)[x] {
      PickCount(a, key, x);
      PickCount(b, key, x);
    }
  }

  /** The grouping loop that the source repeats for devices, annotations and profiles. */
  method GroupBy<K(==, !new), V>(l: seq<V>, key: V -> K) returns (m: map<K, seq<V>>)
    ensures forall k :: k in m <==> Pick(l, key, k) != []
    ensures forall k | k in m :: m[k] == Pick(l, key, k)
  {
    m := map[];
    for i := 0 to |l|
      invariant forall k :: k in m <==> Pick(l[..i], key, k) != []
      invariant forall k | k in m :: m[k] == Pick(l[..i], key, k)
    {
      assert l[..i + 1][..i] == l[..i];
      var k := key(l[i]);
      if k !in m {
        m := m[k := []];
      }
      m := m[k := m[k] + [l[i]]];
    }
    assert l[..|l|] == l;
  }

  // ----- sort.SliceStable -----

  /** What `sort` asks of a `less` function: a strict weak order. */
  ghost predicate StrictWeakOrder<T(!new)>(less: (T, T) -> bool) {
    && (forall x, y :: less(x, y) ==> !less(y, x))
    && (forall x, y, z :: !less(y, x) && !less(z, y) ==> !less(z, x))
  }

  ghost predicate Sorted<T>(s: seq<T>, less: (T, T) -> bool) {
    forall i, j | 0 <= i < j < |s| :: !less(s[j], s[i])
  }

  /** The elements of `s` that `less` does not tell apart from `x`, in order. */
  ghost function Ties<T>(s: seq<T>, less: (T, T) -> bool, x: T): seq<T> {
    if s == [] then [] else
      var y := s[|s| - 1];
      Ties(s[..|s| - 1], less, x) + (if !less(x, y) && !less(y, x) then [y] else [])
  }

  function Insert<T>(s: seq<T>, x: T, less: (T, T) -> bool): (r: seq<T>)
    ensures multiset(r) == multiset(s) + multiset{x}
  {
    if s == [] then [x] else
      var n := |s| - 1;
      assert s == s[..n] + [s[n]];
      if less(x, s[n]) then Insert(s[..n], x, less) + [s[n]] else s + [x]
  }

  function StableSort<T>(s: seq<T>, less: (T, T) -> bool): (r: seq<T>)
    ensures multiset(r) == multiset(s)
  {
    if s == [] then [] else
      var n := |s| - 1;
      assert s == s[..n] + [s[n]];
      Insert(StableSort(s[..n], less), s[n], less)
  }

  lemma SortedSnoc<T(!new)>(s: seq<T>, x: T, less: (T, T) -> bool)
    requires Sorted(s, less) && forall z | z in s :: !less(x, z)
    ensures Sorted(s + [x], less)
  {
  }

  lemma TiesSnoc<T>(s: seq<T>, x: T, less: (T, T) -> bool, y: T)
    ensures Ties(s + [x], less, y) == Ties(s, less, y) + (if !less(y, x) && !less(x, y) then [x] else [])
  {
    assert (s + [x])[..|s|] == s;
  }

  lemma InsertMembers<T(!new)>(s: seq<T>, x: T, less: (T, T) -> bool)
    ensures forall z :: z in Insert(s, x, less) <==> z in s || z == x
  {
    hide Insert;
    forall z ensures z in Insert(s, x, less) <==> z in s || z == x {
      assert z in multiset(Insert(s, x, less)) <==> z in multiset(s) || z == x;
    }
  }

  lemma {:induction false} InsertSorted<T(!new)>(s: seq<T>, x: T, less: (T, T) -> bool)
    requires StrictWeakOrder(less) && Sorted(s, less)
    ensures Sorted(Insert(s, x, less), less)
  {
    if s != [] {
      var n := |s| - 1;
      if less(x, s[n]) {
        InsertSorted(s[..n], x, less);
        InsertMembers(s[..n], x, less);
        SortedSnoc(Insert(s[..n], x, less), s[n], less);
      } else {
        forall z | z in s ensures !less(x, z) {
          var i :| 0 <= i < |s| && s[i] == z;
        }
        SortedSnoc(s, x, less);
      }
    }
  }

  lemma {:induction false} InsertTies<T(!new)>(s: seq<T>, x: T, less: (T, T) -> bool, y: T)
    requires StrictWeakOrder(less)
    ensures Ties(Insert(s, x, less), less, y) == Ties(s + [x], less, y)
  {
    hide Ties;
    if s == [] {
      assert s + [x] == [x];
    } else if less(x, s[|s| - 1]) {
      var n := |s| - 1;
      var last := s[n];
      assert less(y, x) || less(x, y) || less(y, last) || less(last, y);
      InsertTies(s[..n], x, less, y);
      assert s == s[..n] + [s[n]];
      TiesSnoc(Insert(s[..n], x, less), s[n], less, y);
      TiesSnoc(s[..n], x, less, y);
      TiesSnoc(s[..n], s[n], less, y);
      TiesSnoc(s, x, less, y);
      assert Insert(s, x, less) == Insert(s[..n], x, less) + [s[n]];
    }
  }

  /** The sort is ordered and keeps the relative order of elements that compare equal. */
  lemma {:induction false} StableSortSorts<T(!new)>(s: seq<T>, less: (T, T) -> bool)
    requires StrictWeakOrder(less)
    ensures Sorted(StableSort(s, less), less)
    ensures forall y :: Ties(StableSort(s, less), less, y) == Ties(s, less, y)
  {
    if s != [] {
      var n := |s| - 1;
      var t := StableSort(s[..n], less);
      StableSortSorts(s[..n], less);
      InsertSorted(t, s[n], less);
      assert s == s[..n] + [s[n]];
      hide Insert, Ties, Sorted;
      forall y ensures Ties(StableSort(s, less), less, y) == Ties(s, less, y) {
        InsertTies(t, s[n], less, y);
        TiesSnoc(t, s[n], less, y);
        TiesSnoc(s[..n], s[n], less, y);
      }
    }
  }
}
