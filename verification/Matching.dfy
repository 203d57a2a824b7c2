/** `util.UnorderedEqual`: greedy matching of two lists, up to an equivalence. */
module Matching {
  import opened GoMaps

  ghost predicate Equivalence<K(!new)>(eq: (K, K) -> bool) {
    && (forall x :: eq(x, x))
    && (forall x, y :: eq(x, y) ==> eq(y, x))
    && (forall x, y, z :: eq(x, y) && eq(y, z) ==> eq(x, z))
  }

  /** The positions of the elements equivalent to `x`. */
  ghost function Class<K>(s: seq<K>, eq: (K, K) -> bool, x: K): set<int> {
    set i | 0 <= i < |s| && eq(x, s[i])
  }

  /** Every element is equivalent to equally many elements of both lists. */
  ghost predicate SameClasses<K(!new)>(first: seq<K>, second: seq<K>, eq: (K, K) -> bool) {
    |first| == |second| && forall x :: |Class(first, eq, x)| == |Class(second, eq, x)|
  }

  /** `to` pairs the first elements of `first` with distinct, equivalent elements of `second`. */
  ghost predicate Pairing<K>(first: seq<K>, second: seq<K>, eq: (K, K) -> bool, to: seq<int>) {
    && |to| <= |first|
    && (forall i | 0 <= i < |to| :: 0 <= to[i] < |second| && eq(first[i], second[to[i]]))
    && (forall i, j | 0 <= i < j < |to| :: to[i] != to[j])
  }

  /** The two lists are the same up to order: some bijection pairs equivalent elements. */
  ghost predicate Matchable<K>(first: seq<K>, second: seq<K>, eq: (K, K) -> bool) {
    |first| == |second| && exists to :: |to| == |first| && Pairing(first, second, eq, to)
  }

  // ----- counting -----

  lemma {:induction false} ImageCard(a: set<int>, to: seq<int>, b: set<int>)
    requires forall i | i in a :: 0 <= i < |to| && to[i] in b
    requires forall i, j | i in a && j in a && i != j :: to[i] != to[j]
    ensures |a| <= |b|
  {
    if a != {} {
      var i := SomeIn(a);
      ImageCard(a - {i}, to, b - {to[i]});
    }
  }

  lemma {:induction false} CoverCard(a: set<int>, to: seq<int>, b: set<int>)
    requires forall i | i in a :: 0 <= i < |to|
    requires forall j | j in b :: exists i :: i in a && to[i] == j
    ensures |b| <= |a|
  {
    if b != {} {
      var j := SomeIn(b);
      var i :| i in a && to[i] == j;
      forall j' | j' in b - {j} ensures exists i' :: i' in a - {i} && to[i'] == j' {
        var i' :| i' in a && to[i'] == j';
      }
      CoverCard(a - {i}, to, b - {j});
    }
  }

  ghost function UpTo(n: nat): (s: set<int>)
    ensures forall i :: i in s <==> 0 <= i < n
  {
    if n == 0 then {} else UpTo(n - 1) + {n - 1}
  }

  /** A bijection between equivalent elements keeps every class size. */
  lemma MatchingKeepsClasses<K(!new)>(first: seq<K>, second: seq<K>, eq: (K, K) -> bool, to: seq<int>)
    requires Equivalence(eq) && |first| == |second| == |to| && Pairing(first, second, eq, to)
    ensures SameClasses(first, second, eq)
  {
    var n := |first|;
    var all := UpTo(n);
    forall x ensures |Class(first, eq, x)| == |Class(second, eq, x)| {
      var a, b := Class(first, eq, x), Class(second, eq, x);
      assert a <= all && b <= all;
      ImageCard(a, to, b);
      forall i | i in all - a ensures to[i] in all - b {
        assert eq(first[i], second[to[i]]);
        assert eq(second[to[i]], first[i]);
      }
      ImageCard(all - a, to, all - b);
      assert |all - a| == |all| - |a| && |all - b| == |all| - |b|;
    }
  }

  /** The greedy search is never stuck on lists with equal classes. */
  lemma GreedyStuck<K(!new)>(first: seq<K>, second: seq<K>, eq: (K, K) -> bool, to: seq<int>)
    requires Equivalence(eq) && |first| == |second| && |to| < |first| && Pairing(first, second, eq, to)
    requires forall j | 0 <= j < |second| && j !in to :: !eq(first[|to|], second[j])
    ensures !SameClasses(first, second, eq)
  {
    var x := first[|to|];
    var a, b := Class(first, eq, x), Class(second, eq, x);
    var seen := set i | i in a && i < |to|;
    forall j | j in b ensures exists i :: i in seen && to[i] == j {
      assert j in to;
      var i :| 0 <= i < |to| && to[i] == j;
      assert eq(first[i], second[j]) && eq(x, second[j]);
      assert eq(second[j], first[i]);
      assert i in seen;
    }
    CoverCard(seen, to, b);
    assert |to| in a && |to| !in seen;
    SubsetCard(seen, a, |to|);
  }

  lemma SubsetCard(s: set<int>, t: set<int>, x: int)
    requires s <= t && x in t && x !in s
    ensures |s| < |t|
  {
    assert t == s + (t - s);
    assert x in t - s;
  }

  // ----- the algorithm -----

  /** Decides, with one pass and a visited array, whether the lists are the same up to order. */
  method UnorderedEqual<K(!new)>(first: seq<K>, second: seq<K>, eq: (K, K) -> bool) returns (same: bool)
    requires Equivalence(eq)
    ensures same <==> Matchable(first, second, eq)
    ensures same <==> SameClasses(first, second, eq)
  {
    if |first| != |second| {
      return false;
    }
    var visited := new bool[|first|](_ => false);
    ghost var to: seq<int> := [];
    for i := 0 to |first|
      invariant |to| == i && Pairing(first, second, eq, to)
      invariant forall j | 0 <= j < |second| :: visited[j] <==> j in to
    {
      var j := 0;
      while j < |second| && (visited[j] || !eq(first[i], second[j]))
        invariant 0 <= j <= |second|
        invariant forall k | 0 <= k < j :: visited[k] || !eq(first[i], second[k])
      {
        j := j + 1;
      }
      if j == |second| {
        GreedyStuck(first, second, eq, to);
        if other :| |other| == |first| && Pairing(first, second, eq, other) {
          MatchingKeepsClasses(first, second, eq, other);
        }
        return false;
      }
      visited[j] := true;
      to := to + [j];
    }
    MatchingKeepsClasses(first, second, eq, to);
    same := true;
  }

  /** Being the same up to order is a matter of class sizes alone. */
  lemma MatchableIffSameClasses<K(!new)>(first: seq<K>, second: seq<K>, eq: (K, K) -> bool)
    requires Equivalence(eq)
    ensures Matchable(first, second, eq) <==> SameClasses(first, second, eq)
  {
    if to :| |first| == |second| == |to| && Pairing(first, second, eq, to) {
      MatchingKeepsClasses(first, second, eq, to);
    }
    if SameClasses(first, second, eq) {
      var to: seq<int> := [];
      while |to| < |first|
        invariant |to| <= |first| && Pairing(first, second, eq, to)
      {
        if forall j | 0 <= j < |second| && j !in to :: !eq(first[|to|], second[j]) {
          GreedyStuck(first, second, eq, to);
          assert false;
        }
        var j :| 0 <= j < |second| && j !in to && eq(first[|to|], second[j]);
        to := to + [j];
      }
    }
  }

  /** Sameness up to order is itself an equivalence, so it can be nested, as it is for lists of operations. */
  lemma MatchableIsEquivalence<K(!new)>(eq: (K, K) -> bool, a: seq<K>, b: seq<K>, c: seq<K>)
    requires Equivalence(eq)
    ensures Matchable(a, a, eq)
    ensures Matchable(a, b, eq) ==> Matchable(b, a, eq)
    ensures Matchable(a, b, eq) && Matchable(b, c, eq) ==> Matchable(a, c, eq)
  {
    hide Matchable;
    MatchableIffSameClasses(a, a, eq);
    MatchableIffSameClasses(a, b, eq);
    MatchableIffSameClasses(b, a, eq);
    MatchableIffSameClasses(b, c, eq);
    MatchableIffSameClasses(a, c, eq);
  }

  /** For plain equality, sameness up to order is equality of multisets. */
  lemma MatchableMultiset<K(!new)>(first: seq<K>, second: seq<K>, eq: (K, K) -> bool)
    requires forall x, y :: eq(x, y) <==> x == y
    ensures Matchable(first, second, eq) <==> multiset(first) == multiset(second)
  {
    hide Matchable;
    MatchableIffSameClasses(first, second, eq);
    forall x ensures |Class(first, eq, x)| == multiset(first)[x] && |Class(second, eq, x)| == multiset(second)[x] {
      ClassCount(first, eq, x);
      ClassCount(second, eq, x);
    }
    if multiset(first) == multiset(second) {
      assert |multiset(first)| == |first| && |multiset(second)| == |second|;
    }
    if SameClasses(first, second, eq) {
      forall x ensures multiset(first)[x] == multiset(second)[x] {
        assert |Class(first, eq, x)| == |Class(second, eq, x)|;
      }
    }
  }

  lemma ClassSnoc<K>(s: seq<K>, eq: (K, K) -> bool, x: K, y: K)
    ensures |Class(s + [y], eq, x)| == |Class(s, eq, x)| + if eq(x, y) then 1 else 0
  {
    assert Class(s + [y], eq, x) == Class(s, eq, x) + if eq(x, y) then {|s|} else {};
  }

  lemma {:induction false} ClassCount<K>(s: seq<K>, eq: (K, K) -> bool, x: K)
    requires forall y | y in s :: eq(x, y) <==> x == y
    ensures |Class(s, eq, x)| == multiset(s)[x]
  {
    if s != [] {
      var n := |s| - 1;
      assert s == s[..n] + [s[n]];
      ClassCount(s[..n], eq, x);
      ClassSnoc(s[..n], eq, x, s[n]);
    }
  }
}
