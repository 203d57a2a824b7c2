/** When the agent considers two plans equal: operations in any order, their devices in any order. */
module PlanEquality {
  import opened Devices
  import opened Matching
  import opened Plan

  predicate SameDevice(a: Device, b: Device) {
    a == b
  }

  predicate SameCreate(a: CreateOperation, b: CreateOperation) {
    a == b
  }

  /** Two delete operations that list the same devices in some order. */
  predicate SameDelete(a: DeleteOperation, b: DeleteOperation) {
    multiset(a.resources) == multiset(b.resources)
  }

  ghost predicate SamePlan(p: MigConfigPlan, q: MigConfigPlan) {
    && Matchable(p.deleteOps, q.deleteOps, SameDelete)
    && Matchable(p.createOps, q.createOps, SameCreate)
  }

  method DeleteOperationEqual(a: DeleteOperation, b: DeleteOperation) returns (same: bool)
    ensures same <==> SameDelete(a, b)
  {
    same := UnorderedEqual(a.resources, b.resources, SameDevice);
    MatchableMultiset(a.resources, b.resources, SameDevice);
  }

  method PlanEqual(p: MigConfigPlan, q: MigConfigPlan) returns (same: bool)
    ensures same <==> SamePlan(p, q)
  {
    same := UnorderedEqual(q.deleteOps, p.deleteOps, SameDelete);
    MatchableIsEquivalence(SameDelete, q.deleteOps, p.deleteOps, []);
    MatchableIsEquivalence(SameDelete, p.deleteOps, q.deleteOps, []);
    if same {
      same := UnorderedEqual(q.createOps, p.createOps, SameCreate);
      MatchableIsEquivalence(SameCreate, q.createOps, p.createOps, []);
      MatchableIsEquivalence(SameCreate, p.createOps, q.createOps, []);
    }
  }

  /** Plan equality is reflexive, symmetric and transitive. */
  lemma SamePlanIsEquivalence(p: MigConfigPlan, q: MigConfigPlan, r: MigConfigPlan)
    ensures SamePlan(p, p)
    ensures SamePlan(p, q) ==> SamePlan(q, p)
    ensures SamePlan(p, q) && SamePlan(q, r) ==> SamePlan(p, r)
  {
    MatchableIsEquivalence(SameDelete, p.deleteOps, q.deleteOps, r.deleteOps);
    MatchableIsEquivalence(SameCreate, p.createOps, q.createOps, r.createOps);
  }

  /** Equal plans delete the same devices and create the same quantities. */
  lemma SamePlanSameEffect(p: MigConfigPlan, q: MigConfigPlan, k: Profile)
    requires SamePlan(p, q)
    ensures multiset(Deleted(p.deleteOps)) == multiset(Deleted(q.deleteOps))
    ensures Created(p.createOps, k) == Created(q.createOps, k)
  {
    var to :| |to| == |p.deleteOps| && Pairing(p.deleteOps, q.deleteOps, SameDelete, to);
    SameDeletes(p.deleteOps, q.deleteOps, to);
    var at :| |at| == |p.createOps| && Pairing(p.createOps, q.createOps, SameCreate, at);
    SameCreates(p.createOps, q.createOps, at, k);
  }

  ghost function Shift(to: seq<int>): (r: seq<int>)
    requires to != []
    ensures |r| == |to| - 1
  {
    var j := to[|to| - 1];
    seq(|to| - 1, i requires 0 <= i < |to| - 1 => if to[i] > j then to[i] - 1 else to[i])
  }

  /** Taking the last pair out of a complete pairing leaves a complete pairing. */
  lemma PairingShrinks<K>(a: seq<K>, b: seq<K>, eq: (K, K) -> bool, to: seq<int>)
    requires |a| == |b| == |to| > 0 && Pairing(a, b, eq, to)
    ensures var n, j := |a| - 1, to[|to| - 1];
            Pairing(a[..n], b[..j] + b[j + 1..], eq, Shift(to))
  {
    var n, j := |a| - 1, to[|to| - 1];
    var rest, s := b[..j] + b[j + 1..], Shift(to);
    forall i | 0 <= i < n ensures 0 <= s[i] < |rest| && eq(a[..n][i], rest[s[i]]) {
      assert to[i] != j;
      assert rest[s[i]] == b[to[i]];
    }
  }

  lemma {:induction false} SameDeletes(a: seq<DeleteOperation>, b: seq<DeleteOperation>, to: seq<int>)
    requires |a| == |b| == |to| && Pairing(a, b, SameDelete, to)
    ensures multiset(Deleted(a)) == multiset(Deleted(b))
  {
    if a != [] {
      var n, j := |a| - 1, to[|to| - 1];
      var rest := b[..j] + b[j + 1..];
      PairingShrinks(a, b, SameDelete, to);
      SameDeletes(a[..n], rest, Shift(to));
      DeletedWithoutOne(b, j);
    }
  }

  lemma {:induction false} DeletedAppend(a: seq<DeleteOperation>, b: seq<DeleteOperation>)
    ensures Deleted(a + b) == Deleted(a) + Deleted(b)
  {
    if b == [] {
      assert a + b == a;
    } else {
      assert (a + b)[..|a + b| - 1] == a + b[..|b| - 1];
      DeletedAppend(a, b[..|b| - 1]);
    }
  }

  lemma DeletedMiddle(x: seq<DeleteOperation>, op: DeleteOperation, y: seq<DeleteOperation>)
    ensures multiset(Deleted(x + [op] + y)) == multiset(Deleted(x + y)) + multiset(op.resources)
  {
    assert Deleted([op]) == op.resources by { assert [op][..0] == []; }
    hide Deleted;
    DeletedAppend(x + [op], y);
    DeletedAppend(x, [op]);
    DeletedAppend(x, y);
  }

  lemma DeletedWithoutOne(b: seq<DeleteOperation>, j: nat)
    requires j < |b|
    ensures multiset(Deleted(b)) == multiset(Deleted(b[..j] + b[j + 1..])) + multiset(b[j].resources)
  {
    hide Deleted;
    assert b == b[..j] + [b[j]] + b[j + 1..];
    DeletedMiddle(b[..j], b[j], b[j + 1..]);
  }

  lemma {:induction false} SameCreates(a: seq<CreateOperation>, b: seq<CreateOperation>, to: seq<int>, k: Profile)
    requires |a| == |b| == |to| && Pairing(a, b, SameCreate, to)
    ensures Created(a, k) == Created(b, k)
  {
    if a != [] {
      var n, j := |a| - 1, to[|to| - 1];
      var rest := b[..j] + b[j + 1..];
      PairingShrinks(a, b, SameCreate, to);
      SameCreates(a[..n], rest, Shift(to), k);
      CreatedWithoutOne(b, j, k);
    }
  }

  lemma {:induction false} CreatedAppend(a: seq<CreateOperation>, b: seq<CreateOperation>, k: Profile)
    ensures Created(a + b, k) == Created(a, k) + Created(b, k)
  {
    if b == [] {
      assert a + b == a;
    } else {
      assert (a + b)[..|a + b| - 1] == a + b[..|b| - 1];
      CreatedAppend(a, b[..|b| - 1], k);
    }
  }

  lemma CreatedWithoutOne(b: seq<CreateOperation>, j: nat, k: Profile)
    requires j < |b|
    ensures Created(b, k) == Created(b[..j] + b[j + 1..], k) + if b[j].profile == k then b[j].quantity else 0
  {
    assert Created([b[j]], k) == if b[j].profile == k then b[j].quantity else 0 by { assert [b[j]][..0] == []; }
    hide Created;
    assert b == b[..j] + [b[j]] + b[j + 1..];
    CreatedAppend(b[..j], b[j + 1..], k);
    CreatedAppend(b[..j] + [b[j]], b[j + 1..], k);
    CreatedAppend(b[..j], [b[j]], k);
  }
}
