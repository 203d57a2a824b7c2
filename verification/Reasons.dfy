/** Why the agent's plan deletes a device, and that devices and spec alone determine the plan. */
module Reasons {
  import opened GoMaps
  import opened Lists
  import opened Text
  import opened Devices
  import opened Annotations
  import opened Matching
  import opened Plan
  import opened PlanEquality

  /**
   * A device goes because the spec does not mention its profile, because there are more of its profile than the spec
   * wants, or because its GPU gets new devices and is cleared of free ones.
   */
  datatype Reason = NotWanted(profile: Profile) | Excess(profile: Profile) | MakingRoom(gpu: int) | Kept

  /** Devices of the same profile, as free as `d`, that come before it by their ids. */
  ghost function Before(devices: seq<Device>, d: Device): set<Device> {
    set e | e in devices && ProfileOf(e) == ProfileOf(d) && IsFree(e) == IsFree(d) && StringLess(e.id, d.id)
  }

  /** The surplus takes free devices in the order of their ids, and then the others in that order. */
  ghost predicate IsExcess(devices: seq<Device>, specs: seq<SpecAnnotation>, d: Device) {
    var surplus := Surplus(devices, specs, ProfileOf(d));
    |Before(devices, d)| < if IsFree(d) then surplus else surplus - Tally(devices, ProfileOf(d), true)
  }

  ghost function ReasonOf(devices: seq<Device>, specs: seq<SpecAnnotation>, d: Device): Reason {
    if !InSpec(specs, ProfileOf(d)) then NotWanted(ProfileOf(d))
    else if IsExcess(devices, specs, d) then Excess(ProfileOf(d))
    else if IsFree(d) && Grows(devices, specs, d.gpu) then MakingRoom(d.gpu)
    else Kept
  }

  ghost predicate Occurs(devices: seq<Device>, specs: seq<SpecAnnotation>, r: Reason) {
    exists d :: d in devices && ReasonOf(devices, specs, d) == r
  }

  /** There is a delete operation for the reason; for a profile with too many devices, even if none of them is left. */
  ghost predicate Called(devices: seq<Device>, specs: seq<SpecAnnotation>, r: Reason) {
    match r
    case NotWanted(_) => Occurs(devices, specs, r)
    case Excess(k) => InSpec(specs, k) && Desired(specs, k) < Num(devices, k)
    case MakingRoom(_) => Occurs(devices, specs, r)
    case Kept => false
  }

  /** The operation holds exactly the devices that go for the reason. */
  ghost predicate Collects(devices: seq<Device>, specs: seq<SpecAnnotation>, op: DeleteOperation, r: Reason) {
    forall d :: d in op.resources <==> d in devices && ReasonOf(devices, specs, d) == r
  }

  /** Each operation has a reason of its own. */
  ghost predicate Reasoned(
    devices: seq<Device>, specs: seq<SpecAnnotation>, ops: seq<DeleteOperation>, reasons: seq<Reason>)
  {
    && |reasons| == |ops| && NoDup(reasons)
    && forall i | 0 <= i < |ops| :: Collects(devices, specs, ops[i], reasons[i])
  }

  ghost function Shortfall(devices: seq<Device>, specs: seq<SpecAnnotation>, k: Profile): nat {
    Max(0, Desired(specs, k) - Num(devices, k))
  }

  /** Free devices of a profile that are deleted only to make room. */
  ghost function Recycled(devices: seq<Device>, specs: seq<SpecAnnotation>, k: Profile): nat {
    Tally(devices, k, true) - Min(Tally(devices, k, true), Surplus(devices, specs, k))
  }

  /** One operation for a shortage, and one for what is deleted to make room. */
  ghost predicate CreatesAsDue(devices: seq<Device>, specs: seq<SpecAnnotation>, ops: seq<CreateOperation>) {
    forall k: Profile, q {:trigger CreateOperation(k, q)} ::
      multiset(ops)[CreateOperation(k, q)]
      == (if q == Shortfall(devices, specs, k) && q > 0 then 1 else 0)
         + if Grows(devices, specs, k.gpu) && q == Recycled(devices, specs, k) && q > 0 then 1 else 0
  }

  /** The operations of a plan, up to order. */
  ghost predicate ByReason(devices: seq<Device>, specs: seq<SpecAnnotation>, plan: MigConfigPlan) {
    && (exists reasons ::
          && Reasoned(devices, specs, plan.deleteOps, reasons)
          && forall r :: r in reasons <==> Called(devices, specs, r))
    && CreatesAsDue(devices, specs, plan.createOps)
  }

  // ----- in the order of ids -----

  lemma {:induction false} SetOfList<T>(s: seq<T>)
    requires NoDup(s)
    ensures |set x | x in s| == |s|
  {
    if s != [] {
      var n := |s| - 1;
      SetOfList(s[..n]);
      assert (set x | x in s) == (set x | x in s[..n]) + {s[n]};
      assert s[n] !in s[..n];
    }
  }

  /** In a list of all such devices by their ids, the position is the number of devices before. */
  lemma PositionIsRank(devices: seq<Device>, k: Profile, free: bool, part: seq<Device>, i: nat)
    requires i < |part| && UniqueIds(part) && forall a, b | 0 <= a < b < |part| :: StringLess(part[a].id, part[b].id)
    requires forall d :: d in part <==> d in devices && ProfileOf(d) == k && IsFree(d) == free
    ensures |Before(devices, part[i])| == i
  {
    hide StringLess;
    var first := part[..i];
    assert part[i] in part;
    forall e ensures e in Before(devices, part[i]) <==> e in first {
      if e in part {
        var j :| 0 <= j < |part| && part[j] == e;
        StringLessOrder(part[j].id, part[i].id, "");
        assert j < i ==> first[j] == e;
        assert i < j ==> StringLess(part[i].id, part[j].id);
      }
    }
    assert Before(devices, part[i]) == set e | e in first;
    SetOfList(first);
  }

  lemma EarlierHasFewerBefore(devices: seq<Device>, d: Device, e: Device)
    requires ProfileOf(d) == ProfileOf(e) && IsFree(d) == IsFree(e) && !StringLess(d.id, e.id)
    ensures |Before(devices, e)| <= |Before(devices, d)|
  {
    hide StringLess;
    forall x | x in Before(devices, e) ensures x in Before(devices, d) {
      StringLessOrder(d.id, e.id, x.id);
      StringLessOrder(x.id, e.id, d.id);
      StringLessOrder(e.id, d.id, x.id);
    }
    SubsetSize(Before(devices, e), Before(devices, d));
  }

  lemma {:induction false} SubsetSize<T>(a: set<T>, b: set<T>)
    requires a <= b
    ensures |a| <= |b|
  {
    assert b == a + (b - a);
  }

  lemma {:induction false} DeletedForReason(
    devices: seq<Device>, specs: seq<SpecAnnotation>, ops: seq<DeleteOperation>, reasons: seq<Reason>, d: Device)
    requires Reasoned(devices, specs, ops, reasons)
    ensures d in Deleted(ops) <==> d in devices && ReasonOf(devices, specs, d) in reasons
  {
    hide ReasonOf;
    if ops != [] {
      var n := |ops| - 1;
      assert reasons == reasons[..n] + [reasons[n]];
      DeletedForReason(devices, specs, ops[..n], reasons[..n], d);
      assert Collects(devices, specs, ops[n], reasons[n]);
    } else {
      assert reasons == [];
    }
  }

  /** A plan deletes a device exactly if there is a reason for it. */
  lemma DeletedExactlyWhen(devices: seq<Device>, specs: seq<SpecAnnotation>, plan: MigConfigPlan, d: Device)
    requires ByReason(devices, specs, plan)
    ensures d in Deleted(plan.deleteOps) <==> d in devices && !ReasonOf(devices, specs, d).Kept?
  {
    hide ReasonOf, Deleted;
    var reasons :| Reasoned(devices, specs, plan.deleteOps, reasons)
                   && forall r :: r in reasons <==> Called(devices, specs, r);
    DeletedForReason(devices, specs, plan.deleteOps, reasons, d);
    if d in devices && !ReasonOf(devices, specs, d).Kept? {
      ExcessIsCalled(devices, specs, d);
    }
  }

  lemma ExcessIsCalled(devices: seq<Device>, specs: seq<SpecAnnotation>, d: Device)
    requires d in devices && !ReasonOf(devices, specs, d).Kept?
    ensures Called(devices, specs, ReasonOf(devices, specs, d))
  {
    hide Tally, InSpec, Desired;
  }

  /**
   * Ids decide between devices that are alike: of two devices of the same profile, both free or both not, on a GPU that
   * gets no new device, the one that goes has the smaller id.
   */
  lemma SmallerIdsGo(devices: seq<Device>, specs: seq<SpecAnnotation>, plan: MigConfigPlan, d: Device, e: Device)
    requires ByReason(devices, specs, plan) && !Grows(devices, specs, d.gpu)
    requires d in Deleted(plan.deleteOps) && e in devices && e !in Deleted(plan.deleteOps)
    requires ProfileOf(d) == ProfileOf(e) && IsFree(d) == IsFree(e)
    ensures StringLess(d.id, e.id)
  {
    hide Deleted, Tally, InSpec, ByReason, StringLess;
    DeletedExactlyWhen(devices, specs, plan, d);
    DeletedExactlyWhen(devices, specs, plan, e);
    if !StringLess(d.id, e.id) {
      EarlierHasFewerBefore(devices, d, e);
      assert false;
    }
  }

  /**
   * Room is made exactly where it is needed: a free device of which there are not too many goes exactly if some profile
   * of its GPU has too few devices.
   */
  lemma RoomIsMade(devices: seq<Device>, specs: seq<SpecAnnotation>, plan: MigConfigPlan, d: Device)
    requires ByReason(devices, specs, plan) && d in devices && IsFree(d)
    requires Num(devices, ProfileOf(d)) <= Desired(specs, ProfileOf(d))
    ensures d in Deleted(plan.deleteOps)
            <==> exists k: Profile :: k.gpu == d.gpu && Desired(specs, k) > Num(devices, k)
  {
    hide Deleted, Tally, InSpec, Desired;
    DeletedExactlyWhen(devices, specs, plan, d);
    TallyPositive(devices, d);
    if !InSpec(specs, ProfileOf(d)) {
      NotInSpec(specs, ProfileOf(d));
      assert false;
    }
  }

  // ----- devices and spec determine the plan -----

  /** The same devices and the same wishes, as far as the planner can tell. */
  ghost predicate Alike(
    devices: seq<Device>, others: seq<Device>, specs: seq<SpecAnnotation>, wishes: seq<SpecAnnotation>)
  {
    && (forall d :: d in devices <==> d in others)
    && (forall k, free :: Tally(devices, k, free) == Tally(others, k, free))
    && (forall k :: Desired(specs, k) == Desired(wishes, k))
    && (forall k :: InSpec(specs, k) <==> InSpec(wishes, k))
  }

  lemma PermutedAlike(
    devices: seq<Device>, others: seq<Device>, specs: seq<SpecAnnotation>, wishes: seq<SpecAnnotation>)
    requires multiset(devices) == multiset(others) && multiset(specs) == multiset(wishes)
    ensures Alike(devices, others, specs, wishes)
  {
    hide Tally, Desired;
    forall d ensures d in devices <==> d in others {
      assert d in multiset(devices) <==> d in multiset(others);
    }
    forall k, free ensures Tally(devices, k, free) == Tally(others, k, free) {
      TallyMultiset(devices, others, k, free);
    }
    forall k ensures Desired(specs, k) == Desired(wishes, k) && (InSpec(specs, k) <==> InSpec(wishes, k)) {
      DesiredMultiset(specs, wishes, k);
      SpecMember(specs, wishes, k);
      SpecMember(wishes, specs, k);
    }
  }

  lemma SpecMember(specs: seq<SpecAnnotation>, wishes: seq<SpecAnnotation>, k: Profile)
    requires multiset(specs) == multiset(wishes)
    ensures InSpec(specs, k) ==> InSpec(wishes, k)
  {
    if i :| 0 <= i < |specs| && SpecProfile(specs[i]) == k {
      assert specs[i] in multiset(wishes);
      var j :| 0 <= j < |wishes| && wishes[j] == specs[i];
    }
  }

  lemma SameReason(
    devices: seq<Device>, others: seq<Device>, specs: seq<SpecAnnotation>, wishes: seq<SpecAnnotation>, d: Device)
    requires Alike(devices, others, specs, wishes)
    ensures ReasonOf(devices, specs, d) == ReasonOf(others, wishes, d)
  {
    hide Tally, Desired, InSpec;
    assert Before(devices, d) == Before(others, d);
    SameGrowth(devices, others, specs, wishes, d.gpu);
  }

  lemma SameGrowth(
    devices: seq<Device>, others: seq<Device>, specs: seq<SpecAnnotation>, wishes: seq<SpecAnnotation>, g: int)
    requires Alike(devices, others, specs, wishes)
    ensures Grows(devices, specs, g) <==> Grows(others, wishes, g)
  {
    hide Tally, Desired, InSpec;
    if k: Profile :| k.gpu == g && Desired(specs, k) > Num(devices, k) {
      assert Desired(wishes, k) > Num(others, k);
    }
    if k: Profile :| k.gpu == g && Desired(wishes, k) > Num(others, k) {
      assert Desired(specs, k) > Num(devices, k);
    }
  }

  lemma SameCalls(
    devices: seq<Device>, others: seq<Device>, specs: seq<SpecAnnotation>, wishes: seq<SpecAnnotation>, r: Reason)
    requires Alike(devices, others, specs, wishes)
    ensures Called(devices, specs, r) <==> Called(others, wishes, r)
  {
    hide Tally, Desired, InSpec, ReasonOf;
    forall d ensures ReasonOf(devices, specs, d) == ReasonOf(others, wishes, d) {
      SameReason(devices, others, specs, wishes, d);
    }
  }

  lemma SameCreatesDue(
    devices: seq<Device>, others: seq<Device>, specs: seq<SpecAnnotation>, wishes: seq<SpecAnnotation>,
    a: seq<CreateOperation>, b: seq<CreateOperation>)
    requires Alike(devices, others, specs, wishes)
    requires CreatesAsDue(devices, specs, a) && CreatesAsDue(others, wishes, b)
    ensures multiset(a) == multiset(b)
  {
    hide Tally, Desired, InSpec, Grows;
    forall op ensures multiset(a)[op] == multiset(b)[op] {
      var k, q := op.profile, op.quantity;
      assert op == CreateOperation(k, q);
      SameGrowth(devices, others, specs, wishes, k.gpu);
    }
  }

  /** Two lists of distinct elements with the same elements can be paired up. */
  lemma {:induction false} PairUp(a: seq<Reason>, b: seq<Reason>, n: nat) returns (to: seq<int>)
    requires NoDup(a) && n <= |a| && forall r | r in a :: r in b
    ensures |to| == n && forall i | 0 <= i < n :: 0 <= to[i] < |b| && b[to[i]] == a[i]
    ensures forall i, j | 0 <= i < j < n :: to[i] != to[j]
  {
    if n == 0 {
      to := [];
    } else {
      var rest := PairUp(a, b, n - 1);
      assert a[n - 1] in a;
      var j :| 0 <= j < |b| && b[j] == a[n - 1];
      to := rest + [j];
    }
  }

  lemma SameLength(a: seq<Reason>, b: seq<Reason>)
    requires NoDup(a) && NoDup(b) && forall r :: r in a <==> r in b
    ensures |a| == |b|
  {
    SetOfList(a);
    SetOfList(b);
    assert (set r | r in a) == set r | r in b;
  }

  lemma {:induction false} UniqueIdsCount(a: seq<Device>, d: Device)
    requires UniqueIds(a)
    ensures multiset(a)[d] == if d in a then 1 else 0
  {
    if a != [] {
      var n := |a| - 1;
      assert a == a[..n] + [a[n]];
      UniqueIdsCount(a[..n], d);
    }
  }

  lemma {:induction false} OpHasUniqueIds(ops: seq<DeleteOperation>, i: nat)
    requires i < |ops| && UniqueIds(Deleted(ops))
    ensures UniqueIds(ops[i].resources)
  {
    var n := |ops| - 1;
    var rest, last := Deleted(ops[..n]), ops[n].resources;
    assert Deleted(ops) == rest + last;
    assert UniqueIds(rest) by {
      assert forall j | 0 <= j < |rest| :: (rest + last)[j] == rest[j];
    }
    if i < n {
      OpHasUniqueIds(ops[..n], i);
    } else {
      assert forall j | 0 <= j < |last| :: (rest + last)[|rest| + j] == last[j];
    }
  }

  lemma SameOperation(
    devices: seq<Device>, others: seq<Device>, specs: seq<SpecAnnotation>, wishes: seq<SpecAnnotation>,
    a: DeleteOperation, b: DeleteOperation, r: Reason)
    requires Alike(devices, others, specs, wishes) && UniqueIds(a.resources) && UniqueIds(b.resources)
    requires Collects(devices, specs, a, r) && Collects(others, wishes, b, r)
    ensures SameDelete(a, b)
  {
    hide Tally, Desired, InSpec, ReasonOf;
    forall d ensures multiset(a.resources)[d] == multiset(b.resources)[d] {
      SameReason(devices, others, specs, wishes, d);
      UniqueIdsCount(a.resources, d);
      UniqueIdsCount(b.resources, d);
    }
  }

  lemma SameDeleteOperations(
    devices: seq<Device>, others: seq<Device>, specs: seq<SpecAnnotation>, wishes: seq<SpecAnnotation>,
    a: seq<DeleteOperation>, b: seq<DeleteOperation>, x: seq<Reason>, y: seq<Reason>)
    requires Alike(devices, others, specs, wishes) && UniqueIds(Deleted(a)) && UniqueIds(Deleted(b))
    requires Reasoned(devices, specs, a, x) && Reasoned(others, wishes, b, y) && forall r :: r in x <==> r in y
    ensures Matchable(a, b, SameDelete)
  {
    hide Alike, Collects, Deleted, UniqueIds, SameDelete;
    SameLength(x, y);
    var to := PairUp(x, y, |x|);
    forall i | 0 <= i < |to| ensures SameDelete(a[i], b[to[i]]) {
      OpHasUniqueIds(a, i);
      OpHasUniqueIds(b, to[i]);
      assert Collects(devices, specs, a[i], x[i]) && Collects(others, wishes, b[to[i]], y[to[i]]);
      SameOperation(devices, others, specs, wishes, a[i], b[to[i]], x[i]);
    }
    assert Pairing(a, b, SameDelete, to);
  }

  /**
   * Whatever the order in which devices and annotations are listed and maps are visited, two plans for the same devices
   * and the same spec are equal in the sense of the agent, so that it recognises a plan that it has tried before.
   */
  lemma PlanIsDetermined(
    devices: seq<Device>, others: seq<Device>, specs: seq<SpecAnnotation>, wishes: seq<SpecAnnotation>,
    p: MigConfigPlan, q: MigConfigPlan)
    requires multiset(devices) == multiset(others) && multiset(specs) == multiset(wishes)
    requires ByReason(devices, specs, p) && UniqueIds(Deleted(p.deleteOps))
    requires ByReason(others, wishes, q) && UniqueIds(Deleted(q.deleteOps))
    ensures SamePlan(p, q)
  {
    hide Alike, Deleted, UniqueIds, Called, Reasoned, CreatesAsDue, Matchable;
    PermutedAlike(devices, others, specs, wishes);
    var x :| Reasoned(devices, specs, p.deleteOps, x) && forall r :: r in x <==> Called(devices, specs, r);
    var y :| Reasoned(others, wishes, q.deleteOps, y) && forall r :: r in y <==> Called(others, wishes, r);
    forall r ensures r in x <==> r in y {
      SameCalls(devices, others, specs, wishes, r);
    }
    SameDeleteOperations(devices, others, specs, wishes, p.deleteOps, q.deleteOps, x, y);
    SameCreatesDue(devices, others, specs, wishes, p.createOps, q.createOps);
    MatchableMultiset(p.createOps, q.createOps, SameCreate);
  }
}
