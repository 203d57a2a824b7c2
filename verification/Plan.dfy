/** The node agent's plan: which devices to delete and which to create so that a GPU state meets a spec. */
module Plan {
  import opened GoMaps
  import opened Devices
  import opened Annotations

  datatype DeleteOperation = DeleteOperation(resources: seq<Device>)

  datatype CreateOperation = CreateOperation(profile: Profile, quantity: int)

  datatype MigConfigPlan = MigConfigPlan(deleteOps: seq<DeleteOperation>, createOps: seq<CreateOperation>) {

    function AddDeleteOp(op: DeleteOperation): MigConfigPlan {
      this.(deleteOps := deleteOps + [op])
    }

    function AddCreateOp(op: CreateOperation): MigConfigPlan {
      this.(createOps := createOps + [op])
    }

    predicate IsEmpty() {
      deleteOps == [] && createOps == []
    }
  }

  const EMPTY := MigConfigPlan([], [])

  /** All devices that a plan deletes, in order. */
  ghost function Deleted(ops: seq<DeleteOperation>): seq<Device> {
    if ops == [] then [] else Deleted(ops[..|ops| - 1]) + ops[|ops| - 1].resources
  }

  /** How many devices of a profile a plan creates. */
  ghost function Created(ops: seq<CreateOperation>, k: Profile): int {
    if ops == [] then 0 else
      var op := ops[|ops| - 1];
      Created(ops[..|ops| - 1], k) + if op.profile == k then op.quantity else 0
  }

  lemma DeletedSnoc(plan: MigConfigPlan, op: DeleteOperation)
    ensures Deleted(plan.AddDeleteOp(op).deleteOps) == Deleted(plan.deleteOps) + op.resources
  {
    assert (plan.deleteOps + [op])[..|plan.deleteOps|] == plan.deleteOps;
  }

  lemma CreatedSnoc(plan: MigConfigPlan, op: CreateOperation, k: Profile)
    ensures Created(plan.AddCreateOp(op).createOps, k)
            == Created(plan.createOps, k) + if op.profile == k then op.quantity else 0
  {
    assert (plan.createOps + [op])[..|plan.createOps|] == plan.createOps;
  }

  // ----- the contract of a plan, profile by profile -----

  /** Devices of a profile that have to be there in the end. */
  ghost function Want(specs: seq<SpecAnnotation>, k: Profile): nat {
    Max(0, Desired(specs, k))
  }

  ghost function Surplus(devices: seq<Device>, specs: seq<SpecAnnotation>, k: Profile): nat {
    Max(0, Num(devices, k) - Want(specs, k))
  }

  /** A plan deletes existing devices, none of them twice, and creates only positive quantities. */
  ghost predicate SoundOps(devices: seq<Device>, plan: MigConfigPlan) {
    && UniqueIds(Deleted(plan.deleteOps))
    && (forall d | d in Deleted(plan.deleteOps) :: d in devices)
    && (forall i | 0 <= i < |plan.createOps| :: plan.createOps[i].quantity > 0)
  }

  ghost predicate Untouched(plan: MigConfigPlan, k: Profile) {
    && Tally(Deleted(plan.deleteOps), k, true) == 0
    && Tally(Deleted(plan.deleteOps), k, false) == 0
    && Created(plan.createOps, k) == 0
  }

  /** Exactly the surplus goes, free devices first, and exactly the shortage is created. */
  ghost predicate Balanced(devices: seq<Device>, specs: seq<SpecAnnotation>, plan: MigConfigPlan, k: Profile) {
    && Tally(Deleted(plan.deleteOps), k, true) == Min(Tally(devices, k, true), Surplus(devices, specs, k))
    && Tally(Deleted(plan.deleteOps), k, false) == Max(0, Tally(devices, k, false) - Want(specs, k))
    && Created(plan.createOps, k) == Max(0, Want(specs, k) - Num(devices, k))
  }

  /** As `Balanced`, but every free device is deleted, and re-created if it is not surplus. */
  ghost predicate Rebuilt(devices: seq<Device>, specs: seq<SpecAnnotation>, plan: MigConfigPlan, k: Profile) {
    && Tally(Deleted(plan.deleteOps), k, true) == Tally(devices, k, true)
    && Tally(Deleted(plan.deleteOps), k, false) == Max(0, Tally(devices, k, false) - Want(specs, k))
    && Created(plan.createOps, k)
       == Max(0, Want(specs, k) - Num(devices, k))
          + Tally(devices, k, true) - Min(Tally(devices, k, true), Surplus(devices, specs, k))
  }

  /** Some profile of the GPU has fewer devices than desired. */
  ghost predicate Grows(devices: seq<Device>, specs: seq<SpecAnnotation>, gpu: int) {
    exists k: Profile :: k.gpu == gpu && Desired(specs, k) > Num(devices, k)
  }

  /** Every profile already has exactly the desired number of devices. */
  ghost predicate InSync(devices: seq<Device>, specs: seq<SpecAnnotation>) {
    forall k :: Desired(specs, k) == Num(devices, k)
  }

  /** The whole account of a plan: free devices are recycled on the GPUs that grow, and only there. */
  ghost predicate IsPlanFor(devices: seq<Device>, specs: seq<SpecAnnotation>, plan: MigConfigPlan) {
    && SoundOps(devices, plan)
    && (forall k: Profile {:trigger Balanced(devices, specs, plan, k)} {:trigger Rebuilt(devices, specs, plan, k)} ::
          if Grows(devices, specs, k.gpu) then Rebuilt(devices, specs, plan, k) else Balanced(devices, specs, plan, k))
    && (plan.IsEmpty() <==> InSync(devices, specs))
  }

  // ----- consequences -----

  /** Removing the deletes and adding the creates leaves exactly the desired count, and 0 where the spec is silent. */
  lemma Convergence(devices: seq<Device>, specs: seq<SpecAnnotation>, plan: MigConfigPlan, k: Profile)
    requires UniqueIds(devices) && IsPlanFor(devices, specs, plan)
    ensures Num(Without(devices, Deleted(plan.deleteOps)), k) + Created(plan.createOps, k) == Max(0, Desired(specs, k))
    ensures Created(plan.createOps, k) >= 0
  {
    var gone := Deleted(plan.deleteOps);
    WithoutCounts(devices, gone, k, true);
    WithoutCounts(devices, gone, k, false);
    assert Balanced(devices, specs, plan, k) || Rebuilt(devices, specs, plan, k);
  }

  /** The plan gives up exactly as many non-free devices as the spec cannot keep. */
  lemma DamageBound(devices: seq<Device>, specs: seq<SpecAnnotation>, plan: MigConfigPlan, k: Profile)
    requires IsPlanFor(devices, specs, plan)
    ensures Tally(Deleted(plan.deleteOps), k, false) == Max(0, Tally(devices, k, false) - Max(0, Desired(specs, k)))
  {
    assert Balanced(devices, specs, plan, k) || Rebuilt(devices, specs, plan, k);
  }

  /** A device that is not free is scheduled for deletion only if the spec wants fewer than are in use. */
  lemma OnlySurplusUseIsDeleted(devices: seq<Device>, specs: seq<SpecAnnotation>, plan: MigConfigPlan, d: Device)
    requires IsPlanFor(devices, specs, plan) && d in Deleted(plan.deleteOps) && !IsFree(d)
    ensures Desired(specs, ProfileOf(d)) < Tally(devices, ProfileOf(d), false)
  {
    TallyPositive(Deleted(plan.deleteOps), d);
    DamageBound(devices, specs, plan, ProfileOf(d));
  }

  /** On a GPU that needs no new device the plan deletes the surplus and nothing else. */
  lemma NoChurn(devices: seq<Device>, specs: seq<SpecAnnotation>, plan: MigConfigPlan, k: Profile)
    requires IsPlanFor(devices, specs, plan) && !Grows(devices, specs, k.gpu)
    ensures Created(plan.createOps, k) == 0
    ensures Num(Deleted(plan.deleteOps), k) == Max(0, Num(devices, k) - Max(0, Desired(specs, k)))
  {
    assert Balanced(devices, specs, plan, k);
    assert Desired(specs, k) > Num(devices, k) ==> Grows(devices, specs, k.gpu);
  }

  /** The devices that remain once those of `gone` are deleted, by device id. */
  ghost function Without(s: seq<Device>, gone: seq<Device>): seq<Device> {
    if s == [] then [] else
      var rest := Without(s[..|s| - 1], gone);
      if exists d :: d in gone && d.id == s[|s| - 1].id then rest else rest + [s[|s| - 1]]
  }

  /** Ids identify devices across the two lists. */
  ghost predicate SameIds(s: seq<Device>, gone: seq<Device>) {
    UniqueIds(s) && UniqueIds(gone) && forall d, e | d in gone && e in s && d.id == e.id :: d == e
  }

  ghost predicate HasId(gone: seq<Device>, id: string) {
    exists d :: d in gone && d.id == id
  }

  /** The deleted devices of profile `k` are all there. */
  ghost predicate Present(s: seq<Device>, gone: seq<Device>, k: Profile) {
    forall d | d in gone && ProfileOf(d) == k :: d in s
  }

  lemma {:induction false} WithoutCounts(s: seq<Device>, gone: seq<Device>, k: Profile, free: bool)
    requires SameIds(s, gone) && Present(s, gone, k)
    ensures Tally(Without(s, gone), k, free) == Tally(s, k, free) - Tally(gone, k, free)
  {
    if s == [] {
      if Tally(gone, k, free) > 0 {
        TallyWitness(gone, k, free);
        assert false;
      }
    } else {
      hide Tally, Without, SameIds, Present;
      var n := |s| - 1;
      var rest := s[..n];
      assert s == rest + [s[n]];
      TallyAppend(rest, [s[n]], k, free);
      TallyOne(s[n], k, free);
      WithoutStep(s, gone);
      if HasId(gone, s[n].id) {
        var j := DeletedAt(s, gone, k);
        var left := gone[..j] + gone[j + 1..];
        WithoutCounts(rest, left, k, free);
        TallyWithoutOne(gone, j, k, free);
      } else {
        StillPresent(s, gone, k);
        WithoutCounts(rest, gone, k, free);
        TallyAppend(Without(rest, gone), [s[n]], k, free);
      }
    }
  }

  lemma WithoutStep(s: seq<Device>, gone: seq<Device>)
    requires s != []
    ensures var n := |s| - 1;
            Without(s, gone) == if HasId(gone, s[n].id) then Without(s[..n], gone) else Without(s[..n], gone) + [s[n]]
  {
  }

  /** The last device is a deleted one: where it is among them, and that the others are accounted for without it. */
  lemma DeletedAt(s: seq<Device>, gone: seq<Device>, k: Profile) returns (j: nat)
    requires SameIds(s, gone) && Present(s, gone, k) && s != [] && HasId(gone, s[|s| - 1].id)
    ensures j < |gone| && gone[j] == s[|s| - 1]
    ensures var n, left := |s| - 1, gone[..j] + gone[j + 1..];
            SameIds(s[..n], left) && Present(s[..n], left, k) && Without(s[..n], gone) == Without(s[..n], left)
  {
    hide Without;
    var n := |s| - 1;
    var d :| d in gone && d.id == s[n].id;
    j :| 0 <= j < |gone| && gone[j] == d;
    RemovedOne(s, gone, j, k);
    WithoutSame(s[..n], gone, gone[..j] + gone[j + 1..], s[n]);
  }

  lemma StillPresent(s: seq<Device>, gone: seq<Device>, k: Profile)
    requires SameIds(s, gone) && Present(s, gone, k) && s != [] && !HasId(gone, s[|s| - 1].id)
    ensures SameIds(s[..|s| - 1], gone) && Present(s[..|s| - 1], gone, k)
  {
    var n := |s| - 1;
    assert s == s[..n] + [s[n]];
  }

  lemma RemovedOne(s: seq<Device>, gone: seq<Device>, j: nat, k: Profile)
    requires SameIds(s, gone) && Present(s, gone, k)
    requires s != [] && j < |gone| && gone[j] == s[|s| - 1]
    ensures var left := gone[..j] + gone[j + 1..];
            && SameIds(s[..|s| - 1], left) && Present(s[..|s| - 1], left, k)
            && (forall d :: d in gone <==> d in left || d == gone[j])
  {
    var left := gone[..j] + gone[j + 1..];
    assert gone == gone[..j] + [gone[j]] + gone[j + 1..];
    forall d | d in left ensures d in gone && d.id != gone[j].id {
    }
    assert forall e | e in s[..|s| - 1] :: e in s;
  }

  lemma {:induction false} WithoutSame(s: seq<Device>, gone: seq<Device>, left: seq<Device>, x: Device)
    requires forall d | d in s :: d.id != x.id
    requires forall d :: d in gone <==> d in left || d == x
    ensures Without(s, gone) == Without(s, left)
  {
    if s != [] {
      var n := |s| - 1;
      assert s[n] in s;
      assert forall d | d in s[..n] :: d in s;
      WithoutSame(s[..n], gone, left, x);
    }
  }
}
