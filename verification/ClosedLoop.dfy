/** The two controllers together: what the partitioner writes, the agent can carry out. */
module ClosedLoop {
  import opened GoMaps
  import opened Devices
  import opened Annotations
  import opened MigGpu
  import opened MigNode
  import opened Plan
  import opened StateCheck
  import opened Actuator
  import opened Partitioner

  // ----- partitioner and agent agree -----

  /** No profile has more devices that are not free than the partitioner saw in use. */
  ghost predicate NoMoreInUse(devices: seq<Device>, ls: seq<Ledger>) {
    forall k: Profile | Tally(devices, k, false) > 0 ::
      exists i :: 0 <= i < |ls| && ls[i].index == k.gpu && Tally(devices, k, false) <= Get(ls[i].used, k.name)
  }

  lemma UpdateKeepsIndexes(ls: seq<Ledger>, us: seq<Ledger>)
    requires AllKept(ls, us) && DistinctGpus(ls)
    ensures DistinctGpus(us) && forall i | 0 <= i < |ls| :: us[i].index == ls[i].index
  {
    hide Kept;
    forall i | 0 <= i < |ls| ensures us[i].index == ls[i].index {
      KeptParts(ls[i], us[i], "");
    }
  }

  /** A spec for the updated node covers everything that is in use. */
  lemma SpecCoversUse(ls: seq<Ledger>, us: seq<Ledger>, specs: seq<SpecAnnotation>, devices: seq<Device>, k: Profile)
    requires AllKept(ls, us) && DistinctGpus(ls) && WantsGeometry(specs, us) && NoMoreInUse(devices, ls)
    ensures Tally(devices, k, false) <= Max(0, Desired(specs, k))
  {
    hide Kept, Tally, Desired, GeometryAt;
    if Tally(devices, k, false) > 0 {
      var i :| 0 <= i < |ls| && ls[i].index == k.gpu && Tally(devices, k, false) <= Get(ls[i].used, k.name);
      UpdateKeepsIndexes(ls, us);
      KeptParts(ls[i], us[i], k.name);
      assert Desired(specs, Profile(us[i].index, k.name)) == GeometryAt(us[i], k.name);
    }
  }

  ghost predicate AllFree(s: seq<Device>) {
    forall d | d in s :: IsFree(d)
  }

  ghost predicate CoversUse(specs: seq<SpecAnnotation>, devices: seq<Device>) {
    forall k :: Tally(devices, k, false) <= Max(0, Desired(specs, k))
  }

  /** A plan spares every device that is not free exactly when the spec wants at least as many as are in use. */
  lemma SafeExactlyWhen(devices: seq<Device>, specs: seq<SpecAnnotation>, plan: MigConfigPlan)
    requires IsPlanFor(devices, specs, plan)
    ensures AllFree(Deleted(plan.deleteOps)) <==> CoversUse(specs, devices)
  {
    hide Tally, Desired, Deleted, IsPlanFor;
    if AllFree(Deleted(plan.deleteOps)) {
      forall k ensures Tally(devices, k, false) <= Max(0, Desired(specs, k)) {
        NoneBusy(Deleted(plan.deleteOps), k);
        DamageBound(devices, specs, plan, k);
      }
    }
    if CoversUse(specs, devices) {
      forall d | d in Deleted(plan.deleteOps) ensures IsFree(d) {
        DamageBound(devices, specs, plan, ProfileOf(d));
        if !IsFree(d) {
          TallyPositive(Deleted(plan.deleteOps), d);
          assert false;
        }
      }
    }
  }

  /**
   * Partitioner and agent compose safely: a plan for a spec that the partitioner built deletes free devices only,
   * if no more devices are in use than the partitioner saw. So the agent does not refuse it.
   */
  lemma PlanIsSafe(
    ls: seq<Ledger>, us: seq<Ledger>, ps: seq<GpuPartitioning>, specs: seq<SpecAnnotation>,
    devices: seq<Device>, plan: MigConfigPlan)
    requires AllKept(ls, us) && DistinctGpus(ls) && Partitions(us, ps) && SpecsFor(specs, ps)
    requires NoMoreInUse(devices, ls) && IsPlanFor(devices, specs, plan)
    ensures AllFree(Deleted(plan.deleteOps))
    ensures WantsGeometry(specs, us)
  {
    hide Kept, Tally, Desired, Deleted, IsPlanFor, Partitions, SpecsFor, WantsGeometry, NoMoreInUse, AllFree;
    UpdateKeepsIndexes(ls, us);
    SpecWantsGeometry(us, ps, specs);
    forall k ensures Tally(devices, k, false) <= Max(0, Desired(specs, k)) {
      SpecCoversUse(ls, us, specs, devices, k);
    }
    SafeExactlyWhen(devices, specs, plan);
  }

  // ----- fixed point -----

  /**
   * With positive quantities only, the plan is empty exactly when the agent's state check says that spec and state
   * match.
   */
  lemma EmptyPlanIffMatches(devices: seq<Device>, specs: seq<SpecAnnotation>, plan: MigConfigPlan)
    requires IsPlanFor(devices, specs, plan) && forall a | a in specs :: a.quantity > 0
    ensures plan.IsEmpty() <==> InSync(devices, specs) && !HasEmptyWish(specs)
  {
    hide InSync, Desired;
    forall i | 0 <= i < |specs| ensures Desired(specs, SpecProfile(specs[i])) > 0 {
      DesiredPositive(specs, SpecProfile(specs[i]), i);
    }
  }

  /** After an apply that is carried out in full, the devices pass the agent's check. */
  lemma AppliedStateMatches(
    devices: seq<Device>, specs: seq<SpecAnnotation>, plan: MigConfigPlan,
    before: multiset<Profile>, after: multiset<Profile>, restarts: bool, t: Trace, now: seq<Device>)
    requires UniqueIds(devices) && IsPlanFor(devices, specs, plan) && forall a | a in specs :: a.quantity > 0
    requires Effect(before, after, plan, restarts, Done, t)
    requires forall k :: before[k] == Num(devices, k)
    requires forall k :: after[k] == Num(now, k)
    ensures InSync(now, specs) && !HasEmptyWish(specs)
  {
    hide IsPlanFor, Desired, Tally, Accounts, Wished, FreeProfiles, Deleted;
    forall k ensures Desired(specs, k) == Num(now, k) {
      assert Accounts(before, after, plan, t, k) && before[k] == Num(devices, k) && after[k] == Num(now, k);
      FullApplyConverges(devices, specs, plan, before, after, t, k);
      DesiredNonNegative(specs, k);
    }
    forall i | 0 <= i < |specs| ensures Desired(specs, SpecProfile(specs[i])) > 0 {
      DesiredPositive(specs, SpecProfile(specs[i]), i);
    }
  }

  lemma {:induction false} DesiredPositive(specs: seq<SpecAnnotation>, k: Profile, i: nat)
    requires i < |specs| && SpecProfile(specs[i]) == k && forall a | a in specs :: a.quantity > 0
    ensures Desired(specs, k) > 0
  {
    var n := |specs| - 1;
    assert specs == specs[..n] + [specs[n]];
    DesiredNonNegative(specs[..n], k);
    if i < n {
      DesiredPositive(specs[..n], k, i);
    }
  }

  lemma {:induction false} DesiredNonNegative(specs: seq<SpecAnnotation>, k: Profile)
    requires forall a | a in specs :: a.quantity > 0
    ensures Desired(specs, k) >= 0
  {
    if specs != [] {
      var n := |specs| - 1;
      assert specs == specs[..n] + [specs[n]];
      DesiredNonNegative(specs[..n], k);
    }
  }

  /** A spec that asks for none of a profile needs no change, and yet is not taken to match. */
  lemma ZeroQuantityNeverMatches() returns (devices: seq<Device>, specs: seq<SpecAnnotation>)
    ensures InSync(devices, specs) && HasEmptyWish(specs)
  {
    devices, specs := [], [SpecAnnotation("1g.5gb", 0, 0)];
    forall k ensures Desired(specs, k) == Num(devices, k) {
      assert specs[..0] == [];
    }
    assert SpecProfile(specs[0]) == Profile(0, "1g.5gb");
    assert InSpec(specs, Profile(0, "1g.5gb"));
  }
}
