/** How the agent builds its plan, loop by loop. */
module Planner {
  import opened GoMaps
  import opened Lists
  import opened Devices
  import opened Annotations
  import opened Plan
  import opened Text
  import opened Reasons

  // ----- the state of a node -----

  /** Devices by GPU index. */
  type MigState = map<int, seq<Device>>

  function Lookup(state: MigState, gpu: int): seq<Device> {
    if gpu in state then state[gpu] else []
  }

  /** `state` is the grouping by GPU of the listed devices. */
  ghost predicate Represents(state: MigState, devices: seq<Device>) {
    forall g :: Lookup(state, g) == Pick(devices, GpuOf, g)
  }

  method NewMigState(devices: seq<Device>) returns (state: MigState)
    ensures Represents(state, devices)
  {
    state := GroupBy(devices, GpuOf);
  }

  /** All the devices of a state, GPUs in any order. */
  method Flatten(state: MigState, ghost devices: seq<Device>) returns (all: seq<Device>)
    requires Represents(state, devices)
    ensures multiset(all) == multiset(devices)
    ensures forall g :: Pick(all, GpuOf, g) == Lookup(state, g)
  {
    all := [];
    var todo := state.Keys;
    while todo != {}
      invariant todo <= state.Keys
      invariant forall g :: Pick(all, GpuOf, g) == if g in todo then [] else Lookup(state, g)
    {
      var g := Any(todo);
      todo := todo - {g};
      forall h ensures Pick(all + state[g], GpuOf, h) == if h in todo then [] else Lookup(state, h) {
        FlattenStep(state, devices, all, g, h);
      }
      all := all + state[g];
    }
    forall g ensures Pick(all, GpuOf, g) == Pick(devices, GpuOf, g) {
      assert Lookup(state, g) == Pick(devices, GpuOf, g);
    }
    PickDetermines(all, devices, GpuOf);
  }

  lemma FlattenStep(state: MigState, devices: seq<Device>, all: seq<Device>, g: int, h: int)
    requires Represents(state, devices) && g in state
    ensures Pick(all + state[g], GpuOf, h) == Pick(all, GpuOf, h) + if h == g then state[g] else []
  {
    hide Pick;
    PickAppend(all, state[g], GpuOf, h);
    assert state[g] == Lookup(state, g) == Pick(devices, GpuOf, g);
    PickMembers(devices, GpuOf, g);
    PickOther(state[g], GpuOf, g, h);
  }

  lemma {:induction false} PickOther<K, V>(s: seq<V>, key: V -> K, k: K, h: K)
    requires forall x | x in s :: key(x) == k
    ensures Pick(s, key, h) == if h == k then s else []
  {
    if s != [] {
      var n := |s| - 1;
      assert s == s[..n] + [s[n]];
      PickOther(s[..n], key, k, h);
    }
  }

  lemma {:induction false} UniqueIdsMultiset(a: seq<Device>, b: seq<Device>)
    requires UniqueIds(a) && multiset(a) == multiset(b)
    ensures UniqueIds(b)
  {
    forall i, j | 0 <= i < j < |b| ensures b[i].id != b[j].id {
      if b[i].id == b[j].id {
        assert b[i] in multiset(a) && b[j] in multiset(a);
        var m :| 0 <= m < |a| && a[m] == b[i];
        var n :| 0 <= n < |a| && a[n] == b[j];
        assert m == n;
        assert b == b[..j] + [b[j]] + b[j + 1..];
        assert b[i] in b[..j];
        assert multiset(b)[b[i]] >= 2;
        OnceOnly(a, b[i]);
      }
    }
  }

  lemma {:induction false} OnceOnly(a: seq<Device>, d: Device)
    requires UniqueIds(a)
    ensures multiset(a)[d] <= 1
  {
    if a != [] {
      var n := |a| - 1;
      assert a == a[..n] + [a[n]];
      OnceOnly(a[..n], d);
      if d == a[n] {
        assert d !in a[..n];
      }
    }
  }

  // ----- devices that the spec does not mention -----

  ghost function Outside(s: seq<Device>, specs: seq<SpecAnnotation>): seq<Device> {
    if s == [] then [] else
      var rest := Outside(s[..|s| - 1], specs);
      if InSpec(specs, ProfileOf(s[|s| - 1])) then rest else rest + [s[|s| - 1]]
  }

  /** The devices whose profile is not among the names, in order. */
  ghost function Unlisted(s: seq<Device>, names: seq<ProfileName>): seq<Device> {
    if s == [] then [] else
      var rest := Unlisted(s[..|s| - 1], names);
      if s[|s| - 1].profile in names then rest else rest + [s[|s| - 1]]
  }

  /** Removes, on one GPU, the devices of the named profiles; the other GPUs are as they were. */
  method WithoutMigProfiles(state: MigState, gpu: int, names: seq<ProfileName>) returns (res: MigState)
    ensures forall g :: Lookup(res, g) == if g == gpu then Unlisted(Lookup(state, g), names) else Lookup(state, g)
  {
    var devices := Lookup(state, gpu);
    var kept: seq<Device> := [];
    for i := 0 to |devices|
      invariant kept == Unlisted(devices[..i], names)
    {
      assert devices[..i + 1][..i] == devices[..i];
      if devices[i].profile !in names {
        kept := kept + [devices[i]];
      }
    }
    assert devices[..|devices|] == devices;
    res := state[gpu := kept];
  }

  lemma {:induction false} UnlistedIsOutside(
    s: seq<Device>, g: int, names: seq<ProfileName>, specs: seq<SpecAnnotation>)
    requires forall d | d in s :: d.gpu == g
    requires forall name :: name in names <==> InSpec(specs, Profile(g, name))
    ensures Unlisted(s, names) == Outside(s, specs)
  {
    hide InSpec;
    if s != [] {
      var n := |s| - 1;
      assert s == s[..n] + [s[n]];
      UnlistedIsOutside(s[..n], g, names, specs);
      assert s[n] in s && ProfileOf(s[n]) == Profile(g, s[n].profile);
    }
  }

  method NamesOf(annotations: seq<SpecAnnotation>) returns (names: seq<ProfileName>)
    ensures forall name :: name in names <==> exists i :: 0 <= i < |annotations| && annotations[i].profile == name
  {
    names := [];
    for i := 0 to |annotations|
      invariant forall name :: name in names <==> exists j :: 0 <= j < i && annotations[j].profile == name
    {
      names := names + [annotations[i].profile];
    }
  }

  lemma NamesInSpec(specs: seq<SpecAnnotation>, gpu: int, annotations: seq<SpecAnnotation>, name: ProfileName)
    requires annotations == Pick(specs, SpecGpu, gpu)
    ensures (exists i :: 0 <= i < |annotations| && annotations[i].profile == name)
            <==> InSpec(specs, Profile(gpu, name))
  {
    hide Pick;
    PickMembers(specs, SpecGpu, gpu);
    if i :| 0 <= i < |annotations| && annotations[i].profile == name {
      assert annotations[i] in specs;
      var j :| 0 <= j < |specs| && specs[j] == annotations[i];
      assert SpecProfile(specs[j]) == Profile(gpu, name);
    }
    if j :| 0 <= j < |specs| && SpecProfile(specs[j]) == Profile(gpu, name) {
      assert specs[j] in annotations;
      var i :| 0 <= i < |annotations| && annotations[i] == specs[j];
    }
  }

  /** Every device whose profile the spec does not mention on its GPU, and no other. */
  method GetResourcesNotIncludedInSpec(state: MigState, specs: seq<SpecAnnotation>, ghost devices: seq<Device>)
    returns (rest: seq<Device>)
    requires Represents(state, devices) && UniqueIds(devices)
    ensures UniqueIds(rest) && forall d :: d in rest <==> d in devices && !InSpec(specs, ProfileOf(d))
    ensures forall k, free :: Tally(rest, k, free) == if InSpec(specs, k) then 0 else Tally(devices, k, free)
  {
    hide InSpec, Pick, Outside, Unlisted;
    var lookup := GroupBy(specs, SpecGpu);
    var updated := state;
    var todo := lookup.Keys;
    while todo != {}
      invariant todo <= lookup.Keys
      invariant forall g {:trigger Lookup(updated, g)} ::
          Lookup(updated, g) == if g in lookup && g !in todo then Outside(Lookup(state, g), specs) else Lookup(state, g)
    {
      var g := Any(todo);
      todo := todo - {g};
      var names := NamesOf(lookup[g]);
      assert forall name :: name in names <==> InSpec(specs, Profile(g, name)) by {
        forall name { NamesInSpec(specs, g, lookup[g], name); }
      }
      assert Lookup(updated, g) == Lookup(state, g) == Pick(devices, GpuOf, g);
      PickMembers(devices, GpuOf, g);
      UnlistedIsOutside(Lookup(updated, g), g, names, specs);
      updated := WithoutMigProfiles(updated, g, names);
    }
    forall g ensures Lookup(updated, g) == Pick(Outside(devices, specs), GpuOf, g) {
      OutsideGpu(devices, specs, g);
      if g !in lookup {
        assert Pick(specs, SpecGpu, g) == [];
        PickMembers(devices, GpuOf, g);
        OutsideSilent(Pick(devices, GpuOf, g), specs, g);
      }
    }
    rest := Flatten(updated, Outside(devices, specs));
    OutsideKeeps(devices, specs);
    UniqueIdsMultiset(Outside(devices, specs), rest);
    forall d ensures d in rest <==> d in devices && !InSpec(specs, ProfileOf(d)) {
      assert d in multiset(rest) <==> d in multiset(Outside(devices, specs));
    }
    forall k, free ensures Tally(rest, k, free) == if InSpec(specs, k) then 0 else Tally(devices, k, free) {
      TallyMultiset(rest, Outside(devices, specs), k, free);
      OutsideTally(devices, specs, k, free);
    }
  }

  lemma {:induction false} OutsideGpu(s: seq<Device>, specs: seq<SpecAnnotation>, g: int)
    ensures Pick(Outside(s, specs), GpuOf, g) == Outside(Pick(s, GpuOf, g), specs)
  {
    if s != [] {
      var n := |s| - 1;
      OutsideGpu(s[..n], specs, g);
      var o, p := Outside(s[..n], specs), Pick(s[..n], GpuOf, g);
      assert (o + [s[n]])[..|o|] == o && (p + [s[n]])[..|p|] == p;
    }
  }

  lemma {:induction false} OutsideSilent(s: seq<Device>, specs: seq<SpecAnnotation>, g: int)
    requires Pick(specs, SpecGpu, g) == [] && forall d | d in s :: d.gpu == g
    ensures Outside(s, specs) == s
  {
    hide Pick;
    if s != [] {
      var n := |s| - 1;
      assert s == s[..n] + [s[n]];
      OutsideSilent(s[..n], specs, g);
      assert s[n].gpu == g;
      PickMembers(specs, SpecGpu, g);
      assert forall i | 0 <= i < |specs| :: specs[i] in specs && SpecGpu(specs[i]) != g;
    }
  }

  lemma {:induction false} OutsideKeeps(s: seq<Device>, specs: seq<SpecAnnotation>)
    ensures forall d :: d in Outside(s, specs) <==> d in s && !InSpec(specs, ProfileOf(d))
    ensures UniqueIds(s) ==> UniqueIds(Outside(s, specs))
  {
    hide InSpec;
    if s != [] {
      var n := |s| - 1;
      assert s == s[..n] + [s[n]];
      OutsideKeeps(s[..n], specs);
      if UniqueIds(s) {
        assert UniqueIds(s[..n]);
        assert forall d | d in s[..n] :: d.id != s[n].id;
      }
    }
  }

  lemma {:induction false} OutsideTally(s: seq<Device>, specs: seq<SpecAnnotation>, k: Profile, free: bool)
    ensures Tally(Outside(s, specs), k, free) == if InSpec(specs, k) then 0 else Tally(s, k, free)
  {
    hide InSpec;
    if s != [] {
      var n := |s| - 1;
      OutsideTally(s[..n], specs, k, free);
      TallyAppend(Outside(s[..n], specs), [s[n]], k, free);
      TallyOne(s[n], k, free);
    }
  }

  // ----- choosing what to delete -----

  /** The deletion candidates: free devices first, then as many others as are still missing. */
  ghost function Candidates(s: seq<Device>, n: int): seq<Device>
    requires n >= 0
  {
    var free, busy := Pick(s, IsFree, true), Pick(s, IsFree, false);
    free[..Min(n, |free|)] + busy[..Min(|busy|, Max(0, n - |free|))]
  }

  lemma PickPrefix(s: seq<Device>, i: nat, free: bool)
    requires i <= |s|
    ensures Pick(s[..i], IsFree, free) <= Pick(s, IsFree, free)
    ensures i < |s| ==> Pick(s[..i + 1], IsFree, free)
                        == Pick(s[..i], IsFree, free) + if IsFree(s[i]) == free then [s[i]] else []
  {
    assert s == s[..i] + s[i..];
    PickAppend(s[..i], s[i..], IsFree, free);
    if i < |s| {
      assert s[..i + 1][..i] == s[..i];
    }
  }

  /** The two scans of the source, with their early exits. */
  method ExtractCandidatesForDeletion(resources: seq<Device>, n: int) returns (chosen: seq<Device>)
    requires n > 0
    ensures chosen == Candidates(resources, n)
  {
    chosen := Scan(resources, n, true, []);
    assert [] + Pick(resources, IsFree, true) == Pick(resources, IsFree, true);
    if |chosen| < n {
      chosen := Scan(resources, n, false, chosen);
    }
  }

  /** One scan: appends the devices of the given kind to `before` until there are `n` in all. */
  method Scan(resources: seq<Device>, n: int, free: bool, before: seq<Device>) returns (chosen: seq<Device>)
    requires |before| < n
    ensures var found := Pick(resources, IsFree, free);
            chosen == before + found[..Min(|found|, n - |before|)]
  {
    hide Pick;
    chosen := before;
    var i := 0;
    PickPrefix(resources, 0, free);
    assert Pick(resources[..0], IsFree, free) == [] by { PickMembers(resources[..0], IsFree, free); }
    while i < |resources|
      invariant 0 <= i <= |resources| && |chosen| < n
      invariant chosen == before + Pick(resources[..i], IsFree, free)
    {
      PickPrefix(resources, i, free);
      PickPrefix(resources, i + 1, free);
      if IsFree(resources[i]) == free {
        chosen := chosen + [resources[i]];
      }
      i := i + 1;
      if |chosen| == n {
        return;
      }
    }
    assert resources[..|resources|] == resources;
  }

  lemma {:induction false} TallyUniform(s: seq<Device>, k: Profile, free: bool)
    requires forall d | d in s :: ProfileOf(d) == k && IsFree(d) == free
    ensures Tally(s, k, free) == |s| && Tally(s, k, !free) == 0
    ensures forall h, f | h != k :: Tally(s, h, f) == 0
  {
    if s != [] {
      var n := |s| - 1;
      assert s == s[..n] + [s[n]];
      TallyUniform(s[..n], k, free);
    }
  }

  lemma {:induction false} TallyPickStatus(s: seq<Device>, k: Profile, free: bool)
    requires forall d | d in s :: ProfileOf(d) == k
    ensures |Pick(s, IsFree, free)| == Tally(s, k, free)
  {
    if s != [] {
      var n := |s| - 1;
      assert s == s[..n] + [s[n]];
      TallyPickStatus(s[..n], k, free);
    }
  }

  /** Of `n` candidates for a profile, as many as possible are free; the others are as few as can be. */
  lemma CandidateCounts(s: seq<Device>, k: Profile, n: int)
    requires n >= 0 && UniqueIds(s) && forall d | d in s :: ProfileOf(d) == k
    ensures var r := Candidates(s, n);
            && UniqueIds(r) && (forall d | d in r :: d in s)
            && Tally(r, k, true) == Min(n, Tally(s, k, true))
            && Tally(r, k, false) == Min(Tally(s, k, false), Max(0, n - Tally(s, k, true)))
            && (forall h, free | h != k :: Tally(r, h, free) == 0)
  {
    hide Pick, Tally, UniqueIds;
    var free, busy := Pick(s, IsFree, true), Pick(s, IsFree, false);
    TallyPickStatus(s, k, true);
    TallyPickStatus(s, k, false);
    var a, b := free[..Min(n, |free|)], busy[..Min(|busy|, Max(0, n - |free|))];
    ChosenDevices(s, a, true);
    ChosenDevices(s, b, false);
    TallyUniform(a, k, true);
    TallyUniform(b, k, false);
    forall h, f ensures Tally(a + b, h, f) == Tally(a, h, f) + Tally(b, h, f) {
      TallyAppend(a, b, h, f);
    }
    AppendUnique(s, a, b);
  }

  lemma ChosenDevices(s: seq<Device>, a: seq<Device>, free: bool)
    requires UniqueIds(s) && a <= Pick(s, IsFree, free)
    ensures UniqueIds(a) && forall d | d in a :: d in s && IsFree(d) == free
  {
    hide Pick;
    PickMembers(s, IsFree, free);
    PickUniqueIds(s, IsFree, free);
    assert forall d | d in a :: d in Pick(s, IsFree, free);
  }

  // ----- building the plan -----

  /** Where a profile stands: on a finished GPU, settled, or not yet looked at. */
  ghost predicate Stage(
    devices: seq<Device>, specs: seq<SpecAnnotation>, plan: MigConfigPlan,
    settled: set<Profile>, rebuilt: set<int>, k: Profile)
  {
    if k.gpu in rebuilt then Rebuilt(devices, specs, plan, k)
    else if k in settled || !InSpec(specs, k) then Balanced(devices, specs, plan, k)
    else Untouched(plan, k)
  }

  ghost predicate Progress(
    devices: seq<Device>, specs: seq<SpecAnnotation>, plan: MigConfigPlan, settled: set<Profile>, rebuilt: set<int>)
  {
    && SoundOps(devices, plan)
    && (forall k :: Stage(devices, specs, plan, settled, rebuilt, k))
    && (plan.IsEmpty() <==> forall k | k in settled || !InSpec(specs, k) :: Desired(specs, k) == Num(devices, k))
  }

  /** Which reasons have been dealt with. */
  ghost predicate Due(
    devices: seq<Device>, specs: seq<SpecAnnotation>, settled: set<Profile>, rebuilt: set<int>, r: Reason)
  {
    match r
    case NotWanted(_) => Called(devices, specs, r)
    case Excess(k) => k in settled && Called(devices, specs, r)
    case MakingRoom(g) => g in rebuilt && Called(devices, specs, r)
    case Kept => false
  }

  ghost predicate CreatesSoFar(
    devices: seq<Device>, specs: seq<SpecAnnotation>, ops: seq<CreateOperation>,
    settled: set<Profile>, rebuilt: set<int>)
  {
    forall k: Profile, q {:trigger CreateOperation(k, q)} ::
      multiset(ops)[CreateOperation(k, q)]
      == (if k in settled && q == Shortfall(devices, specs, k) && q > 0 then 1 else 0)
         + if k.gpu in rebuilt && q == Recycled(devices, specs, k) && q > 0 then 1 else 0
  }

  /** The operations so far, each for its reason. */
  ghost predicate Tracked(
    devices: seq<Device>, specs: seq<SpecAnnotation>, plan: MigConfigPlan, reasons: seq<Reason>,
    settled: set<Profile>, rebuilt: set<int>)
  {
    && Reasoned(devices, specs, plan.deleteOps, reasons)
    && (forall r :: r in reasons <==> Due(devices, specs, settled, rebuilt, r))
    && CreatesSoFar(devices, specs, plan.createOps, settled, rebuilt)
  }

  lemma ReasonedMore(
    devices: seq<Device>, specs: seq<SpecAnnotation>, ops: seq<DeleteOperation>, reasons: seq<Reason>,
    op: DeleteOperation, r: Reason)
    requires Reasoned(devices, specs, ops, reasons) && r !in reasons && Collects(devices, specs, op, r)
    ensures Reasoned(devices, specs, ops + [op], reasons + [r])
  {
    hide Collects;
    NoDupSnoc(reasons, r);
    forall i | 0 <= i <= |ops| ensures Collects(devices, specs, (ops + [op])[i], (reasons + [r])[i]) {
      if i < |ops| {
        assert Collects(devices, specs, ops[i], reasons[i]);
      }
    }
  }

  lemma AppendUnique(devices: seq<Device>, a: seq<Device>, b: seq<Device>)
    requires UniqueIds(devices) && UniqueIds(a) && UniqueIds(b)
    requires (forall d | d in a :: d in devices) && (forall d | d in b :: d in devices && d !in a)
    ensures UniqueIds(a + b)
  {
    forall x, y | x in a && y in b ensures x.id != y.id {
      var i :| 0 <= i < |devices| && devices[i] == x;
      var j :| 0 <= j < |devices| && devices[j] == y;
    }
  }

  /** First part of the plan: everything outside the spec goes. */
  method DeleteExcluded(state: MigState, specs: seq<SpecAnnotation>, ghost devices: seq<Device>)
    returns (plan: MigConfigPlan, ghost reasons: seq<Reason>)
    requires Represents(state, devices) && UniqueIds(devices)
    ensures Progress(devices, specs, plan, {}, {}) && Tracked(devices, specs, plan, reasons, {}, {})
  {
    hide Tally, Pick, InSpec, Excluding, Progress, Tracked;
    var excluded := GetResourcesNotIncludedInSpec(state, specs, devices);
    var groups := GroupBy(excluded, ProfileOf);
    plan, reasons := EMPTY, [];
    var todo := groups.Keys;
    NothingExcluded(devices, specs, excluded);
    assert groups.Keys - todo == {};
    while todo != {}
      invariant todo <= groups.Keys && Excluding(devices, specs, excluded, plan, reasons, groups.Keys - todo)
    {
      var k :| k in todo;
      ExcludeOne(devices, specs, excluded, plan, reasons, groups.Keys - todo, k);
      assert groups.Keys - (todo - {k}) == groups.Keys - todo + {k};
      todo := todo - {k};
      reasons := reasons + [NotWanted(k)];
      plan := plan.AddDeleteOp(DeleteOperation(groups[k]));
    }
    assert groups.Keys - todo == groups.Keys;
    AllExcluded(devices, specs, excluded, plan, reasons, groups.Keys);
  }

  /** The profiles in `done` have their delete operation. */
  ghost predicate Excluding(
    devices: seq<Device>, specs: seq<SpecAnnotation>, excluded: seq<Device>, plan: MigConfigPlan,
    reasons: seq<Reason>, done: set<Profile>)
  {
    && plan.createOps == [] && SoundOps(excluded, plan) && (plan.deleteOps == [] <==> done == {})
    && (forall k, free :: Tally(Deleted(plan.deleteOps), k, free) == if k in done then Tally(excluded, k, free) else 0)
    && Reasoned(devices, specs, plan.deleteOps, reasons)
    && (forall r :: r in reasons <==> r.NotWanted? && r.profile in done)
  }

  lemma NothingExcluded(devices: seq<Device>, specs: seq<SpecAnnotation>, excluded: seq<Device>)
    ensures Excluding(devices, specs, excluded, EMPTY, [], {})
  {
    NothingReasoned(devices, specs);
    TallyNothing();
  }

  lemma ExcludeOne(
    devices: seq<Device>, specs: seq<SpecAnnotation>, excluded: seq<Device>, plan: MigConfigPlan,
    reasons: seq<Reason>, done: set<Profile>, k: Profile)
    requires Excluding(devices, specs, excluded, plan, reasons, done) && k !in done && UniqueIds(excluded)
    requires forall d :: d in excluded <==> d in devices && !InSpec(specs, ProfileOf(d))
    ensures Excluding(devices, specs, excluded, plan.AddDeleteOp(DeleteOperation(Pick(excluded, ProfileOf, k))),
                      reasons + [NotWanted(k)], done + {k})
  {
    hide Tally, Pick, InSpec, Reasoned, Deleted, SoundOps, UniqueIds;
    DeleteGroup(excluded, plan, k);
    GroupIsNotWanted(devices, specs, excluded, k);
    ReasonedMore(devices, specs, plan.deleteOps, reasons, DeleteOperation(Pick(excluded, ProfileOf, k)), NotWanted(k));
  }

  lemma AllExcluded(
    devices: seq<Device>, specs: seq<SpecAnnotation>, excluded: seq<Device>, plan: MigConfigPlan,
    reasons: seq<Reason>, done: set<Profile>)
    requires Excluding(devices, specs, excluded, plan, reasons, done)
    requires forall d :: d in excluded <==> d in devices && !InSpec(specs, ProfileOf(d))
    requires forall k, free :: Tally(excluded, k, free) == if InSpec(specs, k) then 0 else Tally(devices, k, free)
    requires forall k :: k in done <==> Pick(excluded, ProfileOf, k) != []
    ensures Progress(devices, specs, plan, {}, {}) && Tracked(devices, specs, plan, reasons, {}, {})
  {
    hide Tally, Pick, InSpec, Reasoned, Deleted, SoundOps;
    forall k ensures k in done <==> Num(excluded, k) > 0 {
      GroupIsThere(excluded, k);
    }
    forall k, free ensures Tally(Deleted(plan.deleteOps), k, free) == Tally(excluded, k, free) {
      assert k !in done ==> Num(excluded, k) == 0;
    }
    if done != {} {
      var k := SomeIn(done);
      assert Num(excluded, k) > 0;
    }
    ExcludedProgress(devices, specs, excluded, plan);
    forall r ensures r in reasons <==> Due(devices, specs, {}, {}, r) {
      if r.NotWanted? {
        GroupIsNotWanted(devices, specs, excluded, r.profile);
      }
    }
  }

  lemma NothingReasoned(devices: seq<Device>, specs: seq<SpecAnnotation>)
    ensures Reasoned(devices, specs, [], [])
  {
  }

  lemma GroupIsNotWanted(devices: seq<Device>, specs: seq<SpecAnnotation>, excluded: seq<Device>, k: Profile)
    requires forall d :: d in excluded <==> d in devices && !InSpec(specs, ProfileOf(d))
    ensures Collects(devices, specs, DeleteOperation(Pick(excluded, ProfileOf, k)), NotWanted(k))
    ensures Called(devices, specs, NotWanted(k)) <==> Pick(excluded, ProfileOf, k) != []
  {
    hide Pick, InSpec, IsExcess, Grows;
    PickMembers(excluded, ProfileOf, k);
    var group := Pick(excluded, ProfileOf, k);
    if group != [] {
      assert group[0] in group;
    }
  }

  lemma TallyNothing()
    ensures forall k, free :: Tally([], k, free) == 0
  {
  }

  lemma GroupIsThere(s: seq<Device>, k: Profile)
    ensures Pick(s, ProfileOf, k) != [] <==> Num(s, k) > 0
  {
    hide Tally, Pick;
    PickMembers(s, ProfileOf, k);
    TallyPickProfile(s, k, k, true);
    TallyPickProfile(s, k, k, false);
    TallyLength(Pick(s, ProfileOf, k), k);
  }

  /** Deleting a whole group of devices that the plan has not touched yet. */
  lemma DeleteGroup(excluded: seq<Device>, plan: MigConfigPlan, k: Profile)
    requires UniqueIds(excluded) && SoundOps(excluded, plan)
    requires Tally(Deleted(plan.deleteOps), k, true) == Tally(Deleted(plan.deleteOps), k, false) == 0
    ensures var next := plan.AddDeleteOp(DeleteOperation(Pick(excluded, ProfileOf, k)));
            && SoundOps(excluded, next)
            && forall h, free :: Tally(Deleted(next.deleteOps), h, free)
                                 == Tally(Deleted(plan.deleteOps), h, free)
                                    + if h == k then Tally(excluded, k, free) else 0
  {
    hide Tally, Pick, Deleted;
    var gone, group := Deleted(plan.deleteOps), Pick(excluded, ProfileOf, k);
    DeletedSnoc(plan, DeleteOperation(group));
    PickMembers(excluded, ProfileOf, k);
    PickUniqueIds(excluded, ProfileOf, k);
    forall d | d in group ensures d in excluded && d !in gone {
      if d in gone {
        TallyPositive(gone, d);
      }
    }
    AppendUnique(excluded, gone, group);
    forall h, free ensures Tally(gone + group, h, free) == Tally(gone, h, free)
      + if h == k then Tally(excluded, k, free) else 0 {
      TallyAppend(gone, group, h, free);
      TallyPickProfile(excluded, k, h, free);
    }
  }

  lemma ExcludedProgress(devices: seq<Device>, specs: seq<SpecAnnotation>, excluded: seq<Device>, plan: MigConfigPlan)
    requires SoundOps(excluded, plan) && (forall d | d in excluded :: d in devices) && plan.createOps == []
    requires forall k, free :: Tally(excluded, k, free) == if InSpec(specs, k) then 0 else Tally(devices, k, free)
    requires forall k, free :: Tally(Deleted(plan.deleteOps), k, free) == Tally(excluded, k, free)
    requires plan.deleteOps == [] <==> forall k :: Num(excluded, k) == 0
    ensures Progress(devices, specs, plan, {}, {})
  {
    hide Tally, Deleted, InSpec;
    forall k ensures Stage(devices, specs, plan, {}, {}, k) {
      assert Tally(excluded, k, true) == Tally(Deleted(plan.deleteOps), k, true);
      assert Tally(excluded, k, false) == Tally(Deleted(plan.deleteOps), k, false);
      if !InSpec(specs, k) {
        NotInSpec(specs, k);
      }
    }
    forall k | !InSpec(specs, k) ensures Desired(specs, k) == 0 && Num(devices, k) == Num(excluded, k) {
      NotInSpec(specs, k);
      assert Tally(excluded, k, true) == Tally(devices, k, true);
    }
    if k :| Num(excluded, k) != 0 {
      assert Tally(excluded, k, true) != 0 || Tally(excluded, k, false) != 0;
      assert !InSpec(specs, k);
    }
  }

  // ----- profiles of the spec -----

  method SumQuantities(annotations: seq<SpecAnnotation>, ghost k: Profile) returns (total: int)
    requires forall a | a in annotations :: SpecProfile(a) == k
    ensures total == Desired(annotations, k)
  {
    total := 0;
    for i := 0 to |annotations|
      invariant total == Desired(annotations[..i], k)
    {
      assert annotations[..i + 1][..i] == annotations[..i];
      assert annotations[i] in annotations;
      total := total + annotations[i].quantity;
    }
    assert annotations[..|annotations|] == annotations;
  }

  ghost predicate SortedById(s: seq<Device>) {
    forall i, j | 0 <= i < j < |s| :: StringLess(s[i].id, s[j].id)
  }

  /** Lists the devices of profile `k` among `devices`, by their ids. */
  ghost predicate DevicesAt(devices: seq<Device>, k: Profile, actual: seq<Device>) {
    && UniqueIds(actual) && SortedById(actual) && (forall d :: d in actual <==> d in devices && ProfileOf(d) == k)
    && Tally(actual, k, true) == Tally(devices, k, true) && Tally(actual, k, false) == Tally(devices, k, false)
  }

  /** Settles one profile of the spec: creates the shortage or deletes the surplus. */
  method SettleProfile(
    plan: MigConfigPlan, k: Profile, actual: seq<Device>, annotations: seq<SpecAnnotation>,
    ghost devices: seq<Device>, ghost specs: seq<SpecAnnotation>, ghost settled: set<Profile>, ghost rebuilt: set<int>,
    ghost before: seq<Reason>)
    returns (next: MigConfigPlan, grows: bool, ghost reasons: seq<Reason>)
    requires UniqueIds(devices) && Progress(devices, specs, plan, settled, rebuilt)
    requires Tracked(devices, specs, plan, before, settled, rebuilt)
    requires k !in settled && InSpec(specs, k) && k.gpu !in rebuilt
    requires DevicesAt(devices, k, actual)
    requires (forall a | a in annotations :: SpecProfile(a) == k) && Desired(annotations, k) == Desired(specs, k)
    ensures Progress(devices, specs, next, settled + {k}, rebuilt)
    ensures Tracked(devices, specs, next, reasons, settled + {k}, rebuilt)
    ensures grows <==> Desired(specs, k) > Num(devices, k)
  {
    hide Tally, Deleted, Created, InSpec, Progress, Candidates, Tracked, DevicesAt, Collects;
    reasons := before;
    DevicesAtFacts(devices, k, actual);
    var total := SumQuantities(annotations, k);
    TallyLength(actual, k);
    var diff := total - |actual|;
    grows := diff > 0;
    next := plan;
    if diff > 0 {
      next := next.AddCreateOp(CreateOperation(k, diff));
      SettledByCreate(devices, specs, plan, settled, rebuilt, k, diff);
      TrackCreate(devices, specs, plan, before, settled, rebuilt, k);
    }
    if diff < 0 {
      var toDelete := ExtractCandidatesForDeletion(actual, -diff);
      next := next.AddDeleteOp(DeleteOperation(toDelete));
      CandidateCounts(actual, k, -diff);
      SettledByDelete(devices, specs, plan, settled, rebuilt, k, toDelete);
      CandidatesAreExcess(devices, specs, k, actual, -diff);
      TrackDelete(devices, specs, plan, before, settled, rebuilt, k, DeleteOperation(toDelete));
      reasons := before + [Excess(k)];
    }
    if diff == 0 {
      SettledAsIs(devices, specs, plan, settled, rebuilt, k);
      TrackNothing(devices, specs, plan, before, settled, rebuilt, k);
    }
  }

  lemma DevicesAtFacts(devices: seq<Device>, k: Profile, actual: seq<Device>)
    requires DevicesAt(devices, k, actual)
    ensures UniqueIds(actual) && forall d | d in actual :: d in devices && ProfileOf(d) == k
    ensures Tally(actual, k, true) == Tally(devices, k, true) && Tally(actual, k, false) == Tally(devices, k, false)
  {
  }

  lemma TrackCreate(
    devices: seq<Device>, specs: seq<SpecAnnotation>, plan: MigConfigPlan, reasons: seq<Reason>,
    settled: set<Profile>, rebuilt: set<int>, k: Profile)
    requires Tracked(devices, specs, plan, reasons, settled, rebuilt) && k !in settled && k.gpu !in rebuilt
    requires Desired(specs, k) > Num(devices, k)
    ensures Tracked(devices, specs, plan.AddCreateOp(CreateOperation(k, Desired(specs, k) - Num(devices, k))), reasons,
                    settled + {k}, rebuilt)
  {
    hide Tally, Desired, InSpec, Reasoned, Occurs;
    var op := CreateOperation(k, Desired(specs, k) - Num(devices, k));
    assert multiset(plan.createOps + [op]) == multiset(plan.createOps) + multiset{op};
    forall r ensures r in reasons <==> Due(devices, specs, settled + {k}, rebuilt, r) {
      assert Due(devices, specs, settled + {k}, rebuilt, r) <==> Due(devices, specs, settled, rebuilt, r);
    }
  }

  lemma TrackNothing(
    devices: seq<Device>, specs: seq<SpecAnnotation>, plan: MigConfigPlan, reasons: seq<Reason>,
    settled: set<Profile>, rebuilt: set<int>, k: Profile)
    requires Tracked(devices, specs, plan, reasons, settled, rebuilt) && Desired(specs, k) == Num(devices, k)
    ensures Tracked(devices, specs, plan, reasons, settled + {k}, rebuilt)
  {
    hide Tally, Desired, InSpec, Reasoned, Occurs;
    forall r ensures r in reasons <==> Due(devices, specs, settled + {k}, rebuilt, r) {
      assert Due(devices, specs, settled + {k}, rebuilt, r) <==> Due(devices, specs, settled, rebuilt, r);
    }
  }

  lemma TrackDelete(
    devices: seq<Device>, specs: seq<SpecAnnotation>, plan: MigConfigPlan, reasons: seq<Reason>,
    settled: set<Profile>, rebuilt: set<int>, k: Profile, op: DeleteOperation)
    requires Tracked(devices, specs, plan, reasons, settled, rebuilt) && k !in settled && InSpec(specs, k)
    requires Desired(specs, k) < Num(devices, k) && Collects(devices, specs, op, Excess(k))
    ensures Tracked(devices, specs, plan.AddDeleteOp(op), reasons + [Excess(k)], settled + {k}, rebuilt)
  {
    hide Tally, Desired, InSpec, Reasoned, Occurs, Collects;
    ReasonedMore(devices, specs, plan.deleteOps, reasons, op, Excess(k));
    forall r ensures r in reasons + [Excess(k)] <==> Due(devices, specs, settled + {k}, rebuilt, r) {
      assert Due(devices, specs, settled + {k}, rebuilt, r)
        <==> Due(devices, specs, settled, rebuilt, r) || r == Excess(k);
    }
  }

  /** The first `n` candidates, free devices before others and each by their ids, are the devices in excess. */
  lemma CandidatesAreExcess(
    devices: seq<Device>, specs: seq<SpecAnnotation>, k: Profile, actual: seq<Device>, n: int)
    requires DevicesAt(devices, k, actual) && InSpec(specs, k) && n == Num(devices, k) - Desired(specs, k) > 0
    ensures Collects(devices, specs, DeleteOperation(Candidates(actual, n)), Excess(k))
  {
    hide Tally, Desired, InSpec, Pick;
    var free, busy := Pick(actual, IsFree, true), Pick(actual, IsFree, false);
    TallyPickStatus(actual, k, true);
    TallyPickStatus(actual, k, false);
    forall d ensures d in Candidates(actual, n) <==> d in devices && ReasonOf(devices, specs, d) == Excess(k) {
      PickMembers(actual, IsFree, true);
      PickMembers(actual, IsFree, false);
      FirstByRank(devices, k, actual, true, Min(n, |free|), d);
      FirstByRank(devices, k, actual, false, Min(|busy|, Max(0, n - |free|)), d);
    }
  }

  /** The first devices of a kind are those that have few before them. */
  lemma FirstByRank(devices: seq<Device>, k: Profile, actual: seq<Device>, free: bool, m: int, d: Device)
    requires DevicesAt(devices, k, actual) && 0 <= m <= |Pick(actual, IsFree, free)|
    ensures d in Pick(actual, IsFree, free)[..m]
            <==> d in devices && ProfileOf(d) == k && IsFree(d) == free && |Reasons.Before(devices, d)| < m
    ensures d in devices && ProfileOf(d) == k && IsFree(d) == free ==>
              |Reasons.Before(devices, d)| < |Pick(actual, IsFree, free)|
  {
    hide Tally, Pick, StringLess, Reasons.Before;
    var part := Pick(actual, IsFree, free);
    PickMembers(actual, IsFree, free);
    PickUniqueIds(actual, IsFree, free);
    PickSortedById(actual, IsFree, free);
    forall x ensures x in part <==> x in devices && ProfileOf(x) == k && IsFree(x) == free {
    }
    if d in part {
      var i :| 0 <= i < |part| && part[i] == d;
      PositionIsRank(devices, k, free, part, i);
      if i < m {
        assert part[..m][i] == d;
      }
      if d in part[..m] {
        var j :| 0 <= j < m && part[..m][j] == d;
        assert part[j].id == part[i].id && j == i;
      }
    }
  }

  lemma {:induction false} PickSortedById<K>(s: seq<Device>, key: Device -> K, k: K)
    requires SortedById(s)
    ensures SortedById(Pick(s, key, k))
  {
    hide StringLess;
    if s != [] {
      var n := |s| - 1;
      PickSortedById(s[..n], key, k);
      PickMembers(s[..n], key, k);
      assert forall d | d in s[..n] :: StringLess(d.id, s[n].id);
    }
  }

  lemma SettledAsIs(
    devices: seq<Device>, specs: seq<SpecAnnotation>, plan: MigConfigPlan,
    settled: set<Profile>, rebuilt: set<int>, k: Profile)
    requires Progress(devices, specs, plan, settled, rebuilt)
    requires k !in settled && InSpec(specs, k) && k.gpu !in rebuilt && Desired(specs, k) == Num(devices, k)
    ensures Progress(devices, specs, plan, settled + {k}, rebuilt)
  {
    hide Tally, Deleted, Created, InSpec;
    forall h ensures Stage(devices, specs, plan, settled + {k}, rebuilt, h) {
      assert Stage(devices, specs, plan, settled, rebuilt, h);
    }
  }

  lemma SettledByCreate(
    devices: seq<Device>, specs: seq<SpecAnnotation>, plan: MigConfigPlan,
    settled: set<Profile>, rebuilt: set<int>, k: Profile, diff: int)
    requires Progress(devices, specs, plan, settled, rebuilt)
    requires k !in settled && InSpec(specs, k) && k.gpu !in rebuilt && diff == Desired(specs, k) - Num(devices, k) > 0
    ensures Progress(devices, specs, plan.AddCreateOp(CreateOperation(k, diff)), settled + {k}, rebuilt)
  {
    hide Tally, Deleted, Created, InSpec;
    var next := plan.AddCreateOp(CreateOperation(k, diff));
    forall h ensures Stage(devices, specs, next, settled + {k}, rebuilt, h) {
      assert Stage(devices, specs, plan, settled, rebuilt, h);
      CreatedSnoc(plan, CreateOperation(k, diff), h);
    }
    assert k in settled + {k} && !next.IsEmpty();
  }

  lemma SettledByDelete(
    devices: seq<Device>, specs: seq<SpecAnnotation>, plan: MigConfigPlan,
    settled: set<Profile>, rebuilt: set<int>, k: Profile, toDelete: seq<Device>)
    requires UniqueIds(devices) && Progress(devices, specs, plan, settled, rebuilt)
    requires k !in settled && InSpec(specs, k) && k.gpu !in rebuilt && Desired(specs, k) < Num(devices, k)
    requires UniqueIds(toDelete) && forall d | d in toDelete :: d in devices && ProfileOf(d) == k
    requires var n := Num(devices, k) - Desired(specs, k);
             && Tally(toDelete, k, true) == Min(n, Tally(devices, k, true))
             && Tally(toDelete, k, false) == Min(Tally(devices, k, false), Max(0, n - Tally(devices, k, true)))
    requires forall h, free | h != k :: Tally(toDelete, h, free) == 0
    ensures Progress(devices, specs, plan.AddDeleteOp(DeleteOperation(toDelete)), settled + {k}, rebuilt)
  {
    hide Tally, Deleted, Created, InSpec;
    var next, gone := plan.AddDeleteOp(DeleteOperation(toDelete)), Deleted(plan.deleteOps);
    DeletedSnoc(plan, DeleteOperation(toDelete));
    assert Stage(devices, specs, plan, settled, rebuilt, k);
    forall d | d in toDelete ensures d !in gone {
      if d in gone {
        TallyPositive(gone, d);
      }
    }
    AppendUnique(devices, gone, toDelete);
    hide Stage;
    forall h ensures Stage(devices, specs, next, settled + {k}, rebuilt, h) {
      StageAfterDelete(devices, specs, plan, settled, rebuilt, k, toDelete, h);
    }
    assert k in settled + {k} && !next.IsEmpty();
  }

  lemma StageAfterDelete(
    devices: seq<Device>, specs: seq<SpecAnnotation>, plan: MigConfigPlan,
    settled: set<Profile>, rebuilt: set<int>, k: Profile, toDelete: seq<Device>, h: Profile)
    requires Stage(devices, specs, plan, settled, rebuilt, h)
    requires k !in settled && InSpec(specs, k) && k.gpu !in rebuilt && Desired(specs, k) < Num(devices, k)
    requires var n := Num(devices, k) - Desired(specs, k);
             && Tally(toDelete, k, true) == Min(n, Tally(devices, k, true))
             && Tally(toDelete, k, false) == Min(Tally(devices, k, false), Max(0, n - Tally(devices, k, true)))
    requires h != k ==> Tally(toDelete, h, true) == 0 && Tally(toDelete, h, false) == 0
    ensures Stage(devices, specs, plan.AddDeleteOp(DeleteOperation(toDelete)), settled + {k}, rebuilt, h)
  {
    hide Tally, Deleted, Created, InSpec, Desired;
    DeletedSnoc(plan, DeleteOperation(toDelete));
    TallyAppend(Deleted(plan.deleteOps), toDelete, h, true);
    TallyAppend(Deleted(plan.deleteOps), toDelete, h, false);
  }

  /** Lists the devices of one GPU among `devices`, by their ids. */
  ghost predicate DevicesOn(devices: seq<Device>, g: int, onGpu: seq<Device>) {
    && UniqueIds(onGpu) && SortedById(onGpu) && (forall d :: d in onGpu <==> d in devices && d.gpu == g)
    && forall k: Profile, free | k.gpu == g :: Tally(onGpu, k, free) == Tally(devices, k, free)
  }

  /** The inner loop over the profiles that the spec lists for one GPU. */
  method SettleGpu(
    plan: MigConfigPlan, g: int, onGpu: seq<Device>, annotations: seq<SpecAnnotation>,
    ghost devices: seq<Device>, ghost specs: seq<SpecAnnotation>, ghost settled: set<Profile>, ghost rebuilt: set<int>,
    ghost before: seq<Reason>)
    returns (next: MigConfigPlan, nCreateOp: nat, ghost more: set<Profile>, ghost reasons: seq<Reason>)
    requires UniqueIds(devices) && Progress(devices, specs, plan, settled, rebuilt)
    requires Tracked(devices, specs, plan, before, settled, rebuilt)
    requires g !in rebuilt && (forall k | k in settled :: k.gpu != g)
    requires DevicesOn(devices, g, onGpu) && annotations == Pick(specs, SpecGpu, g)
    ensures Progress(devices, specs, next, settled + more, rebuilt)
    ensures Tracked(devices, specs, next, reasons, settled + more, rebuilt)
    ensures forall k :: k in more <==> k.gpu == g && InSpec(specs, k)
    ensures nCreateOp > 0 <==> Grows(devices, specs, g)
  {
    hide Tally, Pick, InSpec, Progress, Tracked, DevicesOn, DevicesAt;
    var gpuState := GroupBy(onGpu, ProfileOf);
    var byProfile := GroupBy(annotations, SpecProfile);
    next, nCreateOp, more, reasons := plan, 0, {}, before;
    assert settled + more == settled;
    forall k ensures k in byProfile <==> k.gpu == g && InSpec(specs, k) {
      ProfilesOfGpu(specs, g, annotations, k);
    }
    var todo := byProfile.Keys;
    while todo != {}
      invariant todo <= byProfile.Keys && more == byProfile.Keys - todo
      invariant Progress(devices, specs, next, settled + more, rebuilt)
      invariant Tracked(devices, specs, next, reasons, settled + more, rebuilt)
      invariant nCreateOp > 0 <==> exists k | k in more :: Desired(specs, k) > Num(devices, k)
    {
      var k :| k in todo;
      todo := todo - {k};
      var actual := if k in gpuState then gpuState[k] else [];
      ActualDevices(devices, g, onGpu, k, actual);
      QuantitiesOfProfile(specs, g, k);
      var grows;
      next, grows, reasons :=
        SettleProfile(next, k, actual, byProfile[k], devices, specs, settled + more, rebuilt, reasons);
      assert settled + more + {k} == settled + (more + {k});
      more := more + {k};
      if grows {
        nCreateOp := nCreateOp + 1;
      }
    }
    GrowsBySpec(devices, specs, g);
  }

  lemma ProfilesOfGpu(specs: seq<SpecAnnotation>, g: int, annotations: seq<SpecAnnotation>, k: Profile)
    requires annotations == Pick(specs, SpecGpu, g)
    ensures Pick(annotations, SpecProfile, k) != [] <==> k.gpu == g && InSpec(specs, k)
  {
    hide Pick;
    PickMembers(specs, SpecGpu, g);
    PickMembers(annotations, SpecProfile, k);
    var picked := Pick(annotations, SpecProfile, k);
    if picked != [] {
      assert picked[0] in annotations && picked[0] in specs;
      var i :| 0 <= i < |specs| && specs[i] == picked[0];
      assert SpecProfile(specs[i]) == k;
    }
    if k.gpu == g && InSpec(specs, k) {
      var i :| 0 <= i < |specs| && SpecProfile(specs[i]) == k;
      assert specs[i] in specs && specs[i] in annotations && specs[i] in picked;
    }
  }

  lemma ActualDevices(devices: seq<Device>, g: int, onGpu: seq<Device>, k: Profile, actual: seq<Device>)
    requires DevicesOn(devices, g, onGpu) && k.gpu == g && actual == Pick(onGpu, ProfileOf, k)
    ensures DevicesAt(devices, k, actual)
  {
    hide Pick, Tally;
    PickMembers(onGpu, ProfileOf, k);
    PickUniqueIds(onGpu, ProfileOf, k);
    PickSortedById(onGpu, ProfileOf, k);
    TallyPickProfile(onGpu, k, k, true);
    TallyPickProfile(onGpu, k, k, false);
  }

  lemma QuantitiesOfProfile(specs: seq<SpecAnnotation>, g: int, k: Profile)
    requires k.gpu == g
    ensures var picked := Pick(Pick(specs, SpecGpu, g), SpecProfile, k);
            (forall a | a in picked :: SpecProfile(a) == k) && Desired(picked, k) == Desired(specs, k)
  {
    hide Pick;
    PickMembers(Pick(specs, SpecGpu, g), SpecProfile, k);
    DesiredOfGpu(specs, g, k);
    DesiredOfProfile(Pick(specs, SpecGpu, g), k);
  }

  lemma {:induction false} DesiredOfGpu(specs: seq<SpecAnnotation>, g: int, k: Profile)
    requires k.gpu == g
    ensures Desired(Pick(specs, SpecGpu, g), k) == Desired(specs, k)
  {
    if specs != [] {
      var n := |specs| - 1;
      DesiredOfGpu(specs[..n], g, k);
      var picked := Pick(specs[..n], SpecGpu, g);
      assert (picked + [specs[n]])[..|picked|] == picked;
    }
  }

  lemma {:induction false} DesiredOfProfile(specs: seq<SpecAnnotation>, k: Profile)
    ensures Desired(Pick(specs, SpecProfile, k), k) == Desired(specs, k)
  {
    if specs != [] {
      var n := |specs| - 1;
      DesiredOfProfile(specs[..n], k);
      var picked := Pick(specs[..n], SpecProfile, k);
      assert (picked + [specs[n]])[..|picked|] == picked;
    }
  }

  lemma GrowsBySpec(devices: seq<Device>, specs: seq<SpecAnnotation>, g: int)
    ensures Grows(devices, specs, g)
            <==> exists k: Profile :: k.gpu == g && InSpec(specs, k) && Desired(specs, k) > Num(devices, k)
  {
    hide InSpec, Tally;
    if k: Profile :| k.gpu == g && Desired(specs, k) > Num(devices, k) {
      if !InSpec(specs, k) {
        NotInSpec(specs, k);
      }
    }
  }

  // ----- re-creating free devices -----

  /** Free devices that the plan does not delete yet. */
  method ExtractResourcesToRecreate(resources: seq<Device>, plan: MigConfigPlan) returns (free: seq<Device>)
    ensures free == Pick(Without(resources, Deleted(plan.deleteOps)), IsFree, true)
  {
    var toBeDeleted: set<string> := {};
    for i := 0 to |plan.deleteOps|
      invariant forall id :: id in toBeDeleted <==> exists d :: d in Deleted(plan.deleteOps[..i]) && d.id == id
    {
      assert plan.deleteOps[..i + 1][..i] == plan.deleteOps[..i];
      var group := plan.deleteOps[i].resources;
      ghost var before, after := Deleted(plan.deleteOps[..i]), Deleted(plan.deleteOps[..i + 1]);
      assert after == before + group;
      toBeDeleted := toBeDeleted + set d | d in group :: d.id;
      forall id ensures id in toBeDeleted <==> exists d :: d in after && d.id == id {
        if d :| d in before && d.id == id { assert d in after; }
        if d :| d in group && d.id == id { assert d in after; }
      }
    }
    assert plan.deleteOps[..|plan.deleteOps|] == plan.deleteOps;
    ghost var gone := Deleted(plan.deleteOps);
    free := [];
    for i := 0 to |resources|
      invariant free == Pick(Without(resources[..i], gone), IsFree, true)
    {
      assert resources[..i + 1][..i] == resources[..i];
      ghost var left := Without(resources[..i], gone);
      PickAppend(left, [resources[i]], IsFree, true);
      if IsFree(resources[i]) && resources[i].id !in toBeDeleted {
        free := free + [resources[i]];
      }
    }
    assert resources[..|resources|] == resources;
  }

  /** If a GPU gets new devices, its remaining free devices are deleted and created again beside them. */
  method RecreateFree(
    plan: MigConfigPlan, g: int, onGpu: seq<Device>,
    ghost devices: seq<Device>, ghost specs: seq<SpecAnnotation>, ghost settled: set<Profile>, ghost rebuilt: set<int>,
    ghost before: seq<Reason>)
    returns (next: MigConfigPlan, ghost reasons: seq<Reason>)
    requires UniqueIds(devices) && Progress(devices, specs, plan, settled, rebuilt)
    requires Tracked(devices, specs, plan, before, settled, rebuilt)
    requires g !in rebuilt && Grows(devices, specs, g) && DevicesOn(devices, g, onGpu)
    requires forall k: Profile | k.gpu == g :: k in settled || !InSpec(specs, k)
    ensures Progress(devices, specs, next, settled, rebuilt + {g})
    ensures Tracked(devices, specs, next, reasons, settled, rebuilt + {g})
  {
    hide Tally, Pick, InSpec, Progress, Created, Deleted, Without, Tracked, DevicesOn;
    reasons := before;
    var toRecreate := ExtractResourcesToRecreate(onGpu, plan);
    RecreatedDevices(devices, specs, plan, settled, rebuilt, g, onGpu);
    next := plan;
    if |toRecreate| > 0 {
      next := next.AddDeleteOp(DeleteOperation(toRecreate));
      next := RecreateGroups(next, toRecreate);
    } else {
      TallyNothing();
    }
    RecreateProgress(devices, specs, plan, next, settled, rebuilt, g, toRecreate);
    FreeMakesRoom(devices, specs, plan, before, settled, rebuilt, g, onGpu, toRecreate);
    RecycledCounts(devices, specs, plan, settled, rebuilt, g, toRecreate);
    if |toRecreate| > 0 {
      reasons := before + [MakingRoom(g)];
    }
    TrackRecreate(devices, specs, plan, next, before, settled, rebuilt, g, toRecreate);
  }

  /** One create operation for each profile of the deleted devices. */
  method RecreateGroups(plan: MigConfigPlan, toRecreate: seq<Device>) returns (next: MigConfigPlan)
    ensures next.deleteOps == plan.deleteOps
    ensures PositiveCreates(plan.createOps) ==> PositiveCreates(next.createOps)
    ensures forall k :: Created(next.createOps, k) == Created(plan.createOps, k) + Num(toRecreate, k)
    ensures forall k: Profile, q {:trigger CreateOperation(k, q)} ::
              multiset(next.createOps)[CreateOperation(k, q)]
              == multiset(plan.createOps)[CreateOperation(k, q)] + if q == Num(toRecreate, k) && q > 0 then 1 else 0
  {
    hide Tally, Pick, Created, Recreates;
    next := plan;
    var groups := GroupBy(toRecreate, ProfileOf);
    var todo := groups.Keys;
    forall k ensures |Pick(toRecreate, ProfileOf, k)| == Num(toRecreate, k) {
      PickProfileLength(toRecreate, k);
    }
    NothingRecreated(plan, toRecreate);
    assert groups.Keys - todo == {};
    while todo != {}
      invariant todo <= groups.Keys && Recreates(plan, next, toRecreate, groups.Keys - todo)
    {
      var k :| k in todo;
      RecreateOne(plan, next, toRecreate, groups.Keys - todo, k);
      assert groups.Keys - (todo - {k}) == groups.Keys - todo + {k};
      todo := todo - {k};
      next := next.AddCreateOp(CreateOperation(k, |groups[k]|));
    }
    assert groups.Keys - todo == groups.Keys;
    AllRecreated(plan, next, toRecreate, groups.Keys);
  }

  /** The profiles in `done` have their create operation. */
  ghost predicate Recreates(plan: MigConfigPlan, next: MigConfigPlan, free: seq<Device>, done: set<Profile>) {
    && next.deleteOps == plan.deleteOps
    && (PositiveCreates(plan.createOps) ==> PositiveCreates(next.createOps))
    && (forall k :: Created(next.createOps, k) == Created(plan.createOps, k) + if k in done then Num(free, k) else 0)
    && (forall k: Profile, q {:trigger CreateOperation(k, q)} ::
          multiset(next.createOps)[CreateOperation(k, q)]
          == multiset(plan.createOps)[CreateOperation(k, q)] + if k in done && q == Num(free, k) then 1 else 0)
  }

  lemma NothingRecreated(plan: MigConfigPlan, free: seq<Device>)
    ensures Recreates(plan, plan, free, {})
  {
    hide Tally, Created;
  }

  lemma RecreateOne(plan: MigConfigPlan, next: MigConfigPlan, free: seq<Device>, done: set<Profile>, k: Profile)
    requires Recreates(plan, next, free, done) && k !in done && Num(free, k) > 0
    ensures Recreates(plan, next.AddCreateOp(CreateOperation(k, Num(free, k))), free, done + {k})
  {
    hide Tally, Created;
    var op := CreateOperation(k, Num(free, k));
    assert multiset(next.createOps + [op]) == multiset(next.createOps) + multiset{op};
    forall h ensures Created(next.AddCreateOp(op).createOps, h)
                     == Created(plan.createOps, h) + if h in done + {k} then Num(free, h) else 0 {
      CreatedSnoc(next, op, h);
    }
  }

  lemma AllRecreated(plan: MigConfigPlan, next: MigConfigPlan, free: seq<Device>, done: set<Profile>)
    requires Recreates(plan, next, free, done) && forall k :: k in done <==> Num(free, k) > 0
    ensures next.deleteOps == plan.deleteOps
    ensures PositiveCreates(plan.createOps) ==> PositiveCreates(next.createOps)
    ensures forall k :: Created(next.createOps, k) == Created(plan.createOps, k) + Num(free, k)
    ensures forall k: Profile, q {:trigger CreateOperation(k, q)} ::
              multiset(next.createOps)[CreateOperation(k, q)]
              == multiset(plan.createOps)[CreateOperation(k, q)] + if q == Num(free, k) && q > 0 then 1 else 0
  {
    hide Tally, Created;
  }

  /** What is left of the free devices of a growing GPU goes to make room. */
  lemma FreeMakesRoom(
    devices: seq<Device>, specs: seq<SpecAnnotation>, plan: MigConfigPlan, reasons: seq<Reason>,
    settled: set<Profile>, rebuilt: set<int>, g: int, onGpu: seq<Device>, free: seq<Device>)
    requires UniqueIds(devices) && Tracked(devices, specs, plan, reasons, settled, rebuilt)
    requires DevicesOn(devices, g, onGpu) && Grows(devices, specs, g) && g !in rebuilt
    requires forall k: Profile | k.gpu == g :: k in settled || !InSpec(specs, k)
    requires free == Pick(Without(onGpu, Deleted(plan.deleteOps)), IsFree, true)
    ensures Collects(devices, specs, DeleteOperation(free), MakingRoom(g))
  {
    hide Tally, Pick, InSpec, Deleted, Without, IsExcess, Grows, Reasoned, CreatesSoFar;
    var gone := Deleted(plan.deleteOps);
    forall d ensures d in free <==> d in devices && ReasonOf(devices, specs, d) == MakingRoom(g) {
      PickMembers(Without(onGpu, gone), IsFree, true);
      WithoutMembers(devices, onGpu, gone, d) by {
        forall e | e in gone ensures e in devices {
          DeletedForReason(devices, specs, plan.deleteOps, reasons, e);
        }
      }
      DeletedForReason(devices, specs, plan.deleteOps, reasons, d);
      if d in devices && d.gpu == g && !ReasonOf(devices, specs, d).Kept? {
        ExcessIsCalled(devices, specs, d);
      }
    }
  }

  lemma {:induction false} WithoutMembers(devices: seq<Device>, s: seq<Device>, gone: seq<Device>, d: Device)
    requires UniqueIds(devices) && (forall e | e in s :: e in devices) && (forall e | e in gone :: e in devices)
    ensures d in Without(s, gone) <==> d in s && d !in gone
  {
    if s != [] {
      var n := |s| - 1;
      assert s == s[..n] + [s[n]];
      WithoutMembers(devices, s[..n], gone, d);
      if e :| e in gone && e.id == s[n].id {
        SameById(devices, e, s[n]);
      }
    }
  }

  lemma SameById(devices: seq<Device>, d: Device, e: Device)
    requires UniqueIds(devices) && d in devices && e in devices && d.id == e.id
    ensures d == e
  {
    var i :| 0 <= i < |devices| && devices[i] == d;
    var j :| 0 <= j < |devices| && devices[j] == e;
    assert i == j;
  }

  lemma RecycledCounts(
    devices: seq<Device>, specs: seq<SpecAnnotation>, plan: MigConfigPlan,
    settled: set<Profile>, rebuilt: set<int>, g: int, free: seq<Device>)
    requires Progress(devices, specs, plan, settled, rebuilt) && g !in rebuilt && Recyclable(devices, plan, g, free)
    requires forall k: Profile | k.gpu == g :: k in settled || !InSpec(specs, k)
    ensures forall k: Profile :: Num(free, k) == if k.gpu == g then Recycled(devices, specs, k) else 0
  {
    hide Tally, Deleted, Created, InSpec, Desired;
    forall k: Profile ensures Num(free, k) == if k.gpu == g then Recycled(devices, specs, k) else 0 {
      assert Stage(devices, specs, plan, settled, rebuilt, k);
      assert Tally(free, k, false) == 0;
    }
  }

  lemma TrackRecreate(
    devices: seq<Device>, specs: seq<SpecAnnotation>, plan: MigConfigPlan, next: MigConfigPlan, reasons: seq<Reason>,
    settled: set<Profile>, rebuilt: set<int>, g: int, free: seq<Device>)
    requires Tracked(devices, specs, plan, reasons, settled, rebuilt) && g !in rebuilt
    requires Collects(devices, specs, DeleteOperation(free), MakingRoom(g))
    requires next.deleteOps == if free == [] then plan.deleteOps else plan.deleteOps + [DeleteOperation(free)]
    requires forall k: Profile :: Num(free, k) == if k.gpu == g then Recycled(devices, specs, k) else 0
    requires forall k: Profile, q {:trigger CreateOperation(k, q)} ::
               multiset(next.createOps)[CreateOperation(k, q)]
               == multiset(plan.createOps)[CreateOperation(k, q)] + if q == Num(free, k) && q > 0 then 1 else 0
    ensures Tracked(devices, specs, next, if free == [] then reasons else reasons + [MakingRoom(g)],
                    settled, rebuilt + {g})
  {
    hide Tally, Desired, InSpec, Reasoned, ReasonOf, Recycled;
    var more := if free == [] then reasons else reasons + [MakingRoom(g)];
    if free != [] {
      assert free[0] in free;
      ReasonedMore(devices, specs, plan.deleteOps, reasons, DeleteOperation(free), MakingRoom(g));
    }
    forall r ensures r in more <==> Due(devices, specs, settled, rebuilt + {g}, r) {
      assert Due(devices, specs, settled, rebuilt + {g}, r)
        <==> Due(devices, specs, settled, rebuilt, r) || (r == MakingRoom(g) && Called(devices, specs, r));
      assert Called(devices, specs, MakingRoom(g)) <==> free != [];
    }
    forall k: Profile, q
      ensures multiset(next.createOps)[CreateOperation(k, q)]
              == (if k in settled && q == Shortfall(devices, specs, k) && q > 0 then 1 else 0)
                 + if k.gpu in rebuilt + {g} && q == Recycled(devices, specs, k) && q > 0 then 1 else 0
    {
      assert Num(free, k) == if k.gpu == g then Recycled(devices, specs, k) else 0;
    }
  }

  lemma PickProfileLength(s: seq<Device>, k: Profile)
    ensures |Pick(s, ProfileOf, k)| == Num(s, k)
  {
    hide Pick, Tally;
    PickMembers(s, ProfileOf, k);
    TallyLength(Pick(s, ProfileOf, k), k);
    TallyPickProfile(s, k, k, true);
    TallyPickProfile(s, k, k, false);
  }

  /** The devices to re-create: free, on the GPU, not deleted yet, and all such. */
  ghost predicate Recyclable(devices: seq<Device>, plan: MigConfigPlan, g: int, free: seq<Device>) {
    && UniqueIds(free)
    && (forall d | d in free :: d in devices && d !in Deleted(plan.deleteOps))
    && (forall k :: Tally(free, k, false) == 0)
    && (forall k: Profile :: Tally(free, k, true)
                             == if k.gpu == g then Tally(devices, k, true)
                                - Tally(Deleted(plan.deleteOps), k, true) else 0)
  }

  lemma RecreatedDevices(
    devices: seq<Device>, specs: seq<SpecAnnotation>, plan: MigConfigPlan,
    settled: set<Profile>, rebuilt: set<int>, g: int, onGpu: seq<Device>)
    requires UniqueIds(devices) && Progress(devices, specs, plan, settled, rebuilt) && DevicesOn(devices, g, onGpu)
    ensures Recyclable(devices, plan, g, Pick(Without(onGpu, Deleted(plan.deleteOps)), IsFree, true))
  {
    hide Tally, Pick, Deleted, Stage, Without;
    var gone := Deleted(plan.deleteOps);
    var left := Without(onGpu, gone);
    var free := Pick(left, IsFree, true);
    WithoutKeeps(onGpu, gone);
    PickMembers(left, IsFree, true);
    PickUniqueIds(left, IsFree, true);
    assert SameIds(onGpu, gone);
    forall k: Profile
      ensures Tally(free, k, false) == 0
      ensures Tally(free, k, true) == if k.gpu == g then Tally(devices, k, true) - Tally(gone, k, true) else 0
    {
      TallyFree(left, k);
      if k.gpu == g {
        WithoutCounts(onGpu, gone, k, true);
      } else if Tally(left, k, true) > 0 {
        TallyWitness(left, k, true);
        assert false;
      }
    }
  }

  lemma {:induction false} WithoutKeeps(s: seq<Device>, gone: seq<Device>)
    ensures forall d | d in Without(s, gone) :: d in s && d !in gone
    ensures UniqueIds(s) ==> UniqueIds(Without(s, gone))
  {
    if s != [] {
      var n := |s| - 1;
      assert s == s[..n] + [s[n]];
      WithoutKeeps(s[..n], gone);
      if UniqueIds(s) {
        assert forall d | d in s[..n] :: d.id != s[n].id;
      }
    }
  }

  lemma {:induction false} TallyFree(s: seq<Device>, k: Profile)
    ensures Tally(Pick(s, IsFree, true), k, true) == Tally(s, k, true)
    ensures Tally(Pick(s, IsFree, true), k, false) == 0
  {
    if s != [] {
      var n := |s| - 1;
      TallyFree(s[..n], k);
      TallyAppend(Pick(s[..n], IsFree, true), [s[n]], k, true);
      TallyAppend(Pick(s[..n], IsFree, true), [s[n]], k, false);
      TallyOne(s[n], k, true);
      TallyOne(s[n], k, false);
    }
  }

  ghost predicate PositiveCreates(ops: seq<CreateOperation>) {
    forall i | 0 <= i < |ops| :: ops[i].quantity > 0
  }

  lemma RecreateProgress(
    devices: seq<Device>, specs: seq<SpecAnnotation>, plan: MigConfigPlan, next: MigConfigPlan,
    settled: set<Profile>, rebuilt: set<int>, g: int, free: seq<Device>)
    requires UniqueIds(devices) && Progress(devices, specs, plan, settled, rebuilt)
    requires g !in rebuilt && Grows(devices, specs, g) && Recyclable(devices, plan, g, free)
    requires forall k: Profile | k.gpu == g :: k in settled || !InSpec(specs, k)
    requires next.deleteOps == if free == [] then plan.deleteOps else plan.deleteOps + [DeleteOperation(free)]
    requires forall k :: Created(next.createOps, k) == Created(plan.createOps, k) + Num(free, k)
    requires free == [] ==> next.createOps == plan.createOps
    requires PositiveCreates(plan.createOps) ==> PositiveCreates(next.createOps)
    ensures Progress(devices, specs, next, settled, rebuilt + {g})
  {
    hide Tally, Deleted, Created, InSpec;
    var gone := Deleted(plan.deleteOps);
    assert Deleted(next.deleteOps) == gone + free by {
      if free == [] {
        assert gone + free == gone;
      } else {
        DeletedSnoc(plan, DeleteOperation(free));
      }
    }
    AppendUnique(devices, gone, free);
    forall k ensures Stage(devices, specs, next, settled, rebuilt + {g}, k) {
      assert Stage(devices, specs, plan, settled, rebuilt, k);
      TallyAppend(gone, free, k, true);
      TallyAppend(gone, free, k, false);
    }
    assert !plan.IsEmpty() by {
      GrowsBySpec(devices, specs, g);
    }
    assert !next.IsEmpty();
  }

  // ----- the whole plan -----

  predicate IdLess(a: Device, b: Device) {
    StringLess(a.id, b.id)
  }

  lemma GpuBucket(devices: seq<Device>, sorted: seq<Device>, g: int)
    requires UniqueIds(devices) && multiset(sorted) == multiset(devices) && SortedById(sorted)
    ensures DevicesOn(devices, g, Pick(sorted, GpuOf, g))
  {
    hide Pick, Tally, SortedById;
    UniqueIdsMultiset(devices, sorted);
    PickSortedById(sorted, GpuOf, g);
    var onGpu := Pick(sorted, GpuOf, g);
    PickMembers(sorted, GpuOf, g);
    PickUniqueIds(sorted, GpuOf, g);
    forall d ensures d in onGpu <==> d in devices && d.gpu == g {
      assert d in sorted <==> d in multiset(sorted);
      assert d in devices <==> d in multiset(devices);
    }
    forall k: Profile, free | k.gpu == g ensures Tally(onGpu, k, free) == Tally(devices, k, free) {
      TallyPickGpu(sorted, g, k, free);
      TallyMultiset(sorted, devices, k, free);
    }
  }

  /** The plan for a state and a spec. Its account is exact for every order in which Go visits its maps. */
  method NewMigConfigPlan(state: MigState, desired: seq<SpecAnnotation>, ghost devices: seq<Device>)
    returns (plan: MigConfigPlan)
    requires Represents(state, devices) && UniqueIds(devices)
    ensures IsPlanFor(devices, desired, plan) && ByReason(devices, desired, plan)
  {
    hide Pick, InSpec, Progress, Grows, IsPlanFor, Tracked, ByReason, SortedById, DevicesOn;
    ghost var reasons;
    plan, reasons := DeleteExcluded(state, desired, devices);
    var flat := Flatten(state, devices);
    var sorted := StableSort(flat, IdLess);
    SortedFlat(devices, flat, sorted);
    var byGpu := GroupBy(sorted, GpuOf);
    var annotationsByGpu := GroupBy(desired, SpecGpu);
    forall k: Profile ensures InSpec(desired, k) ==> k.gpu in annotationsByGpu {
      if InSpec(desired, k) { GpuOfSpec(desired, k); }
    }
    ghost var settled: set<Profile>, rebuilt: set<int> := {}, {};
    var todo := annotationsByGpu.Keys;
    while todo != {}
      invariant todo <= annotationsByGpu.Keys
      invariant Progress(devices, desired, plan, settled, rebuilt)
      invariant Tracked(devices, desired, plan, reasons, settled, rebuilt)
      invariant forall k: Profile :: k in settled <==> InSpec(desired, k) && k.gpu !in todo
      invariant forall g :: g in rebuilt <==> g in annotationsByGpu.Keys - todo && Grows(devices, desired, g)
    {
      var g := Any(todo);
      var onGpu := if g in byGpu then byGpu[g] else [];
      GpuBucket(devices, sorted, g);
      var nCreateOp;
      ghost var more;
      plan, nCreateOp, more, reasons :=
        SettleGpu(plan, g, onGpu, annotationsByGpu[g], devices, desired, settled, rebuilt, reasons);
      settled := settled + more;
      todo := todo - {g};
      if nCreateOp == 0 {
        continue;
      }
      plan, reasons := RecreateFree(plan, g, onGpu, devices, desired, settled, rebuilt, reasons);
      rebuilt := rebuilt + {g};
    }
    forall g ensures Grows(devices, desired, g) <==> g in rebuilt {
      if Grows(devices, desired, g) {
        GrowsBySpec(devices, desired, g);
      }
    }
    Finished(devices, desired, plan, settled, rebuilt);
    AllReasoned(devices, desired, plan, reasons, settled, rebuilt);
  }

  lemma SortedFlat(devices: seq<Device>, flat: seq<Device>, sorted: seq<Device>)
    requires UniqueIds(devices) && multiset(flat) == multiset(devices) && sorted == StableSort(flat, IdLess)
    ensures multiset(sorted) == multiset(devices) && SortedById(sorted)
  {
    hide StableSort, StringLess;
    forall a: Device, b: Device, c: Device
      ensures IdLess(a, b) ==> !IdLess(b, a)
      ensures !IdLess(b, a) && !IdLess(c, b) ==> !IdLess(c, a)
    {
      StringLessOrder(a.id, b.id, c.id);
    }
    StableSortSorts(flat, IdLess);
    UniqueIdsMultiset(devices, sorted);
    forall i, j | 0 <= i < j < |sorted| ensures StringLess(sorted[i].id, sorted[j].id) {
      assert !IdLess(sorted[j], sorted[i]);
      StringLessOrder(sorted[i].id, sorted[j].id, "");
    }
  }

  lemma AllReasoned(
    devices: seq<Device>, specs: seq<SpecAnnotation>, plan: MigConfigPlan, reasons: seq<Reason>,
    settled: set<Profile>, rebuilt: set<int>)
    requires Tracked(devices, specs, plan, reasons, settled, rebuilt)
    requires forall k :: InSpec(specs, k) <==> k in settled
    requires forall g :: Grows(devices, specs, g) <==> g in rebuilt
    ensures ByReason(devices, specs, plan)
  {
    hide Tally, InSpec, Desired, Grows, Reasoned, IsExcess;
    forall r ensures r in reasons <==> Called(devices, specs, r) {
    }
    forall k: Profile, q
      ensures multiset(plan.createOps)[CreateOperation(k, q)]
              == (if q == Shortfall(devices, specs, k) && q > 0 then 1 else 0)
                 + if Grows(devices, specs, k.gpu) && q == Recycled(devices, specs, k) && q > 0 then 1 else 0
    {
      if !InSpec(specs, k) {
        NotInSpec(specs, k);
      }
    }
  }

  lemma GpuOfSpec(specs: seq<SpecAnnotation>, k: Profile)
    requires InSpec(specs, k)
    ensures Pick(specs, SpecGpu, k.gpu) != []
  {
    hide Pick;
    PickMembers(specs, SpecGpu, k.gpu);
    var i :| 0 <= i < |specs| && SpecProfile(specs[i]) == k;
    assert specs[i] in specs;
  }

  lemma Finished(
    devices: seq<Device>, specs: seq<SpecAnnotation>, plan: MigConfigPlan, settled: set<Profile>, rebuilt: set<int>)
    requires Progress(devices, specs, plan, settled, rebuilt)
    requires forall k :: InSpec(specs, k) ==> k in settled
    requires forall g :: Grows(devices, specs, g) <==> g in rebuilt
    ensures IsPlanFor(devices, specs, plan)
  {
    hide Tally, InSpec, Deleted, Created, Grows, Balanced, Rebuilt;
    forall k: Profile
      ensures if Grows(devices, specs, k.gpu) then Rebuilt(devices, specs, plan, k)
              else Balanced(devices, specs, plan, k)
    {
      assert Stage(devices, specs, plan, settled, rebuilt, k);
    }
  }
}
