/** One whole round of the control loop: report, repartition, plan, apply. */
module FullRound {
  import opened GoMaps
  import opened Lists
  import opened Devices
  import opened Annotations
  import opened Text
  import opened Wire
  import opened NodeAnnotations
  import opened MigGpu
  import opened MigNode
  import opened Plan
  import opened Actuator
  import opened Agent
  import opened DeviceListing
  import opened Reporter
  import opened Partitioner
  import opened Extraction
  import opened ClosedLoop
  import Controller
  import Protocol
  import Reasons

  // ----- counting devices by status -----

  lemma {:induction false} CountByStatus(devices: seq<Device>, k: Profile)
    ensures Tally(devices, k, true) == StatusCount(devices, Tag(k, Free))
    ensures Tally(devices, k, false) == StatusCount(devices, Tag(k, Used)) + StatusCount(devices, Tag(k, Unknown))
    ensures Num(devices, k) <= |devices|
  {
    if devices != [] {
      CountByStatus(devices[..|devices| - 1], k);
    }
  }

  lemma NothingUnknown(devices: seq<Device>, k: Profile)
    requires Settled(devices)
    ensures StatusCount(devices, Tag(k, Unknown)) == 0
  {
    hide Pick;
    PickMembers(devices, TagOf, Tag(k, Unknown));
    var unknown := Pick(devices, TagOf, Tag(k, Unknown));
    assert unknown == [] || (unknown[0] in devices && unknown[0].status == TagOf(unknown[0]).status);
  }

  /** A node built from a report of the devices sees everything that is in use. */
  lemma SeesUse(ls: seq<Ledger>, devices: seq<Device>)
    requires SeesDevices(ls, devices) && Settled(devices) && forall d | d in devices :: HasGpu(ls, |ls|, d.gpu)
    ensures NoMoreInUse(devices, ls)
  {
    hide Tally, StatusCount;
    forall k: Profile | Tally(devices, k, false) > 0
      ensures exists i :: 0 <= i < |ls| && ls[i].index == k.gpu && Tally(devices, k, false) <= Get(ls[i].used, k.name)
    {
      TallyWitness(devices, k, false);
      var d :| d in devices && ProfileOf(d) == k && IsFree(d) == false;
      var i :| 0 <= i < |ls| && ls[i].index == d.gpu;
      CountByStatus(devices, k);
      NothingUnknown(devices, k);
      assert Get(ls[i].used, k.name) == StatusCount(devices, Tag(Profile(ls[i].index, k.name), Used));
    }
  }

  // ----- numbering -----

  /** The GPUs that have devices are numbered from 0 without gaps. */
  ghost predicate Contiguous(devices: seq<Device>) {
    forall d | d in devices :: forall g | 0 <= g < d.gpu :: HasDevice(devices, g)
  }

  ghost predicate HasDevice(devices: seq<Device>, g: int) {
    exists e :: e in devices && e.gpu == g
  }

  ghost predicate Holds(places: seq<int>, g: int) {
    exists j :: 0 <= j < |places| && places[j] == g
  }

  lemma {:induction false} EnoughPlaces(places: seq<int>, m: nat)
    requires forall g | 0 <= g <= m :: Holds(places, g)
    ensures m < |places|
  {
    assert Holds(places, m);
    var j :| 0 <= j < |places| && places[j] == m;
    if m > 0 {
      var rest := places[..j] + places[j + 1..];
      forall g | 0 <= g <= m - 1 ensures Holds(rest, g) {
        assert Holds(places, g);
        var i :| 0 <= i < |places| && places[i] == g;
        assert i < j ==> rest[i] == g;
        assert i > j ==> rest[i - 1] == g;
      }
      EnoughPlaces(rest, m - 1);
    }
  }

  lemma ContiguousIsDistinct(
    statuses: seq<StatusAnnotation>, devices: seq<Device>, allowed: seq<Counts>, count: int, n: nat, ls: seq<Ledger>)
    requires Extracted(statuses, allowed, count, n, ls) && IsReport(multiset(statuses), devices)
    requires Contiguous(devices) && forall d | d in devices :: d.gpu >= 0
    ensures DistinctGpus(ls)
  {
    hide IsReport, FromStatus;
    var places := seq(n, i requires 0 <= i < n => ls[i].index);
    forall a | a in statuses ensures !(n <= a.index < count) {
      var d := ReportedDevice(statuses, devices, a);
      forall g | 0 <= g <= a.index ensures Holds(places, g) {
        if g == a.index {
          PlaceOf(statuses, allowed, count, n, ls, a, places);
        } else {
          assert HasDevice(devices, g);
          var e :| e in devices && e.gpu == g;
          DeviceIsReported(statuses, devices, e);
          var b :| b in statuses && b.index == e.gpu;
          PlaceOf(statuses, allowed, count, n, ls, b, places);
        }
      }
      EnoughPlaces(places, a.index);
    }
    DistinctExactlyWhen(statuses, allowed, count, n, ls);
  }

  lemma PlaceOf(
    statuses: seq<StatusAnnotation>, allowed: seq<Counts>, count: int, n: nat, ls: seq<Ledger>, a: StatusAnnotation,
    places: seq<int>)
    requires Extracted(statuses, allowed, count, n, ls) && a in statuses
    requires |places| == n && forall i | 0 <= i < n :: places[i] == ls[i].index
    ensures Holds(places, a.index)
  {
    hide FromStatus;
    assert HasGpu(ls, n, a.index);
    var i :| 0 <= i < n && ls[i].index == a.index;
    assert places[i] == a.index;
  }

  lemma ReportedDevice(statuses: seq<StatusAnnotation>, devices: seq<Device>, a: StatusAnnotation) returns (d: Device)
    requires IsReport(multiset(statuses), devices) && a in statuses
    ensures d in devices && TagOf(d) == AnnotationTag(a)
  {
    hide Pick;
    assert a in multiset(statuses);
    assert Reported(devices, a);
    PickMembers(devices, TagOf, AnnotationTag(a));
    d := Pick(devices, TagOf, AnnotationTag(a))[0];
  }

  // ----- the spec can be written -----

  ghost predicate Printable(geometry: Counts) {
    forall p | p in geometry :: '-' !in p && IsInt(geometry[p])
  }

  lemma LedgerPrintable(ls: seq<Ledger>, devices: seq<Device>, i: nat, p: ProfileName)
    requires SeesDevices(ls, devices) && Reportable(devices) && i < |ls| && GeometryAt(ls[i], p) > 0
    ensures '-' !in p && IsInt(GeometryAt(ls[i], p))
  {
    hide Tally, StatusCount;
    var k := Profile(ls[i].index, p);
    CountByStatus(devices, k);
    assert GeometryAt(ls[i], p) == StatusCount(devices, Tag(k, Used)) + StatusCount(devices, Tag(k, Free));
    TallyWitness(devices, k, Tally(devices, k, true) > 0);
  }

  lemma NodePrintable(
    ls: seq<Ledger>, us: seq<Ledger>, ps: seq<GpuPartitioning>, devices: seq<Device>, i: nat, p: ProfileName)
    requires AllKept(ls, us) && Partitions(us, ps) && SeesDevices(ls, devices) && Reportable(devices) && i < |ls|
    requires forall j | 0 <= j < |ls[i].allowed| :: Positive(ls[i].allowed[j]) && Printable(ls[i].allowed[j])
    requires p in ps[i].resources
    ensures '-' !in p && IsInt(ps[i].resources[p])
  {
    hide StatusCount, Reportable, GeometryAt;
    assert Kept(ls[i], us[i]) && InGeometry(us[i], ps[i].resources) && Positive(ps[i].resources);
    assert GeometryAt(us[i], p) == Get(ps[i].resources, p) > 0;
    if us[i] == ls[i] {
      LedgerPrintable(ls, devices, i, p);
    } else {
      var j :| 0 <= j < |ls[i].allowed| && InGeometry(us[i], ls[i].allowed[j]);
      assert GeometryAt(us[i], p) == Get(ls[i].allowed[j], p);
    }
  }

  /** What is known of a node that was built from a report and then updated. */
  ghost predicate BuiltFrom(ls: seq<Ledger>, us: seq<Ledger>, devices: seq<Device>, allowed: seq<Counts>) {
    && AllKept(ls, us) && DistinctGpus(ls) && SeesDevices(ls, devices)
    && forall i | 0 <= i < |ls| :: ls[i].allowed == allowed && 0 <= ls[i].index <= MAX_INT
  }

  lemma NodeSpecifiable(
    ls: seq<Ledger>, us: seq<Ledger>, ps: seq<GpuPartitioning>, devices: seq<Device>, allowed: seq<Counts>)
    requires BuiltFrom(ls, us, devices, allowed) && Partitions(us, ps) && Reportable(devices)
    requires forall j | 0 <= j < |allowed| :: Positive(allowed[j]) && Printable(allowed[j])
    ensures Specifiable(ps)
  {
    hide Kept, SeesDevices, InGeometry, Reportable, Printable;
    UpdateKeepsIndexes(ls, us);
    forall i | 0 <= i < |ps|
      ensures 0 <= ps[i].index <= MAX_INT && ps[i].index == us[i].index
      ensures forall p | p in ps[i].resources :: '-' !in p && IsInt(ps[i].resources[p])
    {
      var r := ps[i].resources;
      forall p | p in r ensures '-' !in p && IsInt(r[p]) {
        NodePrintable(ls, us, ps, devices, i, p);
      }
    }
    forall g | g in ps
      ensures 0 <= g.index <= MAX_INT && forall p | p in g.resources :: '-' !in p && IsInt(g.resources[p]) {
      var i :| 0 <= i < |ps| && ps[i] == g;
    }
  }

  // ----- the agent's half -----

  /** The GPUs hold exactly the geometry of the node, and nothing else. */
  ghost predicate HoldsGeometry(held: multiset<Profile>, us: seq<Ledger>) {
    && (forall i, p | 0 <= i < |us| :: held[Profile(us[i].index, p)] == GeometryAt(us[i], p))
    && forall k: Profile | (forall i | 0 <= i < |us| :: us[i].index != k.gpu) :: held[k] == 0
  }

  lemma AppliedGeometry(held: multiset<Profile>, us: seq<Ledger>, specs: seq<SpecAnnotation>)
    requires WantsGeometry(specs, us) && ValidLedgers(us) && forall k :: held[k] == Max(0, Desired(specs, k))
    ensures HoldsGeometry(held, us)
  {
    hide Desired;
    forall i, p | 0 <= i < |us| ensures held[Profile(us[i].index, p)] == GeometryAt(us[i], p) {
      var k := Profile(us[i].index, p);
      assert Desired(specs, k) == GeometryAt(us[i], p) && held[k] == Max(0, Desired(specs, k));
    }
    forall k: Profile | (forall i | 0 <= i < |us| :: us[i].index != k.gpu) ensures held[k] == 0 {
      assert Desired(specs, k) == 0 && held[k] == Max(0, Desired(specs, k));
    }
  }

  /** The annotations ask for the geometry `us`, which was reached from a node `ls` in which all current use is seen. */
  ghost predicate SafeSpec(
    annotations: map<string, string>, ls: seq<Ledger>, us: seq<Ledger>, ps: seq<GpuPartitioning>, devices: seq<Device>)
  {
    && AllKept(ls, us) && ValidLedgers(us) && DistinctGpus(ls) && Partitions(us, ps) && SpecStated(annotations, ps)
    && NoMoreInUse(devices, ls)
  }

  ghost predicate Counted(held: multiset<Profile>, devices: seq<Device>) {
    forall k :: held[k] == Num(devices, k)
  }

  /** Every profile keeps at least as many devices as are not free, whatever an apply manages to do. */
  lemma CountsStay(
    devices: seq<Device>, specs: seq<SpecAnnotation>, plan: MigConfigPlan,
    before: multiset<Profile>, after: multiset<Profile>, restarts: bool, outcome: Outcome, t: Trace, k: Profile)
    requires IsPlanFor(devices, specs, plan) && Counted(before, devices)
    requires Effect(before, after, plan, restarts, outcome, t)
    ensures after[k] >= Tally(devices, k, false)
  {
    hide Tally, Desired, Deleted, Created, Wished, FreeProfiles;
    assert before[k] == Num(devices, k);
    if !DeletesBusy(plan) {
      assert Accounts(before, after, plan, t, k);
      FreeProfilesCount(Deleted(plan.deleteOps), k);
      assert Balanced(devices, specs, plan, k) || Rebuilt(devices, specs, plan, k);
    }
  }

  /** Every device in use that was there is still there. */
  ghost predicate InUseStays(devices: seq<Device>, before: Book, after: Book) {
    forall d | d in devices && !IsFree(d) && d.id in before :: d.id in after && after[d.id] == before[d.id]
  }

  lemma BusyIdsStay(devices: seq<Device>, specs: seq<SpecAnnotation>, plan: MigConfigPlan, before: Book, after: Book)
    requires UniqueIds(devices) && IsPlanFor(devices, specs, plan) && AllFree(Deleted(plan.deleteOps))
    requires Spared(before, after, Deleted(plan.deleteOps))
    ensures InUseStays(devices, before, after)
  {
    hide Deleted;
    SafeIds(devices, specs, plan);
    forall d | d in devices && !IsFree(d) && d.id in before ensures d.id in after && after[d.id] == before[d.id] {
      assert !HasId(Deleted(plan.deleteOps), d.id);
    }
  }

  /** Devices in sync with a spec for `us` are already in that geometry. */
  lemma SyncIsGeometry(held: multiset<Profile>, devices: seq<Device>, us: seq<Ledger>, specs: seq<SpecAnnotation>)
    requires Counted(held, devices) && InSync(devices, specs) && WantsGeometry(specs, us) && ValidLedgers(us)
    ensures HoldsGeometry(held, us)
  {
    hide Desired, Tally, WantsGeometry;
    forall k ensures held[k] == Max(0, Desired(specs, k)) {
      assert held[k] == Num(devices, k) && Desired(specs, k) == Num(devices, k);
    }
    AppliedGeometry(held, us, specs);
  }

  /**
   * A run of the actuator on a spec from the partitioner: whatever it applies is not refused, and once applied in full
   * the GPUs hold exactly the geometry that the partitioner chose. If it finds nothing to do on a faithful status, they
   * hold it already. Devices in use stay in any case.
   */
  method AgentTurn(
    actuator: MigActuator, annotations: map<string, string>, devices: seq<Device>, restarts: bool, patches: bool,
    ghost ls: seq<Ledger>, ghost us: seq<Ledger>, ghost ps: seq<GpuPartitioning>)
    returns (r: Result, after: map<string, string>)
    requires actuator.shared.Valid() && !actuator.shared.locked
    requires ListingOf(devices, actuator.client.book) && SafeSpec(annotations, ls, us, ps, devices)
    modifies actuator, actuator.shared, actuator.client
    ensures actuator.shared.Valid() && !actuator.shared.locked
    ensures !r.NodeUnavailable? && !r.PlanFailed? && (r.Waiting? <==> !old(actuator.shared.Reports()).full)
    ensures r.Ran? ==> !r.outcome.Refused? && (r.outcome.Done? ==> HoldsGeometry(actuator.client.Held(), us))
    ensures r.Ran? && restarts && Reliable(actuator.client.creates, actuator.client.deletes) ==> r.outcome.Done?
    ensures !r.Ran? ==> actuator.client.book == old(actuator.client.book)
    ensures r.NothingToDo? ==> HoldsGeometry(actuator.client.Held(), us)
    ensures r.StatusMatches? && IsReport(Harvest(annotations, ParseStatusAnnotation), devices) ==>
              HoldsGeometry(actuator.client.Held(), us)
    ensures forall k :: actuator.client.Held()[k] >= Tally(devices, k, false)
    ensures InUseStays(devices, old(actuator.client.book), actuator.client.book)
    ensures after == annotations
  {
    hide Tally, Desired, Deleted, IsPlanFor, Partitions, SpecsFor, Kept, WantsGeometry, NoMoreInUse, Harvest, IsReport;
    hide ParseSpecAnnotation, ParseStatusAnnotation, HoldsGeometry, Wished, FreeProfiles, StateCheck.SameTotals, InSync;
    hide SameAsLast, Spared, InUseStays, Reasons.ByReason, HeldOf, ListingOf, Truthful, Answered, Reliable;
    ghost var creates, deletes, round := actuator.client.creates, actuator.client.deletes, actuator.client.round;
    ghost var before, book := actuator.client.Held(), actuator.client.book;
    ListingCounted(devices, book);
    ghost var specs, statuses, plan, t, late;
    var node;
    r, node, specs, statuses, plan, t, late := actuator.Reconcile(Some(annotations), Found(devices), restarts, patches);
    if !r.Waiting? {
      SpecWants(annotations, ls, us, ps, devices, specs);
      if r.Ran? {
        RanSafely(devices, specs, plan, ls, us, ps, book, actuator.client.book, restarts, r.outcome, t);
        if restarts && Reliable(creates, deletes) {
          DoneOnReliable(devices, specs, plan, book, creates, deletes, round, actuator.client.Held(), r.outcome, t);
        }
      } else if r.NothingToDo? || (r.StatusMatches? && IsReport(multiset(statuses), devices)) {
        assert InSync(devices, specs) by { NothingMeansSync(devices, specs, statuses, r, plan); }
        SyncIsGeometry(before, devices, us, specs);
      }
    }
    if !r.Ran? {
      NothingHappened(devices, book);
    }
    after := node.value;
  }

  lemma NothingHappened(devices: seq<Device>, book: Book)
    requires Counted(HeldOf(book), devices)
    ensures forall k :: HeldOf(book)[k] >= Tally(devices, k, false)
    ensures InUseStays(devices, book, book)
  {
    hide Tally, HeldOf;
    forall k ensures HeldOf(book)[k] >= Tally(devices, k, false) {
      assert HeldOf(book)[k] == Num(devices, k);
    }
  }

  /** A listing of all devices counts what is held, and tells the truth. */
  lemma ListingCounted(devices: seq<Device>, book: Book)
    requires ListingOf(devices, book)
    ensures UniqueIds(devices) && Counted(HeldOf(book), devices) && Truthful(book, devices)
  {
    hide HeldOf, Tally;
    forall k ensures HeldOf(book)[k] == Num(devices, k) {
      ListingCounts(devices, book, k);
    }
  }

  lemma NothingMeansSync(
    devices: seq<Device>, specs: seq<SpecAnnotation>, statuses: seq<StatusAnnotation>, r: Result, plan: MigConfigPlan)
    requires r.NothingToDo? ==> plan.IsEmpty() && IsPlanFor(devices, specs, plan)
    requires r.StatusMatches? ==>
               forall d | IsReport(multiset(statuses), d) :: InSync(d, specs) && !StateCheck.HasEmptyWish(specs)
    requires r.NothingToDo? || (r.StatusMatches? && IsReport(multiset(statuses), devices))
    ensures InSync(devices, specs)
  {
    hide IsReport, InSync;
  }

  /** Whatever list the agent parses from a safe spec, it wants the geometry of the updated node. */
  lemma SpecWants(
    annotations: map<string, string>, ls: seq<Ledger>, us: seq<Ledger>, ps: seq<GpuPartitioning>, devices: seq<Device>,
    specs: seq<SpecAnnotation>)
    requires SafeSpec(annotations, ls, us, ps, devices) && multiset(specs) == Harvest(annotations, ParseSpecAnnotation)
    ensures SpecsFor(specs, ps) && WantsGeometry(specs, us)
  {
    hide Harvest, SpecsFor, Partitions, WantsGeometry, NoMoreInUse, Kept;
    assert SpecStated(annotations, ps);
    UpdateKeepsIndexes(ls, us);
    SpecWantsGeometry(us, ps, specs);
  }

  /** On hardware that never refuses, an apply of a plan for the listed devices is carried out in full. */
  lemma DoneOnReliable(
    devices: seq<Device>, specs: seq<SpecAnnotation>, plan: MigConfigPlan, book: Book,
    creates: (nat, int) -> bool, deletes: (nat, string) -> bool, round: nat, after: multiset<Profile>,
    outcome: Outcome, t: Trace)
    requires ListingOf(devices, book) && IsPlanFor(devices, specs, plan) && Reliable(creates, deletes)
    requires Effect(HeldOf(book), after, plan, true, outcome, t) && !outcome.Refused?
    requires Answered(book, creates, deletes, round, plan, t)
    ensures outcome.Done?
  {
    hide HeldOf, Deleted, Wished, FreeProfiles, Accounts, Answered, GoneIds;
    SafeIds(devices, specs, plan);
    DoneExactlyWhen(book, creates, deletes, round, after, plan, true, outcome, t);
  }

  lemma RanSafely(
    devices: seq<Device>, specs: seq<SpecAnnotation>, plan: MigConfigPlan,
    ls: seq<Ledger>, us: seq<Ledger>, ps: seq<GpuPartitioning>,
    before: Book, after: Book, restarts: bool, outcome: Outcome, t: Trace)
    requires UniqueIds(devices) && Counted(HeldOf(before), devices) && IsPlanFor(devices, specs, plan)
    requires AllKept(ls, us) && ValidLedgers(us) && DistinctGpus(ls) && Partitions(us, ps) && SpecsFor(specs, ps)
    requires NoMoreInUse(devices, ls) && Effect(HeldOf(before), HeldOf(after), plan, restarts, outcome, t)
    requires Spared(before, after, if outcome.Refused? then [] else Deleted(plan.deleteOps))
    ensures !outcome.Refused? && (outcome.Done? ==> HoldsGeometry(HeldOf(after), us))
    ensures forall k :: HeldOf(after)[k] >= Tally(devices, k, false)
    ensures InUseStays(devices, before, after)
  {
    hide Tally, Desired, Deleted, IsPlanFor, Partitions, SpecsFor, Kept, WantsGeometry, NoMoreInUse, HoldsGeometry;
    hide Wished, FreeProfiles, Accounts, Spared, InUseStays, HeldOf;
    var had, has := HeldOf(before), HeldOf(after);
    PlanIsSafe(ls, us, ps, specs, devices, plan);
    BusyIdsStay(devices, specs, plan, before, after);
    forall k ensures has[k] >= Tally(devices, k, false) {
      CountsStay(devices, specs, plan, had, has, restarts, outcome, t, k);
    }
    if outcome.Done? {
      forall k ensures has[k] == Max(0, Desired(specs, k)) {
        assert Accounts(had, has, plan, t, k) && had[k] == Num(devices, k);
        FullApplyConverges(devices, specs, plan, had, has, t, k);
      }
      AppliedGeometry(has, us, specs);
    }
  }

  // ----- the partitioner's half -----

  ghost predicate SaneGeometries(allowed: seq<Counts>) {
    forall j | 0 <= j < |allowed| :: Positive(allowed[j]) && Printable(allowed[j])
  }

  /** `ls` is built from some listing of a faithful report of the devices. */
  ghost predicate NodeOf(ls: seq<Ledger>, devices: seq<Device>, allowed: seq<Counts>, count: int) {
    exists statuses, n: nat :: Extracted(statuses, allowed, count, n, ls) && IsReport(multiset(statuses), devices)
  }

  /** Build the node from the reported status and, if that helps the request, write a spec for it. */
  method PartitionerTurn(
    annotations: map<string, string>, allowed: seq<Counts>, count: int, requested: Counts, planId: string,
    ghost devices: seq<Device>)
    returns (written: bool, after: map<string, string>, ghost ls: seq<Ledger>,
      ghost us: seq<Ledger>, ghost ps: seq<GpuPartitioning>)
    requires IsReport(Harvest(annotations, ParseStatusAnnotation), devices) && Reportable(devices)
    requires Contiguous(devices) && SaneGeometries(allowed) && count <= MAX_INT
    ensures NodeOf(ls, devices, allowed, count) && ValidLedgers(ls) && SeesDevices(ls, devices)
    ensures written <==> Controller.Passes(ls, requested)
    ensures written ==>
              && us == NodeUpdate(ls, requested) && BuiltFrom(ls, us, devices, allowed)
              && Partitions(us, ps) && Specifiable(ps) && SpecStated(after, ps)
              && ReadAnnotation(after, PLAN_KEY) == planId
    ensures OthersKept(annotations, after, SPEC_PREFIX, PLAN_KEY)
    ensures forall d | d in devices :: HasGpu(ls, |ls|, d.gpu)
  {
    hide IsReport, Reportable, Contiguous, Printable, SeesDevices, Extracted;
    hide HasGpu, Harvest, Controller.Passes, NodeUpdate;
    hide SaneLedgers, Normal;
    hide ParseStatusAnnotation, ParseSpecAnnotation, Partitions, SpecStated, Specifiable;
    hide OthersKept, BuiltFrom, HasPrefix;
    us, ps := [], [];
    var statuses, specs := ParseNodeAnnotations(annotations);
    var gpus := ExtractGpus(statuses, Some(allowed), count);
    ls := gpus.value;
    ghost var n: nat :| Extracted(statuses, allowed, count, n, ls);
    ExtractedNode(statuses, devices, allowed, count, n, ls);
    NormalSame(ls);
    written, after := Controller.UpdateNodeGeometry(Controller.Image(gpus.value), annotations, requested, planId, true);
    if written {
      us := NodeUpdate(ls, requested);
      ps :| Partitions(us, ps) && (Specifiable(ps) ==> SpecStated(after, ps));
      BuiltNode(devices, allowed, ls, requested);
      NodeSpecifiable(ls, us, ps, devices, allowed);
    } else {
      NothingRewritten(annotations);
    }
  }

  lemma NothingRewritten(annotations: map<string, string>)
    ensures OthersKept(annotations, annotations, SPEC_PREFIX, PLAN_KEY)
  {
  }

  lemma ExtractedNode(
    statuses: seq<StatusAnnotation>, devices: seq<Device>, allowed: seq<Counts>, count: int, n: nat, ls: seq<Ledger>)
    requires Extracted(statuses, allowed, count, n, ls) && IsReport(multiset(statuses), devices) && Reportable(devices)
    requires Contiguous(devices) && SaneGeometries(allowed) && count <= MAX_INT
    ensures ValidLedgers(ls) && SeesDevices(ls, devices) && DistinctGpus(ls)
    ensures forall i | 0 <= i < |ls| :: ls[i].allowed == allowed && 0 <= ls[i].index <= MAX_INT
    ensures forall d | d in devices :: HasGpu(ls, |ls|, d.gpu)
  {
    hide IsReport, Contiguous, SeesDevices, Tells;
    ContiguousIsDistinct(statuses, devices, allowed, count, n, ls);
    NodeSeesDevices(statuses, devices, allowed, count, n, ls);
    forall i | 0 <= i < |ls| ensures ls[i].allowed == allowed && 0 <= ls[i].index <= MAX_INT {
      if i < n {
        assert FromStatus(statuses, ls[i]);
        var a :| a in statuses && a.index == ls[i].index;
        var d := ReportedDevice(statuses, devices, a);
        assert d.gpu == a.index;
      }
    }
  }

  lemma BuiltNode(devices: seq<Device>, allowed: seq<Counts>, ls: seq<Ledger>, requested: Counts)
    requires ValidLedgers(ls) && SeesDevices(ls, devices) && DistinctGpus(ls)
    requires forall i | 0 <= i < |ls| :: ls[i].allowed == allowed && 0 <= ls[i].index <= MAX_INT
    ensures BuiltFrom(ls, NodeUpdate(ls, requested), devices, allowed) && ValidLedgers(NodeUpdate(ls, requested))
  {
    hide SeesDevices, NodeUpdate, Kept;
    NodeUpdateKeeps(ls, requested);
  }

  // ----- both -----

  /** A node that an update changes is not yet in the updated geometry. */
  lemma ChangedIsNotHeld(ls: seq<Ledger>, us: seq<Ledger>, devices: seq<Device>, held: multiset<Profile>)
    requires AllKept(ls, us) && ValidLedgers(ls) && ValidLedgers(us) && us != ls
    requires SeesDevices(ls, devices) && Settled(devices) && Counted(held, devices)
    ensures !HoldsGeometry(held, us)
  {
    hide Tally, StatusCount;
    var i :| 0 <= i < |ls| && us[i] != ls[i];
    assert Kept(ls[i], us[i]);
    var p := FreeDiffers(ls[i], us[i]);
    var k := Profile(us[i].index, p);
    CountByStatus(devices, k);
    NothingUnknown(devices, k);
    assert held[k] == Num(devices, k);
    assert Get(ls[i].used, p) == StatusCount(devices, Tag(Profile(ls[i].index, p), Used));
  }

  lemma FreeDiffers(l: Ledger, u: Ledger) returns (p: ProfileName)
    requires ValidLedger(l) && Kept(l, u) && u != l
    ensures Get(u.free, p) != Get(l.free, p)
  {
    if forall q :: Get(u.free, q) == Get(l.free, q) {
      PositiveSame(u.free, l.free);
      assert false;
    }
    p :| Get(u.free, p) != Get(l.free, p);
  }

  /** What the kubelet says, and that its lists have no duplicates. */
  ghost predicate SaneKubelet(used: Option<seq<KubeletDevice>>, allocatable: Option<seq<KubeletDevice>>) {
    (used.Some? ==> DistinctIds(used.value)) && (allocatable.Some? ==> DistinctIds(allocatable.value))
  }

  /** Neither the kubelet nor a look-up fails. */
  ghost predicate Listed(
    used: Option<seq<KubeletDevice>>, allocatable: Option<seq<KubeletDevice>>, lookup: string -> Lookup)
  {
    used.Some? && allocatable.Some? && Readable(used.value, lookup) && Readable(allocatable.value, lookup)
  }

  /** Nothing but these assumptions about the devices: they can be printed, are on GPUs without gaps, and are held. */
  ghost predicate Ordinary(devices: seq<Device>, book: Book) {
    Reportable(devices) && Contiguous(devices) && ListingOf(devices, book)
  }

  /** The annotations ask for the geometry of the node, in a form that can be read back. */
  ghost predicate AsksFor(annotations: map<string, string>, us: seq<Ledger>) {
    DistinctGpus(us) && exists ps :: Partitions(us, ps) && Specifiable(ps) && SpecStated(annotations, ps)
  }

  /**
   * A whole round in which the devices do not change meanwhile: list, report, repartition, reconcile. Whatever the
   * request, devices in use stay. A spec is written exactly if the rebuilt node passes the partitioner's test, and then
   * it is acted upon, unless the same plan was tried on the same status before: it is not refused, and a full apply
   * leaves exactly the geometry that the partitioner computed.
   */
  method Round(
    actuator: MigActuator, annotations: map<string, string>, used: Option<seq<KubeletDevice>>,
    allocatable: Option<seq<KubeletDevice>>, lookup: string -> Lookup, restarts: bool, patches: bool,
    allowed: seq<Counts>, count: int, requested: Counts, planId: string)
    returns (r: Option<Result>, after: map<string, string>, ghost devices: seq<Device>, ghost ls: seq<Ledger>)
    requires actuator.shared.Valid() && !actuator.shared.locked && SaneKubelet(used, allocatable)
    requires used.Some? && allocatable.Some? ==>
               Ordinary(NodeDevices(used.value, allocatable.value, lookup), actuator.client.book)
    requires SaneGeometries(allowed) && count <= MAX_INT
    modifies actuator, actuator.shared, actuator.client
    ensures actuator.shared.Valid() && !actuator.shared.locked
    ensures used.Some? && allocatable.Some? ==> devices == NodeDevices(used.value, allocatable.value, lookup)
    ensures ValidLedgers(ls) && (r.Some? <==> Controller.Passes(ls, requested))
    ensures Listed(used, allocatable, lookup) ==> NodeOf(ls, devices, allowed, count)
    ensures r.None? ==> actuator.client.book == old(actuator.client.book)
    ensures r.Some? ==>
              && SeesDevices(ls, devices) && (r.value.Ran? || r.value.AlreadyApplied?)
              && AsksFor(after, NodeUpdate(ls, requested))
              && (forall k :: actuator.client.Held()[k] >= Tally(devices, k, false))
              && InUseStays(devices, old(actuator.client.book), actuator.client.book)
    ensures r.Some? && r.value.Ran? ==>
              && !r.value.outcome.Refused?
              && (restarts && Reliable(actuator.client.creates, actuator.client.deletes) ==> r.value.outcome.Done?)
              && (r.value.outcome.Done? ==> HoldsGeometry(actuator.client.Held(), NodeUpdate(ls, requested)))
  {
    hide Reportable, Contiguous, Settled, SaneGeometries, SeesDevices;
    hide Controller.Passes, NodeUpdate, HoldsGeometry, Counted;
    hide IsReport, Harvest, ParseStatusAnnotation, Partitions, SpecStated, OthersKept, HasGpu, NoMoreInUse, InUseStays;
    hide NodeDevices, Tally, DistinctIds, UniqueIds, Readable, AllKept, NodeOf, HeldOf, ListingOf, Specifiable;
    hide Reliable;
    hide DistinctGpus;
    r, after, ls, devices := None, annotations, [], [];
    NothingPasses(requested);
    if used.Some? && allocatable.Some? {
      devices := NodeDevices(used.value, allocatable.value, lookup);
      ListingSettled(used.value, allocatable.value, lookup);
    }
    var listed := GetMigDevices(used, allocatable, lookup);
    var reporter := new MigReporter(actuator.shared);
    var ok, reported := reporter.Reconcile(Some(annotations), listed, true, 0, Protocol.Idle);
    if !ok {
      return;
    }
    var written;
    ghost var us, ps;
    written, after, ls, us, ps := PartitionerTurn(reported.value, allowed, count, requested, planId, devices);
    if written {
      SeesUse(ls, devices);
      UpdatedNode(ls, requested);
      StatusesKept(reported.value, after);
      PassesChanges(ls, requested);
      ghost var held := actuator.client.Held();
      ListingCounted(devices, actuator.client.book);
      assert DistinctGpus(us) by { UpdateKeepsIndexes(ls, us); }
      var result;
      result, after := AgentTurn(actuator, after, listed.value, restarts, patches, ls, us, ps);
      r := Some(result);
      if !result.Ran? {
        ChangedIsNotHeld(ls, us, devices, held);
      }
    }
  }

  lemma NothingPasses(requested: Counts)
    ensures ValidLedgers([]) && !Controller.Passes([], requested)
  {
    hide NodeUpdate;
    EmptyWalk([], requested);
  }

  lemma PassesChanges(ls: seq<Ledger>, requested: Counts)
    requires ValidLedgers(ls) && Controller.Passes(ls, requested)
    ensures NodeUpdate(ls, requested) != ls
  {
    hide NodeUpdate;
  }

  lemma UpdatedNode(ls: seq<Ledger>, requested: Counts)
    requires ValidLedgers(ls)
    ensures ValidLedgers(NodeUpdate(ls, requested)) && AllKept(ls, NodeUpdate(ls, requested))
  {
    NodeUpdateKeeps(ls, requested);
  }

  // ----- at rest -----

  /** The parsed spec and devices in the specified geometry are in sync, and the spec holds no empty wish. */
  lemma GeometryIsSync(
    held: multiset<Profile>, now: seq<Device>, us: seq<Ledger>, ps: seq<GpuPartitioning>, specs: seq<SpecAnnotation>)
    requires HoldsGeometry(held, us) && Counted(held, now)
    requires DistinctGpus(us) && Partitions(us, ps) && SpecsFor(specs, ps)
    ensures InSync(now, specs) && !StateCheck.HasEmptyWish(specs)
  {
    hide Tally, Desired, Planned, GeometryAt;
    SpecWantsGeometry(us, ps, specs);
    forall k ensures Desired(specs, k) == Num(now, k) {
      assert held[k] == Num(now, k);
      if i :| 0 <= i < |us| && us[i].index == k.gpu {
        assert k == Profile(us[i].index, k.name);
      }
    }
    forall a | a in specs ensures a.quantity > 0 {
      var g :| g in ps && Entry(g, a);
      var i :| 0 <= i < |ps| && ps[i] == g;
      assert Positive(ps[i].resources);
    }
    forall i | 0 <= i < |specs| ensures Desired(specs, SpecProfile(specs[i])) > 0 {
      DesiredPositive(specs, SpecProfile(specs[i]), i);
    }
  }

  /** Once the geometry of the spec is reached, the next report and run of the actuator find nothing to do. */
  method AtRest(
    actuator: MigActuator, annotations: map<string, string>, now: seq<Device>, restarts: bool, patches: bool,
    ghost us: seq<Ledger>, ghost ps: seq<GpuPartitioning>)
    returns (r: Result, after: map<string, string>)
    requires actuator.shared.Valid() && !actuator.shared.locked
    requires Reportable(now) && ListingOf(now, actuator.client.book)
    requires HoldsGeometry(actuator.client.Held(), us) && DistinctGpus(us) && Partitions(us, ps)
    requires SpecStated(annotations, ps)
    modifies actuator, actuator.shared, actuator.client
    ensures actuator.shared.Valid() && !actuator.shared.locked
    ensures r.StatusMatches?
    ensures actuator.client.book == old(actuator.client.book)
    ensures Harvest(after, ParseSpecAnnotation) == Harvest(annotations, ParseSpecAnnotation)
    ensures IsReport(Harvest(after, ParseStatusAnnotation), now)
  {
    hide Tally, Partitions, SpecsFor, Harvest, IsReport, Reportable;
    hide Counted, HoldsGeometry, InSync, OthersKept, DistinctGpus;
    hide ParseSpecAnnotation, ParseStatusAnnotation, IsPlanFor, Effect;
    hide Spared, StateCheck.SameTotals, StateCheck.HasEmptyWish;
    hide HeldOf, ListingOf, Truthful, Answered, Reasons.ByReason;
    ghost var held := actuator.client.Held();
    ListingCounted(now, actuator.client.book);
    var reporter := new MigReporter(actuator.shared);
    var ok, reported := reporter.Reconcile(Some(annotations), Some(now), true, 0, Protocol.Idle);
    SpecsKept(annotations, reported.value);
    ghost var specs, statuses, plan, t, late;
    var node;
    r, node, specs, statuses, plan, t, late := actuator.Reconcile(reported, Found(now), restarts, patches);
    GeometryIsSync(held, now, us, ps, specs);
    after := node.value;
  }

  /** Whatever lists the devices of a reached geometry, the report of them can be read back. */
  lemma GeometryReportable(now: seq<Device>, book: Book, us: seq<Ledger>, ps: seq<GpuPartitioning>)
    requires ListingOf(now, book) && HoldsGeometry(HeldOf(book), us) && Partitions(us, ps) && Specifiable(ps)
    requires |now| <= MAX_INT
    ensures Reportable(now)
  {
    hide HeldOf, Tally, GeometryAt, ListingOf;
    forall d | d in now ensures 0 <= d.gpu <= MAX_INT && '-' !in d.profile {
      var k := ProfileOf(d);
      TallyPositive(now, d);
      ListingCounts(now, book, k);
      var i :| 0 <= i < |us| && us[i].index == k.gpu;
      assert HeldOf(book)[Profile(us[i].index, d.profile)] == GeometryAt(us[i], d.profile);
      assert InGeometry(us[i], ps[i].resources) && GeometryAt(us[i], d.profile) == Get(ps[i].resources, d.profile);
      assert ps[i] in ps && ps[i].index == d.gpu && d.profile in ps[i].resources;
    }
  }

  /**
   * A round that is applied in full, and any number of reports and actuator runs after it: they all find that the
   * status matches, and nothing changes any more. `list` is how the devices on the GPUs are listed.
   */
  method RoundThenRest(
    actuator: MigActuator, annotations: map<string, string>, used: Option<seq<KubeletDevice>>,
    allocatable: Option<seq<KubeletDevice>>, lookup: string -> Lookup, restarts: bool, patches: bool,
    allowed: seq<Counts>, count: int, requested: Counts, planId: string, list: Book -> seq<Device>, runs: nat)
    returns (
      first: Option<Result>, later: seq<Result>, after: map<string, string>, ghost ls: seq<Ledger>, ghost reached: Book)
    requires actuator.shared.Valid() && !actuator.shared.locked && SaneKubelet(used, allocatable)
    requires used.Some? && allocatable.Some? ==>
               Ordinary(NodeDevices(used.value, allocatable.value, lookup), actuator.client.book)
    requires SaneGeometries(allowed) && count <= MAX_INT && forall book :: ListingOf(list(book), book)
    modifies actuator, actuator.shared, actuator.client
    ensures first == Some(Ran(Done)) && |list(reached)| <= MAX_INT ==>
              && |later| == runs && (forall i | 0 <= i < runs :: later[i].StatusMatches?)
              && actuator.client.book == reached && ValidLedgers(ls)
              && HoldsGeometry(actuator.client.Held(), NodeUpdate(ls, requested))
              && AsksFor(after, NodeUpdate(ls, requested))
  {
    hide Ordinary, SaneGeometries, SeesDevices, Controller.Passes, NodeUpdate, HoldsGeometry, NodeOf, InUseStays, Tally;
    hide ListingOf, HeldOf, Partitions, Specifiable, SpecStated, DistinctGpus, Listed, ValidLedgers, SaneKubelet;
    later := [];
    ghost var devices;
    first, after, devices, ls := Round(
      actuator, annotations, used, allocatable, lookup, restarts, patches, allowed, count, requested, planId);
    reached := actuator.client.book;
    if first == Some(Ran(Done)) && |list(actuator.client.book)| <= MAX_INT {
      assert ListingOf(list(reached), reached);
      later, after := Rest(actuator, after, list(actuator.client.book),
        restarts, patches, runs, NodeUpdate(ls, requested));
    }
  }

  /** Reports and actuator runs on devices in the geometry of the spec. */
  method Rest(
    actuator: MigActuator, annotations: map<string, string>, now: seq<Device>, restarts: bool, patches: bool, runs: nat,
    ghost us: seq<Ledger>)
    returns (rs: seq<Result>, after: map<string, string>)
    requires actuator.shared.Valid() && !actuator.shared.locked
    requires ListingOf(now, actuator.client.book) && |now| <= MAX_INT
    requires HoldsGeometry(actuator.client.Held(), us) && AsksFor(annotations, us)
    modifies actuator, actuator.shared, actuator.client
    ensures |rs| == runs && forall i | 0 <= i < runs :: rs[i].StatusMatches?
    ensures actuator.client.book == old(actuator.client.book) && AsksFor(after, us)
  {
    hide HoldsGeometry, ListingOf, HeldOf, Partitions, Specifiable, SpecsFor;
    hide DistinctGpus, Harvest, Reportable, IsReport;
    hide ParseSpecAnnotation, ParseStatusAnnotation;
    ghost var ps :| Partitions(us, ps) && Specifiable(ps) && SpecStated(annotations, ps);
    GeometryReportable(now, actuator.client.book, us, ps);
    rs, after := [], annotations;
    for n := 0 to runs
      invariant |rs| == n && forall i | 0 <= i < n :: rs[i].StatusMatches?
      invariant actuator.shared.Valid() && !actuator.shared.locked
      invariant actuator.client.book == old(actuator.client.book) && SpecStated(after, ps)
    {
      var r;
      r, after := AtRest(actuator, after, now, restarts, patches, us, ps);
      rs := rs + [r];
    }
  }
}
