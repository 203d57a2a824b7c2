/** The reconcile loops of actuator and reporter, and the steps of the protocol that they take. */
module Agent {
  import opened GoMaps
  import opened Devices
  import opened Annotations
  import opened Text
  import opened Wire
  import opened NodeAnnotations
  import opened Matching
  import opened Plan
  import opened Planner
  import opened Reasons
  import opened PlanEquality
  import opened StateCheck
  import opened Actuator
  import S = SharedState
  import R = Reporter
  import P = Protocol

  /** The answer of the MIG client to a request for the devices. */
  datatype Listing = Found(devices: seq<Device>) | Missing | Unavailable

  datatype Result =
    | Waiting
    | NodeUnavailable
    | StatusMatches
    | PlanFailed
    | NothingToDo
    | AlreadyApplied
    | Ran(outcome: Outcome)

  /** A state that is in sync with its spec needs the empty plan. */
  lemma EmptyPlanWhenInSync(devices: seq<Device>, specs: seq<SpecAnnotation>)
    requires InSync(devices, specs)
    ensures IsPlanFor(devices, specs, EMPTY) && ByReason(devices, specs, EMPTY)
  {
    hide Tally, Desired, InSpec;
    forall k: Profile ensures !Grows(devices, specs, k.gpu) && Balanced(devices, specs, EMPTY, k) {
      assert Desired(specs, k) == Num(devices, k);
      NothingDeleted(k);
    }
    forall r ensures !Called(devices, specs, r) {
      if d :| d in devices && ReasonOf(devices, specs, d) == r {
        TallyPositive(devices, d);
        if !InSpec(specs, ProfileOf(d)) {
          NotInSpec(specs, ProfileOf(d));
          assert false;
        }
      }
    }
    assert Reasoned(devices, specs, EMPTY.deleteOps, []);
    assert CreatesAsDue(devices, specs, EMPTY.createOps);
  }

  lemma NothingDeleted(k: Profile)
    ensures Tally(Deleted(EMPTY.deleteOps), k, true) == Tally(Deleted(EMPTY.deleteOps), k, false) == 0
  {
  }

  /** Computes the plan; a missing device is answered by restarting the device plugin, and counts as nothing to do. */
  method MakePlan(listing: Listing, specs: seq<SpecAnnotation>, restarts: bool) returns (plan: Option<MigConfigPlan>)
    requires listing.Found? ==> UniqueIds(listing.devices)
    ensures listing.Unavailable? ==> plan.None?
    ensures listing.Missing? ==> plan == if restarts then Some(EMPTY) else None
    ensures listing.Found? ==>
              && plan.Some? && IsPlanFor(listing.devices, specs, plan.value)
              && ByReason(listing.devices, specs, plan.value)
  {
    hide IsPlanFor, InSync, Represents, ByReason;
    match listing
    case Unavailable =>
      plan := None;
    case Missing =>
      plan := if restarts then Some(EMPTY) else None;
    case Found(devices) =>
      var state := NewMigState(devices);
      var matches := Matches(state, specs, devices);
      if matches {
        EmptyPlanWhenInSync(devices, specs);
        return Some(EMPTY);
      }
      var p := NewMigConfigPlan(state, specs, devices);
      plan := Some(p);
  }

  ghost function WithoutSpec(m: map<string, string>): map<string, string> {
    map k | k in m && !HasPrefix(k, SPEC_PREFIX) && k != PLAN_KEY :: m[k]
  }

  /** Takes the spec and its plan id back. */
  method ResetNodeSpec(m: map<string, string>) returns (r: map<string, string>)
    ensures r == WithoutSpec(m)
  {
    r := m;
    var todo := m.Keys;
    while todo != {}
      invariant todo <= m.Keys
      invariant r == map k | k in m && (k in todo || (!HasPrefix(k, SPEC_PREFIX) && k != PLAN_KEY)) :: m[k]
    {
      var k := Any(todo);
      todo := todo - {k};
      if HasPrefix(k, SPEC_PREFIX) || k == PLAN_KEY {
        r := r - {k};
      }
    }
  }

  /** After a reset no spec is parsed from the node, no plan id is set, and the status is parsed as before. */
  lemma ResetTakesSpecBack(m: map<string, string>)
    ensures Harvest(WithoutSpec(m), ParseSpecAnnotation) == multiset{} && ReadAnnotation(WithoutSpec(m), PLAN_KEY) == ""
    ensures Harvest(WithoutSpec(m), ParseStatusAnnotation) == Harvest(m, ParseStatusAnnotation)
  {
    hide Harvest, ParseSpecAnnotation, ParseStatusAnnotation, HasPrefix;
    OnlySpecs();
    OnlyStatuses();
    HarvestNothing(WithoutSpec(m), ParseSpecAnnotation);
    HarvestSame(WithoutSpec(m), m, ParseStatusAnnotation);
  }

  /** Same plan on the same reported status, each up to order. */
  ghost predicate SameAsLast(
    plan: MigConfigPlan, statuses: seq<StatusAnnotation>, lastPlan: Option<MigConfigPlan>,
    lastStatus: seq<StatusAnnotation>)
  {
    lastPlan.Some? && SamePlan(plan, lastPlan.value) && multiset(statuses) == multiset(lastStatus)
  }

  /** The state of the protocol while nobody holds the lock; `a` is where the actuator is. */
  ghost function Quiet(shared: S.SharedState, a: P.Actuator): P.State
    reads shared
  {
    P.State(a, P.Nobody, shared.Reports(), shared.lastParsedPlanId)
  }

  /** The node already tells of the devices and of the plan. */
  ghost predicate UpToDate(node: map<string, string>, devices: seq<Device>, planId: string) {
    R.IsReport(Harvest(node, ParseStatusAnnotation), devices) && ReadAnnotation(node, REPORTED_PLAN_KEY) == planId
  }

  class MigReporter {
    const shared: S.SharedState

    constructor (shared: S.SharedState)
      ensures this.shared == shared
    {
      this.shared := shared;
    }

    /**
     * One run, while nobody else holds the lock. The token is put whatever happens. A run without an error leaves a
     * faithful report of the devices on the node; any other leaves the node as it is.
     */
    method Reconcile(
      node: Option<map<string, string>>, listed: Option<seq<Device>>, patches: bool,
      ghost run: int, ghost a: P.Actuator)
      returns (ok: bool, after: Option<map<string, string>>)
      requires shared.Valid() && !shared.locked
      modifies shared
      ensures shared.Valid() && !shared.locked && shared.Reports().full
      ensures shared.lastParsedPlanId == old(shared.lastParsedPlanId)
      ensures ok ==> node.Some? && listed.Some? && after.Some?
      ensures ok <==>
                && node.Some? && listed.Some?
                && (patches || UpToDate(node.value, listed.value, shared.lastParsedPlanId))
      ensures !ok ==> after == node
      ensures ok ==>
                && (R.Reportable(listed.value) ==>
                      R.IsReport(Harvest(after.value, ParseStatusAnnotation), listed.value))
                && ReadAnnotation(after.value, REPORTED_PLAN_KEY) == old(shared.lastParsedPlanId)
                && OthersKept(node.value, after.value, STATUS_PREFIX, REPORTED_PLAN_KEY)
      ensures P.RunFrom(old(Quiet(shared, a)), P.ReporterSteps(run, ok, shared.lastParsedPlanId))
              == Some(Quiet(shared, a))
    {
      hide R.IsReport, R.Reportable, Harvest, ParseStatusAnnotation, OthersKept, P.RunFrom;
      ghost var start := Quiet(shared, a);
      shared.locked := true;
      ok, after := false, node;
      if node.Some? && listed.Some? {
        var updated, due := R.Report(node.value, listed.value, shared.lastParsedPlanId);
        if !due || patches {
          ok, after := true, Some(updated);
        }
      }
      shared.OnReportDone();
      shared.locked := false;
      P.ReporterRuns(start, run, ok);
    }
  }

  class MigActuator {
    const shared: S.SharedState
    const client: Client
    var lastAppliedPlan: Option<MigConfigPlan>
    var lastAppliedStatus: seq<StatusAnnotation>

    constructor (shared: S.SharedState, client: Client)
      ensures this.shared == shared && this.client == client && lastAppliedPlan.None?
    {
      this.shared, this.client, lastAppliedPlan, lastAppliedStatus := shared, client, None, [];
    }

    method IsLast(plan: MigConfigPlan, statuses: seq<StatusAnnotation>) returns (same: bool)
      ensures same <==> SameAsLast(plan, statuses, lastAppliedPlan, lastAppliedStatus)
      ensures same <==>
                && lastAppliedPlan.Some? && SamePlan(plan, lastAppliedPlan.value)
                && multiset(statuses) == multiset(lastAppliedStatus)
    {
      hide SamePlan;
      if lastAppliedPlan.None? {
        return false;
      }
      same := PlanEqual(plan, lastAppliedPlan.value);
      if same {
        same := UnorderedEqual(statuses, lastAppliedStatus, R.SameStatus);
        MatchableMultiset(statuses, lastAppliedStatus, R.SameStatus);
      }
    }

    /** The decision for a parsed node: nothing to do, or a plan that is applied unless it was the last one tried. */
    method Act(statuses: seq<StatusAnnotation>, specs: seq<SpecAnnotation>, listing: Listing, restarts: bool)
      returns (r: Result, ghost plan: MigConfigPlan, ghost t: Trace)
      requires listing.Found? ==> UniqueIds(listing.devices) && Truthful(client.book, listing.devices)
      modifies this`lastAppliedPlan, this`lastAppliedStatus, client
      ensures !r.Waiting? && !r.NodeUnavailable?
      ensures Decided(statuses, specs, listing, restarts, old(lastAppliedPlan), old(lastAppliedStatus), r, plan)
      ensures if r.StatusMatches? || r.PlanFailed?
              then lastAppliedPlan == old(lastAppliedPlan) && lastAppliedStatus == old(lastAppliedStatus)
              else lastAppliedPlan == Some(plan) && lastAppliedStatus == statuses
      ensures !r.Ran? ==> client.book == old(client.book)
      ensures r.Ran? ==>
                && Effect(old(client.Held()), client.Held(), plan, restarts, r.outcome, t)
                && Spared(old(client.book), client.book, if r.outcome.Refused? then [] else Deleted(plan.deleteOps))
                && (!r.outcome.Refused? ==>
                      Answered(old(client.book), client.creates, client.deletes, old(client.round), plan, t))
    {
      hide IsPlanFor, InSync, SameAsLast, R.IsReport, HasEmptyWish, Effect, Deleted, Spared, SameTotals, Truthful;
      hide ByReason;
      hide Answered;
      plan, t := EMPTY, Trace(multiset{}, {}, false, {});
      var matches := SpecMatchesStatus(specs, statuses);
      if matches {
        return StatusMatches, plan, t;
      }
      var made := MakePlan(listing, specs, restarts);
      if made.None? {
        return PlanFailed, plan, t;
      }
      plan := made.value;
      var last := IsLast(made.value, statuses);
      // The deferred update of the last applied plan runs on every way out from here.
      lastAppliedPlan, lastAppliedStatus := Some(made.value), statuses;
      if made.value.IsEmpty() {
        return NothingToDo, plan, t;
      }
      if last {
        return AlreadyApplied, plan, t;
      }
      assert listing.Found? && !InSync(listing.devices, specs) by { NonEmptyPlan(listing, specs, made.value); }
      TruthfulPlan(client.book, listing.devices, specs, made.value);
      var outcome;
      outcome, t := Apply(client, made.value, restarts);
      r := Ran(outcome);
    }

    /**
     * One run. Without a report token it changes nothing. With one, the token is spent whatever happens, though a
     * reporter may put another one before the lock is taken, and devices change only by applying a plan as decided,
     * after which there is no token. The node is rewritten only to take back a spec whose plan was refused. All this
     * is a sequence of steps of the protocol; `late` are those of the reporter.
     */
    method Reconcile(node: Option<map<string, string>>, listing: Listing, restarts: bool, patches: bool)
      returns (
        r: Result, after: Option<map<string, string>>, ghost specs: seq<SpecAnnotation>,
        ghost statuses: seq<StatusAnnotation>, ghost plan: MigConfigPlan, ghost t: Trace, ghost late: seq<P.Event>)
      requires shared.Valid() && !shared.locked
      requires listing.Found? ==> UniqueIds(listing.devices) && Truthful(client.book, listing.devices)
      modifies this`lastAppliedPlan, this`lastAppliedStatus, shared, client
      ensures shared.Valid() && !shared.locked
      ensures r.Waiting? <==> !old(shared.Reports()).full
      ensures r.NodeUnavailable? <==> old(shared.Reports()).full && node.None?
      ensures shared.lastParsedPlanId
              == if r.Waiting? || node.None? then old(shared.lastParsedPlanId) else ReadAnnotation(node.value, PLAN_KEY)
      ensures !r.Waiting? && !r.NodeUnavailable? ==>
                && multiset(specs) == Harvest(node.value, ParseSpecAnnotation)
                && multiset(statuses) == Harvest(node.value, ParseStatusAnnotation)
                && Decided(statuses, specs, listing, restarts, old(lastAppliedPlan), old(lastAppliedStatus), r, plan)
      ensures if r.Waiting? || r.NodeUnavailable? || r.StatusMatches? || r.PlanFailed?
              then lastAppliedPlan == old(lastAppliedPlan) && lastAppliedStatus == old(lastAppliedStatus)
              else lastAppliedPlan == Some(plan) && lastAppliedStatus == statuses
      ensures !r.Ran? ==> client.book == old(client.book)
      ensures r.Ran? ==>
                && Effect(old(client.Held()), client.Held(), plan, restarts, r.outcome, t)
                && Spared(old(client.book), client.book, if r.outcome.Refused? then [] else Deleted(plan.deleteOps))
                && (!r.outcome.Refused? ==>
                      Answered(old(client.book), client.creates, client.deletes, old(client.round), plan, t))
      ensures after == if node.Some? && r == Ran(Refused) && patches then Some(WithoutSpec(node.value)) else node
      ensures P.Overtakes(late, old(shared.lastParsedPlanId))
      ensures P.RunFrom(old(Quiet(shared, P.Idle)), StepsOf(r, late, shared.lastParsedPlanId))
              == Some(Quiet(shared, P.Idle))
      ensures r.Waiting? || r.Ran? ==> !shared.Reports().full
    {
      hide Decided, Harvest, ParseSpecAnnotation, ParseStatusAnnotation, Effect, Deleted, Spared, WithoutSpec, Truthful;
      hide P.RunFrom, P.ActuatorSteps, P.Overtakes, Answered;
      after, late := node, [];
      specs, statuses, plan, t := [], [], EMPTY, Trace(multiset{}, {}, false, {});
      ghost var start := Quiet(shared, P.Idle);
      NeverMind(start);
      var reported := shared.AtLeastOneReportSinceLastApply();
      if !reported {
        return Waiting, after, specs, statuses, plan, t, late;
      }
      late := Overtaken();
      shared.locked := true;
      if node.None? {
        shared.locked := false;
        P.ActuatorRuns(start, late, None, false);
        return NodeUnavailable, after, specs, statuses, plan, t, late;
      }
      shared.lastParsedPlanId := ReadAnnotation(node.value, PLAN_KEY);
      var parsed, wanted := ParseNodeAnnotations(node.value);
      specs, statuses := wanted, parsed;
      r, plan, t := Act(parsed, wanted, listing, restarts);
      if r == Ran(Refused) {
        var reset := ResetNodeSpec(node.value);
        if patches {
          after := Some(reset);
        }
      }
      if r.Ran? {
        shared.OnApplyDone();
      }
      shared.locked := false;
      P.ActuatorRuns(start, late, Some(shared.lastParsedPlanId), r.Ran?);
    }

    /** Between asking for the token and taking the lock, a reporter may run and put another token. */
    method Overtaken() returns (ghost late: seq<P.Event>)
      requires shared.Valid() && !shared.locked
      modifies shared
      ensures shared.Valid() && !shared.locked && shared.lastParsedPlanId == old(shared.lastParsedPlanId)
      ensures P.Overtakes(late, shared.lastParsedPlanId)
      ensures shared.Reports() == if late == [] then old(shared.Reports()) else S.Channel(true)
    {
      late := [];
      var overtaken: bool := *;
      if overtaken {
        var reporter := new MigReporter(shared);
        var ok, node := reporter.Reconcile(None, None, true, 0, P.Waiting);
        late := P.ReporterSteps(0, ok, shared.lastParsedPlanId);
      }
    }
  }

  /** The steps of the protocol that a run of the actuator takes. */
  ghost function StepsOf(r: Result, late: seq<P.Event>, planId: string): seq<P.Event> {
    if r.Waiting? then [P.Poll]
    else P.ActuatorSteps(late, if r.NodeUnavailable? then None else Some(planId), r.Ran?)
  }

  lemma NeverMind(s: P.State)
    ensures P.Overtakes([], s.planId)
    ensures s.actuator.Idle? && !s.reports.full ==> P.RunFrom(s, [P.Poll]) == Some(s)
  {
    assert [P.Poll][..0] == [];
  }

  /** How a run with a parsed node ends. Whenever it plans, the plan fits the listed devices. */
  ghost predicate Decided(
    statuses: seq<StatusAnnotation>, specs: seq<SpecAnnotation>, listing: Listing, restarts: bool,
    lastPlan: Option<MigConfigPlan>, lastStatus: seq<StatusAnnotation>, r: Result, plan: MigConfigPlan)
  {
    && (r.StatusMatches? <==> SameTotals(specs, statuses))
    && (forall devices | R.IsReport(multiset(statuses), devices) ::
          r.StatusMatches? <==> InSync(devices, specs) && !HasEmptyWish(specs))
    && (r.PlanFailed? ==> !listing.Found?)
    && (listing.Unavailable? && !r.StatusMatches? ==> r.PlanFailed?)
    && (listing.Missing? && !r.StatusMatches? ==> if restarts then r.NothingToDo? else r.PlanFailed?)
    && (r.NothingToDo? ==> plan.IsEmpty())
    && (r.AlreadyApplied? ==> !plan.IsEmpty() && SameAsLast(plan, statuses, lastPlan, lastStatus))
    && (r.Ran? ==> listing.Found? && !InSync(listing.devices, specs) &&
                      !SameAsLast(plan, statuses, lastPlan, lastStatus))
    && (listing.Found? && (r.NothingToDo? || r.AlreadyApplied? || r.Ran?) ==>
          IsPlanFor(listing.devices, specs, plan) && ByReason(listing.devices, specs, plan))
  }

  /**
   * A plan is not applied twice in a row: after a run that planned, a run with the same devices, spec and status, each
   * in whatever order, does not apply anything.
   */
  lemma NotAppliedTwice(
    statuses: seq<StatusAnnotation>, specs: seq<SpecAnnotation>, devices: seq<Device>, restarts: bool,
    lastPlan: Option<MigConfigPlan>, lastStatus: seq<StatusAnnotation>, r: Result, plan: MigConfigPlan,
    statuses': seq<StatusAnnotation>, specs': seq<SpecAnnotation>, devices': seq<Device>, restarts': bool,
    r': Result, plan': MigConfigPlan)
    requires Decided(statuses, specs, Found(devices), restarts, lastPlan, lastStatus, r, plan) && r.Ran?
    requires Decided(statuses', specs', Found(devices'), restarts', Some(plan), statuses, r', plan')
    requires multiset(devices) == multiset(devices') && multiset(specs) == multiset(specs')
    requires multiset(statuses) == multiset(statuses')
    ensures !r'.Ran?
  {
    hide ByReason, SamePlan, Deleted, UniqueIds, InSync, R.IsReport, HasEmptyWish, SameTotals;
    if r'.Ran? {
      PlanIsDetermined(devices', devices, specs', specs, plan', plan);
      assert false;
    }
  }

  /** A plan for listed devices deletes listed devices only. */
  lemma TruthfulPlan(book: Book, devices: seq<Device>, specs: seq<SpecAnnotation>, plan: MigConfigPlan)
    requires UniqueIds(devices) && Truthful(book, devices) && IsPlanFor(devices, specs, plan)
    ensures Truthful(book, Deleted(plan.deleteOps))
  {
    hide IsPlanFor, Deleted;
    SafeIds(devices, specs, plan);
  }

  lemma NonEmptyPlan(listing: Listing, specs: seq<SpecAnnotation>, plan: MigConfigPlan)
    requires !plan.IsEmpty() && !listing.Unavailable? && (listing.Missing? ==> plan == EMPTY)
    requires listing.Found? ==> IsPlanFor(listing.devices, specs, plan)
    ensures listing.Found? && !InSync(listing.devices, specs)
  {
  }
}
