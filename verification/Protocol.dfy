/** All interleavings of one actuator worker with any number of reporter runs. */
module Protocol {
  import opened Text
  import opened SharedState

  // ----- the machine -----

  /** Where the actuator is: asking for a token, waiting for the lock, or inside its critical section. */
  datatype Actuator = Idle | Waiting | Entered | Parsed | Applied | Drained

  /** Where the reporter that holds the lock is. */
  datatype Phase = Running | Reported | Signalled

  datatype Holder = Nobody | Worker | Reporter(run: int, phase: Phase)

  datatype State = State(actuator: Actuator, holder: Holder, reports: Channel, planId: string)

  datatype Event =
    | Poll
    | ActuatorLock
    | Parse(planId: string)
    | Apply
    | Drain
    | ActuatorUnlock
    | ReporterLock(run: int)
    | Report(run: int, ok: bool, planId: string)
    | Signal(run: int)
    | ReporterUnlock(run: int)

  const START := State(Idle, Nobody, Channel(false), "")

  /** The state after one step, if the step is possible. */
  function Next(s: State, e: Event): Option<State> {
    match e
    case Poll =>
      if !s.actuator.Idle? then None else
        var (any, rest) := s.reports.Receive();
        Some(if any then s.(actuator := Waiting, reports := rest) else s)
    case ActuatorLock =>
      if s.actuator.Waiting? && s.holder.Nobody? then Some(s.(actuator := Entered, holder := Worker)) else None
    case Parse(id) =>
      if s.actuator.Entered? then Some(s.(actuator := Parsed, planId := id)) else None
    case Apply =>
      if s.actuator.Parsed? then Some(s.(actuator := Applied)) else None
    case Drain =>
      if s.actuator.Applied? then Some(s.(actuator := Drained, reports := s.reports.Receive().1)) else None
    case ActuatorUnlock =>
      if s.actuator.Entered? || s.actuator.Parsed? || s.actuator.Drained?
      then Some(s.(actuator := Idle, holder := Nobody)) else None
    case ReporterLock(run) =>
      if s.holder.Nobody? then Some(s.(holder := Reporter(run, Running))) else None
    case Report(run, ok, id) =>
      if s.holder == Reporter(run, Running) && id == s.planId
      then Some(s.(holder := Reporter(run, Reported))) else None
    case Signal(run) =>
      if s.holder == Reporter(run, Reported)
      then Some(s.(holder := Reporter(run, Signalled), reports := s.reports.Send())) else None
    case ReporterUnlock(run) =>
      if s.holder == Reporter(run, Signalled) then Some(s.(holder := Nobody)) else None
  }

  /** The state that some steps lead to, if they are possible one after the other. */
  function RunFrom(s: State, steps: seq<Event>): Option<State> {
    if steps == [] then Some(s) else
      var before := RunFrom(s, steps[..|steps| - 1]);
      if before.None? then None else Next(before.value, steps[|steps| - 1])
  }

  function Run(trace: seq<Event>): Option<State> {
    RunFrom(START, trace)
  }

  /** Steps from where others end continue them. */
  lemma {:induction false} RunOn(s: State, a: seq<Event>, b: seq<Event>)
    requires RunFrom(s, a).Some?
    ensures RunFrom(s, a + b) == RunFrom(RunFrom(s, a).value, b)
  {
    if b == [] {
      assert a + b == a;
    } else {
      var n := |b| - 1;
      assert (a + b)[..|a + b| - 1] == a + b[..n];
      RunOn(s, a, b[..n]);
    }
  }

  lemma Take(start: State, steps: seq<Event>, now: State, e: Event) returns (more: seq<Event>, next: State)
    requires RunFrom(start, steps) == Some(now) && Next(now, e).Some?
    ensures more == steps + [e] && RunFrom(start, more) == Some(next) && Next(now, e) == Some(next)
  {
    more, next := steps + [e], Next(now, e).value;
    assert more[..|steps|] == steps;
  }

  /** One run of a reporter. */
  function ReporterSteps(run: int, ok: bool, planId: string): seq<Event> {
    [ReporterLock(run), Report(run, ok, planId), Signal(run), ReporterUnlock(run)]
  }

  lemma ReporterRuns(s: State, run: int, ok: bool)
    requires s.holder.Nobody?
    ensures RunFrom(s, ReporterSteps(run, ok, s.planId)) == Some(s.(reports := Channel(true)))
  {
    hide RunFrom;
    NoStep(s);
    var a, s1 := Take(s, [], s, ReporterLock(run));
    var b, s2 := Take(s, a, s1, Report(run, ok, s.planId));
    var c, s3 := Take(s, b, s2, Signal(run));
    var d, s4 := Take(s, c, s3, ReporterUnlock(run));
    assert d == ReporterSteps(run, ok, s.planId);
  }

  lemma NoStep(s: State)
    ensures RunFrom(s, []) == Some(s)
  {
  }

  /** One run of the actuator that finds a token; `late` are steps of a reporter that takes the lock first. */
  function ActuatorSteps(late: seq<Event>, parsed: Option<string>, applies: bool): seq<Event> {
    [Poll] + late + InsideSteps(parsed, applies)
  }

  ghost predicate Overtakes(late: seq<Event>, planId: string) {
    late == [] || exists run, ok :: late == ReporterSteps(run, ok, planId)
  }

  lemma ActuatorRuns(s: State, late: seq<Event>, parsed: Option<string>, applies: bool)
    requires s.actuator.Idle? && s.holder.Nobody? && s.reports.full && Overtakes(late, s.planId)
    requires applies ==> parsed.Some?
    ensures RunFrom(s, ActuatorSteps(late, parsed, applies))
            == Some(State(Idle, Nobody, Channel(late != [] && !applies),
                    if parsed.Some? then parsed.value else s.planId))
  {
    hide RunFrom;
    NoStep(s);
    var poll, waiting := Take(s, [], s, Poll);
    assert poll == [Poll];
    var later := waiting.(reports := Channel(late != []));
    if late == [] {
      NoStep(waiting);
    } else {
      var run, ok :| late == ReporterSteps(run, ok, s.planId);
      ReporterRuns(waiting, run, ok);
    }
    RunOn(s, [Poll], late);
    InsideRuns(later, parsed, applies);
    RunOn(s, [Poll] + late, InsideSteps(parsed, applies));
  }

  /** What the actuator does with the lock. */
  function InsideSteps(parsed: Option<string>, applies: bool): seq<Event> {
    [ActuatorLock] + (if parsed.Some? then [Parse(parsed.value)] else [])
    + (if applies then [Apply, Drain] else []) + [ActuatorUnlock]
  }

  lemma InsideRuns(s: State, parsed: Option<string>, applies: bool)
    requires s.actuator.Waiting? && s.holder.Nobody? && (applies ==> parsed.Some?)
    ensures RunFrom(s, InsideSteps(parsed, applies))
            == Some(State(Idle, Nobody, if applies then Channel(false) else s.reports,
                          if parsed.Some? then parsed.value else s.planId))
  {
    hide RunFrom;
    NoStep(s);
    var steps, m := Take(s, [], s, ActuatorLock);
    if parsed.Some? {
      steps, m := Take(s, steps, m, Parse(parsed.value));
    }
    if applies {
      steps, m := Take(s, steps, m, Apply);
      steps, m := Take(s, steps, m, Drain);
    }
    steps, m := Take(s, steps, m, ActuatorUnlock);
    assert steps == InsideSteps(parsed, applies);
  }

  ghost predicate IsRun(trace: seq<Event>) {
    Run(trace).Some?
  }

  /** The state of a run after its first `k` steps. */
  ghost function At(trace: seq<Event>, k: nat): State
    requires IsRun(trace) && k <= |trace|
  {
    PrefixRuns(trace, k);
    Run(trace[..k]).value
  }

  lemma {:induction false} PrefixRuns(trace: seq<Event>, k: nat)
    requires IsRun(trace) && k <= |trace|
    ensures IsRun(trace[..k])
  {
    if k == |trace| {
      assert trace[..k] == trace;
    } else {
      var n := |trace| - 1;
      PrefixRuns(trace[..n], k);
      assert trace[..n][..k] == trace[..k];
    }
  }

  lemma StepAt(trace: seq<Event>, k: nat)
    requires IsRun(trace) && k < |trace|
    ensures Next(At(trace, k), trace[k]) == Some(At(trace, k + 1))
  {
    PrefixRuns(trace, k + 1);
    assert trace[..k + 1][..k] == trace[..k];
  }

  // ----- what every reachable state keeps -----

  predicate Inside(a: Actuator) {
    a.Entered? || a.Parsed? || a.Applied? || a.Drained?
  }

  /** Mutual exclusion: the actuator is inside its critical section exactly when it holds the lock. */
  lemma {:induction false} Exclusion(trace: seq<Event>, k: nat)
    requires IsRun(trace) && k <= |trace|
    ensures Inside(At(trace, k).actuator) <==> At(trace, k).holder == Worker
  {
    if k == 0 {
      assert trace[..0] == [];
    } else {
      Exclusion(trace, k - 1);
      StepAt(trace, k - 1);
    }
  }

  ghost function Count(trace: seq<Event>, k: nat, which: Event -> bool): nat
    requires k <= |trace|
  {
    if k == 0 then 0 else Count(trace, k - 1, which) + if which(trace[k - 1]) then 1 else 0
  }

  predicate IsEntry(e: Event) {
    e.ActuatorLock?
  }

  predicate IsSignal(e: Event) {
    e.Signal?
  }

  predicate IsFinish(e: Event) {
    e.ReporterUnlock?
  }

  /** Every signal but the last is followed by the end of its reporter run. */
  lemma {:induction false} SignalsFinish(trace: seq<Event>, k: nat)
    requires IsRun(trace) && k <= |trace|
    ensures var s := At(trace, k);
            Count(trace, k, IsSignal)
            == Count(trace, k, IsFinish) + (if s.holder.Reporter? && s.holder.phase.Signalled? then 1 else 0)
  {
    if k == 0 {
      assert trace[..0] == [];
    } else {
      SignalsFinish(trace, k - 1);
      Exclusion(trace, k - 1);
      StepAt(trace, k - 1);
      hide At;
    }
  }

  /**
   * Lock entries of the actuator, plus one that is about to happen, plus the token in the channel never exceed the
   * reporter runs that signalled; and lock entries never exceed the reporter runs that are over.
   */
  lemma {:induction false} EntriesArePaidFor(trace: seq<Event>, k: nat)
    requires IsRun(trace) && k <= |trace|
    ensures var s := At(trace, k);
            Count(trace, k, IsEntry) + (if s.actuator.Waiting? then 1 else 0) + (if s.reports.full then 1 else 0)
            <= Count(trace, k, IsSignal)
    ensures Count(trace, k, IsEntry) <= Count(trace, k, IsFinish)
  {
    if k == 0 {
      assert trace[..0] == [];
    } else {
      EntriesArePaidFor(trace, k - 1);
      SignalsFinish(trace, k - 1);
      StepAt(trace, k - 1);
      hide At;
    }
  }

  // ----- between two applies -----

  ghost predicate HeldBy(trace: seq<Event>, run: int, from: nat, to: nat)
    requires IsRun(trace) && to <= |trace|
  {
    forall n | from < n <= to :: At(trace, n).holder.Reporter? && At(trace, n).holder.run == run
  }

  /** How far the protocol has come since an apply: released, being reported, reported, entered again. */
  datatype Progress = Progress(stage: nat, unlock: nat, lock: nat, run: int,
      report: nat, ok: bool, finish: nat, entry: nat)

  /** A reporter run from its lock at `lock` on, still going on after `k` steps. */
  ghost predicate Section(trace: seq<Event>, k: nat, w: Progress, planId: string)
    requires IsRun(trace) && k <= |trace|
  {
    && w.unlock < w.lock < k && trace[w.unlock].ActuatorUnlock? && trace[w.lock] == ReporterLock(w.run)
    && HeldBy(trace, w.run, w.lock, k)
    && (!At(trace, k).holder.phase.Running? ==> w.lock < w.report < k && trace[w.report] == Report(w.run, w.ok, planId))
  }

  /** A whole reporter critical section: lock, report of the plan, unlock, with nobody else in between. */
  ghost predicate WholeSection(trace: seq<Event>, w: Progress, planId: string)
    requires IsRun(trace)
  {
    && w.unlock < w.lock < w.report < w.finish < |trace|
    && trace[w.unlock].ActuatorUnlock? && trace[w.lock] == ReporterLock(w.run)
    && trace[w.report] == Report(w.run, w.ok, planId) && trace[w.finish] == ReporterUnlock(w.run)
    && HeldBy(trace, w.run, w.lock, w.finish)
  }

  ghost predicate Tracked(trace: seq<Event>, i: nat, k: nat, w: Progress)
    requires IsRun(trace) && i < k <= |trace|
  {
    var s, id := At(trace, k), At(trace, i).planId;
    match w.stage
    case 0 =>
      s.planId == id && s.holder.Worker? && (s.actuator.Applied? || (s.actuator.Drained? && !s.reports.full))
    case 1 =>
      && s.planId == id && s.holder.Nobody? && s.actuator.Idle? && !s.reports.full
      && i < w.unlock < k && trace[w.unlock].ActuatorUnlock?
    case 2 =>
      && s.planId == id && i < w.unlock && Section(trace, k, w, id)
      && (s.actuator.Idle? || s.actuator.Waiting?)
      && (!s.holder.phase.Signalled? ==> s.actuator.Idle? && !s.reports.full)
    case 3 =>
      && i < w.unlock && WholeSection(trace, w, id) && w.finish < k
      && (s.actuator.Idle? || s.actuator.Waiting?)
    case _ =>
      i < w.unlock && WholeSection(trace, w, id) && w.finish < w.entry < k && trace[w.entry].ActuatorLock?
  }

  lemma TrackedFirst(trace: seq<Event>, i: nat) returns (w: Progress)
    requires IsRun(trace) && i < |trace| && trace[i].Apply?
    ensures Tracked(trace, i, i + 1, w)
  {
    StepAt(trace, i);
    Exclusion(trace, i + 1);
    w := Progress(0, 0, 0, 0, 0, true, 0, 0);
  }

  lemma TrackedStep(trace: seq<Event>, i: nat, k: nat, w: Progress) returns (v: Progress)
    requires IsRun(trace) && i < k < |trace| && Tracked(trace, i, k, w)
    ensures Tracked(trace, i, k + 1, v)
  {
    StepAt(trace, k);
    hide At, HeldBy;
    var e := trace[k];
    v := w;
    if w.stage == 0 && e.ActuatorUnlock? {
      v := w.(stage := 1, unlock := k);
    } else if w.stage == 1 && e.ReporterLock? {
      HeldFirst(trace, k, e.run);
      v := w.(stage := 2, lock := k, run := e.run);
    } else if w.stage == 2 && e.ReporterUnlock? {
      v := w.(stage := 3, finish := k);
    } else if w.stage == 2 {
      HeldOn(trace, w.lock, k, w.run);
      if e.Report? {
        v := w.(report := k, ok := e.ok);
      }
    } else if w.stage == 3 && e.ActuatorLock? {
      v := w.(stage := 4, entry := k);
    }
  }

  lemma HeldFirst(trace: seq<Event>, k: nat, run: int)
    requires IsRun(trace) && k < |trace| && At(trace, k + 1).holder.Reporter? && At(trace, k + 1).holder.run == run
    ensures HeldBy(trace, run, k, k + 1)
  {
    hide At;
  }

  lemma HeldOn(trace: seq<Event>, lock: nat, k: nat, run: int)
    requires IsRun(trace) && lock < k < |trace| && HeldBy(trace, run, lock, k)
    ensures At(trace, k).holder.Reporter? && At(trace, k).holder.run == run
    ensures At(trace, k + 1).holder.Reporter? && At(trace, k + 1).holder.run == run ==> HeldBy(trace, run, lock, k + 1)
  {
    hide At;
  }

  lemma {:induction false} Track(trace: seq<Event>, i: nat, k: nat) returns (w: Progress)
    requires IsRun(trace) && i < k <= |trace| && trace[i].Apply?
    ensures Tracked(trace, i, k, w)
    decreases k
  {
    if k == i + 1 {
      w := TrackedFirst(trace, i);
    } else {
      var v := Track(trace, i, k - 1);
      w := TrackedStep(trace, i, k - 1, v);
    }
  }

  /**
   * Between any two applies of any run, a whole reporter critical section runs after the first apply has unlocked and
   * before the second locks, and it reports the plan id under which the first apply was made. The report succeeds if
   * no report in between fails.
   */
  lemma ReportBetweenApplies(trace: seq<Event>, i: nat, j: nat) returns (w: Progress)
    requires IsRun(trace) && i < j < |trace| && trace[i].Apply? && trace[j].Apply?
    ensures i < w.unlock && WholeSection(trace, w, At(trace, i).planId)
    ensures w.finish < w.entry < j && trace[w.entry].ActuatorLock?
    ensures (forall k | i < k < j && trace[k].Report? :: trace[k].ok) ==> w.ok
  {
    w := Track(trace, i, j);
    StepAt(trace, j);
    Exclusion(trace, j);
  }

  /** The first apply, too, comes after a reporter run that is over. */
  lemma ReportBeforeApply(trace: seq<Event>, j: nat)
    requires IsRun(trace) && j < |trace| && trace[j].Apply?
    ensures Count(trace, j, IsFinish) > 0
  {
    EntriesArePaidFor(trace, j);
    StepAt(trace, j);
    EnteredBefore(trace, j);
  }

  lemma {:induction false} EnteredBefore(trace: seq<Event>, k: nat)
    requires IsRun(trace) && k <= |trace| && Inside(At(trace, k).actuator)
    ensures Count(trace, k, IsEntry) > 0
  {
    assert trace[..0] == [];
    if k > 0 {
      StepAt(trace, k - 1);
      if Inside(At(trace, k - 1).actuator) {
        EnteredBefore(trace, k - 1);
      }
    }
  }

  // ----- what a token is worth -----

  lemma {:induction false} BackToLock(trace: seq<Event>, k: nat, run: int) returns (lock: nat)
    requires IsRun(trace) && k <= |trace| && At(trace, k).holder.Reporter? && At(trace, k).holder.run == run
    ensures lock < k && trace[lock] == ReporterLock(run) && HeldBy(trace, run, lock, k)
    decreases k
  {
    assert trace[..0] == [];
    StepAt(trace, k - 1);
    if trace[k - 1].ReporterLock? {
      lock := k - 1;
    } else {
      lock := BackToLock(trace, k - 1, run);
    }
  }

  lemma {:induction false} ForwardToFinish(trace: seq<Event>, k: nat, j: nat, run: int) returns (finish: nat)
    requires IsRun(trace) && k <= j <= |trace| && At(trace, k).holder.Reporter? && At(trace, k).holder.run == run
    requires At(trace, j).holder == Worker
    ensures k <= finish < j && trace[finish] == ReporterUnlock(run)
    ensures forall n | k <= n <= finish :: At(trace, n).holder.Reporter? && At(trace, n).holder.run == run
    decreases j - k
  {
    StepAt(trace, k);
    Exclusion(trace, k);
    if trace[k].ReporterUnlock? {
      finish := k;
    } else {
      finish := ForwardToFinish(trace, k + 1, j, run);
    }
  }

  lemma {:induction false} ForwardToUnlock(trace: seq<Event>, k: nat, j: nat) returns (unlock: nat)
    requires IsRun(trace) && k <= j <= |trace| && At(trace, k).holder == Worker && At(trace, j).holder != Worker
    ensures k <= unlock < j && trace[unlock].ActuatorUnlock?
    decreases j - k
  {
    StepAt(trace, k);
    Exclusion(trace, k);
    if trace[k].ActuatorUnlock? {
      unlock := k;
    } else {
      unlock := ForwardToUnlock(trace, k + 1, j);
    }
  }

  lemma {:induction false} BackToEntry(trace: seq<Event>, k: nat, j: nat) returns (entry: nat)
    requires IsRun(trace) && k <= j <= |trace| && At(trace, k).holder != Worker && At(trace, j).holder == Worker
    ensures k <= entry < j && trace[entry].ActuatorLock?
    decreases j
  {
    StepAt(trace, j - 1);
    Exclusion(trace, j - 1);
    if trace[j - 1].ActuatorLock? {
      entry := j - 1;
    } else {
      entry := BackToEntry(trace, k, j - 1);
    }
  }

  /**
   * A whole reporter section with a successful report, after the unlock of apply `i` and before the lock for apply `j`.
   */
  ghost predicate Successful(trace: seq<Event>, i: nat, j: nat, w: Progress)
    requires IsRun(trace) && j <= |trace|
  {
    && i < w.unlock && w.report < |trace| && trace[w.report].Report? && w.ok
    && WholeSection(trace, w, trace[w.report].planId)
    && w.finish < w.entry < j && trace[w.entry].ActuatorLock?
  }

  lemma HeldLater(trace: seq<Event>, i: nat, lock: nat, k: nat, run: int)
    requires IsRun(trace) && i < k <= |trace| && At(trace, i + 1).holder == Worker && HeldBy(trace, run, lock, k)
    ensures i < lock
  {
    hide At;
  }

  lemma HeldThrough(trace: seq<Event>, lock: nat, k: nat, finish: nat, run: int)
    requires IsRun(trace) && k <= finish <= |trace| && HeldBy(trace, run, lock, k)
    requires forall n | k + 1 <= n <= finish :: At(trace, n).holder.Reporter? && At(trace, n).holder.run == run
    ensures HeldBy(trace, run, lock, finish)
  {
    hide At;
  }

  /** Every report between two applies is part of a whole section between them. */
  lemma SectionOf(trace: seq<Event>, i: nat, k: nat, j: nat) returns (w: Progress)
    requires IsRun(trace) && i < k < j < |trace| && trace[i].Apply? && trace[j].Apply? && trace[k].Report?
    ensures w.report == k && w.ok == trace[k].ok && i < w.unlock && WholeSection(trace, w, trace[k].planId)
    ensures w.finish < w.entry < j && trace[w.entry].ActuatorLock?
  {
    hide At, HeldBy, Next;
    var run := trace[k].run;
    ApplyHolds(trace, i);
    ApplyHolds(trace, j);
    ReportHolds(trace, k);
    var lock := BackToLock(trace, k, run);
    HeldLater(trace, i, lock, k, run);
    var finish := ForwardToFinish(trace, k + 1, j, run);
    LockIsFree(trace, lock);
    LockIsFree(trace, finish);
    var unlock := ForwardToUnlock(trace, i + 1, lock);
    var entry := BackToEntry(trace, finish + 1, j);
    HeldThrough(trace, lock, k, finish, run);
    w := Progress(4, unlock, lock, run, k, trace[k].ok, finish, entry);
  }

  lemma ApplyHolds(trace: seq<Event>, i: nat)
    requires IsRun(trace) && i < |trace| && trace[i].Apply?
    ensures At(trace, i).holder == Worker && At(trace, i + 1).holder == Worker
  {
    StepAt(trace, i);
    Exclusion(trace, i);
  }

  lemma ReportHolds(trace: seq<Event>, k: nat)
    requires IsRun(trace) && k < |trace| && trace[k].Report?
    ensures At(trace, k).holder.Reporter? && At(trace, k).holder.run == trace[k].run
    ensures At(trace, k + 1).holder.Reporter? && At(trace, k + 1).holder.run == trace[k].run
  {
    StepAt(trace, k);
  }

  lemma LockIsFree(trace: seq<Event>, k: nat)
    requires IsRun(trace) && k < |trace|
    ensures trace[k].ReporterLock? ==> At(trace, k).holder == Nobody
    ensures trace[k].ReporterUnlock? ==> At(trace, k + 1).holder == Nobody
  {
    StepAt(trace, k);
  }

  /** A successful whole report section lies between two applies exactly when some report between them succeeds. */
  lemma SuccessBetweenExactlyWhen(trace: seq<Event>, i: nat, j: nat)
    requires IsRun(trace) && i < j < |trace| && trace[i].Apply? && trace[j].Apply?
    ensures (exists w :: Successful(trace, i, j, w)) <==> exists k :: i < k < j && trace[k].Report? && trace[k].ok
  {
    hide At, HeldBy;
    if k :| i < k < j && trace[k].Report? && trace[k].ok {
      var w := SectionOf(trace, i, k, j);
      assert Successful(trace, i, j, w);
    }
    if w :| Successful(trace, i, j, w) {
      assert i < w.report < j && trace[w.report].ok;
    }
  }

  /** The token is put by a deferred call, so that a reporter run that failed lets the next apply through as well. */
  lemma FailedReportCounts() returns (trace: seq<Event>, i: nat, j: nat)
    ensures IsRun(trace) && i < j < |trace| && trace[i].Apply? && trace[j].Apply?
    ensures forall k | 0 <= k < |trace| && trace[k].Report? :: !trace[k].ok
  {
    var report, apply := ReporterSteps(1, false, ""), ActuatorSteps([], Some(""), true);
    var round := report + apply;
    assert round == [ReporterLock(1), Report(1, false, ""), Signal(1), ReporterUnlock(1),
                     Poll, ActuatorLock, Parse(""), Apply, Drain, ActuatorUnlock];
    assert forall k | 0 <= k < |round| && round[k].Report? :: !round[k].ok;
    trace, i, j := round + round, 7, 17;
    hide RunFrom, ReporterSteps, ActuatorSteps;
    ReporterRuns(START, 1, false);
    ActuatorRuns(START.(reports := Channel(true)), [], Some(""), true);
    RunOn(START, report, apply);
    RunOn(START, round, round);
  }
}
