/** Preemption: the pods to evict from a node so that a pending pod fits. */
module Victims {
  import opened GoMaps
  import opened Lists
  import opened Text
  import opened Devices
  import opened MigGpu
  import opened MigNode
  import opened Pods
  import opened Controller

  // ----- the candidates -----

  predicate IsCandidate(pod: Pod, node: string, priority: int) {
    && pod.node == node && !pod.terminating && !pod.ownedByDaemonSet && !pod.ownedByNode
    && pod.requested != map[] && PriorityOf(pod) < priority
  }

  /** The candidates in the order in which they are evicted. */
  ghost function CandidatesOf(pods: seq<Pod>, node: string, priority: int): seq<Pod> {
    StableSort(Pick(pods, p => IsCandidate(p, node, priority), true), EvictedBefore)
  }

  /** Exactly the pods below the target's priority that may be evicted, lowest priority and youngest first. */
  lemma CandidatesAreEvictable(pods: seq<Pod>, node: string, priority: int)
    ensures var cs := CandidatesOf(pods, node, priority);
            && ByRankAndYouth(cs)
            && forall c :: c in cs <==>
                 && c in pods && c.node == node && PriorityOf(c) < priority && c.requested != map[]
                 && !c.terminating && !c.ownedByDaemonSet && !c.ownedByNode
  {
    hide StableSort, Pick, EvictedBefore, PriorityOf;
    var test := p => IsCandidate(p, node, priority);
    var picked := Pick(pods, test, true);
    var cs := CandidatesOf(pods, node, priority);
    PodOrders();
    StableSortSorts(picked, EvictedBefore);
    SortedMeans(cs);
    PickMembers(pods, test, true);
    forall c ensures c in cs <==> c in picked {
      assert c in multiset(cs) <==> c in multiset(picked);
    }
    forall c ensures c in picked <==> c in pods && IsCandidate(c, node, priority) {
      assert c in picked ==> test(c);
      assert test(c) && c in pods ==> c in picked;
    }
  }

  method ListCandidateVictims(pods: seq<Pod>, node: string, priority: int) returns (cs: seq<Pod>)
    ensures cs == CandidatesOf(pods, node, priority)
  {
    ghost var test := p => IsCandidate(p, node, priority);
    var candidates: seq<Pod> := [];
    for i := 0 to |pods|
      invariant candidates == Pick(pods[..i], test, true)
    {
      assert pods[..i + 1][..i] == pods[..i];
      if IsCandidate(pods[i], node, priority) {
        candidates := candidates + [pods[i]];
      }
    }
    assert pods[..|pods|] == pods;
    cs := StableSort(candidates, EvictedBefore);
  }

  // ----- releasing what the first candidates hold -----

  /** The node once the first `k` candidates are gone. */
  ghost function After(ls: seq<Ledger>, cs: seq<Pod>, k: nat): seq<Ledger>
    requires k <= |cs|
  {
    if k == 0 then ls else Released(After(ls, cs, k - 1), cs[k - 1].requested)
  }

  ghost predicate SaneRequests(cs: seq<Pod>) {
    forall i | 0 <= i < |cs| :: NonNegative(cs[i].requested)
  }

  /** The devices in use on the node cover everything that the candidates ask for. */
  ghost predicate Covered(ls: seq<Ledger>, cs: seq<Pod>) {
    forall p :: Get(DemandOf(cs, |cs|), p) <= NodeUsed(ls, p)
  }

  /** Each of the first `n` candidates finds its devices in use when its turn comes. */
  ghost predicate AllRelease(ls: seq<Ledger>, cs: seq<Pod>, n: nat)
    requires n <= |cs|
  {
    forall k | 0 <= k < n :: Releasable(After(ls, cs, k), cs[k].requested)
  }

  lemma {:induction false} UseAfter(ls: seq<Ledger>, cs: seq<Pod>, n: nat)
    requires ValidLedgers(ls) && SaneRequests(cs) && n <= |cs| && AllRelease(ls, cs, n)
    ensures ValidLedgers(After(ls, cs, n))
    ensures forall p :: NodeUsed(After(ls, cs, n), p) == NodeUsed(ls, p) - Get(DemandOf(cs, n), p)
  {
    hide NodeUsed, Released, Releasable, ValidLedger;
    if n > 0 {
      UseAfter(ls, cs, n - 1);
      ReleasedConserves(After(ls, cs, n - 1), cs[n - 1].requested);
    }
  }

  lemma {:induction false} DemandMonotone(cs: seq<Pod>, k: nat, n: nat, p: ProfileName)
    requires SaneRequests(cs) && k <= n <= |cs|
    ensures Get(DemandOf(cs, k), p) <= Get(DemandOf(cs, n), p)
    decreases n
  {
    if k < n {
      DemandMonotone(cs, k, n - 1, p);
    }
  }

  /** Every candidate can be released in turn exactly when the node's use covers all of them together. */
  lemma CoveredExactlyWhen(ls: seq<Ledger>, cs: seq<Pod>)
    requires ValidLedgers(ls) && SaneRequests(cs)
    ensures Covered(ls, cs) <==> AllRelease(ls, cs, |cs|)
  {
    hide NodeUsed, After, DemandOf;
    if AllRelease(ls, cs, |cs|) {
      UseAfter(ls, cs, |cs|);
      forall p ensures Get(DemandOf(cs, |cs|), p) <= NodeUsed(ls, p) {
        UseNonNegative(After(ls, cs, |cs|), p);
      }
    }
    if Covered(ls, cs) {
      CoveredReleases(ls, cs, |cs|);
    }
  }

  lemma UseNonNegative(ls: seq<Ledger>, p: ProfileName)
    requires ValidLedgers(ls)
    ensures NodeUsed(ls, p) >= 0
  {
    FreeSumNonNegative(ls, |ls|, p);
  }

  lemma {:induction false} CoveredReleases(ls: seq<Ledger>, cs: seq<Pod>, n: nat)
    requires ValidLedgers(ls) && SaneRequests(cs) && n <= |cs| && Covered(ls, cs)
    ensures AllRelease(ls, cs, n)
  {
    hide NodeUsed, After;
    if n > 0 {
      CoveredReleases(ls, cs, n - 1);
      UseAfter(ls, cs, n - 1);
      var requested, ws := cs[n - 1].requested, After(ls, cs, n - 1);
      forall p | p in requested ensures NodeUsed(ws, p) >= requested[p] {
        DemandMonotone(cs, n, |cs|, p);
      }
    }
  }

  // ----- the search -----

  /** The node has room for the request, as it is or after repartitioning. */
  ghost predicate Admits(ls: seq<Ledger>, requested: Counts) {
    Hosts(ls, requested) || (ValidLedgers(ls) && Passes(ls, requested))
  }

  /** No shorter non-empty prefix of the candidates makes room. */
  ghost predicate NoneAdmits(ls: seq<Ledger>, cs: seq<Pod>, requested: Counts, k: nat)
    requires k <= |cs|
  {
    forall j | 1 <= j <= k :: !Admits(After(ls, cs, j), requested)
  }

  ghost predicate ShortestPrefix(ls: seq<Ledger>, cs: seq<Pod>, requested: Counts, k: nat) {
    && 1 <= k <= |cs|
    && Admits(After(ls, cs, k), requested) && NoneAdmits(ls, cs, requested, k - 1)
  }

  datatype Search = Failed | Infeasible | Feasible(victims: seq<Pod>)

  method HasFreeCapacityFor(node: Node, requested: Counts) returns (ok: bool)
    requires node.Valid()
    ensures ok <==> Hosts(node.View(), requested)
    ensures ok <==> forall p | p in requested :: NodeFree(node.View(), p) >= requested[p]
  {
    hide NodeFree;
    var free := node.FreeGeometry();
    ok := forall p | p in requested :: Get(free, p) >= requested[p];
  }

  /** The two tests for room: free devices first, then a dry run. */
  method MakesRoom(node: Node, requested: Counts) returns (ok: bool)
    requires node.Valid()
    ensures ok <==> Admits(node.View(), requested)
    ensures ok <==> Hosts(node.View(), requested) || Passes(node.View(), requested)
  {
    hide Hosts, Passes, Node.View, Node.Valid;
    ok := HasFreeCapacityFor(node, requested);
    if !ok {
      ok := DryRun(node, requested);
    }
  }

  /** What the loop guarantees when every candidate asks for something that the node has in use. */
  ghost predicate FoundIn(ls: seq<Ledger>, cs: seq<Pod>, requested: Counts, r: Search) {
    match r
    case Failed => false
    case Infeasible => NoneAdmits(ls, cs, requested, |cs|)
    case Feasible(victims) => exists k: nat :: ShortestPrefix(ls, cs, requested, k) && victims == cs[..k]
  }

  // ----- the loop, candidate by candidate -----

  /** The candidate asks for something, and the node has all of it in use. */
  ghost predicate Gives(ls: seq<Ledger>, c: Pod) {
    c.requested != map[] && Releasable(ls, c.requested)
  }

  /** What considering a candidate does to the working copy: a refused release may leave something behind. */
  ghost predicate WorkStep(v: seq<Ledger>, w: seq<Ledger>, c: Pod) {
    && ValidLedgers(w)
    && if c.requested == map[] then w == v
       else if Releasable(v, c.requested) then w == Released(v, c.requested)
       else LeftBehind(v, w, c.requested)
  }

  /** The candidates among the first `n` that were released. */
  ghost function VictimsOf(cs: seq<Pod>, states: seq<seq<Ledger>>, n: nat): seq<Pod>
    requires n <= |cs| && n <= |states|
  {
    if n == 0 then [] else
      VictimsOf(cs, states, n - 1) + if Gives(states[n - 1], cs[n - 1]) then [cs[n - 1]] else []
  }

  ghost predicate WorkRun(ls: seq<Ledger>, cs: seq<Pod>, requested: Counts, states: seq<seq<Ledger>>, quiet: int) {
    && 1 <= |states| <= |cs| + 1 && states[0] == ls
    && forall i | 0 <= i < |states| - 1 :: TurnOf(cs, requested, states, quiet, i)
  }

  /** The turn of candidate `i`; before turn `quiet` no release makes room. */
  ghost predicate TurnOf(cs: seq<Pod>, requested: Counts, states: seq<seq<Ledger>>, quiet: int, i: int) {
    && 0 <= i < |states| - 1 && i < |cs|
    && WorkStep(states[i], states[i + 1], cs[i])
    && (i < quiet && Gives(states[i], cs[i]) ==> !Admits(states[i + 1], requested))
  }

  /**
   * The whole behaviour of the loop: `states` are the working copies. It stops at the first release that makes room,
   * with the candidates released so far, and gives up after the last candidate.
   */
  ghost predicate Looked(ls: seq<Ledger>, cs: seq<Pod>, requested: Counts, states: seq<seq<Ledger>>, r: Search) {
    var n := |states| - 1;
    match r
    case Failed => false
    case Infeasible => n == |cs| && WorkRun(ls, cs, requested, states, n)
    case Feasible(victims) =>
      && 1 <= n <= |cs| && WorkRun(ls, cs, requested, states, n - 1)
      && Gives(states[n - 1], cs[n - 1]) && Admits(states[n], requested)
      && victims == VictimsOf(cs, states, n)
  }

  lemma {:induction false} VictimsOfPrefix(cs: seq<Pod>, a: seq<seq<Ledger>>, b: seq<seq<Ledger>>, n: nat)
    requires n <= |cs| && n <= |a| && n <= |b| && a[..n] == b[..n]
    ensures VictimsOf(cs, a, n) == VictimsOf(cs, b, n)
  {
    hide Gives;
    if n > 0 {
      assert a[n - 1] == a[..n][n - 1] && b[n - 1] == b[..n][n - 1];
      assert a[..n - 1] == a[..n][..n - 1] && b[..n - 1] == b[..n][..n - 1];
      VictimsOfPrefix(cs, a, b, n - 1);
    }
  }

  lemma {:induction false} VictimsAreCandidates(cs: seq<Pod>, states: seq<seq<Ledger>>, n: nat)
    requires n <= |cs| && n <= |states|
    ensures forall v | v in VictimsOf(cs, states, n) :: v in cs
    ensures |VictimsOf(cs, states, n)| <= n
    ensures VictimsOf(cs, states, n) == cs[..n] <==> forall i | 0 <= i < n :: Gives(states[i], cs[i])
  {
    hide Gives;
    if n > 0 {
      VictimsAreCandidates(cs, states, n - 1);
      assert cs[..n] == cs[..n - 1] + [cs[n - 1]];
      if VictimsOf(cs, states, n) == cs[..n] {
        assert Gives(states[n - 1], cs[n - 1]);
        assert VictimsOf(cs, states, n - 1) == VictimsOf(cs, states, n)[..n - 1];
      }
    }
  }

  /** One candidate: release its devices, and see whether that makes room. */
  method Consider(working: Node, c: Pod, requested: Counts) returns (released: bool, room: bool)
    requires working.Valid() && NonNegative(c.requested)
    modifies working.gpus
    ensures working.Valid() && WorkStep(old(working.View()), working.View(), c)
    ensures released <==> Gives(old(working.View()), c)
    ensures room <==> released && Admits(working.View(), requested)
  {
    hide Node.View, Node.Valid, Admits, Released, Releasable, LeftBehind, Conserved, ValidLedgers;
    released, room := false, false;
    if c.requested == map[] {
      return;
    }
    released := working.ReleaseProfiles(c.requested);
    if released {
      room := MakesRoom(working, requested);
    }
  }

  lemma WorkRunStarts(ls: seq<Ledger>, cs: seq<Pod>, requested: Counts)
    ensures WorkRun(ls, cs, requested, [ls], 0) && VictimsOf(cs, [ls], 0) == []
  {
  }

  lemma TurnKept(cs: seq<Pod>, requested: Counts, past: seq<seq<Ledger>>, w: seq<Ledger>, quiet: int, more: int, j: nat)
    requires TurnOf(cs, requested, past, quiet, j) && (more <= quiet || j < quiet)
    ensures TurnOf(cs, requested, past + [w], more, j)
  {
    hide WorkStep, Gives, Admits;
    assert (past + [w])[j] == past[j] && (past + [w])[j + 1] == past[j + 1];
  }

  lemma WorkRunStep(ls: seq<Ledger>, cs: seq<Pod>, requested: Counts, past: seq<seq<Ledger>>, w: seq<Ledger>, i: nat)
    requires |past| == i + 1 <= |cs| && WorkRun(ls, cs, requested, past, i) && WorkStep(past[i], w, cs[i])
    ensures WorkRun(ls, cs, requested, past + [w], i)
    ensures !(Gives(past[i], cs[i]) && Admits(w, requested)) ==> WorkRun(ls, cs, requested, past + [w], i + 1)
  {
    hide WorkStep, Gives, Admits;
    var states := past + [w];
    var next := i + 1;
    assert states[i] == past[i] && states[next] == w && states[0] == past[0];
    assert TurnOf(cs, requested, states, i, i);
    assert !(Gives(past[i], cs[i]) && Admits(w, requested)) ==> TurnOf(cs, requested, states, next, i);
    hide TurnOf;
    forall j | 0 <= j < i ensures TurnOf(cs, requested, states, i, j) && TurnOf(cs, requested, states, next, j) {
      assert TurnOf(cs, requested, past, i, j);
      TurnKept(cs, requested, past, w, i, i, j);
      TurnKept(cs, requested, past, w, i, next, j);
    }
  }

  lemma VictimsStep(cs: seq<Pod>, past: seq<seq<Ledger>>, w: seq<Ledger>, i: nat)
    requires |past| == i + 1 <= |cs|
    ensures VictimsOf(cs, past + [w], i + 1) == VictimsOf(cs, past, i) + if Gives(past[i], cs[i]) then [cs[i]] else []
  {
    hide Gives;
    assert (past + [w])[..i] == past[..i] && (past + [w])[i] == past[i];
    VictimsOfPrefix(cs, past, past + [w], i);
  }

  /** The loop over the candidates. */
  method Evict(working: Node, cs: seq<Pod>, requested: Counts) returns (r: Search, ghost states: seq<seq<Ledger>>)
    requires working.Valid() && SaneRequests(cs)
    modifies working.gpus
    ensures Looked(old(working.View()), cs, requested, states, r)
  {
    hide Node.View, Node.Valid, Admits, Gives, WorkStep, WorkRun, VictimsOf;
    var victims: seq<Pod> := [];
    states := [working.View()];
    WorkRunStarts(working.View(), cs, requested);
    for i := 0 to |cs|
      invariant working.Valid() && |states| == i + 1 && states[i] == working.View()
      invariant WorkRun(old(working.View()), cs, requested, states, i)
      invariant victims == VictimsOf(cs, states, i)
    {
      ghost var ls, past := old(working.View()), states;
      var released, room := Consider(working, cs[i], requested);
      states := states + [working.View()];
      WorkRunStep(ls, cs, requested, past, working.View(), i);
      VictimsStep(cs, past, working.View(), i);
      if released {
        victims := victims + [cs[i]];
      }
      if room {
        return Feasible(victims), states;
      }
    }
    r := Infeasible;
  }

  // ----- what the victims are worth -----

  lemma {:induction false} ReleasedInTurn(
    ls: seq<Ledger>, cs: seq<Pod>, requested: Counts, states: seq<seq<Ledger>>, quiet: int, n: nat)
    requires WorkRun(ls, cs, requested, states, quiet) && n < |states|
    requires forall i | 0 <= i < n :: Gives(states[i], cs[i])
    ensures states[n] == After(ls, cs, n)
  {
    hide Released, Releasable, LeftBehind, Admits;
    if n > 0 {
      ReleasedInTurn(ls, cs, requested, states, quiet, n - 1);
      assert TurnOf(cs, requested, states, quiet, n - 1) && Gives(states[n - 1], cs[n - 1]);
    }
  }

  lemma {:induction false} AllGive(
    ls: seq<Ledger>, cs: seq<Pod>, requested: Counts, states: seq<seq<Ledger>>, quiet: int, n: nat)
    requires WorkRun(ls, cs, requested, states, quiet) && n < |states| && AllRelease(ls, cs, n)
    requires forall c | c in cs :: c.requested != map[]
    ensures forall i | 0 <= i < n :: Gives(states[i], cs[i])
  {
    hide Released, Releasable, LeftBehind, Admits, After;
    if n > 0 {
      AllGive(ls, cs, requested, states, quiet, n - 1);
      ReleasedInTurn(ls, cs, requested, states, quiet, n - 1);
      assert cs[n - 1] in cs;
    }
  }

  /** The victims are all the candidates looked at exactly when each of these finds its devices in use in its turn. */
  lemma PrefixExactlyWhen(ls: seq<Ledger>, cs: seq<Pod>, requested: Counts, states: seq<seq<Ledger>>, r: Search)
    requires Looked(ls, cs, requested, states, r) && r.Feasible? && forall c | c in cs :: c.requested != map[]
    ensures r.victims == cs[..|states| - 1] <==> AllRelease(ls, cs, |states| - 1)
  {
    hide Released, Releasable, LeftBehind, Admits, After;
    var n := |states| - 1;
    VictimsAreCandidates(cs, states, n);
    if AllRelease(ls, cs, n) {
      AllGive(ls, cs, requested, states, n - 1, n);
    }
    if r.victims == cs[..n] {
      forall k | 0 <= k < n ensures Releasable(After(ls, cs, k), cs[k].requested) {
        ReleasedInTurn(ls, cs, requested, states, n - 1, k);
        assert Gives(states[k], cs[k]);
      }
    }
  }

  /** No candidate that was looked at and skipped left anything behind. */
  ghost predicate CleanSkips(cs: seq<Pod>, states: seq<seq<Ledger>>, n: nat)
    requires n <= |cs| && n < |states|
  {
    forall i | 0 <= i < n :: Gives(states[i], cs[i]) || states[i + 1] == states[i]
  }

  lemma {:induction false} AfterPrefix(ls: seq<Ledger>, a: seq<Pod>, b: seq<Pod>, n: nat)
    requires n <= |a| && n <= |b| && a[..n] == b[..n]
    ensures After(ls, a, n) == After(ls, b, n)
  {
    hide Released;
    if n > 0 {
      assert a[n - 1] == a[..n][n - 1] && b[n - 1] == b[..n][n - 1];
      assert a[..n - 1] == a[..n][..n - 1] && b[..n - 1] == b[..n][..n - 1];
      AfterPrefix(ls, a, b, n - 1);
    }
  }

  /** The node once the victims among the first `n` candidates are gone, and nothing else. */
  ghost function Evicted(ls: seq<Ledger>, cs: seq<Pod>, states: seq<seq<Ledger>>, n: nat): seq<Ledger>
    requires n <= |cs| && n <= |states|
  {
    var victims := VictimsOf(cs, states, n);
    After(ls, victims, |victims|)
  }

  lemma EvictedStep(ls: seq<Ledger>, cs: seq<Pod>, states: seq<seq<Ledger>>, n: nat)
    requires n < |cs| && n < |states|
    ensures Evicted(ls, cs, states, n + 1)
            == if Gives(states[n], cs[n]) then Released(Evicted(ls, cs, states, n), cs[n].requested)
               else Evicted(ls, cs, states, n)
  {
    hide Released, Gives;
    var past, victims := VictimsOf(cs, states, n), VictimsOf(cs, states, n + 1);
    if Gives(states[n], cs[n]) {
      assert victims == past + [cs[n]] && victims[..|past|] == past[..|past|];
      AfterPrefix(ls, past, victims, |past|);
    } else {
      assert victims == past;
    }
  }

  lemma {:induction false} SimulationIsEviction(
    ls: seq<Ledger>, cs: seq<Pod>, requested: Counts, states: seq<seq<Ledger>>, quiet: int, n: nat)
    requires WorkRun(ls, cs, requested, states, quiet) && n <= |cs| && n < |states| && CleanSkips(cs, states, n)
    ensures states[n] == Evicted(ls, cs, states, n)
  {
    hide Released, Releasable, LeftBehind, Admits, Evicted;
    if n == 0 {
      EvictedNone(ls, cs, states);
    } else {
      SimulationIsEviction(ls, cs, requested, states, quiet, n - 1);
      assert TurnOf(cs, requested, states, quiet, n - 1);
      EvictedStep(ls, cs, states, n - 1);
    }
  }

  /** The victims really make room when no skipped candidate left anything behind in the working copy. */
  lemma VictimsSuffice(ls: seq<Ledger>, cs: seq<Pod>, requested: Counts, states: seq<seq<Ledger>>, r: Search)
    requires Looked(ls, cs, requested, states, r) && r.Feasible? && CleanSkips(cs, states, |states| - 1)
    ensures Admits(After(ls, r.victims, |r.victims|), requested)
  {
    hide Admits, Gives, WorkStep, After;
    SimulationIsEviction(ls, cs, requested, states, |states| - 2, |states| - 1);
  }

  /** A refused release never raises the use of a profile, on any number of GPUs. */
  lemma {:induction false} SkipLowersUse(v: seq<Ledger>, w: seq<Ledger>, held: Counts, n: nat, p: ProfileName)
    requires ValidLedgers(v) && LeftBehind(v, w, held) && n <= |v| == |w|
    ensures UsedSum(w, n, p) <= UsedSum(v, n, p)
    ensures (exists i :: 0 <= i < n && Get(w[i].used, p) != Get(v[i].used, p)) ==> UsedSum(w, n, p) < UsedSum(v, n, p)
  {
    hide LeftBehind;
    if n > 0 {
      SkipLowersUse(v, w, held, n - 1, p);
      SkipAt(v, w, held, n - 1, p);
    }
  }

  lemma SkipAt(v: seq<Ledger>, w: seq<Ledger>, held: Counts, i: nat, p: ProfileName)
    requires ValidLedgers(v) && LeftBehind(v, w, held) && i < |v|
    ensures |w| == |v| && w[i].index == v[i].index && w[i].allowed == v[i].allowed
    ensures Get(w[i].used, p) <= Get(v[i].used, p)
    ensures Get(w[i].used, p) + Get(w[i].free, p) == Get(v[i].used, p) + Get(v[i].free, p)
  {
    hide UsedSum;
    var done :| done <= held.Keys && GaveBack(v, w, held, done);
    assert w[i].index == v[i].index;
  }

  /** A skip that leaves something behind lowers the node's use of some profile. */
  lemma DirtySkip(v: seq<Ledger>, w: seq<Ledger>, held: Counts) returns (p: ProfileName)
    requires ValidLedgers(v) && ValidLedgers(w) && LeftBehind(v, w, held) && w != v
    ensures NodeUsed(w, p) < NodeUsed(v, p)
  {
    hide LeftBehind, UsedSum;
    var i := Differs(v, w, held);
    if forall q :: Get(w[i].used, q) == Get(v[i].used, q) {
      SameLedger(v, w, held, i);
      assert false;
    }
    p :| Get(w[i].used, p) != Get(v[i].used, p);
    SkipAt(v, w, held, i, p);
    SkipLowersUse(v, w, held, |v|, p);
  }

  lemma Differs(v: seq<Ledger>, w: seq<Ledger>, held: Counts) returns (i: nat)
    requires LeftBehind(v, w, held) && w != v
    ensures i < |v| == |w| && w[i] != v[i]
  {
    i :| i < |v| && w[i] != v[i];
  }

  lemma SameLedger(v: seq<Ledger>, w: seq<Ledger>, held: Counts, i: nat)
    requires ValidLedgers(v) && ValidLedgers(w) && LeftBehind(v, w, held) && i < |v|
    requires |w| == |v| && forall q :: Get(w[i].used, q) == Get(v[i].used, q)
    ensures w[i] == v[i]
  {
    hide LeftBehind;
    forall q ensures Get(w[i].free, q) == Get(v[i].free, q) {
      SkipAt(v, w, held, i, q);
    }
    SkipAt(v, w, held, i, "");
    PositiveSame(w[i].used, v[i].used);
    PositiveSame(w[i].free, v[i].free);
  }

  /**
   * The working copy never has more in use than the node would after evicting the victims, and less once a skip is
   * dirty.
   */
  lemma {:induction false} SimulationFreesMore(
    ls: seq<Ledger>, cs: seq<Pod>, requested: Counts, states: seq<seq<Ledger>>, quiet: int, n: nat)
    requires ValidLedgers(ls) && SaneRequests(cs) && WorkRun(ls, cs, requested, states, quiet)
    requires n <= |cs| && n < |states|
    ensures ValidLedgers(states[n]) && ValidLedgers(Evicted(ls, cs, states, n))
    ensures forall p :: NodeUsed(states[n], p) <= NodeUsed(Evicted(ls, cs, states, n), p)
    ensures !CleanSkips(cs, states, n) ==> exists p :: NodeUsed(states[n], p) < NodeUsed(Evicted(ls, cs, states, n), p)
  {
    hide Released, Admits, NodeUsed, ValidLedgers, Evicted, LeftBehind;
    if n == 0 {
      assert Evicted(ls, cs, states, 0) == ls by { EvictedNone(ls, cs, states); }
    } else {
      SimulationFreesMore(ls, cs, requested, states, quiet, n - 1);
      assert TurnOf(cs, requested, states, quiet, n - 1);
      EvictedStep(ls, cs, states, n - 1);
      SimulationStep(states[n - 1], states[n], Evicted(ls, cs, states, n - 1), cs[n - 1]);
      assert CleanSkips(cs, states, n - 1) && !CleanSkips(cs, states, n) ==>
          !Gives(states[n - 1], cs[n - 1]) && states[n] != states[n - 1];
    }
  }

  lemma EvictedNone(ls: seq<Ledger>, cs: seq<Pod>, states: seq<seq<Ledger>>)
    ensures Evicted(ls, cs, states, 0) == ls
  {
  }

  /** One turn: `v` and `w` are the working copies, `e` is the node with the victims so far gone. */
  lemma SimulationStep(v: seq<Ledger>, w: seq<Ledger>, e: seq<Ledger>, c: Pod)
    requires ValidLedgers(v) && ValidLedgers(e) && NonNegative(c.requested) && WorkStep(v, w, c)
    requires forall p :: NodeUsed(v, p) <= NodeUsed(e, p)
    ensures var next := if Gives(v, c) then Released(e, c.requested) else e;
            && ValidLedgers(w) && ValidLedgers(next) && (forall p :: NodeUsed(w, p) <= NodeUsed(next, p))
            && ((exists p :: NodeUsed(v, p) < NodeUsed(e, p)) || (!Gives(v, c) && w != v) ==>
                  exists p :: NodeUsed(w, p) < NodeUsed(next, p))
  {
    hide Released, NodeUsed, LeftBehind;
    if Gives(v, c) {
      assert Releasable(e, c.requested);
      ReleasedConserves(v, c.requested);
      ReleasedConserves(e, c.requested);
      if p :| NodeUsed(v, p) < NodeUsed(e, p) {
        assert NodeUsed(w, p) < NodeUsed(Released(e, c.requested), p);
      }
    } else if c.requested != map[] {
      forall p ensures NodeUsed(w, p) <= NodeUsed(v, p) {
        SkippedUse(v, w, c.requested, p);
      }
      if p :| NodeUsed(v, p) < NodeUsed(e, p) {
        assert NodeUsed(w, p) < NodeUsed(e, p);
      } else if w != v {
        var p := DirtySkip(v, w, c.requested);
        assert NodeUsed(w, p) < NodeUsed(e, p);
      }
    }
  }

  lemma SkippedUse(v: seq<Ledger>, w: seq<Ledger>, held: Counts, p: ProfileName)
    requires ValidLedgers(v) && LeftBehind(v, w, held)
    ensures NodeUsed(w, p) <= NodeUsed(v, p)
  {
    var done :| done <= held.Keys && GaveBack(v, w, held, done);
    SkipLowersUse(v, w, held, |v|, p);
  }

  /** A working copy is what evicting the victims leads to exactly when no skipped candidate left anything behind. */
  lemma ExactIfClean(ls: seq<Ledger>, cs: seq<Pod>, requested: Counts, states: seq<seq<Ledger>>, quiet: int, n: nat)
    requires ValidLedgers(ls) && SaneRequests(cs) && WorkRun(ls, cs, requested, states, quiet)
    requires n <= |cs| && n < |states|
    ensures states[n] == Evicted(ls, cs, states, n) <==> CleanSkips(cs, states, n)
  {
    hide Evicted, NodeUsed, ValidLedgers, CleanSkips, WorkRun;
    SimulationFreesMore(ls, cs, requested, states, quiet, n);
    if CleanSkips(cs, states, n) {
      SimulationIsEviction(ls, cs, requested, states, quiet, n);
    }
  }

  // ----- the condition, on node and candidates alone -----

  /** Nothing that the candidate asks for is in use. */
  ghost predicate NoneInUse(ls: seq<Ledger>, c: Pod) {
    forall p | p in c.requested && c.requested[p] > 0 :: NodeUsed(ls, p) == 0
  }

  ghost predicate AllOrNone(ls: seq<Ledger>, c: Pod) {
    Gives(ls, c) || NoneInUse(ls, c)
  }

  /** The node once those among the first `k` candidates that find all their devices in use are gone. */
  ghost function Skipping(ls: seq<Ledger>, cs: seq<Pod>, k: nat): seq<Ledger>
    requires k <= |cs|
  {
    if k == 0 then ls else
      var v := Skipping(ls, cs, k - 1);
      if Gives(v, cs[k - 1]) then Released(v, cs[k - 1].requested) else v
  }

  /** Each of the first `n` candidates finds all of its devices in use in its turn, or none of them. */
  ghost predicate Clean(ls: seq<Ledger>, cs: seq<Pod>, n: nat)
    requires n <= |cs|
  {
    forall k | 0 <= k < n :: AllOrNone(Skipping(ls, cs, k), cs[k])
  }

  lemma {:induction false} SkippingValid(ls: seq<Ledger>, cs: seq<Pod>, n: nat)
    requires ValidLedgers(ls) && SaneRequests(cs) && n <= |cs|
    ensures ValidLedgers(Skipping(ls, cs, n))
  {
    hide Released, ValidLedgers, NodeUsed;
    if n > 0 {
      SkippingValid(ls, cs, n - 1);
      if Gives(Skipping(ls, cs, n - 1), cs[n - 1]) {
        ReleasedConserves(Skipping(ls, cs, n - 1), cs[n - 1].requested);
      }
    }
  }

  /** A skip is clean if none of the profiles that the candidate asks for is in use. */
  lemma NothingInUseIsClean(v: seq<Ledger>, w: seq<Ledger>, c: Pod)
    requires ValidLedgers(v) && NonNegative(c.requested) && WorkStep(v, w, c) && !Gives(v, c) && NoneInUse(v, c)
    ensures w == v
  {
    if c.requested != map[] {
      hide Released;
      var done :| done <= c.requested.Keys && GaveBack(v, w, c.requested, done);
      forall i | 0 <= i < |v| ensures w[i] == v[i] {
        forall p ensures Get(w[i].used, p) == Get(v[i].used, p) && Get(w[i].free, p) == Get(v[i].free, p) {
          if p in done {
            NothingTaken(v, c.requested[p], i, p);
          }
        }
        PositiveSame(w[i].used, v[i].used);
        PositiveSame(w[i].free, v[i].free);
      }
    }
  }

  lemma NothingTaken(v: seq<Ledger>, quantity: int, i: nat, p: ProfileName)
    requires ValidLedgers(v) && i < |v| && (quantity <= 0 || NodeUsed(v, p) == 0)
    ensures Taken(v, quantity, i, p) == 0
  {
    UsedAtMost(v, i + 1, |v|, p);
    FreeSumNonNegative(v, i, p);
    UsedSumStep(v, i, p);
  }

  /** In a clean run every working copy is determined by node and candidates, and no skip leaves anything behind. */
  lemma {:induction false} CleanRun(
    ls: seq<Ledger>, cs: seq<Pod>, requested: Counts, states: seq<seq<Ledger>>, quiet: int, n: nat)
    requires ValidLedgers(ls) && SaneRequests(cs) && WorkRun(ls, cs, requested, states, quiet)
    requires n <= |cs| && n < |states| && Clean(ls, cs, n)
    ensures states[n] == Skipping(ls, cs, n) && CleanSkips(cs, states, n)
  {
    hide ValidLedgers, Gives, Skipping, AllOrNone, WorkStep, Admits, Released;
    if n == 0 {
      SkippingStarts(ls, cs);
    } else {
      CleanRun(ls, cs, requested, states, quiet, n - 1);
      SkippingValid(ls, cs, n - 1);
      assert TurnOf(cs, requested, states, quiet, n - 1) && AllOrNone(Skipping(ls, cs, n - 1), cs[n - 1]);
      OnlyTurn(states[n - 1], states[n], cs[n - 1]);
      SkippingStep(ls, cs, n - 1);
    }
  }

  lemma SkippingStarts(ls: seq<Ledger>, cs: seq<Pod>)
    ensures Skipping(ls, cs, 0) == ls
  {
  }

  lemma SkippingStep(ls: seq<Ledger>, cs: seq<Pod>, k: nat)
    requires k < |cs|
    ensures var v := Skipping(ls, cs, k);
            Skipping(ls, cs, k + 1) == if Gives(v, cs[k]) then Released(v, cs[k].requested) else v
  {
    hide Gives, Released;
  }

  /** If a candidate finds all its devices in use or none, its turn can go one way only. */
  lemma OnlyTurn(v: seq<Ledger>, w: seq<Ledger>, c: Pod)
    requires ValidLedgers(v) && NonNegative(c.requested) && WorkStep(v, w, c) && AllOrNone(v, c)
    ensures w == if Gives(v, c) then Released(v, c.requested) else v
  {
    hide Released, Releasable, LeftBehind, NoneInUse, ValidLedgers;
    if !Gives(v, c) {
      NothingInUseIsClean(v, w, c);
    }
  }

  /** If nothing that a skipped candidate asks for is in use, leaving the working copy alone is a possible turn. */
  lemma CleanStep(v: seq<Ledger>, c: Pod)
    requires ValidLedgers(v) && NonNegative(c.requested) && AllOrNone(v, c)
    ensures WorkStep(v, if Gives(v, c) then Released(v, c.requested) else v, c)
  {
    hide Released, NodeUsed, Taken, ValidLedger;
    if Gives(v, c) {
      ReleasedConserves(v, c.requested);
    } else if c.requested != map[] {
      forall i, p | 0 <= i < |v| && p in c.requested ensures Taken(v, c.requested[p], i, p) == 0 {
        NothingTaken(v, c.requested[p], i, p);
      }
      assert GaveBack(v, v, c.requested, c.requested.Keys);
      var p :| p in c.requested && NodeUsed(v, p) < c.requested[p];
      Stuck(v, v, c.requested, c.requested.Keys, p);
    }
  }

  /** If a skipped candidate finds some of its devices in use, it may leave them behind as free. */
  lemma DirtyStep(v: seq<Ledger>, c: Pod)
    requires ValidLedgers(v) && NonNegative(c.requested) && !AllOrNone(v, c)
    ensures WorkStep(v, Released(v, c.requested), c) && Released(v, c.requested) != v
  {
    hide Released, NodeUsed, Taken;
    var rs := Released(v, c.requested);
    ReleasedValid(v, c.requested);
    forall i {:trigger rs[i]} | 0 <= i < |v|
      ensures rs[i].index == v[i].index && rs[i].allowed == v[i].allowed
      ensures forall p ::
                && Get(rs[i].used, p)
                   == Get(v[i].used, p) - (if p in c.requested then Taken(v, c.requested[p], i, p) else 0)
                && Get(rs[i].free, p)
                   == Get(v[i].free, p) + (if p in c.requested then Taken(v, c.requested[p], i, p) else 0)
    {
      ReleasedKeepsIdentity(v, c.requested, i);
      forall p { GiveBackCounts(v, c.requested, i, p); }
    }
    assert GaveBack(v, rs, c.requested, c.requested.Keys);
    var p :| p in c.requested && c.requested[p] > 0 && NodeUsed(v, p) != 0;
    var q :| q in c.requested && NodeUsed(v, q) < c.requested[q];
    Stuck(v, rs, c.requested, c.requested.Keys, q);
    UsedDrops(v, c.requested, p);
  }

  lemma UsedDrops(v: seq<Ledger>, requested: Counts, p: ProfileName)
    requires ValidLedgers(v) && NonNegative(requested) && p in requested && requested[p] > 0 && NodeUsed(v, p) != 0
    ensures NodeUsed(Released(v, requested), p) < NodeUsed(v, p)
  {
    hide Released;
    UseNonNegative(v, p);
    TakenSum(v, requested, |v|, p);
  }

  lemma {:induction false} FirstDirty(ls: seq<Ledger>, cs: seq<Pod>, n: nat) returns (k: nat)
    requires n <= |cs| && !Clean(ls, cs, n)
    ensures k < n && Clean(ls, cs, k) && !AllOrNone(Skipping(ls, cs, k), cs[k])
  {
    hide AllOrNone, Skipping;
    if Clean(ls, cs, n - 1) {
      k := n - 1;
    } else {
      k := FirstDirty(ls, cs, n - 1);
    }
  }

  lemma AnyTurn(ls: seq<Ledger>, cs: seq<Pod>, requested: Counts, past: seq<seq<Ledger>>, w: seq<Ledger>, i: nat)
    requires |past| == i + 1 <= |cs| && WorkRun(ls, cs, requested, past, 0) && WorkStep(past[i], w, cs[i])
    ensures WorkRun(ls, cs, requested, past + [w], 0)
  {
    hide WorkStep, Gives, Admits;
    var states := past + [w];
    assert states[i] == past[i] && states[i + 1] == w && states[0] == past[0];
    assert TurnOf(cs, requested, states, 0, i);
    hide TurnOf;
    forall j | 0 <= j < i ensures TurnOf(cs, requested, states, 0, j) {
      assert TurnOf(cs, requested, past, 0, j);
      TurnKept(cs, requested, past, w, 0, 0, j);
    }
  }

  /** A run in which no skipped candidate leaves anything behind. */
  lemma {:induction false} SkippingRun(ls: seq<Ledger>, cs: seq<Pod>, requested: Counts, k: nat)
    returns (states: seq<seq<Ledger>>)
    requires ValidLedgers(ls) && SaneRequests(cs) && k <= |cs| && Clean(ls, cs, k)
    ensures |states| == k + 1 && states[k] == Skipping(ls, cs, k) && WorkRun(ls, cs, requested, states, 0)
  {
    hide Released, Gives, WorkStep, ValidLedgers, AllOrNone, WorkRun;
    if k == 0 {
      states := [ls];
      WorkRunStarts(ls, cs, requested);
    } else {
      var past := SkippingRun(ls, cs, requested, k - 1);
      SkippingValid(ls, cs, k - 1);
      CleanStep(Skipping(ls, cs, k - 1), cs[k - 1]);
      AnyTurn(ls, cs, requested, past, Skipping(ls, cs, k), k - 1);
      states := past + [Skipping(ls, cs, k)];
    }
  }

  /** A run that is clean up to candidate `k`, which leaves behind what it finds. */
  lemma DirtyRun(ls: seq<Ledger>, cs: seq<Pod>, requested: Counts, k: nat) returns (states: seq<seq<Ledger>>)
    requires ValidLedgers(ls) && SaneRequests(cs) && k < |cs|
    requires Clean(ls, cs, k) && !AllOrNone(Skipping(ls, cs, k), cs[k])
    ensures WorkRun(ls, cs, requested, states, 0) && !CleanSkips(cs, states, |states| - 1)
  {
    hide Released, Gives, WorkStep, ValidLedgers, NoneInUse, Skipping, TurnOf;
    var past := SkippingRun(ls, cs, requested, k);
    var w := Released(past[k], cs[k].requested);
    SkippingValid(ls, cs, k);
    DirtyStep(past[k], cs[k]);
    AnyTurn(ls, cs, requested, past, w, k);
    states := past + [w];
    assert states[k] == past[k] && states[k + 1] == w && !Gives(states[k], cs[k]);
  }

  /**
   * Whatever the order in which maps are visited, no skipped candidate leaves anything behind exactly when each
   * candidate finds all of its devices in use in its turn, or none of them.
   */
  lemma CleanExactlyWhen(ls: seq<Ledger>, cs: seq<Pod>, requested: Counts)
    requires ValidLedgers(ls) && SaneRequests(cs)
    ensures Clean(ls, cs, |cs|)
            <==> forall states | WorkRun(ls, cs, requested, states, 0) :: CleanSkips(cs, states, |states| - 1)
  {
    hide AllOrNone, Skipping, TurnOf, ValidLedgers;
    if Clean(ls, cs, |cs|) {
      forall states | WorkRun(ls, cs, requested, states, 0) ensures CleanSkips(cs, states, |states| - 1) {
        CleanRun(ls, cs, requested, states, 0, |states| - 1);
      }
    } else {
      var k := FirstDirty(ls, cs, |cs|);
      var states := DirtyRun(ls, cs, requested, k);
    }
  }

  /**
   * In every run each working copy is what evicting the victims leads to exactly when each candidate finds all of its
   * devices in use in its turn, or none of them.
   */
  lemma SimulationExactlyWhen(ls: seq<Ledger>, cs: seq<Pod>, requested: Counts)
    requires ValidLedgers(ls) && SaneRequests(cs)
    ensures Clean(ls, cs, |cs|)
            <==> forall states | WorkRun(ls, cs, requested, states, 0) ::
                   states[|states| - 1] == Evicted(ls, cs, states, |states| - 1)
  {
    hide Clean, CleanSkips, Evicted, TurnOf, ValidLedgers;
    CleanExactlyWhen(ls, cs, requested);
    forall states | WorkRun(ls, cs, requested, states, 0)
      ensures states[|states| - 1] == Evicted(ls, cs, states, |states| - 1) <==> CleanSkips(cs, states, |states| - 1)
    {
      ExactIfClean(ls, cs, requested, states, 0, |states| - 1);
    }
  }

  /** Candidate `k` is released and that makes room. */
  ghost predicate RoomAt(ls: seq<Ledger>, cs: seq<Pod>, requested: Counts, k: int) {
    0 <= k < |cs| && Gives(Skipping(ls, cs, k), cs[k]) && Admits(Skipping(ls, cs, k + 1), requested)
  }

  /**
   * On a clean node the loop cannot mislead: it stops at the first release that makes room, evicting its victims does
   * make room, and it gives up only if no release does.
   */
  lemma CleanSuffices(ls: seq<Ledger>, cs: seq<Pod>, requested: Counts, states: seq<seq<Ledger>>, r: Search)
    requires ValidLedgers(ls) && SaneRequests(cs) && Looked(ls, cs, requested, states, r) && Clean(ls, cs, |cs|)
    ensures r.Infeasible? ==> forall k :: !RoomAt(ls, cs, requested, k)
    ensures r.Feasible? ==>
              && RoomAt(ls, cs, requested, |states| - 2)
              && (forall k | 0 <= k < |states| - 2 :: !RoomAt(ls, cs, requested, k))
              && Admits(After(ls, r.victims, |r.victims|), requested)
  {
    hide Admits, Gives, WorkStep, After, Skipping, AllOrNone, ValidLedgers, SaneRequests;
    var n := |states| - 1;
    var quiet := if r.Infeasible? then n else n - 1;
    forall k | 0 <= k <= n ensures states[k] == Skipping(ls, cs, k) {
      CleanRun(ls, cs, requested, states, quiet, k);
    }
    forall k | 0 <= k < quiet ensures !RoomAt(ls, cs, requested, k) {
      assert TurnOf(cs, requested, states, quiet, k);
      assert states[k] == Skipping(ls, cs, k) && states[k + 1] == Skipping(ls, cs, k + 1);
    }
    if r.Feasible? {
      CleanRun(ls, cs, requested, states, quiet, n);
      VictimsSuffice(ls, cs, requested, states, r);
    }
  }

  lemma {:induction false} UsedAtMost(v: seq<Ledger>, i: nat, n: nat, p: ProfileName)
    requires ValidLedgers(v) && i <= n <= |v|
    ensures UsedSum(v, i, p) <= UsedSum(v, n, p)
    decreases n
  {
    if i < n {
      UsedAtMost(v, i, n - 1, p);
    }
  }

  /** If the node's use covers all candidates, the loop finds the shortest prefix that makes room, if there is one. */
  lemma CoveredFindsShortest(ls: seq<Ledger>, cs: seq<Pod>, requested: Counts, states: seq<seq<Ledger>>, r: Search)
    requires ValidLedgers(ls) && SaneRequests(cs) && Covered(ls, cs) && forall c | c in cs :: c.requested != map[]
    requires Looked(ls, cs, requested, states, r)
    ensures FoundIn(ls, cs, requested, r)
  {
    hide Released, Releasable, LeftBehind, Admits, Covered, After;
    var n := |states| - 1;
    CoveredExactlyWhen(ls, cs);
    var quiet := if r.Infeasible? then n else n - 1;
    AllGive(ls, cs, requested, states, quiet, n);
    forall j | 1 <= j <= quiet ensures !Admits(After(ls, cs, j), requested) {
      ReleasedInTurn(ls, cs, requested, states, quiet, j);
      assert TurnOf(cs, requested, states, quiet, j - 1) && Gives(states[j - 1], cs[j - 1]);
    }
    if r.Feasible? {
      ReleasedInTurn(ls, cs, requested, states, quiet, n);
      VictimsAreCandidates(cs, states, n);
      assert ShortestPrefix(ls, cs, requested, n);
    }
  }

  /** What the loop guarantees on a clean node: enough victims, or no release that makes room. */
  ghost predicate Sufficient(ls: seq<Ledger>, cs: seq<Pod>, requested: Counts, r: Search) {
    match r
    case Failed => false
    case Infeasible => forall k :: !RoomAt(ls, cs, requested, k)
    case Feasible(victims) => Admits(After(ls, victims, |victims|), requested)
  }

  /**
   * The victims for a target on a node. None are needed when there is room already; otherwise they are what the loop
   * over the candidates yields. If each candidate finds all its devices in use or none, evicting the victims makes
   * room, and the search gives up only if no release does. If the node's use covers all candidates, the victims are
   * the shortest non-empty prefix of the candidates that makes room, and the search gives up only if no prefix does.
   * `listed` is the outcome of listing the pods.
   */
  method FindVictims(image: Image, name: string, target: Pod, listed: Option<seq<Pod>>) returns (r: Search)
    requires SaneImage(image)
    requires listed.Some? ==> SaneRequests(listed.value)
    ensures r.Failed? <==> image.Broken? || (listed.None? && !Admits(Seen(image), target.requested))
    ensures !r.Failed? && Admits(Seen(image), target.requested) ==> r == Feasible([])
    ensures !r.Failed? && !Admits(Seen(image), target.requested) ==>
              var ls, cs := Seen(image), CandidatesOf(listed.value, name, PriorityOf(target));
              && (exists states :: Looked(ls, cs, target.requested, states, r))
              && (Clean(ls, cs, |cs|) ==> Sufficient(ls, cs, target.requested, r))
              && (Covered(ls, cs) ==> FoundIn(ls, cs, target.requested, r))
  {
    hide Admits, CandidatesOf, Covered, FoundIn, IsCandidate, SaneLedgers, Normal, Looked, SaneRequests, Clean, RoomAt;
    hide ValidLedgers, After, Hosts, Passes;
    if image.Broken? {
      return Failed;
    }
    var node := new Node(image.gpus);
    ghost var ls := Seen(image);
    var room := MakesRoom(node, target.requested);
    if room {
      return Feasible([]);
    }
    if listed.None? {
      return Failed;
    }
    var cs := ListCandidateVictims(listed.value, name, PriorityOf(target));
    CandidatesSane(listed.value, name, PriorityOf(target));
    var working := node.Clone();
    ghost var states;
    r, states := Evict(working, cs, target.requested);
    assert !r.Failed? by { LookedEnds(ls, cs, target.requested, states, r); }
    if Clean(ls, cs, |cs|) {
      CleanSuffices(ls, cs, target.requested, states, r);
    }
    if Covered(ls, cs) {
      CoveredFindsShortest(ls, cs, target.requested, states, r);
    }
  }

  lemma LookedEnds(ls: seq<Ledger>, cs: seq<Pod>, requested: Counts, states: seq<seq<Ledger>>, r: Search)
    requires Looked(ls, cs, requested, states, r)
    ensures !r.Failed?
  {
  }

  lemma CandidatesSane(pods: seq<Pod>, node: string, priority: int)
    requires SaneRequests(pods)
    ensures SaneRequests(CandidatesOf(pods, node, priority))
    ensures forall c | c in CandidatesOf(pods, node, priority) :: c.requested != map[]
  {
    hide CandidatesOf;
    CandidatesAreEvictable(pods, node, priority);
    var cs := CandidatesOf(pods, node, priority);
    forall i | 0 <= i < |cs| ensures NonNegative(cs[i].requested) {
      assert cs[i] in cs;
      var j :| 0 <= j < |pods| && pods[j] == cs[i];
    }
  }

  /** Every victim has strictly lower priority than the target, and is an evictable pod of the node. */
  lemma VictimsAreLower(
    pods: seq<Pod>, name: string, target: Pod, ls: seq<Ledger>, states: seq<seq<Ledger>>, r: Search, v: Pod)
    requires Looked(ls, CandidatesOf(pods, name, PriorityOf(target)), target.requested, states, r)
    requires r.Feasible? && v in r.victims
    ensures v in pods && PriorityOf(v) < PriorityOf(target) && v.requested != map[]
    ensures v.node == name && !v.terminating && !v.ownedByDaemonSet && !v.ownedByNode
  {
    hide CandidatesOf, WorkRun, Gives, Admits;
    CandidatesAreEvictable(pods, name, PriorityOf(target));
    VictimsAreCandidates(CandidatesOf(pods, name, PriorityOf(target)), states, |states| - 1);
  }

  /** In a prefix of the candidates nobody of lower priority than a victim, or as low and younger, is spared. */
  lemma NobodyIsSpared(pods: seq<Pod>, name: string, priority: int, k: nat, v: Pod, other: Pod)
    requires k <= |CandidatesOf(pods, name, priority)| && v in CandidatesOf(pods, name, priority)[..k]
    requires other in pods && other.node == name && other.requested != map[] && PriorityOf(other) < priority
    requires !other.terminating && !other.ownedByDaemonSet && !other.ownedByNode
    requires PriorityOf(other) < PriorityOf(v)
             || (PriorityOf(other) == PriorityOf(v) && other.created > v.created)
    ensures other in CandidatesOf(pods, name, priority)[..k]
  {
    hide CandidatesOf, PriorityOf;
    assert IsCandidate(other, name, priority);
    CandidatesAreEvictable(pods, name, priority);
    var cs := CandidatesOf(pods, name, priority);
    var i :| 0 <= i < k && cs[i] == v;
    var j :| 0 <= j < |cs| && cs[j] == other;
    assert cs[..k][j] == other;
  }

  // ----- a wrong eviction -----

  const SMALL := "1g.6gb"
  const LARGE := "2g.12gb"

  /** The known geometries of an A30. */
  const A30: seq<Counts> := [map["4g.24gb" := 1], map[LARGE := 2], map[LARGE := 1, SMALL := 2], map[SMALL := 4]]

  const MIXED := Ledger(0, A30, map[LARGE := 1, SMALL := 2], map[])

  /** The first candidate asks for more small devices than there are, the second one for the large device. */
  const GREEDY := Pod("a", Some(0), 0, map[SMALL := 3], "node", false, false, false)
  const MODEST := Pod("b", Some(1), 0, map[LARGE := 1], "node", false, false, false)
  const TARGET := Pod("c", Some(2), 0, map[LARGE := 1, SMALL := 1], "", false, false, false)

  /**
   * An A30 with one large and two small devices, all in use. The first candidate asks for three small ones and is
   * skipped, but leaves two of them free in the working copy; so the loop returns the second candidate alone, although
   * evicting it makes no room for a target that asks for one of each.
   */
  lemma SkippedCandidateMisleads() returns (ls: seq<Ledger>, pods: seq<Pod>, target: Pod)
    ensures ValidLedgers(ls) && SaneRequests(pods) && |pods| == 2 && !Admits(ls, target.requested)
    ensures CandidatesOf(pods, "node", PriorityOf(target)) == pods
    ensures forall states, r | Looked(ls, pods, target.requested, states, r) :: r == Feasible([pods[1]])
    ensures !Admits(After(ls, [pods[1]], 1), target.requested)
  {
    hide Looked, Admits, After, ValidLedgers, SaneRequests, CandidatesOf;
    ls, pods, target := [MIXED], [GREEDY, MODEST], TARGET;
    ExampleCandidates();
    ExampleHasNoRoom();
    forall states, r | Looked(ls, pods, target.requested, states, r) ensures r == Feasible([pods[1]]) {
      ExampleLoop(states, r);
    }
  }

  lemma ExampleCandidates()
    ensures CandidatesOf([GREEDY, MODEST], "node", 2) == [GREEDY, MODEST] && SaneRequests([GREEDY, MODEST])
  {
    var pods := [GREEDY, MODEST];
    var test := p => IsCandidate(p, "node", 2);
    assert pods[..1] == [GREEDY] && [GREEDY][..0] == [];
    assert SMALL in GREEDY.requested && LARGE in MODEST.requested;
    assert test(GREEDY) && test(MODEST);
    assert Pick([GREEDY], test, true) == [GREEDY];
    assert Pick(pods, test, true) == pods;
    assert !EvictedBefore(MODEST, GREEDY);
    assert StableSort([], EvictedBefore) == [];
    assert StableSort([GREEDY], EvictedBefore) == [GREEDY];
  }

  lemma SumsOfOne(ls: seq<Ledger>, p: ProfileName)
    requires |ls| == 1
    ensures NodeUsed(ls, p) == Get(ls[0].used, p) && NodeFree(ls, p) == Get(ls[0].free, p)
  {
    assert UsedSum(ls, 0, p) == 0 && FreeSum(ls, 0, p) == 0;
  }

  /**
   * Only the mixed geometry holds both profiles, so a GPU that has it already has no room for a small device in use.
   */
  lemma MixedHasNoRoom(ls: seq<Ledger>)
    requires |ls| == 1 && ValidLedgers(ls) && ls[0].allowed == A30 && InGeometry(ls[0], A30[2])
    requires Get(ls[0].free, SMALL) == 0
    ensures !Admits(ls, TARGET.requested)
  {
    hide NodeUpdate, NodeUsed, NodeFree;
    var us := NodeUpdate(ls, TARGET.requested);
    NodeUpdateKeeps(ls, TARGET.requested);
    assert Kept(ls[0], us[0]);
    SumsOfOne(ls, SMALL);
    SumsOfOne(us, SMALL);
    SumsOfOne(us, LARGE);
    assert SMALL in TARGET.requested && LARGE in TARGET.requested;
    if Provides(us, TARGET.requested) {
      OnlyMixed(ls[0], us[0]);
      assert us == ls;
    }
  }

  lemma OnlyMixed(l: Ledger, u: Ledger)
    requires ValidLedger(l) && l.allowed == A30 && InGeometry(l, A30[2]) && Kept(l, u)
    requires GeometryAt(u, SMALL) >= 1 && GeometryAt(u, LARGE) >= 1
    ensures u == l
  {
    if u != l {
      var i :| 0 <= i < |A30| && InGeometry(u, A30[i]);
      assert GeometryAt(u, SMALL) == Get(A30[i], SMALL) && GeometryAt(u, LARGE) == Get(A30[i], LARGE);
      assert i == 2;
      forall p ensures Get(u.free, p) == Get(l.free, p) {
        assert GeometryAt(u, p) == Get(A30[2], p) && GeometryAt(l, p) == Get(A30[2], p);
      }
      PositiveSame(u.free, l.free);
    }
  }

  lemma ExampleHasNoRoom()
    ensures ValidLedgers([MIXED]) && !Admits([MIXED], TARGET.requested)
    ensures !Admits(After([MIXED], [MODEST], 1), TARGET.requested)
  {
    hide Admits, Released, NodeUsed;
    var ls := [MIXED];
    var rs := Released(ls, MODEST.requested);
    MixedHasNoRoom(ls);
    SumsOfOne(ls, LARGE);
    ReleasedConserves(ls, MODEST.requested);
    GiveBackCounts(ls, MODEST.requested, 0, SMALL);
    ReleasedKeepsIdentity(ls, MODEST.requested, 0);
    forall p ensures GeometryAt(rs[0], p) == Get(A30[2], p) {
      assert GeometryAt(rs[0], p) == GeometryAt(ls[0], p);
    }
    MixedHasNoRoom(rs);
    assert After(ls, [MODEST], 1) == Released(After(ls, [MODEST], 0), MODEST.requested);
  }

  lemma ExampleSkip(vs: seq<Ledger>)
    requires LeftBehind([MIXED], vs, GREEDY.requested)
    ensures |vs| == 1 && Get(vs[0].free, SMALL) == 2 && Get(vs[0].used, LARGE) == 1
  {
    var ls, requested := [MIXED], GREEDY.requested;
    var done :| done <= requested.Keys && GaveBack(ls, vs, requested, done) && done != {};
    assert SMALL in done && LARGE !in done;
    assert UsedSum(ls, 0, SMALL) == 0 && Taken(ls, 3, 0, SMALL) == 2;
    assert vs[0].index == ls[0].index;
  }

  lemma ExampleLoop(states: seq<seq<Ledger>>, r: Search)
    requires Looked([MIXED], [GREEDY, MODEST], TARGET.requested, states, r)
    ensures r == Feasible([MODEST])
  {
    hide Released, NodeUsed, NodeFree, LeftBehind, Passes;
    var ls, cs, target := [MIXED], [GREEDY, MODEST], TARGET.requested;
    SumsOfOne(ls, SMALL);
    assert SMALL in GREEDY.requested && !Gives(ls, cs[0]);
    assert |states| == 3;
    var quiet := if r.Infeasible? then 2 else 1;
    assert TurnOf(cs, target, states, quiet, 0) && TurnOf(cs, target, states, quiet, 1);
    ExampleSkip(states[1]);
    SumsOfOne(states[1], LARGE);
    assert LARGE in cs[1].requested && Releasable(states[1], cs[1].requested);
    assert Gives(states[1], cs[1]);
    GiveBackCounts(states[1], cs[1].requested, 0, SMALL);
    SumsOfOne(states[2], SMALL);
    SumsOfOne(states[2], LARGE);
    ReleasedTakes(states[1]);
    assert Hosts(states[2], target);
    assert VictimsOf(cs, states, 0) == [] && VictimsOf(cs, states, 1) == [];
  }

  lemma ReleasedTakes(vs: seq<Ledger>)
    requires |vs| == 1 && ValidLedgers(vs) && Get(vs[0].used, LARGE) == 1
    ensures Get(Released(vs, MODEST.requested)[0].free, LARGE) >= 1
  {
    hide Released;
    assert UsedSum(vs, 0, LARGE) == 0;
    GiveBackCounts(vs, MODEST.requested, 0, LARGE);
  }
}
