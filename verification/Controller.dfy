/** The partitioner's decision: which pending pods to plan for, and which node to repartition. */
module Controller {
  import opened GoMaps
  import opened Lists
  import opened Devices
  import opened MigGpu
  import opened MigNode
  import opened Wire
  import opened NodeAnnotations
  import opened Partitioner
  import opened Pods

  /** A node as it is read from its annotations; `Broken` when that fails. */
  datatype Image = Broken | Image(gpus: seq<Ledger>)

  /** The counts of a readable node. */
  ghost function Seen(node: Image): seq<Ledger>
    requires node.Image?
  {
    Normal(node.gpus)
  }

  ghost predicate SaneImage(node: Image) {
    node.Image? ==> SaneLedgers(node.gpus)
  }

  ghost predicate SaneImages(nodes: seq<Image>) {
    forall i | 0 <= i < |nodes| :: SaneImage(nodes[i])
  }

  // ----- what the tests of the controller mean -----

  /** The test that the controller applies to a repartitioned node: used devices count as well as free ones. */
  ghost predicate Provides(ls: seq<Ledger>, requested: Counts) {
    forall p | p in requested :: NodeUsed(ls, p) + NodeFree(ls, p) >= requested[p]
  }

  ghost predicate Hosts(ls: seq<Ledger>, requested: Counts) {
    forall p | p in requested :: NodeFree(ls, p) >= requested[p]
  }

  /** Repartitioning the node for the request changes it, and into a node that provides the request. */
  ghost predicate Passes(ls: seq<Ledger>, requested: Counts)
    requires ValidLedgers(ls)
  {
    NodeUpdate(ls, requested) != ls && Provides(NodeUpdate(ls, requested), requested)
  }

  ghost predicate Passing(node: Image, requested: Counts) {
    node.Image? && SaneImage(node) && Passes(Seen(node), requested)
  }

  ghost predicate Offers(node: Image, p: ProfileName, quantity: int) {
    node.Image? && NodeFree(Seen(node), p) >= quantity
  }

  /** Every requested profile is free in the requested quantity on some node, not necessarily the same. */
  ghost predicate AlreadyPresent(nodes: seq<Image>, requested: Counts) {
    forall p | p in requested :: exists i :: 0 <= i < |nodes| && Offers(nodes[i], p, requested[p])
  }

  ghost predicate Repartitionable(nodes: seq<Image>, requested: Counts) {
    exists i :: 0 <= i < |nodes| && Passing(nodes[i], requested)
  }

  ghost predicate Feasible(nodes: seq<Image>, requested: Counts) {
    AlreadyPresent(nodes, requested) || Repartitionable(nodes, requested)
  }

  // ----- one node -----

  method ProvidesRequestedProfiles(node: Node, requested: Counts) returns (ok: bool)
    requires node.Valid()
    ensures ok <==> Provides(node.View(), requested)
    ensures ok <==>
              forall p | p in requested :: NodeUsed(node.View(), p) + NodeFree(node.View(), p) >= requested[p]
  {
    hide NodeUsed, NodeFree;
    var geometry := node.Geometry();
    ok := forall p | p in requested :: Get(geometry, p) >= requested[p];
  }

  /** The test on a clone: nothing that existed before is written to. */
  method DryRun(node: Node, requested: Counts) returns (ok: bool)
    requires node.Valid()
    ensures ok <==> Passes(node.View(), requested)
    ensures var us := NodeUpdate(node.View(), requested);
            ok <==>
              us != node.View() && forall p | p in requested :: NodeUsed(us, p) + NodeFree(us, p) >= requested[p]
  {
    hide NodeUpdate, NodeUsed, NodeFree, Node.View, Node.Valid;
    var cloned := node.Clone();
    var updated := cloned.UpdateGeometryFor(requested);
    if !updated {
      return false;
    }
    ok := ProvidesRequestedProfiles(cloned, requested);
  }

  /** The run on the node itself: it succeeds exactly when the dry run does. */
  method RealRun(node: Node, requested: Counts) returns (ok: bool)
    requires node.Valid()
    modifies node.gpus
    ensures ok <==> Passes(old(node.View()), requested)
    ensures node.Valid() && node.View() == NodeUpdate(old(node.View()), requested)
  {
    hide NodeUpdate, Provides, Node.View, Node.Valid;
    var updated := node.UpdateGeometryFor(requested);
    if !updated {
      return false;
    }
    ok := ProvidesRequestedProfiles(node, requested);
  }

  // ----- all nodes -----

  method CanRepartition(nodes: seq<Image>, requested: Counts) returns (ok: bool)
    requires SaneImages(nodes)
    ensures ok <==> Repartitionable(nodes, requested)
    ensures ok <==> exists i :: 0 <= i < |nodes| && nodes[i].Image? && Passes(Seen(nodes[i]), requested)
  {
    hide Passes, SaneLedgers, Normal;
    if requested == map[] {
      NothingToRepartition(nodes, requested);
      return false;
    }
    for i := 0 to |nodes|
      invariant forall j | 0 <= j < i :: !Passing(nodes[j], requested)
    {
      if nodes[i].Broken? {
        continue;
      }
      assert SaneImage(nodes[i]);
      var node := new Node(nodes[i].gpus);
      var passes := DryRun(node, requested);
      if passes {
        return true;
      }
    }
    ok := false;
  }

  lemma NothingToRepartition(nodes: seq<Image>, requested: Counts)
    requires requested == map[]
    ensures !Repartitionable(nodes, requested)
  {
    hide NodeUpdate;
    forall i | 0 <= i < |nodes| ensures !Passing(nodes[i], requested) {
      if nodes[i].Image? && SaneImage(nodes[i]) {
        EmptyWalk(Seen(nodes[i]), requested);
      }
    }
  }

  method ProfilePresentOnAnyNode(nodes: seq<Image>, p: ProfileName, quantity: int) returns (ok: bool)
    requires SaneImages(nodes)
    ensures ok <==> exists i :: 0 <= i < |nodes| && Offers(nodes[i], p, quantity)
    ensures ok <==> exists i :: 0 <= i < |nodes| && nodes[i].Image? && NodeFree(Seen(nodes[i]), p) >= quantity
  {
    hide NodeFree, SaneLedgers, Normal;
    for i := 0 to |nodes|
      invariant forall j | 0 <= j < i :: !Offers(nodes[j], p, quantity)
    {
      if nodes[i].Broken? {
        continue;
      }
      assert SaneImage(nodes[i]);
      var node := new Node(nodes[i].gpus);
      var free := node.FreeGeometry();
      if Get(free, p) >= quantity {
        return true;
      }
    }
    ok := false;
  }

  method ProfileAlreadyPresent(nodes: seq<Image>, requested: Counts) returns (ok: bool)
    requires SaneImages(nodes)
    ensures ok <==> AlreadyPresent(nodes, requested)
    ensures ok <==>
              forall p | p in requested :: exists i :: 0 <= i < |nodes| && Offers(nodes[i], p, requested[p])
  {
    hide Offers, SaneImages;
    var todo := requested.Keys;
    while todo != {}
      invariant todo <= requested.Keys
      invariant forall p | p in requested.Keys - todo ::
                  exists i :: 0 <= i < |nodes| && Offers(nodes[i], p, requested[p])
    {
      var p :| p in todo;
      todo := todo - {p};
      var present := ProfilePresentOnAnyNode(nodes, p, requested[p]);
      if !present {
        return false;
      }
    }
    ok := true;
  }

  // ----- choosing the demand -----

  /** `n` is the length of the longest prefix all of whose non-empty prefixes are feasible. */
  ghost predicate LongestFeasible(nodes: seq<Image>, pods: seq<Pod>, n: nat) {
    && n <= |pods|
    && (forall j | 1 <= j <= n :: Feasible(nodes, DemandOf(pods, j)))
    && (n < |pods| ==> !Feasible(nodes, DemandOf(pods, n + 1)))
  }

  /** How many pods are planned for: extend a feasible prefix until the next pod makes it infeasible. */
  ghost function PlannedFrom(nodes: seq<Image>, pods: seq<Pod>, i: nat): (n: nat)
    requires i <= |pods|
    ensures i <= n <= |pods|
    decreases |pods| - i
  {
    if i < |pods| && Feasible(nodes, DemandOf(pods, i + 1)) then PlannedFrom(nodes, pods, i + 1) else i
  }

  ghost function PlannedPods(nodes: seq<Image>, pods: seq<Pod>): nat {
    PlannedFrom(nodes, pods, 0)
  }

  lemma {:induction false} PlannedFromIsLongest(nodes: seq<Image>, pods: seq<Pod>, i: nat)
    requires i <= |pods| && forall j | 1 <= j <= i :: Feasible(nodes, DemandOf(pods, j))
    ensures LongestFeasible(nodes, pods, PlannedFrom(nodes, pods, i))
    decreases |pods| - i
  {
    hide Feasible, DemandOf;
    if i < |pods| && Feasible(nodes, DemandOf(pods, i + 1)) {
      PlannedFromIsLongest(nodes, pods, i + 1);
    }
  }

  /** The planned pods are the longest prefix all of whose non-empty prefixes are feasible, and the only such prefix. */
  lemma PlannedIsLongest(nodes: seq<Image>, pods: seq<Pod>)
    ensures forall n: nat :: LongestFeasible(nodes, pods, n) <==> n == PlannedPods(nodes, pods)
    ensures PlannedPods(nodes, pods) <= |pods|
    ensures forall j | 1 <= j <= PlannedPods(nodes, pods) ::
              AlreadyPresent(nodes, DemandOf(pods, j)) || Repartitionable(nodes, DemandOf(pods, j))
    ensures PlannedPods(nodes, pods) < |pods| ==>
              var demand := DemandOf(pods, PlannedPods(nodes, pods) + 1);
              !AlreadyPresent(nodes, demand) && !Repartitionable(nodes, demand)
  {
    hide DemandOf, AlreadyPresent, Repartitionable;
    PlannedFromIsLongest(nodes, pods, 0);
  }

  method BuildRequestedProfilesPlan(nodes: seq<Image>, pods: seq<Pod>) returns (plan: Counts)
    requires SaneImages(nodes)
    ensures plan == DemandOf(pods, PlannedPods(nodes, pods))
  {
    hide AlreadyPresent, Repartitionable, SaneImages, Plus, PlannedPods, Offers, Passes, Seen;
    var requested: Counts := map[];
    plan := map[];
    PlannedIsLongest(nodes, pods);
    for i := 0 to |pods|
      invariant requested == DemandOf(pods, i) && plan == requested
      invariant forall j | 1 <= j <= i :: Feasible(nodes, DemandOf(pods, j))
    {
      requested := AddPodRequestedProfiles(requested, pods[i]);
      assert requested == DemandOf(pods, i + 1);
      var present := ProfileAlreadyPresent(nodes, requested);
      if !present {
        var possible := CanRepartition(nodes, requested);
        if !possible {
          assert LongestFeasible(nodes, pods, i);
          return;
        }
      }
      plan := requested;
    }
    assert LongestFeasible(nodes, pods, |pods|);
  }

  /** No priority bypass: if a pod is planned, so is every pending pod of higher priority, or as high and older. */
  lemma NoBypass(nodes: seq<Image>, pods: seq<Pod>, sorted: seq<Pod>, planned: Pod, other: Pod)
    requires multiset(sorted) == multiset(pods) && ByPriorityAndAge(sorted)
    requires planned in sorted[..PlannedPods(nodes, sorted)] && other in pods
    requires PriorityOf(other) > PriorityOf(planned)
             || (PriorityOf(other) == PriorityOf(planned) && other.created < planned.created)
    ensures other in sorted[..PlannedPods(nodes, sorted)]
  {
    hide PriorityOf;
    var n := PlannedPods(nodes, sorted);
    assert other in multiset(sorted);
    var i :| 0 <= i < n && sorted[i] == planned;
    var j :| 0 <= j < |sorted| && sorted[j] == other;
    assert sorted[..n][j] == other;
  }

  // ----- carrying it out -----

  /** The first node that passes the test and whose patch is accepted; -1 if there is none. */
  ghost predicate FirstAccepted(nodes: seq<Image>, requested: Counts, accepts: seq<bool>, chosen: int)
    requires |accepts| == |nodes|
  {
    && -1 <= chosen < |nodes|
    && (chosen >= 0 ==> Passing(nodes[chosen], requested) && accepts[chosen])
    && forall j | 0 <= j < (if chosen < 0 then |nodes| else chosen) :: !(Passing(nodes[j], requested) && accepts[j])
  }

  /** The annotations ask for the geometry that the update of the node leads to. */
  ghost predicate Specified(
    node: Image, requested: Counts, before: map<string, string>, after: map<string, string>, planId: string)
  {
    && node.Image? && SaneImage(node)
    && (exists ps :: Partitions(NodeUpdate(Seen(node), requested), ps) && (Specifiable(ps) ==> SpecStated(after, ps)))
    && ReadAnnotation(after, PLAN_KEY) == planId
    && OthersKept(before, after, SPEC_PREFIX, PLAN_KEY)
  }

  /** One node: a failed patch leaves its annotations as they are. */
  method UpdateNodeGeometry(
    node: Image, annotations: map<string, string>, requested: Counts, planId: string, accepted: bool)
    returns (updated: bool, after: map<string, string>)
    requires SaneImage(node)
    ensures updated <==> Passing(node, requested) && accepted
    ensures if updated then Specified(node, requested, annotations, after, planId) else after == annotations
  {
    hide Passes, SaneLedgers, Normal, NodeUpdate, SpecStated, Specifiable, OthersKept;
    updated, after := false, annotations;
    if node.Broken? {
      return;
    }
    var migNode := new Node(node.gpus);
    var passes := RealRun(migNode, requested);
    if !passes {
      return;
    }
    var ps := BuildNodePartitioning(migNode);
    var patched := ApplyPartitioning(annotations, planId, ps);
    if accepted {
      updated, after := true, patched;
    }
  }

  method TryRepartition(
    nodes: seq<Image>, annotations: seq<map<string, string>>,
    requested: Counts, planIds: seq<string>, accepts: seq<bool>)
    returns (chosen: int, after: map<string, string>)
    requires SaneImages(nodes) && |annotations| == |planIds| == |accepts| == |nodes|
    ensures FirstAccepted(nodes, requested, accepts, chosen)
    ensures -1 <= chosen < |nodes| && (chosen >= 0 ==> Passing(nodes[chosen], requested) && accepts[chosen])
    ensures forall j | 0 <= j < (if chosen < 0 then |nodes| else chosen) ::
              !(Passing(nodes[j], requested) && accepts[j])
    ensures chosen >= 0 ==> Specified(nodes[chosen], requested, annotations[chosen], after, planIds[chosen])
  {
    hide Passing, Specified;
    after := map[];
    for i := 0 to |nodes|
      invariant forall j | 0 <= j < i :: !(Passing(nodes[j], requested) && accepts[j])
    {
      var updated, patched := UpdateNodeGeometry(nodes[i], annotations[i], requested, planIds[i], accepts[i]);
      if updated {
        return i, patched;
      }
    }
    chosen := -1;
  }

  /**
   * Plans for the longest feasible prefix. Unless that is empty or already present, the node that passed the dry run
   * is repartitioned: if patches are accepted the real run cannot disagree with the dry run.
   */
  method TryPlanWithoutPreemption(
    nodes: seq<Image>, annotations: seq<map<string, string>>, pods: seq<Pod>, planIds: seq<string>, accepts: seq<bool>)
    returns (chosen: int, after: map<string, string>)
    requires SaneImages(nodes) && |annotations| == |planIds| == |accepts| == |nodes|
    ensures var demand := DemandOf(pods, PlannedPods(nodes, pods));
            if demand == map[] || AlreadyPresent(nodes, demand) then chosen == -1 else
              && Repartitionable(nodes, demand) && FirstAccepted(nodes, demand, accepts, chosen)
              && ((forall i | 0 <= i < |nodes| :: accepts[i]) ==> chosen >= 0)
    ensures chosen >= 0 ==>
              Specified(nodes[chosen], DemandOf(pods, PlannedPods(nodes, pods)),
                annotations[chosen], after, planIds[chosen])
  {
    hide AlreadyPresent, Specified, SaneImages, Passing, DemandOf, PlannedPods;
    var plan := BuildRequestedProfilesPlan(nodes, pods);
    PlannedIsLongest(nodes, pods);
    EmptyDemandIsPresent(nodes, pods);
    chosen, after := -1, map[];
    if plan == map[] {
      return;
    }
    var present := ProfileAlreadyPresent(nodes, plan);
    if present {
      return;
    }
    assert LongestFeasible(nodes, pods, PlannedPods(nodes, pods));
    assert Feasible(nodes, plan);
    chosen, after := TryRepartition(nodes, annotations, plan, planIds, accepts);
  }

  /**
   * A reconcile run without preemption: the pending pods are planned for in the order of priority and age, whatever the
   * order in which they are listed.
   */
  method PlanPending(
    nodes: seq<Image>, annotations: seq<map<string, string>>, pending: seq<Pod>, planIds: seq<string>,
    accepts: seq<bool>)
    returns (chosen: int, after: map<string, string>, sorted: seq<Pod>)
    requires SaneImages(nodes) && |annotations| == |planIds| == |accepts| == |nodes|
    ensures multiset(sorted) == multiset(pending) && ByPriorityAndAge(sorted)
    ensures var demand := DemandOf(sorted, PlannedPods(nodes, sorted));
            if nodes == [] || demand == map[] || AlreadyPresent(nodes, demand) then chosen == -1 else
              && Repartitionable(nodes, demand) && FirstAccepted(nodes, demand, accepts, chosen)
              && ((forall i | 0 <= i < |nodes| :: accepts[i]) ==> chosen >= 0)
    ensures chosen >= 0 ==>
              Specified(nodes[chosen], DemandOf(sorted, PlannedPods(nodes, sorted)), annotations[chosen],
                        after, planIds[chosen])
  {
    hide AlreadyPresent, Specified, SaneImages, Repartitionable, FirstAccepted, DemandOf, PlannedPods, ByPriorityAndAge;
    sorted := SortPodsByPriorityAndAge(pending);
    chosen, after := -1, map[];
    if |nodes| == 0 {
      return;
    }
    EmptyDemandIsPresent(nodes, sorted);
    if |sorted| == 0 {
      NothingPlanned(nodes, sorted);
      return;
    }
    chosen, after := TryPlanWithoutPreemption(nodes, annotations, sorted, planIds, accepts);
  }

  lemma NothingPlanned(nodes: seq<Image>, pods: seq<Pod>)
    requires pods == []
    ensures DemandOf(pods, PlannedPods(nodes, pods)) == map[]
  {
  }

  lemma EmptyDemandIsPresent(nodes: seq<Image>, pods: seq<Pod>)
    ensures AlreadyPresent(nodes, map[])
    ensures DemandOf(pods, 0) == map[]
  {
  }

  // ----- what passing the test is worth -----

  lemma {:induction false} UpdateKeepsUse(ls: seq<Ledger>, us: seq<Ledger>, n: nat, p: ProfileName)
    requires AllKept(ls, us) && n <= |ls|
    ensures UsedSum(us, n, p) == UsedSum(ls, n, p)
  {
    hide Kept;
    if n > 0 {
      UpdateKeepsUse(ls, us, n - 1, p);
      KeptParts(ls[n - 1], us[n - 1], p);
    }
  }

  /** A node that passes the test cannot host the request only if some requested profile is already in use there. */
  lemma PassesUnlessInUse(ls: seq<Ledger>, requested: Counts)
    requires ValidLedgers(ls) && Passes(ls, requested)
    requires forall p | p in requested :: NodeUsed(ls, p) == 0
    ensures Hosts(NodeUpdate(ls, requested), requested)
  {
    hide NodeUpdate, Kept, FreeSum;
    NodeUpdateKeeps(ls, requested);
    var us := NodeUpdate(ls, requested);
    forall p | p in requested ensures NodeFree(us, p) >= requested[p] {
      UpdateKeepsUse(ls, us, |ls|, p);
    }
  }

  /** One device in use and one free after the update: the test passes a request for two. */
  lemma PassingNodeMayNotHost() returns (ls: seq<Ledger>, requested: Counts)
    ensures ValidLedgers(ls) && Passes(ls, requested)
    ensures !Hosts(NodeUpdate(ls, requested), requested)
  {
    var p := "1g.5gb";
    var one: Counts, two: Counts := map[p := 1], map[p := 2];
    var l := Ledger(0, [two], one, map[]);
    ls, requested := [l], two;
    var u := UpdateFor(l, two);
    ExampleUpdate(l, two, p);
    assert NodeUpdate(ls, requested) == [u] by {
      assert Demand(two) == two;
      StepOf(ls, two, 0);
      WalkStarts(ls, two);
    }
    var us := [u];
    assert NodeUsed(us, p) == 1 && NodeFree(us, p) == 1 by {
      assert UsedSum(us, 0, p) == 0 && FreeSum(us, 0, p) == 0;
    }
  }

  lemma ExampleUpdate(l: Ledger, two: Counts, p: ProfileName)
    requires two == map[p := 2] && l == Ledger(0, [two], map[p := 1], map[])
    ensures ValidLedger(l) && UpdateFor(l, two) != l
    ensures Get(UpdateFor(l, two).used, p) == 1 && Get(UpdateFor(l, two).free, p) == 1
  {
    hide UpdateFor, Score;
    ScoreMeansChange(l, two, two);
    assert p in two && Get(l.free, p) < two[p] && GeometryAt(l, p) < Get(two, p);
    assert l.allowed[0] == two;
    assert !BusySensitive3211(two) by { assert |two| == 1; }
    assert Value(l, two, 0) > 0;
    UpdateForKeeps(l, two);
    assert GeometryAt(UpdateFor(l, two), p) == Get(two, p);
  }
}
