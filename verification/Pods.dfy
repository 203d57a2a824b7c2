/** Pods that ask for MIG devices, and the two orders in which the partitioner considers them. */
module Pods {
  import opened GoMaps
  import opened Lists
  import opened Text
  import opened MigGpu

  const DEFAULT_PRIORITY := 1000

  datatype Pod = Pod(
    name: string, priority: Option<int>, created: int, requested: Counts,
    node: string, terminating: bool, ownedByDaemonSet: bool, ownedByNode: bool)

  function PriorityOf(pod: Pod): int {
    if pod.priority.Some? then pod.priority.value else DEFAULT_PRIORITY
  }

  /** Higher priority first, then older first, then by name. */
  predicate PlannedBefore(a: Pod, b: Pod) {
    if PriorityOf(a) != PriorityOf(b) then PriorityOf(a) > PriorityOf(b)
    else if a.created != b.created then a.created < b.created
    else StringLess(a.name, b.name)
  }

  /** Lower priority first, then younger first, then by name. */
  predicate EvictedBefore(a: Pod, b: Pod) {
    if PriorityOf(a) != PriorityOf(b) then PriorityOf(a) < PriorityOf(b)
    else if a.created != b.created then b.created < a.created
    else StringLess(a.name, b.name)
  }

  /** Both orders are what a sort needs. */
  lemma PodOrders()
    ensures StrictWeakOrder(PlannedBefore) && StrictWeakOrder(EvictedBefore)
  {
    hide StringLess, PriorityOf;
    forall a: Pod, b: Pod ensures PlannedBefore(a, b) ==> !PlannedBefore(b, a)
                          ensures EvictedBefore(a, b) ==> !EvictedBefore(b, a) {
      StringLessOrder(a.name, b.name, a.name);
    }
    forall a: Pod, b: Pod, c: Pod
      ensures !PlannedBefore(b, a) && !PlannedBefore(c, b) ==> !PlannedBefore(c, a)
      ensures !EvictedBefore(b, a) && !EvictedBefore(c, b) ==> !EvictedBefore(c, a)
    {
      StringLessOrder(a.name, b.name, c.name);
    }
  }

  /** Nobody follows a pod of lower priority, or a younger one of the same priority. */
  ghost predicate ByPriorityAndAge(s: seq<Pod>) {
    forall i, j | 0 <= i < j < |s| ::
      || PriorityOf(s[i]) > PriorityOf(s[j])
      || (PriorityOf(s[i]) == PriorityOf(s[j]) && s[i].created < s[j].created)
      || (PriorityOf(s[i]) == PriorityOf(s[j]) && s[i].created == s[j].created && !StringLess(s[j].name, s[i].name))
  }

  /** The other way round: lower priority first, and the younger one at the same priority. */
  ghost predicate ByRankAndYouth(s: seq<Pod>) {
    forall i, j | 0 <= i < j < |s| ::
      || PriorityOf(s[i]) < PriorityOf(s[j])
      || (PriorityOf(s[i]) == PriorityOf(s[j]) && s[i].created > s[j].created)
      || (PriorityOf(s[i]) == PriorityOf(s[j]) && s[i].created == s[j].created && !StringLess(s[j].name, s[i].name))
  }

  /** What being sorted by the two comparisons means. */
  lemma SortedMeans(s: seq<Pod>)
    ensures Sorted(s, PlannedBefore) <==> ByPriorityAndAge(s)
    ensures Sorted(s, EvictedBefore) <==> ByRankAndYouth(s)
  {
    hide StringLess, PriorityOf;
  }

  /** Pods without a priority rank among the others as if they had the default one. */
  lemma DefaultPriority(a: Pod, b: Pod)
    requires a.priority.None? && b.priority.Some?
    ensures PriorityOf(a) < PriorityOf(b) <==> b.priority.value > 1000
    ensures PriorityOf(a) > PriorityOf(b) <==> b.priority.value < 1000
  {
  }

  method SortPodsByPriorityAndAge(pods: seq<Pod>) returns (sorted: seq<Pod>)
    ensures multiset(sorted) == multiset(pods) && ByPriorityAndAge(sorted)
    ensures forall x :: Ties(sorted, PlannedBefore, x) == Ties(pods, PlannedBefore, x)
  {
    sorted := StableSort(pods, PlannedBefore);
    hide StableSort, PlannedBefore, Ties;
    PodOrders();
    StableSortSorts(pods, PlannedBefore);
    SortedMeans(sorted);
  }

  /** What the first `n` pods ask for together. */
  ghost function DemandOf(pods: seq<Pod>, n: nat): Counts
    requires n <= |pods|
  {
    if n == 0 then map[] else Plus(DemandOf(pods, n - 1), pods[n - 1].requested)
  }

  method AddPodRequestedProfiles(target: Counts, pod: Pod) returns (r: Counts)
    ensures r == Plus(target, pod.requested)
  {
    r := target;
    var todo := pod.requested.Keys;
    while todo != {}
      invariant todo <= pod.requested.Keys && r.Keys == target.Keys + (pod.requested.Keys - todo)
      invariant forall p | p in r :: r[p] == Get(target, p) + if p in todo then 0 else Get(pod.requested, p)
    {
      var p :| p in todo;
      todo := todo - {p};
      r := r[p := Get(r, p) + pod.requested[p]];
    }
  }
}
