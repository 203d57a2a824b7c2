/** The cluster side of the wire: turning the geometry of a node into a spec, and writing it to the node. */
module Partitioner {
  import opened GoMaps
  import opened Lists
  import opened Devices
  import opened Annotations
  import opened Text
  import opened Wire
  import opened NodeAnnotations
  import opened MigGpu
  import opened MigNode

  // ----- from a geometry to a spec -----

  datatype GpuPartitioning = GpuPartitioning(index: int, resources: Counts)

  /** How many devices of a profile the first `n` entries of a partitioning ask for. */
  ghost function Planned(ps: seq<GpuPartitioning>, n: nat, k: Profile): int
    requires n <= |ps|
  {
    if n == 0 then 0 else
      Planned(ps, n - 1, k) + if ps[n - 1].index == k.gpu then Get(ps[n - 1].resources, k.name) else 0
  }

  ghost predicate Entry(g: GpuPartitioning, a: SpecAnnotation) {
    a.index == g.index && a.profile in g.resources && a.quantity == g.resources[a.profile]
  }

  /** The spec asks for exactly what the partitioning does, entry by entry and in total. */
  ghost predicate SpecsFor(specs: seq<SpecAnnotation>, ps: seq<GpuPartitioning>) {
    && (forall k :: Desired(specs, k) == Planned(ps, |ps|, k))
    && forall a | a in specs :: exists g :: g in ps && Entry(g, a)
  }

  ghost predicate DistinctIndexes(ps: seq<GpuPartitioning>) {
    forall i, j | 0 <= i < j < |ps| :: ps[i].index != ps[j].index
  }

  ghost predicate DistinctProfiles(specs: seq<SpecAnnotation>) {
    forall i, j | 0 <= i < j < |specs| :: SpecProfile(specs[i]) != SpecProfile(specs[j])
  }

  /** `ps` describes the geometry of every GPU, without empty entries. */
  ghost predicate Partitions(ls: seq<Ledger>, ps: seq<GpuPartitioning>) {
    && |ps| == |ls|
    && forall i {:trigger ps[i]} | 0 <= i < |ls| ::
         ps[i].index == ls[i].index && Positive(ps[i].resources) && InGeometry(ls[i], ps[i].resources)
  }

  method PartitioningOf(g: GPU) returns (p: GpuPartitioning)
    requires g.Valid()
    ensures p.index == g.index && Positive(p.resources) && InGeometry(g.View(), p.resources)
  {
    var geometry := g.GetGeometry();
    var resources: Counts := map[];
    var todo := geometry.Keys;
    while todo != {}
      invariant todo <= geometry.Keys && Positive(resources)
      invariant forall q :: Get(resources, q) == if q in todo then 0 else Get(geometry, q)
    {
      var q :| q in todo;
      todo := todo - {q};
      if geometry[q] <= 0 {
        continue;
      }
      resources := resources[q := geometry[q]];
    }
    p := GpuPartitioning(g.index, resources);
    forall q ensures GeometryAt(g.View(), q) == Get(resources, q) {
      assert Get(Norm(g.used), q) == Get(g.used, q) && Get(Norm(g.free), q) == Get(g.free, q);
    }
  }

  method BuildNodePartitioning(node: Node) returns (ps: seq<GpuPartitioning>)
    requires node.Valid()
    ensures Partitions(node.View(), ps)
  {
    hide GPU.View, InGeometry;
    ps := [];
    for i := 0 to |node.gpus|
      invariant |ps| == i
      invariant forall j {:trigger ps[j]} | 0 <= j < i ::
                  && ps[j].index == node.gpus[j].index && Positive(ps[j].resources)
                  && InGeometry(node.gpus[j].View(), ps[j].resources)
    {
      var p := PartitioningOf(node.gpus[i]);
      ps := ps + [p];
    }
    forall i | 0 <= i < |node.gpus| ensures node.View()[i].index == node.gpus[i].index {
      IndexOfView(node.gpus[i]);
    }
  }

  lemma IndexOfView(g: GPU)
    ensures g.View().index == g.index
  {
  }

  /** The annotations of one GPU, in any order. */
  method SpecsOfGpu(g: GpuPartitioning) returns (specs: seq<SpecAnnotation>)
    ensures forall k :: Desired(specs, k) == if k.gpu == g.index then Get(g.resources, k.name) else 0
    ensures forall a | a in specs :: Entry(g, a)
    ensures DistinctProfiles(specs)
  {
    specs := [];
    var todo := g.resources.Keys;
    while todo != {}
      invariant todo <= g.resources.Keys
      invariant forall k :: Desired(specs, k) ==
                              if k.gpu == g.index && k.name !in todo then Get(g.resources, k.name) else 0
      invariant forall a | a in specs :: Entry(g, a) && a.profile !in todo
      invariant DistinctProfiles(specs)
    {
      var p :| p in todo;
      todo := todo - {p};
      var a := SpecAnnotation(p, g.index, g.resources[p]);
      assert (specs + [a])[..|specs|] == specs;
      specs := specs + [a];
    }
  }

  method GetGpuSpecAnnotationList(ps: seq<GpuPartitioning>) returns (specs: seq<SpecAnnotation>)
    ensures SpecsFor(specs, ps)
    ensures DistinctIndexes(ps) ==> DistinctProfiles(specs)
  {
    hide Desired;
    specs := [];
    NothingDesired();
    for i := 0 to |ps|
      invariant forall k :: Desired(specs, k) == Planned(ps, i, k)
      invariant forall a | a in specs :: exists j :: 0 <= j < i && Entry(ps[j], a)
      invariant DistinctIndexes(ps) ==> DistinctProfiles(specs)
    {
      var more := SpecsOfGpu(ps[i]);
      forall k ensures Desired(specs + more, k) == Planned(ps, i + 1, k) {
        DesiredAppend(specs, more, k);
      }
      if DistinctIndexes(ps) {
        forall a, b | a in specs && b in more ensures SpecProfile(a) != SpecProfile(b) {
          var j :| 0 <= j < i && Entry(ps[j], a);
          assert Entry(ps[i], b);
        }
      }
      specs := specs + more;
    }
    forall a | a in specs ensures exists g :: g in ps && Entry(g, a) {
      var j :| 0 <= j < |ps| && Entry(ps[j], a);
      assert ps[j] in ps;
    }
  }

  lemma NothingDesired()
    ensures forall k :: Desired([], k) == 0
  {
  }

  // ----- writing it -----

  function SpecValue(a: SpecAnnotation): string {
    Itoa(a.quantity)
  }

  /** A partitioning whose annotations can be told apart and read back. */
  ghost predicate Specifiable(ps: seq<GpuPartitioning>) {
    && DistinctIndexes(ps)
    && forall g | g in ps ::
         0 <= g.index <= MAX_INT && forall p | p in g.resources :: '-' !in p && IsInt(g.resources[p])
  }

  lemma SpecKeyTells(a: SpecAnnotation, b: SpecAnnotation)
    requires ParseSpecAnnotation(SpecKey(a), SpecValue(a)) == Some(a)
    requires ParseSpecAnnotation(SpecKey(b), SpecValue(b)) == Some(b)
    requires SpecKey(a) == SpecKey(b)
    ensures SpecProfile(a) == SpecProfile(b)
  {
    hide SpecKey, Itoa;
  }

  lemma SpecsWritable(m: map<string, string>, ps: seq<GpuPartitioning>, specs: seq<SpecAnnotation>)
    requires Specifiable(ps) && SpecsFor(specs, ps) && DistinctProfiles(specs)
    requires forall k | k in m :: !HasPrefix(k, SPEC_PREFIX)
    ensures Writable(m, specs, SpecKey, SpecValue, ParseSpecAnnotation)
  {
    hide SpecKey, SpecValue, ParseSpecAnnotation, HasPrefix;
    forall i | 0 <= i < |specs|
      ensures ParseSpecAnnotation(SpecKey(specs[i]), SpecValue(specs[i])) == Some(specs[i])
      ensures HasPrefix(SpecKey(specs[i]), SPEC_PREFIX)
    {
      SpecReadsBack(ps, specs, specs[i]);
    }
    forall i, j | 0 <= i < j < |specs| ensures SpecKey(specs[i]) != SpecKey(specs[j]) {
      if SpecKey(specs[i]) == SpecKey(specs[j]) {
        SpecKeyTells(specs[i], specs[j]);
        assert false;
      }
    }
  }

  lemma SpecReadsBack(ps: seq<GpuPartitioning>, specs: seq<SpecAnnotation>, a: SpecAnnotation)
    requires Specifiable(ps) && SpecsFor(specs, ps) && a in specs
    ensures ParseSpecAnnotation(SpecKey(a), SpecValue(a)) == Some(a)
    ensures HasPrefix(SpecKey(a), SPEC_PREFIX)
  {
    hide SpecKey, Itoa, ParseSpecAnnotation, HasPrefix;
    var g :| g in ps && Entry(g, a);
    SpecRoundTrip(a);
  }

  lemma SpecKeysHavePrefix(specs: seq<SpecAnnotation>)
    ensures forall i | 0 <= i < |specs| :: HasPrefix(SpecKey(specs[i]), SPEC_PREFIX)
  {
    hide Itoa;
  }

  /** Whatever list the agent parses from the annotations, it asks for exactly the partitioning. */
  ghost predicate SpecStated(annotations: map<string, string>, ps: seq<GpuPartitioning>) {
    forall specs | multiset(specs) == Harvest(annotations, ParseSpecAnnotation) :: SpecsFor(specs, ps)
  }

  method ApplyPartitioning(annotations: map<string, string>, planId: string, ps: seq<GpuPartitioning>)
    returns (updated: map<string, string>)
    ensures Specifiable(ps) ==> SpecStated(updated, ps)
    ensures ReadAnnotation(updated, PLAN_KEY) == planId
    ensures OthersKept(annotations, updated, SPEC_PREFIX, PLAN_KEY)
    ensures forall k | !HasPrefix(k, SPEC_PREFIX) && k != PLAN_KEY ::
              (k in updated <==> k in annotations) && (k in annotations ==> updated[k] == annotations[k])
  {
    hide ParseSpecAnnotation, SpecKey, SpecValue, Harvest, HasPrefix, Written, SpecsFor, Specifiable;
    var specs := GetGpuSpecAnnotationList(ps);
    var cleared := ClearPrefix(annotations, SPEC_PREFIX);
    var written := WriteAll(cleared, specs, SpecKey, SpecValue);
    updated := written[PLAN_KEY := planId];
    SpecKeysHavePrefix(specs);
    RewriteKeepsOthers(annotations, specs, SpecKey, SpecValue, SPEC_PREFIX, PLAN_KEY, planId);
    if Specifiable(ps) {
      assert DistinctIndexes(ps) by { IndexesOf(ps); }
      SpecsWritable(cleared, ps, specs);
      OnlySpecs();
      RewriteHarvest(annotations, specs, SpecKey, SpecValue, SPEC_PREFIX, PLAN_KEY, planId, ParseSpecAnnotation);
      forall others | multiset(others) == Harvest(updated, ParseSpecAnnotation) ensures SpecsFor(others, ps) {
        SameSpecs(specs, others, ps);
      }
    }
  }

  lemma IndexesOf(ps: seq<GpuPartitioning>)
    requires Specifiable(ps)
    ensures DistinctIndexes(ps)
  {
  }

  lemma SameSpecs(specs: seq<SpecAnnotation>, others: seq<SpecAnnotation>, ps: seq<GpuPartitioning>)
    requires SpecsFor(specs, ps) && multiset(specs) == multiset(others)
    ensures SpecsFor(others, ps)
  {
    hide Desired, Planned;
    forall k ensures Desired(others, k) == Planned(ps, |ps|, k) {
      DesiredMultiset(specs, others, k);
    }
    forall a | a in others ensures a in specs {
      assert a in multiset(others);
    }
  }

  /** Writing a spec does not disturb the status that the agent reported. */
  lemma StatusesKept(before: map<string, string>, after: map<string, string>)
    requires OthersKept(before, after, SPEC_PREFIX, PLAN_KEY)
    ensures Harvest(after, ParseStatusAnnotation) == Harvest(before, ParseStatusAnnotation)
  {
    hide Harvest, ParseStatusAnnotation, HasPrefix, OthersKept;
    OnlyStatuses();
    OtherPrefixKept(before, after, SPEC_PREFIX, PLAN_KEY, STATUS_PREFIX, ParseStatusAnnotation);
  }

  // ----- what a spec says about the node it was built for -----

  ghost predicate DistinctGpus(ls: seq<Ledger>) {
    forall i, j | 0 <= i < j < |ls| :: ls[i].index != ls[j].index
  }

  /** The spec wants the geometry of every GPU of the node, and nothing on any other GPU. */
  ghost predicate WantsGeometry(specs: seq<SpecAnnotation>, ls: seq<Ledger>) {
    && (forall i, p | 0 <= i < |ls| :: Desired(specs, Profile(ls[i].index, p)) == GeometryAt(ls[i], p))
    && forall k: Profile | (forall i | 0 <= i < |ls| :: ls[i].index != k.gpu) :: Desired(specs, k) == 0
  }

  lemma {:induction false} PlannedOnce(ls: seq<Ledger>, ps: seq<GpuPartitioning>, n: nat, k: Profile)
    requires Partitions(ls, ps) && DistinctGpus(ls) && n <= |ps|
    ensures forall i | 0 <= i < n && ls[i].index == k.gpu :: Planned(ps, n, k) == GeometryAt(ls[i], k.name)
    ensures (forall i | 0 <= i < n :: ls[i].index != k.gpu) ==> Planned(ps, n, k) == 0
  {
    if n > 0 {
      PlannedOnce(ls, ps, n - 1, k);
      assert ps[n - 1].index == ls[n - 1].index && GeometryAt(ls[n - 1], k.name) == Get(ps[n - 1].resources, k.name);
    }
  }

  lemma SpecWantsGeometry(ls: seq<Ledger>, ps: seq<GpuPartitioning>, specs: seq<SpecAnnotation>)
    requires Partitions(ls, ps) && DistinctGpus(ls) && SpecsFor(specs, ps)
    ensures WantsGeometry(specs, ls)
  {
    hide Planned, Partitions, GeometryAt, Desired;
    forall k: Profile
      ensures forall i | 0 <= i < |ls| && ls[i].index == k.gpu :: Desired(specs, k) == GeometryAt(ls[i], k.name)
      ensures (forall i | 0 <= i < |ls| :: ls[i].index != k.gpu) ==> Desired(specs, k) == 0
    {
      assert |ps| == |ls| by { SameLength(ls, ps); }
      PlannedOnce(ls, ps, |ps|, k);
    }
  }

  lemma SameLength(ls: seq<Ledger>, ps: seq<GpuPartitioning>)
    requires Partitions(ls, ps)
    ensures |ps| == |ls|
  {
  }
}
