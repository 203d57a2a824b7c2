/** Building the GPUs of a node from the status annotations that the agent reported. */
module Extraction {
  import opened GoMaps
  import opened Lists
  import opened Devices
  import opened Annotations
  import opened Text
  import opened MigGpu
  import opened MigNode
  import opened Reporter
  import opened Partitioner

  function StatusGpu(a: StatusAnnotation): int {
    a.index
  }

  ghost predicate Says(a: StatusAnnotation, index: int, p: ProfileName, status: Status) {
    a.index == index && a.profile == p && a.status == status
  }

  /** The map holds, for every profile annotated with the status on the GPU, a quantity that some annotation gives. */
  ghost predicate Tells(m: Counts, statuses: seq<StatusAnnotation>, index: int, status: Status) {
    && (forall a | a in statuses && a.index == index && a.status == status :: a.profile in m)
    && forall p | p in m :: exists a :: a in statuses && Says(a, index, p, status) && a.quantity == m[p]
  }

  ghost predicate FromStatus(statuses: seq<StatusAnnotation>, l: Ledger) {
    && (exists a :: a in statuses && a.index == l.index)
    && Tells(l.used, statuses, l.index, Used) && Tells(l.free, statuses, l.index, Free)
  }

  ghost predicate HasGpu(ls: seq<Ledger>, n: nat, g: int) {
    exists i :: 0 <= i < n <= |ls| && ls[i].index == g
  }

  /** The first `n` GPUs are the annotated ones, in any order; the others are empty and numbered by their position. */
  ghost predicate Extracted(statuses: seq<StatusAnnotation>, allowed: seq<Counts>, count: int, n: nat, ls: seq<Ledger>)
  {
    && n <= |ls| == Max(n, count)
    && (forall i | 0 <= i < n :: ls[i].allowed == allowed && FromStatus(statuses, ls[i]))
    && (forall i, j | 0 <= i < j < n :: ls[i].index != ls[j].index)
    && (forall a | a in statuses :: HasGpu(ls, n, a.index))
    && forall i | n <= i < |ls| :: ls[i] == Ledger(i, allowed, map[], map[])
  }

  /** The loop over the annotations of one GPU. */
  method ReadCounts(group: seq<StatusAnnotation>, index: int) returns (used: Counts, free: Counts)
    requires forall a | a in group :: a.index == index
    ensures Tells(used, group, index, Used) && Tells(free, group, index, Free)
  {
    used, free := map[], map[];
    for i := 0 to |group|
      invariant Tells(used, group[..i], index, Used) && Tells(free, group[..i], index, Free)
    {
      var a := group[i];
      assert a in group;
      assert forall b :: b in group[..i + 1] <==> b in group[..i] || b == a;
      if a.status.Used? {
        used := used[a.profile := a.quantity];
      }
      if a.status.Free? {
        free := free[a.profile := a.quantity];
      }
    }
    assert group[..|group|] == group;
  }

  lemma GroupTells(m: Counts, statuses: seq<StatusAnnotation>, index: int, status: Status)
    requires Tells(m, Pick(statuses, StatusGpu, index), index, status)
    ensures Tells(m, statuses, index, status)
  {
    hide Pick;
    PickMembers(statuses, StatusGpu, index);
    forall a | a in statuses && a.index == index && a.status == status ensures a.profile in m {
      assert StatusGpu(a) == index;
    }
  }

  method AnnotatedGpu(ghost statuses: seq<StatusAnnotation>, group: seq<StatusAnnotation>, g: int, allowed: seq<Counts>)
    returns (l: Ledger)
    requires group == Pick(statuses, StatusGpu, g) && group != []
    ensures l.index == g && l.allowed == allowed && FromStatus(statuses, l)
  {
    hide Pick, Tells;
    PickMembers(statuses, StatusGpu, g);
    var used, free := ReadCounts(group, g);
    GroupTells(used, statuses, g, Used);
    GroupTells(free, statuses, g, Free);
    l := Ledger(g, allowed, used, free);
    assert group[0] in statuses && StatusGpu(group[0]) == g;
  }

  /** The GPUs that have annotations. */
  method Annotated(statuses: seq<StatusAnnotation>, allowed: seq<Counts>) returns (ls: seq<Ledger>)
    ensures Extracted(statuses, allowed, 0, |ls|, ls)
  {
    hide Pick, FromStatus, HasGpu;
    var groups := GroupBy(statuses, StatusGpu);
    forall g ensures g in groups <==> exists a :: a in statuses && a.index == g {
      GroupExists(statuses, g);
    }
    ls := [];
    var todo := groups.Keys;
    while todo != {}
      invariant todo <= groups.Keys
      invariant forall i | 0 <= i < |ls| ::
                  ls[i].allowed == allowed && FromStatus(statuses, ls[i]) && ls[i].index in groups.Keys - todo
      invariant forall g | g in groups.Keys - todo :: HasGpu(ls, |ls|, g)
      invariant forall i, j | 0 <= i < j < |ls| :: ls[i].index != ls[j].index
    {
      var g := Any(todo);
      todo := todo - {g};
      var l := AnnotatedGpu(statuses, groups[g], g, allowed);
      ls := AddGpu(ls, l);
    }
  }

  method AddGpu(before: seq<Ledger>, l: Ledger) returns (ls: seq<Ledger>)
    ensures ls == before + [l]
    ensures forall g :: HasGpu(ls, |ls|, g) <==> HasGpu(before, |before|, g) || g == l.index
  {
    ls := before + [l];
    assert ls[|before|].index == l.index;
    forall g | HasGpu(before, |before|, g) ensures HasGpu(ls, |ls|, g) {
      var i :| 0 <= i < |before| && before[i].index == g;
      assert ls[i].index == g;
    }
  }

  lemma GroupExists(statuses: seq<StatusAnnotation>, g: int)
    ensures Pick(statuses, StatusGpu, g) != [] <==> exists a :: a in statuses && a.index == g
  {
    hide Pick;
    PickMembers(statuses, StatusGpu, g);
    if a :| a in statuses && a.index == g {
      assert StatusGpu(a) == g;
    }
    if Pick(statuses, StatusGpu, g) != [] {
      assert StatusGpu(Pick(statuses, StatusGpu, g)[0]) == g;
    }
  }

  /** A model without known geometries is an error as soon as there is a GPU to build. */
  method ExtractGpus(statuses: seq<StatusAnnotation>, allowed: Option<seq<Counts>>, count: int)
    returns (r: Option<seq<Ledger>>)
    ensures r.None? <==> allowed.None? && (statuses != [] || count > 0)
    ensures r.Some? && allowed.Some? ==> exists n: nat :: Extracted(statuses, allowed.value, count, n, r.value)
    ensures r.Some? && allowed.None? ==> r.value == []
  {
    hide FromStatus;
    if allowed.None? {
      return if statuses != [] || count > 0 then None else Some([]);
    }
    var ls := Annotated(statuses, allowed.value);
    ghost var annotated, n := ls, |ls|;
    var i := |ls|;
    while i < count
      invariant n <= i == |ls| && (i <= count || i == n)
      invariant ls[..n] == annotated
      invariant forall j | n <= j < |ls| :: ls[j] == Ledger(j, allowed.value, map[], map[])
    {
      ls := ls + [Ledger(i, allowed.value, map[], map[])];
      i := i + 1;
    }
    SameAnnotated(statuses, allowed.value, annotated, ls);
    assert Extracted(statuses, allowed.value, count, n, ls);
    r := Some(ls);
  }

  lemma SameAnnotated(statuses: seq<StatusAnnotation>, allowed: seq<Counts>, annotated: seq<Ledger>, ls: seq<Ledger>)
    requires Extracted(statuses, allowed, 0, |annotated|, annotated)
    requires |annotated| <= |ls| && ls[..|annotated|] == annotated
    ensures forall i | 0 <= i < |annotated| :: ls[i] == annotated[i]
    ensures forall a | a in statuses :: HasGpu(ls, |annotated|, a.index)
  {
    hide FromStatus;
    forall i | 0 <= i < |annotated| ensures ls[i] == annotated[i] {
      assert ls[i] == ls[..|annotated|][i];
    }
    forall a | a in statuses ensures HasGpu(ls, |annotated|, a.index) {
      var i :| 0 <= i < |annotated| && annotated[i].index == a.index;
      assert ls[i].index == a.index;
    }
  }

  /** Whatever quantities of at least 0 are annotated, the ledgers can be worked with. */
  lemma ExtractedIsSane(statuses: seq<StatusAnnotation>, allowed: seq<Counts>, count: int, n: nat, ls: seq<Ledger>)
    requires Extracted(statuses, allowed, count, n, ls) && forall a | a in statuses :: a.quantity >= 0
    requires forall i | 0 <= i < |allowed| :: Positive(allowed[i])
    ensures SaneLedgers(ls)
  {
    forall i | 0 <= i < |ls| ensures NonNegative(ls[i].used) && NonNegative(ls[i].free) && ls[i].allowed == allowed {
      assert i < n ==> FromStatus(statuses, ls[i]);
    }
  }

  // ----- what the numbering means -----

  /** GPU indexes are distinct exactly when no annotated GPU has an index that a missing one is given. */
  lemma DistinctExactlyWhen(statuses: seq<StatusAnnotation>, allowed: seq<Counts>, count: int, n: nat, ls: seq<Ledger>)
    requires Extracted(statuses, allowed, count, n, ls)
    ensures DistinctGpus(ls) <==> forall a | a in statuses :: !(n <= a.index < count)
  {
    hide Tells;
    if a :| a in statuses && n <= a.index < count {
      var i :| 0 <= i < n && ls[i].index == a.index;
      assert ls[a.index].index == ls[i].index;
    }
    if i, j :| 0 <= i < j < |ls| && ls[i].index == ls[j].index {
      assert i < n <= j && FromStatus(statuses, ls[i]);
      var a :| a in statuses && a.index == ls[i].index;
    }
  }

  /** Two GPUs of which only the second one is annotated: the node gets GPU 1 twice and no GPU 0. */
  lemma MissingGpuIsMisnumbered(allowed: seq<Counts>) returns (statuses: seq<StatusAnnotation>, ls: seq<Ledger>)
    ensures Extracted(statuses, allowed, 2, 1, ls)
    ensures ls[0].index == ls[1].index == 1
  {
    var a := StatusAnnotation("1g.5gb", 1, Used, 1);
    statuses := [a];
    var used: Counts := map["1g.5gb" := 1];
    ls := [Ledger(1, allowed, used, map[]), Ledger(1, allowed, map[], map[])];
    assert a in statuses;
    assert Says(a, 1, "1g.5gb", Used);
    assert Tells(used, statuses, 1, Used);
    assert Tells(map[], statuses, 1, Free);
    assert FromStatus(statuses, ls[0]);
    assert ls[0].index == a.index;
  }

  // ----- a node built from a report has the reported counts -----

  lemma ReportTells(
    m: Counts, statuses: seq<StatusAnnotation>, devices: seq<Device>, index: int, status: Status, p: ProfileName)
    requires IsReport(multiset(statuses), devices) && Tells(m, statuses, index, status)
    ensures Get(m, p) == StatusCount(devices, Tag(Profile(index, p), status))
    ensures p in m ==> m[p] > 0
  {
    hide StatusCount;
    if p in m {
      var a :| a in statuses && Says(a, index, p, status) && a.quantity == m[p];
      assert a in multiset(statuses);
      assert Reported(devices, a);
    } else {
      var a := StatusAnnotation(p, index, status, StatusCount(devices, Tag(Profile(index, p), status)));
      assert a.quantity > 0 ==> Reported(devices, a) && a in multiset(statuses);
    }
  }

  lemma NotReported(statuses: seq<StatusAnnotation>, devices: seq<Device>, t: Tag)
    requires IsReport(multiset(statuses), devices)
    requires forall a | a in statuses :: a.index != t.profile.gpu
    ensures StatusCount(devices, t) == 0
  {
    hide StatusCount;
    var a := StatusAnnotation(t.profile.name, t.profile.gpu, t.status, StatusCount(devices, t));
    assert a.quantity > 0 ==> Reported(devices, a) && a in multiset(statuses);
  }

  /** Used and free counts of the node are those of the devices, on every GPU. */
  ghost predicate SeesDevices(ls: seq<Ledger>, devices: seq<Device>) {
    forall i, p | 0 <= i < |ls| ::
      && Get(ls[i].used, p) == StatusCount(devices, Tag(Profile(ls[i].index, p), Used))
      && Get(ls[i].free, p) == StatusCount(devices, Tag(Profile(ls[i].index, p), Free))
  }

  lemma NodeSeesDevices(
    statuses: seq<StatusAnnotation>, devices: seq<Device>, allowed: seq<Counts>, count: int, n: nat, ls: seq<Ledger>)
    requires Extracted(statuses, allowed, count, n, ls) && IsReport(multiset(statuses), devices) && DistinctGpus(ls)
    requires forall i | 0 <= i < |allowed| :: Positive(allowed[i])
    ensures ValidLedgers(ls) && SeesDevices(ls, devices)
    ensures forall d | d in devices :: HasGpu(ls, |ls|, d.gpu)
  {
    hide StatusCount, IsReport, Tells;
    DistinctExactlyWhen(statuses, allowed, count, n, ls);
    forall i, p | 0 <= i < |ls|
      ensures Get(ls[i].used, p) == StatusCount(devices, Tag(Profile(ls[i].index, p), Used))
      ensures Get(ls[i].free, p) == StatusCount(devices, Tag(Profile(ls[i].index, p), Free))
      ensures (p in ls[i].used ==> ls[i].used[p] > 0) && (p in ls[i].free ==> ls[i].free[p] > 0)
    {
      if i < n {
        assert FromStatus(statuses, ls[i]);
        ReportTells(ls[i].used, statuses, devices, ls[i].index, Used, p);
        ReportTells(ls[i].free, statuses, devices, ls[i].index, Free, p);
      } else {
        NotReported(statuses, devices, Tag(Profile(i, p), Used));
        NotReported(statuses, devices, Tag(Profile(i, p), Free));
      }
    }
    forall d | d in devices ensures HasGpu(ls, |ls|, d.gpu) {
      DeviceIsReported(statuses, devices, d);
      var i :| 0 <= i < n && ls[i].index == d.gpu;
    }
  }

  lemma DeviceIsReported(statuses: seq<StatusAnnotation>, devices: seq<Device>, d: Device)
    requires IsReport(multiset(statuses), devices) && d in devices
    ensures exists a :: a in statuses && a.index == d.gpu
  {
    hide Pick;
    PickMembers(devices, TagOf, TagOf(d));
    var a := StatusAnnotation(d.profile, d.gpu, d.status, StatusCount(devices, TagOf(d)));
    assert d in Pick(devices, TagOf, TagOf(d));
    assert Reported(devices, a);
    assert a in multiset(statuses);
  }
}
