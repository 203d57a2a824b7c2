/** The devices of a node as the kubelet lists them: those that running pods use, and the rest, which are free. */
module DeviceListing {
  import opened Devices
  import opened Plan
  import opened Text

  /** A device known to the kubelet; `profile` is None for resources other than MIG devices. */
  datatype KubeletDevice = KubeletDevice(id: string, profile: Option<ProfileName>)

  /** The hardware's answer to the question on which GPU a MIG device is. */
  datatype Lookup = OnGpu(gpu: int) | NotFound | Failed

  /** MIG devices that are found on a GPU, in order. */
  ghost function Located(s: seq<KubeletDevice>, lookup: string -> Lookup, status: Status): seq<Device> {
    if s == [] then [] else
      var x := s[|s| - 1];
      Located(s[..|s| - 1], lookup, status)
      + if x.profile.Some? && lookup(x.id).OnGpu? then [Device(x.id, lookup(x.id).gpu, x.profile.value, status)] else []
  }

  ghost predicate Readable(s: seq<KubeletDevice>, lookup: string -> Lookup) {
    forall x | x in s && x.profile.Some? :: !lookup(x.id).Failed?
  }

  /** Devices that are not found are dropped; any other error ends the search. */
  method ExtractMigDevices(s: seq<KubeletDevice>, lookup: string -> Lookup, status: Status)
    returns (r: Option<seq<Device>>)
    ensures r.Some? <==> Readable(s, lookup)
    ensures r.Some? ==> r.value == Located(s, lookup, status)
  {
    var devices: seq<Device> := [];
    for i := 0 to |s|
      invariant Readable(s[..i], lookup) && devices == Located(s[..i], lookup, status)
    {
      assert s[..i + 1][..i] == s[..i] && s[..i + 1] == s[..i] + [s[i]];
      if s[i].profile.None? {
        continue;
      }
      var at := lookup(s[i].id);
      if at.Failed? {
        assert s[i] in s;
        return None;
      }
      if at.NotFound? {
        continue;
      }
      devices := devices + [Device(s[i].id, at.gpu, s[i].profile.value, status)];
    }
    assert s[..|s|] == s;
    r := Some(devices);
  }

  /** Those of the allocatable devices that nobody uses, now free. */
  ghost function Unused(used: seq<Device>, allocatable: seq<Device>): seq<Device> {
    if allocatable == [] then [] else
      var a := allocatable[|allocatable| - 1];
      Unused(used, allocatable[..|allocatable| - 1]) + if HasId(used, a.id) then [] else [a.(status := Free)]
  }

  method ComputeFreeDevicesAndUpdateStatus(used: seq<Device>, allocatable: seq<Device>) returns (free: seq<Device>)
    ensures free == Unused(used, allocatable)
  {
    var usedLookup: map<string, Device> := map[];
    for i := 0 to |used|
      invariant forall id :: id in usedLookup <==> HasId(used[..i], id)
    {
      assert used[..i + 1] == used[..i] + [used[i]];
      assert used[i] in used[..i + 1];
      usedLookup := usedLookup[used[i].id := used[i]];
    }
    assert used[..|used|] == used;
    free := [];
    for i := 0 to |allocatable|
      invariant free == Unused(used, allocatable[..i])
    {
      assert allocatable[..i + 1][..i] == allocatable[..i];
      var a := allocatable[i];
      if a.id !in usedLookup {
        free := free + [a.(status := Free)];
      }
    }
    assert allocatable[..|allocatable|] == allocatable;
  }

  /** What the agent takes for the devices of the node. */
  ghost function NodeDevices(
    used: seq<KubeletDevice>, allocatable: seq<KubeletDevice>, lookup: string -> Lookup): seq<Device>
  {
    var inUse := Located(used, lookup, Used);
    inUse + Unused(inUse, Located(allocatable, lookup, Unknown))
  }

  /** The used devices and then the free ones, unless a kubelet request or a look-up fails. */
  method GetMigDevices(
    used: Option<seq<KubeletDevice>>, allocatable: Option<seq<KubeletDevice>>, lookup: string -> Lookup)
    returns (r: Option<seq<Device>>)
    ensures r.Some? <==>
              used.Some? && allocatable.Some? && Readable(used.value, lookup) && Readable(allocatable.value, lookup)
    ensures r.Some? ==> r.value == NodeDevices(used.value, allocatable.value, lookup)
  {
    hide Readable, Located, Unused;
    if used.None? {
      return None;
    }
    var inUse := ExtractMigDevices(used.value, lookup, Used);
    if inUse.None? || allocatable.None? {
      return None;
    }
    var all := ExtractMigDevices(allocatable.value, lookup, Unknown);
    if all.None? {
      return None;
    }
    var free := ComputeFreeDevicesAndUpdateStatus(inUse.value, all.value);
    r := Some(inUse.value + free);
  }

  // ----- what the listing guarantees -----

  /** Every device is used or free. */
  ghost predicate Settled(devices: seq<Device>) {
    forall d | d in devices :: !d.status.Unknown?
  }

  ghost predicate DistinctIds(s: seq<KubeletDevice>) {
    forall i, j | 0 <= i < j < |s| :: s[i].id != s[j].id
  }

  ghost predicate Lists(s: seq<KubeletDevice>, id: string) {
    exists x :: x in s && x.id == id
  }

  lemma {:induction false} LocatedIds(s: seq<KubeletDevice>, lookup: string -> Lookup, status: Status)
    ensures forall d | d in Located(s, lookup, status) :: Lists(s, d.id) && d.status == status
    ensures DistinctIds(s) ==> UniqueIds(Located(s, lookup, status))
  {
    if s != [] {
      var n := |s| - 1;
      assert s == s[..n] + [s[n]];
      LocatedIds(s[..n], lookup, status);
      assert s[n] in s;
      assert DistinctIds(s) ==> DistinctIds(s[..n]) && !Lists(s[..n], s[n].id);
    }
  }

  /** The kubelet's list has that MIG device, and the hardware finds it on that GPU. */
  ghost predicate Found(s: seq<KubeletDevice>, lookup: string -> Lookup, id: string, gpu: int, profile: ProfileName) {
    exists x :: x in s && x.id == id && x.profile == Some(profile) && lookup(id) == OnGpu(gpu)
  }

  lemma {:induction false} LocatedExactly(s: seq<KubeletDevice>, lookup: string -> Lookup, status: Status, d: Device)
    ensures d in Located(s, lookup, status) <==> d.status == status && Found(s, lookup, d.id, d.gpu, d.profile)
  {
    if s != [] {
      var n := |s| - 1;
      assert s == s[..n] + [s[n]];
      LocatedExactly(s[..n], lookup, status, d);
      if Found(s, lookup, d.id, d.gpu, d.profile) {
        var x :| x in s && x.id == d.id && x.profile == Some(d.profile) && lookup(d.id) == OnGpu(d.gpu);
        assert x == s[n] || x in s[..n];
      }
    }
  }

  lemma {:induction false} UnusedExactly(used: seq<Device>, allocatable: seq<Device>, d: Device)
    ensures d in Unused(used, allocatable)
            <==> d.status.Free? && !HasId(used, d.id) && exists a :: a in allocatable && a.(status := Free) == d
  {
    hide HasId;
    if allocatable != [] {
      var n := |allocatable| - 1;
      assert allocatable == allocatable[..n] + [allocatable[n]];
      UnusedExactly(used, allocatable[..n], d);
      assert (exists a :: a in allocatable && a.(status := Free) == d)
        <==> allocatable[n].(status := Free) == d || exists a :: a in allocatable[..n] && a.(status := Free) == d;
    }
  }

  /**
   * What is listed: as used, exactly the MIG devices that the kubelet reports in use and the hardware finds; as free,
   * exactly those that the kubelet reports allocatable and the hardware finds, and that are not listed as used. The GPU
   * is the one on which the hardware finds the device.
   */
  lemma ListedExactly(
    used: seq<KubeletDevice>, allocatable: seq<KubeletDevice>, lookup: string -> Lookup, d: Device)
    ensures d in NodeDevices(used, allocatable, lookup) <==>
              || (d.status.Used? && Found(used, lookup, d.id, d.gpu, d.profile))
              || (d.status.Free? && Found(allocatable, lookup, d.id, d.gpu, d.profile)
                  && !exists gpu, profile :: Found(used, lookup, d.id, gpu, profile))
  {
    hide Located, Unused, Found;
    var inUse, all := Located(used, lookup, Used), Located(allocatable, lookup, Unknown);
    LocatedExactly(used, lookup, Used, d);
    LocatedExactly(allocatable, lookup, Unknown, d.(status := Unknown));
    UnusedExactly(inUse, all, d);
    forall e ensures e in inUse <==> e.status.Used? && Found(used, lookup, e.id, e.gpu, e.profile) {
      LocatedExactly(used, lookup, Used, e);
    }
    forall e ensures e in all <==> e.status.Unknown? && Found(allocatable, lookup, e.id, e.gpu, e.profile) {
      LocatedExactly(allocatable, lookup, Unknown, e);
    }
    if d.status.Free? && d.(status := Unknown) in all {
      assert d.(status := Unknown).(status := Free) == d;
    }
    if gpu, profile :| Found(used, lookup, d.id, gpu, profile) {
      assert Device(d.id, gpu, profile, Used) in inUse;
    }
  }

  lemma {:induction false} UnusedIds(used: seq<Device>, allocatable: seq<Device>)
    ensures forall d | d in Unused(used, allocatable) :: IsFree(d) && !HasId(used, d.id) && HasId(allocatable, d.id)
    ensures UniqueIds(allocatable) ==> UniqueIds(Unused(used, allocatable))
  {
    if allocatable != [] {
      var n := |allocatable| - 1;
      assert allocatable == allocatable[..n] + [allocatable[n]];
      UnusedIds(used, allocatable[..n]);
      assert allocatable[n] in allocatable;
      assert UniqueIds(allocatable) ==> !HasId(allocatable[..n], allocatable[n].id);
    }
  }

  /**
   * Every listed device is used or free, no id is both, and ids are unique if the kubelet's are in each of its lists.
   */
  lemma ListingSettled(used: seq<KubeletDevice>, allocatable: seq<KubeletDevice>, lookup: string -> Lookup)
    ensures var devices := NodeDevices(used, allocatable, lookup);
            && Settled(devices)
            && (forall d, e | d in devices && e in devices && IsFree(d) && !IsFree(e) :: d.id != e.id)
            && (DistinctIds(used) && DistinctIds(allocatable) ==> UniqueIds(devices))
  {
    hide Located, Unused;
    var inUse, all := Located(used, lookup, Used), Located(allocatable, lookup, Unknown);
    LocatedIds(used, lookup, Used);
    LocatedIds(allocatable, lookup, Unknown);
    UnusedIds(inUse, all);
  }
}
