/** MIG devices, the profiles they belong to, and counting them. */
module Devices {
  import opened Lists

  type ProfileName = string

  datatype Status = Used | Free | Unknown

  datatype Device = Device(id: string, gpu: int, profile: ProfileName, status: Status)

  /** A MIG profile on one GPU. */
  datatype Profile = Profile(gpu: int, name: ProfileName)

  function ProfileOf(d: Device): Profile {
    Profile(d.gpu, d.profile)
  }

  function GpuOf(d: Device): int {
    d.gpu
  }

  predicate IsFree(d: Device) {
    d.status.Free?
  }

  ghost predicate UniqueIds(s: seq<Device>) {
    forall i, j | 0 <= i < j < |s| :: s[i].id != s[j].id
  }

  /** How many devices of profile `k` are in `s`: the free ones, or those that are not. */
  ghost function Tally(s: seq<Device>, k: Profile, free: bool): nat {
    if s == [] then 0 else
      var d := s[|s| - 1];
      Tally(s[..|s| - 1], k, free) + if ProfileOf(d) == k && IsFree(d) == free then 1 else 0
  }

  ghost function Num(s: seq<Device>, k: Profile): nat {
    Tally(s, k, true) + Tally(s, k, false)
  }

  lemma {:induction false} TallyAppend(a: seq<Device>, b: seq<Device>, k: Profile, free: bool)
    ensures Tally(a + b, k, free) == Tally(a, k, free) + Tally(b, k, free)
  {
    if b == [] {
      assert a + b == a;
    } else {
      assert (a + b)[..|a + b| - 1] == a + b[..|b| - 1];
      TallyAppend(a, b[..|b| - 1], k, free);
    }
  }

  lemma TallyWithoutOne(s: seq<Device>, j: nat, k: Profile, free: bool)
    requires j < |s|
    ensures Tally(s[..j] + s[j + 1..], k, free)
            == Tally(s, k, free) - if ProfileOf(s[j]) == k && IsFree(s[j]) == free then 1 else 0
  {
    hide Tally;
    assert s == s[..j] + [s[j]] + s[j + 1..];
    TallyAppend(s[..j], s[j + 1..], k, free);
    TallyAppend(s[..j] + [s[j]], s[j + 1..], k, free);
    TallyAppend(s[..j], [s[j]], k, free);
    TallyOne(s[j], k, free);
  }

  /** Counting does not depend on order. */
  lemma {:induction false} TallyMultiset(a: seq<Device>, b: seq<Device>, k: Profile, free: bool)
    requires multiset(a) == multiset(b)
    ensures Tally(a, k, free) == Tally(b, k, free)
    decreases |a|
  {
    if a == [] {
      assert |multiset(b)| == 0;
    } else {
      var n := |a| - 1;
      var j := FindLast(a, b);
      TallyMultiset(a[..n], b[..j] + b[j + 1..], k, free);
      TallyWithoutOne(b, j, k, free);
    }
  }

  lemma TallyOne(d: Device, k: Profile, free: bool)
    ensures Tally([d], k, free) == if ProfileOf(d) == k && IsFree(d) == free then 1 else 0
  {
    assert [d][..0] == [];
  }

  lemma {:induction false} TallyPickProfile(s: seq<Device>, at: Profile, k: Profile, free: bool)
    ensures Tally(Pick(s, ProfileOf, at), k, free) == if k == at then Tally(s, k, free) else 0
  {
    if s != [] {
      var n := |s| - 1;
      TallyPickProfile(s[..n], at, k, free);
      TallyAppend(Pick(s[..n], ProfileOf, at), [s[n]], k, free);
      TallyOne(s[n], k, free);
    }
  }

  lemma {:induction false} TallyPickGpu(s: seq<Device>, gpu: int, k: Profile, free: bool)
    ensures Tally(Pick(s, GpuOf, gpu), k, free) == if k.gpu == gpu then Tally(s, k, free) else 0
  {
    if s != [] {
      var n := |s| - 1;
      TallyPickGpu(s[..n], gpu, k, free);
      TallyAppend(Pick(s[..n], GpuOf, gpu), [s[n]], k, free);
      TallyOne(s[n], k, free);
    }
  }

  /** A list of devices of one profile: its length is its count. */
  lemma {:induction false} TallyLength(s: seq<Device>, k: Profile)
    requires forall d | d in s :: ProfileOf(d) == k
    ensures Num(s, k) == |s|
  {
    if s != [] {
      var n := |s| - 1;
      assert s == s[..n] + [s[n]];
      TallyLength(s[..n], k);
    }
  }

  lemma {:induction false} TallyPositive(s: seq<Device>, d: Device)
    requires d in s
    ensures Tally(s, ProfileOf(d), IsFree(d)) > 0
  {
    var n := |s| - 1;
    assert s == s[..n] + [s[n]];
    if d != s[n] {
      TallyPositive(s[..n], d);
    }
  }

  lemma {:induction false} TallyWitness(s: seq<Device>, k: Profile, free: bool)
    requires Tally(s, k, free) > 0
    ensures exists d :: d in s && ProfileOf(d) == k && IsFree(d) == free
  {
    var n := |s| - 1;
    assert s == s[..n] + [s[n]];
    if !(ProfileOf(s[n]) == k && IsFree(s[n]) == free) {
      TallyWitness(s[..n], k, free);
    }
  }

  lemma {:induction false} PickUniqueIds<K>(s: seq<Device>, key: Device -> K, k: K)
    requires UniqueIds(s)
    ensures UniqueIds(Pick(s, key, k))
  {
    if s != [] {
      var n := |s| - 1;
      PickUniqueIds(s[..n], key, k);
      PickMembers(s[..n], key, k);
      assert forall d | d in s[..n] :: d.id != s[n].id;
    }
  }
}
