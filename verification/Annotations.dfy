/** Spec and status annotations of a node. */
module Annotations {
  import opened Devices
  import opened Lists

  /** Desired quantity of a profile on a GPU. */
  datatype SpecAnnotation = SpecAnnotation(profile: ProfileName, index: int, quantity: int)

  /** Reported quantity of devices of a profile on a GPU, for one device status. */
  datatype StatusAnnotation = StatusAnnotation(profile: ProfileName, index: int, status: Status, quantity: int)

  function SpecProfile(a: SpecAnnotation): Profile {
    Profile(a.index, a.profile)
  }

  function SpecGpu(a: SpecAnnotation): int {
    a.index
  }

  /** Total quantity that a spec asks for, 0 where it is silent. */
  ghost function Desired(specs: seq<SpecAnnotation>, k: Profile): int {
    if specs == [] then 0 else
      var a := specs[|specs| - 1];
      Desired(specs[..|specs| - 1], k) + if SpecProfile(a) == k then a.quantity else 0
  }

  ghost predicate InSpec(specs: seq<SpecAnnotation>, k: Profile) {
    exists i :: 0 <= i < |specs| && SpecProfile(specs[i]) == k
  }

  lemma {:induction false} DesiredAppend(a: seq<SpecAnnotation>, b: seq<SpecAnnotation>, k: Profile)
    ensures Desired(a + b, k) == Desired(a, k) + Desired(b, k)
  {
    if b == [] {
      assert a + b == a;
    } else {
      assert (a + b)[..|a + b| - 1] == a + b[..|b| - 1];
      DesiredAppend(a, b[..|b| - 1], k);
    }
  }

  /** The order of the annotations does not matter. */
  lemma {:induction false} DesiredMultiset(a: seq<SpecAnnotation>, b: seq<SpecAnnotation>, k: Profile)
    requires multiset(a) == multiset(b)
    ensures Desired(a, k) == Desired(b, k)
    decreases |a|
  {
    if a == [] {
      assert |multiset(b)| == 0;
    } else {
      var n := |a| - 1;
      var j := FindLast(a, b);
      DesiredMultiset(a[..n], b[..j] + b[j + 1..], k);
      SplitAt(b, j);
      hide Desired;
      DesiredAppend(a[..n], [a[n]], k);
      DesiredAppend(b[..j], b[j + 1..], k);
      DesiredAppend(b[..j] + [b[j]], b[j + 1..], k);
      DesiredAppend(b[..j], [b[j]], k);
      assert a == a[..n] + [a[n]];
    }
  }

  lemma {:induction false} NotInSpec(specs: seq<SpecAnnotation>, k: Profile)
    requires !InSpec(specs, k)
    ensures Desired(specs, k) == 0
  {
    if specs != [] {
      var n := |specs| - 1;
      assert forall i | 0 <= i < n :: specs[..n][i] == specs[i];
      NotInSpec(specs[..n], k);
    }
  }
}
