/** The agent's two cheap checks that nothing has to be done: on its devices, and on the reported status. */
module StateCheck {
  import opened GoMaps
  import opened Lists
  import opened Devices
  import opened Annotations
  import opened Text
  import opened Plan
  import opened Planner
  import opened Reporter

  // ----- spec against devices -----

  function KeyOf(k: Profile): string {
    Itoa(k.gpu) + "-" + k.name
  }

  function DeviceKey(d: Device): string {
    KeyOf(ProfileOf(d))
  }

  /** A spec that mentions a profile without wanting any of it. */
  ghost predicate HasEmptyWish(specs: seq<SpecAnnotation>) {
    exists k :: InSpec(specs, k) && Desired(specs, k) == 0
  }

  /** The map holds, under the key of every profile that the spec mentions, the total that the spec asks for. */
  ghost predicate IsTotals(m: map<string, int>, specs: seq<SpecAnnotation>) {
    && (forall s | s in m :: exists k :: KeyOf(k) == s)
    && (forall k :: KeyOf(k) in m <==> InSpec(specs, k))
    && forall k | KeyOf(k) in m :: m[KeyOf(k)] == Desired(specs, k)
  }

  method SpecTotals(specs: seq<SpecAnnotation>) returns (m: map<string, int>)
    ensures IsTotals(m, specs)
  {
    hide IsTotals, KeyOf;
    m := map[];
    NoTotals();
    for i := 0 to |specs|
      invariant IsTotals(m, specs[..i])
    {
      TotalsStep(m, specs, i);
      var key := KeyOf(SpecProfile(specs[i]));
      m := m[key := Get(m, key) + specs[i].quantity];
    }
    assert specs[..|specs|] == specs;
  }

  lemma NoTotals()
    ensures IsTotals(map[], [])
  {
    hide KeyOf;
  }

  lemma TotalsStep(m: map<string, int>, specs: seq<SpecAnnotation>, i: nat)
    requires i < |specs| && IsTotals(m, specs[..i])
    ensures var key := KeyOf(SpecProfile(specs[i]));
            IsTotals(m[key := Get(m, key) + specs[i].quantity], specs[..i + 1])
  {
    hide KeyOf, InSpec, Desired;
    var at := SpecProfile(specs[i]);
    var next := m[KeyOf(at) := Get(m, KeyOf(at)) + specs[i].quantity];
    forall k
      ensures KeyOf(k) in next <==> InSpec(specs[..i + 1], k)
      ensures KeyOf(k) in next ==> next[KeyOf(k)] == Desired(specs[..i + 1], k)
    {
      KeyInjective(k, at);
      SpecSnoc(specs, i, k);
    }
  }

  lemma KeyInjective(a: Profile, b: Profile)
    ensures KeyOf(a) == KeyOf(b) <==> a == b
  {
    if KeyOf(a) == KeyOf(b) {
      IndexedNameInjective(a.gpu, a.name, b.gpu, b.name);
    }
  }

  lemma SpecSnoc(specs: seq<SpecAnnotation>, i: nat, k: Profile)
    requires i < |specs|
    ensures InSpec(specs[..i + 1], k) <==> InSpec(specs[..i], k) || SpecProfile(specs[i]) == k
    ensures Desired(specs[..i + 1], k)
            == Desired(specs[..i], k) + if SpecProfile(specs[i]) == k then specs[i].quantity else 0
    ensures !InSpec(specs[..i], k) ==> Desired(specs[..i], k) == 0
  {
    assert specs[..i + 1][..i] == specs[..i];
    if !InSpec(specs[..i], k) {
      NotInSpec(specs[..i], k);
    }
    if SpecProfile(specs[i]) == k {
      assert SpecProfile(specs[..i + 1][i]) == k;
    }
    if j :| 0 <= j < i && SpecProfile(specs[..i][j]) == k {
      assert SpecProfile(specs[..i + 1][j]) == k;
    }
    if InSpec(specs[..i + 1], k) {
      var j :| 0 <= j < |specs[..i + 1]| && SpecProfile(specs[..i + 1][j]) == k;
      if j < i {
        assert SpecProfile(specs[..i][j]) == k;
      }
    }
  }

  method StateTotals(state: MigState, ghost devices: seq<Device>) returns (m: map<string, int>)
    requires Represents(state, devices)
    ensures forall s | s in m :: exists k :: KeyOf(k) == s
    ensures forall k :: KeyOf(k) in m <==> Num(devices, k) > 0
    ensures forall k | KeyOf(k) in m :: m[KeyOf(k)] == Num(devices, k)
  {
    hide Tally, Pick;
    var flat := Flatten(state, devices);
    var groups := GroupBy(flat, DeviceKey);
    m := map s | s in groups :: |groups[s]|;
    forall k ensures |Pick(flat, DeviceKey, KeyOf(k))| == Num(devices, k) {
      KeyBucket(flat, k);
      TallyMultiset(flat, devices, k, true);
      TallyMultiset(flat, devices, k, false);
    }
    forall s | s in m ensures exists k :: KeyOf(k) == s {
      PickMembers(flat, DeviceKey, s);
      var d := groups[s][0];
      assert d in groups[s];
      assert KeyOf(ProfileOf(d)) == s;
    }
  }

  lemma {:induction false} KeyBucket(s: seq<Device>, k: Profile)
    ensures |Pick(s, DeviceKey, KeyOf(k))| == Num(s, k)
  {
    if s != [] {
      var n := |s| - 1;
      KeyBucket(s[..n], k);
      KeyInjective(ProfileOf(s[n]), k);
    }
  }

  /** True exactly when every count is as desired and the spec mentions no profile just to want none of it. */
  method Matches(state: MigState, specs: seq<SpecAnnotation>, ghost devices: seq<Device>) returns (ok: bool)
    requires Represents(state, devices)
    ensures ok <==> InSync(devices, specs) && !HasEmptyWish(specs)
  {
    hide Tally, InSpec, KeyOf;
    var wanted := SpecTotals(specs);
    var actual := StateTotals(state, devices);
    ok := wanted == actual;
    TotalsAgree(wanted, actual, devices, specs);
  }

  lemma TotalsAgree(
    wanted: map<string, int>, actual: map<string, int>, devices: seq<Device>, specs: seq<SpecAnnotation>)
    requires IsTotals(wanted, specs) && (forall s | s in actual :: exists k :: KeyOf(k) == s)
    requires forall k :: KeyOf(k) in actual <==> Num(devices, k) > 0
    requires forall k | KeyOf(k) in actual :: actual[KeyOf(k)] == Num(devices, k)
    ensures wanted == actual <==> InSync(devices, specs) && !HasEmptyWish(specs)
  {
    hide Tally, InSpec, KeyOf;
    if wanted == actual {
      forall k ensures Desired(specs, k) == Num(devices, k) {
        assert KeyOf(k) in wanted <==> InSpec(specs, k);
        if !InSpec(specs, k) {
          NotInSpec(specs, k);
        }
      }
      forall k | InSpec(specs, k) ensures Desired(specs, k) != 0 {
        assert KeyOf(k) in wanted;
      }
    }
    if InSync(devices, specs) && !HasEmptyWish(specs) {
      forall s ensures s in wanted <==> s in actual {
        if s in wanted || s in actual {
          var k :| KeyOf(k) == s;
          assert Desired(specs, k) == Num(devices, k);
          if !InSpec(specs, k) {
            NotInSpec(specs, k);
          }
        }
      }
      forall s | s in wanted ensures wanted[s] == actual[s] {
        var k :| KeyOf(k) == s;
        assert Desired(specs, k) == Num(devices, k);
      }
      assert wanted == actual;
    }
  }

  // ----- spec against reported status -----

  /** Sum of the quantities that the annotations give for a profile, over all device statuses. */
  ghost function StatusSum(statuses: seq<StatusAnnotation>, k: Profile): int {
    if statuses == [] then 0 else
      var a := statuses[|statuses| - 1];
      StatusSum(statuses[..|statuses| - 1], k) + if Profile(a.index, a.profile) == k then a.quantity else 0
  }

  ghost function TagSum(statuses: seq<StatusAnnotation>, t: Tag): int {
    if statuses == [] then 0 else
      var a := statuses[|statuses| - 1];
      TagSum(statuses[..|statuses| - 1], t) + if AnnotationTag(a) == t then a.quantity else 0
  }

  lemma {:induction false} SumByTag(statuses: seq<StatusAnnotation>, k: Profile)
    ensures StatusSum(statuses, k)
            == TagSum(statuses, Tag(k, Used)) + TagSum(statuses, Tag(k, Free)) + TagSum(statuses, Tag(k, Unknown))
  {
    if statuses != [] {
      var a := statuses[|statuses| - 1];
      SumByTag(statuses[..|statuses| - 1], k);
      match a.status {
        case Used => assert AnnotationTag(a) == Tag(Profile(a.index, a.profile), Used);
        case Free => assert AnnotationTag(a) == Tag(Profile(a.index, a.profile), Free);
        case Unknown => assert AnnotationTag(a) == Tag(Profile(a.index, a.profile), Unknown);
      }
    }
  }

  lemma {:induction false} TagSumOnce(statuses: seq<StatusAnnotation>, a: StatusAnnotation)
    requires forall b | b in statuses && AnnotationTag(b) == AnnotationTag(a) :: b == a
    ensures multiset(statuses)[a] == 0 ==> TagSum(statuses, AnnotationTag(a)) == 0
    ensures multiset(statuses)[a] == 1 ==> TagSum(statuses, AnnotationTag(a)) == a.quantity
  {
    if statuses != [] {
      var n := |statuses| - 1;
      assert statuses == statuses[..n] + [statuses[n]];
      TagSumOnce(statuses[..n], a);
    }
  }

  /** A report gives each kind of device its count. */
  lemma ReportTagSum(statuses: seq<StatusAnnotation>, devices: seq<Device>, t: Tag)
    requires IsReport(multiset(statuses), devices)
    ensures TagSum(statuses, t) == StatusCount(devices, t)
  {
    hide StatusCount, TagSum;
    var a := StatusAnnotation(t.profile.name, t.profile.gpu, t.status, StatusCount(devices, t));
    forall b | b in statuses && AnnotationTag(b) == t ensures b == a {
      assert b in multiset(statuses);
      assert Reported(devices, b);
    }
    TagSumOnce(statuses, a);
  }

  lemma {:induction false} NumByStatus(devices: seq<Device>, k: Profile)
    ensures Num(devices, k)
            == StatusCount(devices, Tag(k, Used)) + StatusCount(devices, Tag(k, Free))
               + StatusCount(devices, Tag(k, Unknown))
  {
    if devices != [] {
      NumByStatus(devices[..|devices| - 1], k);
    }
  }

  /** A report gives each profile its number of devices, and mentions the profiles that have some. */
  lemma ReportSums(statuses: seq<StatusAnnotation>, devices: seq<Device>, k: Profile)
    requires IsReport(multiset(statuses), devices)
    ensures StatusSum(statuses, k) == Num(devices, k)
    ensures Mentions(statuses, k) <==> Num(devices, k) > 0
  {
    hide StatusCount, TagSum, StatusSum, Tally;
    SumByTag(statuses, k);
    NumByStatus(devices, k);
    forall status ensures TagSum(statuses, Tag(k, status)) == StatusCount(devices, Tag(k, status))
    {
      ReportTagSum(statuses, devices, Tag(k, status));
    }
    forall status ensures StatusCount(devices, Tag(k, status)) > 0 ==>
                    exists a :: a in statuses && Profile(a.index, a.profile) == k
    {
      var a := StatusAnnotation(k.name, k.gpu, status, StatusCount(devices, Tag(k, status)));
      assert Reported(devices, a) ==> a in multiset(statuses);
    }
    if a :| a in statuses && Profile(a.index, a.profile) == k {
      assert a in multiset(statuses);
      assert Reported(devices, a) && AnnotationTag(a) == Tag(k, a.status);
      match a.status {
        case Used => assert StatusCount(devices, Tag(k, Used)) > 0;
        case Free => assert StatusCount(devices, Tag(k, Free)) > 0;
        case Unknown => assert StatusCount(devices, Tag(k, Unknown)) > 0;
      }
    }
  }

  ghost predicate IsStatusTotals(m: map<string, int>, statuses: seq<StatusAnnotation>) {
    && (forall s | s in m :: exists k :: KeyOf(k) == s)
    && (forall k :: KeyOf(k) in m <==> Mentions(statuses, k))
    && forall k | KeyOf(k) in m :: m[KeyOf(k)] == StatusSum(statuses, k)
  }

  method StatusTotals(statuses: seq<StatusAnnotation>) returns (m: map<string, int>)
    ensures IsStatusTotals(m, statuses)
  {
    hide IsStatusTotals, KeyOf;
    m := map[];
    NoStatusTotals();
    for i := 0 to |statuses|
      invariant IsStatusTotals(m, statuses[..i])
    {
      StatusTotalsStep(m, statuses, i);
      var key := KeyOf(Profile(statuses[i].index, statuses[i].profile));
      m := m[key := Get(m, key) + statuses[i].quantity];
    }
    assert statuses[..|statuses|] == statuses;
  }

  lemma NoStatusTotals()
    ensures IsStatusTotals(map[], [])
  {
    hide KeyOf;
  }

  lemma StatusTotalsStep(m: map<string, int>, statuses: seq<StatusAnnotation>, i: nat)
    requires i < |statuses| && IsStatusTotals(m, statuses[..i])
    ensures var key := KeyOf(Profile(statuses[i].index, statuses[i].profile));
            IsStatusTotals(m[key := Get(m, key) + statuses[i].quantity], statuses[..i + 1])
  {
    hide KeyOf, Mentions, StatusSum;
    var at := Profile(statuses[i].index, statuses[i].profile);
    var next := m[KeyOf(at) := Get(m, KeyOf(at)) + statuses[i].quantity];
    forall k
      ensures KeyOf(k) in next <==> Mentions(statuses[..i + 1], k)
      ensures KeyOf(k) in next ==> next[KeyOf(k)] == StatusSum(statuses[..i + 1], k)
    {
      KeyInjective(k, at);
      StatusSnoc(statuses, i, k);
    }
  }

  ghost predicate Mentions(statuses: seq<StatusAnnotation>, k: Profile) {
    exists a :: a in statuses && Profile(a.index, a.profile) == k
  }

  lemma StatusSnoc(statuses: seq<StatusAnnotation>, i: nat, k: Profile)
    requires i < |statuses|
    ensures var at := Profile(statuses[i].index, statuses[i].profile);
            && (Mentions(statuses[..i + 1], k) <==> Mentions(statuses[..i], k) || at == k)
            && StatusSum(statuses[..i + 1], k) == StatusSum(statuses[..i], k)
                  + (if at == k then statuses[i].quantity else 0)
    ensures !Mentions(statuses[..i], k) ==> StatusSum(statuses[..i], k) == 0
  {
    assert statuses[..i + 1][..i] == statuses[..i];
    assert statuses[..i + 1] == statuses[..i] + [statuses[i]];
    assert statuses[i] in statuses[..i + 1];
    if !Mentions(statuses[..i], k) {
      NotMentioned(statuses[..i], k);
    }
  }

  lemma {:induction false} NotMentioned(statuses: seq<StatusAnnotation>, k: Profile)
    requires !Mentions(statuses, k)
    ensures StatusSum(statuses, k) == 0
  {
    if statuses != [] {
      var n := |statuses| - 1;
      assert statuses == statuses[..n] + [statuses[n]];
      assert statuses[n] in statuses;
      NotMentioned(statuses[..n], k);
    }
  }

  /** Spec and status mention the same profiles, with the same totals. */
  ghost predicate SameTotals(specs: seq<SpecAnnotation>, statuses: seq<StatusAnnotation>) {
    forall k :: (InSpec(specs, k) <==> Mentions(statuses, k)) && Desired(specs, k) == StatusSum(statuses, k)
  }

  lemma TotalsMeanSame(
    wanted: map<string, int>, actual: map<string, int>, specs: seq<SpecAnnotation>, statuses: seq<StatusAnnotation>)
    requires IsTotals(wanted, specs) && IsStatusTotals(actual, statuses)
    ensures wanted == actual <==> SameTotals(specs, statuses)
  {
    hide InSpec, KeyOf, Mentions, Desired, StatusSum;
    if wanted == actual {
      forall k ensures (InSpec(specs, k) <==> Mentions(statuses, k)) && Desired(specs, k) == StatusSum(statuses, k) {
        assert KeyOf(k) in wanted <==> InSpec(specs, k);
        assert KeyOf(k) in actual <==> Mentions(statuses, k);
        if !InSpec(specs, k) {
          NotInSpec(specs, k);
          NotMentioned(statuses, k);
        }
      }
    }
    if SameTotals(specs, statuses) {
      forall s ensures s in wanted <==> s in actual {
        if s in wanted || s in actual {
          var k :| KeyOf(k) == s;
        }
      }
      forall s | s in wanted ensures wanted[s] == actual[s] {
        var k :| KeyOf(k) == s;
      }
      assert wanted == actual;
    }
  }

  /**
   * True exactly when spec and status mention the same profiles with the same totals. On a faithful report of any
   * devices that is what a check of those devices would say.
   */
  method SpecMatchesStatus(specs: seq<SpecAnnotation>, statuses: seq<StatusAnnotation>) returns (ok: bool)
    ensures ok <==> SameTotals(specs, statuses)
    ensures forall devices | IsReport(multiset(statuses), devices) ::
              ok <==> InSync(devices, specs) && !HasEmptyWish(specs)
  {
    hide Tally, KeyOf, IsReport, StatusSum, InSync, SameTotals, IsTotals, Mentions;
    var wanted := SpecTotals(specs);
    var actual := StatusTotals(statuses);
    ok := wanted == actual;
    TotalsMeanSame(wanted, actual, specs, statuses);
    forall devices | IsReport(multiset(statuses), devices)
      ensures ok <==> InSync(devices, specs) && !HasEmptyWish(specs)
    {
      forall k
        ensures KeyOf(k) in actual <==> Num(devices, k) > 0
        ensures KeyOf(k) in actual ==> actual[KeyOf(k)] == Num(devices, k)
      {
        ReportSums(statuses, devices, k);
      }
      TotalsAgree(wanted, actual, devices, specs);
    }
  }
}
