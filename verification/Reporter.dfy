/** The node agent's report: device counts, written to the node as status annotations. */
module Reporter {
  import opened GoMaps
  import opened Lists
  import opened Devices
  import opened Annotations
  import opened Text
  import opened Wire
  import opened NodeAnnotations
  import opened Matching

  /** A profile on a GPU together with a device status. */
  datatype Tag = Tag(profile: Profile, status: Status)

  function TagOf(d: Device): Tag {
    Tag(ProfileOf(d), d.status)
  }

  function NameOf(d: Device): ProfileName {
    d.profile
  }

  function StatusOf(d: Device): Status {
    d.status
  }

  function AnnotationTag(a: StatusAnnotation): Tag {
    Tag(Profile(a.index, a.profile), a.status)
  }

  ghost function StatusCount(devices: seq<Device>, t: Tag): nat {
    |Pick(devices, TagOf, t)|
  }

  /** The annotation states the number of devices of its kind, and there are some. */
  ghost predicate Reported(devices: seq<Device>, a: StatusAnnotation) {
    a.quantity == StatusCount(devices, AnnotationTag(a)) && a.quantity > 0
  }

  /** Exactly one annotation, with the right quantity, for every kind of device that exists. */
  ghost predicate IsReport(annotations: multiset<StatusAnnotation>, devices: seq<Device>) {
    forall a :: annotations[a] == if Reported(devices, a) then 1 else 0
  }

  // ----- building the report -----

  lemma {:induction false} PickNested(s: seq<Device>, g: int, name: ProfileName, status: Status)
    ensures Pick(Pick(Pick(s, GpuOf, g), NameOf, name), StatusOf, status)
            == Pick(s, TagOf, Tag(Profile(g, name), status))
  {
    if s != [] {
      var n := |s| - 1;
      PickNested(s[..n], g, name, status);
      var a := Pick(s[..n], GpuOf, g);
      var b := Pick(a, NameOf, name);
      assert (a + [s[n]])[..|a|] == a && (b + [s[n]])[..|b|] == b;
    }
  }

  /** The innermost loop: one annotation per status of the devices of a profile. */
  method ReportProfile(
    g: int, name: ProfileName, same: seq<Device>, before: seq<StatusAnnotation>, ghost devices: seq<Device>)
    returns (list: seq<StatusAnnotation>)
    requires same == Pick(Pick(devices, GpuOf, g), NameOf, name)
    ensures forall a :: multiset(list)[a] == multiset(before)[a]
                        + if a.index == g && a.profile == name && Reported(devices, a) then 1 else 0
  {
    hide Pick;
    list := before;
    var byStatus := GroupBy(same, StatusOf);
    forall s ensures Pick(same, StatusOf, s) == Pick(devices, TagOf, Tag(Profile(g, name), s)) {
      PickNested(devices, g, name, s);
    }
    var todo := byStatus.Keys;
    while todo != {}
      invariant todo <= byStatus.Keys
      invariant forall a :: multiset(list)[a] == multiset(before)[a]
                            + if a.index == g && a.profile == name && a.status !in todo
                                 && Reported(devices, a) then 1 else 0
    {
      var s :| s in todo;
      todo := todo - {s};
      list := list + [StatusAnnotation(name, g, s, |byStatus[s]|)];
    }
  }

  method ReportGpu(g: int, onGpu: seq<Device>, before: seq<StatusAnnotation>, ghost devices: seq<Device>)
    returns (list: seq<StatusAnnotation>)
    requires onGpu == Pick(devices, GpuOf, g)
    ensures forall a :: multiset(list)[a] == multiset(before)[a] + if a.index == g && Reported(devices, a) then 1 else 0
  {
    hide Pick;
    list := before;
    var byName := GroupBy(onGpu, NameOf);
    forall a: StatusAnnotation | a.index == g && Reported(devices, a) ensures a.profile in byName {
      ReportedHasName(devices, g, a);
    }
    var todo := byName.Keys;
    while todo != {}
      invariant todo <= byName.Keys
      invariant forall a :: multiset(list)[a] == multiset(before)[a]
                            + if a.index == g && a.profile !in todo && Reported(devices, a) then 1 else 0
    {
      var name :| name in todo;
      todo := todo - {name};
      list := ReportProfile(g, name, byName[name], list, devices);
    }
  }

  lemma ReportedHasName(devices: seq<Device>, g: int, a: StatusAnnotation)
    requires a.index == g && Reported(devices, a)
    ensures Pick(Pick(devices, GpuOf, g), NameOf, a.profile) != [] && Pick(devices, GpuOf, g) != []
  {
    PickNested(devices, g, a.profile, a.status);
  }

  /** One annotation per GPU, profile and status that occurs, whatever the order of the maps. */
  method AsStatusAnnotation(devices: seq<Device>) returns (list: seq<StatusAnnotation>)
    ensures IsReport(multiset(list), devices)
  {
    hide Pick;
    list := [];
    var byGpu := GroupBy(devices, GpuOf);
    forall a: StatusAnnotation | Reported(devices, a) ensures a.index in byGpu {
      ReportedHasName(devices, a.index, a);
    }
    var todo := byGpu.Keys;
    while todo != {}
      invariant todo <= byGpu.Keys
      invariant forall a :: multiset(list)[a] == if a.index !in todo && Reported(devices, a) then 1 else 0
    {
      var g := Any(todo);
      todo := todo - {g};
      list := ReportGpu(g, byGpu[g], list, devices);
    }
  }

  // ----- writing it -----

  predicate SameStatus(a: StatusAnnotation, b: StatusAnnotation) {
    a == b
  }

  function StatusValue(a: StatusAnnotation): string {
    Itoa(a.quantity)
  }

  /** Devices whose annotations can be read back. */
  ghost predicate Reportable(devices: seq<Device>) {
    && |devices| <= MAX_INT
    && forall d | d in devices :: 0 <= d.gpu <= MAX_INT && '-' !in d.profile
  }

  lemma ReportedReadsBack(devices: seq<Device>, a: StatusAnnotation)
    requires Reportable(devices) && Reported(devices, a)
    ensures ParseStatusAnnotation(StatusKey(a), StatusValue(a)) == Some(a)
    ensures HasPrefix(StatusKey(a), STATUS_PREFIX)
  {
    hide Pick, StatusKey, Itoa, ParseStatusAnnotation;
    PickMembers(devices, TagOf, AnnotationTag(a));
    var d := Pick(devices, TagOf, AnnotationTag(a))[0];
    assert d in devices && TagOf(d) == AnnotationTag(a);
    StatusRoundTrip(a);
  }

  lemma StatusKeyTells(a: StatusAnnotation, b: StatusAnnotation)
    requires ParseStatusAnnotation(StatusKey(a), StatusValue(a)) == Some(a)
    requires ParseStatusAnnotation(StatusKey(b), StatusValue(b)) == Some(b)
    requires StatusKey(a) == StatusKey(b)
    ensures AnnotationTag(a) == AnnotationTag(b)
  {
    hide StatusKey, Itoa;
  }

  lemma ReportWritable(m: map<string, string>, list: seq<StatusAnnotation>, devices: seq<Device>)
    requires Reportable(devices) && IsReport(multiset(list), devices)
    requires forall k | k in m :: !HasPrefix(k, STATUS_PREFIX)
    ensures Writable(m, list, StatusKey, StatusValue, ParseStatusAnnotation)
  {
    hide StatusKey, StatusValue, ParseStatusAnnotation, HasPrefix, Reportable, StatusCount;
    forall i | 0 <= i < |list|
      ensures Reported(devices, list[i])
      ensures ParseStatusAnnotation(StatusKey(list[i]), StatusValue(list[i])) == Some(list[i])
      ensures HasPrefix(StatusKey(list[i]), STATUS_PREFIX)
    {
      assert list[i] in multiset(list);
      ReportedReadsBack(devices, list[i]);
    }
    forall i, j | 0 <= i < j < |list| ensures StatusKey(list[i]) != StatusKey(list[j]) {
      if StatusKey(list[i]) == StatusKey(list[j]) {
        StatusKeyTells(list[i], list[j]);
        assert list[i] == list[j];
        TwiceInMultiset(list, i, j);
      }
    }
  }

  /**
   * The new annotations of the node: they say exactly what the devices are, and which plan was last parsed. No patch is
   * due if they say so already.
   */
  method Report(annotations: map<string, string>, devices: seq<Device>, lastParsedPlanId: string)
    returns (updated: map<string, string>, due: bool)
    ensures !due ==> updated == annotations
    ensures due <==> !IsReport(Harvest(annotations, ParseStatusAnnotation), devices)
                     || ReadAnnotation(annotations, REPORTED_PLAN_KEY) != lastParsedPlanId
    ensures Reportable(devices) ==> IsReport(Harvest(updated, ParseStatusAnnotation), devices)
    ensures ReadAnnotation(updated, REPORTED_PLAN_KEY) == lastParsedPlanId
    ensures OthersKept(annotations, updated, STATUS_PREFIX, REPORTED_PLAN_KEY)
    ensures forall k | !HasPrefix(k, STATUS_PREFIX) && k != REPORTED_PLAN_KEY ::
              (k in updated <==> k in annotations) && (k in annotations ==> updated[k] == annotations[k])
  {
    hide ParseStatusAnnotation, StatusKey, StatusValue, Harvest, HasPrefix, Reportable, Reported, Written;
    var list := AsStatusAnnotation(devices);
    var previous, specs := ParseNodeAnnotations(annotations);
    var same := UnorderedEqual(list, previous, SameStatus);
    MatchableMultiset(list, previous, SameStatus);
    if IsReport(multiset(previous), devices) {
      OneReport(multiset(list), multiset(previous), devices);
    }
    if same && ReadAnnotation(annotations, REPORTED_PLAN_KEY) == lastParsedPlanId {
      return annotations, false;
    }
    due := true;
    var cleared := ClearPrefix(annotations, STATUS_PREFIX);
    var written := WriteAll(cleared, list, StatusKey, StatusValue);
    updated := written[REPORTED_PLAN_KEY := lastParsedPlanId];
    StatusKeysHavePrefix(list);
    RewriteKeepsOthers(annotations, list, StatusKey, StatusValue, STATUS_PREFIX, REPORTED_PLAN_KEY, lastParsedPlanId);
    if Reportable(devices) {
      ReportWritable(cleared, list, devices);
      OnlyStatuses();
      RewriteHarvest(
        annotations, list, StatusKey, StatusValue, STATUS_PREFIX,
        REPORTED_PLAN_KEY, lastParsedPlanId, ParseStatusAnnotation);
    }
  }

  /** Devices have one report. */
  lemma OneReport(a: multiset<StatusAnnotation>, b: multiset<StatusAnnotation>, devices: seq<Device>)
    requires IsReport(a, devices) && IsReport(b, devices)
    ensures a == b
  {
    hide Reported;
  }

  lemma StatusKeysHavePrefix(list: seq<StatusAnnotation>)
    ensures forall i | 0 <= i < |list| :: HasPrefix(StatusKey(list[i]), STATUS_PREFIX)
  {
    hide Itoa;
  }

  /** In particular the spec annotations read the same as before the report. */
  lemma SpecsKept(before: map<string, string>, after: map<string, string>)
    requires OthersKept(before, after, STATUS_PREFIX, REPORTED_PLAN_KEY)
    ensures Harvest(after, ParseSpecAnnotation) == Harvest(before, ParseSpecAnnotation)
  {
    hide Harvest, ParseSpecAnnotation, HasPrefix, OthersKept;
    OnlySpecs();
    OtherPrefixKept(before, after, STATUS_PREFIX, REPORTED_PLAN_KEY, SPEC_PREFIX, ParseSpecAnnotation);
  }
}
