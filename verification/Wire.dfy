/** How spec and status travel between the two controllers: printed as node annotations, and parsed back. */
module Wire {
  import opened Devices
  import opened Annotations
  import opened Text

  const SPEC_PREFIX := "nos.nebuly.com/spec-gpu"
  const STATUS_PREFIX := "nos.nebuly.com/status-gpu"
  const PLAN_KEY := "nos.nebuly.com/spec-partitioning-plan"
  const REPORTED_PLAN_KEY := "nos.nebuly.com/status-partitioning-plan"

  // ----- printing -----

  function StatusText(s: Status): string {
    match s
    case Used => "used"
    case Free => "free"
    case Unknown => "unknown"
  }

  function SpecKey(a: SpecAnnotation): string {
    SPEC_PREFIX + "-" + (Itoa(a.index) + "-" + a.profile)
  }

  function StatusKey(a: StatusAnnotation): string {
    STATUS_PREFIX + "-" + (Itoa(a.index) + "-" + (a.profile + "-" + StatusText(a.status)))
  }

  // ----- parsing -----

  function ParseStatus(s: string): Option<Status> {
    if ToLower(s) == "free" then Some(Free)
    else if ToLower(s) == "used" then Some(Used)
    else if ToLower(s) == "unknown" then Some(Unknown)
    else None
  }

  function ParseSpecAnnotation(key: string, value: string): Option<SpecAnnotation> {
    if !HasPrefix(key, SPEC_PREFIX) then None else
      var parts := SplitDash(key);
      if |parts| != 4 || Atoi(value).None? || Atoi(parts[2]).None? then None
      else Some(SpecAnnotation(parts[3], Atoi(parts[2]).value, Atoi(value).value))
  }

  function ParseStatusAnnotation(key: string, value: string): Option<StatusAnnotation> {
    if !HasPrefix(key, STATUS_PREFIX) then None else
      var parts := SplitDash(key);
      if |parts| != 5 || Atoi(value).None? || Atoi(parts[2]).None? || ParseStatus(parts[4]).None? then None
      else Some(StatusAnnotation(parts[3], Atoi(parts[2]).value, ParseStatus(parts[4]).value, Atoi(value).value))
  }

  // ----- round trips -----

  /** Number of dashes of a string. */
  ghost function Dashes(s: string): nat {
    if s == "" then 0 else (if s[0] == '-' then 1 else 0) + Dashes(s[1..])
  }

  lemma {:induction false} DashesSplit(s: string)
    ensures |SplitDash(s)| == Dashes(s) + 1
  {
    if s != "" {
      DashesSplit(s[1..]);
    }
  }

  lemma {:induction false} DashesAppend(a: string, b: string)
    ensures Dashes(a + b) == Dashes(a) + Dashes(b)
  {
    if a == "" {
      assert a + b == b;
    } else {
      assert (a + b)[1..] == a[1..] + b;
      DashesAppend(a[1..], b);
    }
  }

  lemma {:induction false} NoDashes(s: string)
    ensures Dashes(s) == 0 <==> '-' !in s
  {
    if s != "" {
      assert s == [s[0]] + s[1..];
      NoDashes(s[1..]);
    }
  }

  lemma DashesOfInt(n: int)
    ensures Dashes(Itoa(n)) == if n < 0 then 1 else 0
  {
    NoDashes(Digits(if n < 0 then -n else n));
    if n < 0 {
      DashesAppend("-", Digits(-n));
      assert Dashes("-") == 1 by { assert "-"[1..] == ""; }
    }
  }

  lemma DashesOfJoin(a: string, b: string)
    ensures Dashes(a + "-" + b) == Dashes(a) + 1 + Dashes(b)
  {
    assert Dashes("-") == 1 by { assert "-"[1..] == ""; }
    DashesAppend(a + "-", b);
    DashesAppend(a, "-");
  }

  lemma PrefixParts()
    ensures SPEC_PREFIX == "nos.nebuly.com/spec" + "-" + "gpu"
    ensures STATUS_PREFIX == "nos.nebuly.com/status" + "-" + "gpu"
    ensures '-' !in "nos.nebuly.com/spec" && '-' !in "nos.nebuly.com/status" && '-' !in "gpu"
  {
  }

  lemma SplitPrefix(head: string, rest: string)
    requires '-' !in head && '-' !in "gpu"
    ensures SplitDash((head + "-" + "gpu") + "-" + rest) == [head, "gpu"] + SplitDash(rest)
  {
    hide SplitDash;
    assert (head + "-" + "gpu") + "-" + rest == head + "-" + ("gpu" + "-" + rest);
    SplitFirst(head, "gpu" + "-" + rest);
    SplitFirst("gpu", rest);
    assert [head] + (["gpu"] + SplitDash(rest)) == [head, "gpu"] + SplitDash(rest);
  }

  /** A printed spec annotation is read back exactly when its index has no sign and its profile no dash. */
  lemma SpecRoundTrip(a: SpecAnnotation)
    requires IsInt(a.index) && IsInt(a.quantity)
    ensures ParseSpecAnnotation(SpecKey(a), Itoa(a.quantity)) == Some(a) <==> a.index >= 0 && '-' !in a.profile
    ensures HasPrefix(SpecKey(a), SPEC_PREFIX)
  {
    hide SplitDash, Itoa, Atoi;
    var rest := Itoa(a.index) + "-" + a.profile;
    AtoiItoa(a.quantity);
    AtoiItoa(a.index);
    PrefixParts();
    SplitPrefix("nos.nebuly.com/spec", rest);
    if a.index >= 0 && '-' !in a.profile {
      ItoaHasNoDash(a.index);
      SplitFirst(Itoa(a.index), a.profile);
      SplitWhole(a.profile);
      assert SplitDash(SpecKey(a)) == ["nos.nebuly.com/spec", "gpu", Itoa(a.index), a.profile];
    } else {
      DashesSplit(rest);
      DashesOfJoin(Itoa(a.index), a.profile);
      DashesOfInt(a.index);
      NoDashes(a.profile);
    }
  }

  lemma StatusTextParses(s: Status)
    ensures ParseStatus(StatusText(s)) == Some(s)
    ensures '-' !in StatusText(s)
  {
    assert ToLower("used") == "used" && ToLower("free") == "free" && ToLower("unknown") == "unknown";
  }

  /** A printed status annotation is read back exactly when its index has no sign and its profile no dash. */
  lemma StatusRoundTrip(a: StatusAnnotation)
    requires IsInt(a.index) && IsInt(a.quantity)
    ensures ParseStatusAnnotation(StatusKey(a), Itoa(a.quantity)) == Some(a) <==> a.index >= 0 && '-' !in a.profile
    ensures HasPrefix(StatusKey(a), STATUS_PREFIX)
  {
    hide SplitDash, Itoa, Atoi, StatusText, ParseStatus;
    var tail := a.profile + "-" + StatusText(a.status);
    var rest := Itoa(a.index) + "-" + tail;
    AtoiItoa(a.quantity);
    AtoiItoa(a.index);
    PrefixParts();
    StatusTextParses(a.status);
    SplitPrefix("nos.nebuly.com/status", rest);
    if a.index >= 0 && '-' !in a.profile {
      ItoaHasNoDash(a.index);
      SplitFirst(Itoa(a.index), tail);
      SplitFirst(a.profile, StatusText(a.status));
      SplitWhole(StatusText(a.status));
      assert SplitDash(StatusKey(a))
          == ["nos.nebuly.com/status", "gpu", Itoa(a.index), a.profile, StatusText(a.status)];
    } else {
      DashesSplit(rest);
      DashesOfJoin(Itoa(a.index), tail);
      DashesOfJoin(a.profile, StatusText(a.status));
      DashesOfInt(a.index);
      NoDashes(a.profile);
      NoDashes(StatusText(a.status));
    }
  }

  /** No annotation is read as both a spec and a status. */
  lemma PrefixesDisjoint(key: string)
    requires HasPrefix(key, SPEC_PREFIX)
    ensures !HasPrefix(key, STATUS_PREFIX)
  {
    assert key[16] == SPEC_PREFIX[16] == 'p';
    assert STATUS_PREFIX[16] == 't';
  }

  lemma PlanKeysAreNoAnnotations()
    ensures !HasPrefix(PLAN_KEY, SPEC_PREFIX) && !HasPrefix(PLAN_KEY, STATUS_PREFIX)
    ensures !HasPrefix(REPORTED_PLAN_KEY, SPEC_PREFIX) && !HasPrefix(REPORTED_PLAN_KEY, STATUS_PREFIX)
  {
    assert PLAN_KEY[20] == 'p' && SPEC_PREFIX[20] == 'g';
    assert PLAN_KEY[16] == 'p' && STATUS_PREFIX[16] == 't';
    assert REPORTED_PLAN_KEY[16] == 't' && SPEC_PREFIX[16] == 'p';
    assert REPORTED_PLAN_KEY[22] == 'p' && STATUS_PREFIX[22] == 'g';
  }

  /** Status annotations are read under their prefix only, and neither the plan ids nor the specs are there. */
  lemma OnlyStatuses()
    ensures forall k, v :: ParseStatusAnnotation(k, v).Some? ==> HasPrefix(k, STATUS_PREFIX)
    ensures !HasPrefix(REPORTED_PLAN_KEY, STATUS_PREFIX) && !HasPrefix(PLAN_KEY, STATUS_PREFIX)
    ensures forall k | HasPrefix(k, STATUS_PREFIX) :: !HasPrefix(k, SPEC_PREFIX)
  {
    hide SplitDash, Atoi, ParseStatus;
    PlanKeysAreNoAnnotations();
    forall k | HasPrefix(k, STATUS_PREFIX) ensures !HasPrefix(k, SPEC_PREFIX) {
      if HasPrefix(k, SPEC_PREFIX) {
        PrefixesDisjoint(k);
      }
    }
  }

  /** The same for spec annotations. */
  lemma OnlySpecs()
    ensures forall k, v :: ParseSpecAnnotation(k, v).Some? ==> HasPrefix(k, SPEC_PREFIX)
    ensures !HasPrefix(REPORTED_PLAN_KEY, SPEC_PREFIX) && !HasPrefix(PLAN_KEY, SPEC_PREFIX)
    ensures forall k | HasPrefix(k, SPEC_PREFIX) :: !HasPrefix(k, STATUS_PREFIX)
  {
    hide SplitDash, Atoi;
    PlanKeysAreNoAnnotations();
    forall k | HasPrefix(k, SPEC_PREFIX) ensures !HasPrefix(k, STATUS_PREFIX) {
      PrefixesDisjoint(k);
    }
  }

  // ----- on the wire -----

  /** The two keys under which plans are recorded. */
  lemma DocumentedPlanKeys()
    ensures PLAN_KEY == "nos.nebuly.com/spec-partitioning-plan"
    ensures REPORTED_PLAN_KEY == "nos.nebuly.com/status-partitioning-plan"
  {
  }

  /** The documented examples of keys. */
  lemma DocumentedKeys(quantity: int)
    ensures SpecKey(SpecAnnotation("1g.10gb", 0, quantity)) == "nos.nebuly.com/spec-gpu-0-1g.10gb"
    ensures StatusKey(StatusAnnotation("1g.10gb", 0, Free, quantity)) == "nos.nebuly.com/status-gpu-0-1g.10gb-free"
    ensures StatusKey(StatusAnnotation("1g.10gb", 0, Used, quantity)) == "nos.nebuly.com/status-gpu-0-1g.10gb-used"
  {
    assert Itoa(0) == "0";
  }

  /** Statuses are read in upper and lower case, and nothing else is one. */
  lemma StatusIgnoresCase(s: string)
    ensures ParseStatus("FREE") == Some(Free) && ParseStatus("Used") == Some(Used)
    ensures |s| != 4 && |s| != 7 ==> ParseStatus(s).None?
  {
    assert ToLower("FREE") == "free";
    assert ToLower("Used") == "used";
  }

  /** And what the parsers make of the examples. */
  lemma DocumentedValues(quantity: int)
    requires IsInt(quantity)
    ensures ParseSpecAnnotation("nos.nebuly.com/spec-gpu-0-1g.10gb", Itoa(quantity))
            == Some(SpecAnnotation("1g.10gb", 0, quantity))
    ensures ParseStatusAnnotation("nos.nebuly.com/status-gpu-0-1g.10gb-free", Itoa(quantity))
            == Some(StatusAnnotation("1g.10gb", 0, Free, quantity))
    ensures ParseStatusAnnotation("nos.nebuly.com/status-gpu-0-1g.10gb-used", Itoa(quantity))
            == Some(StatusAnnotation("1g.10gb", 0, Used, quantity))
  {
    hide SplitDash, Atoi, Itoa, ParseSpecAnnotation, ParseStatusAnnotation, SpecKey, StatusKey, HasPrefix;
    DocumentedKeys(quantity);
    SpecRoundTrip(SpecAnnotation("1g.10gb", 0, quantity));
    StatusRoundTrip(StatusAnnotation("1g.10gb", 0, Free, quantity));
    StatusRoundTrip(StatusAnnotation("1g.10gb", 0, Used, quantity));
  }
}
