/** One MIG-capable GPU as the partitioner sees it: two ledgers of devices and a best-geometry search. */
module MigGpu {
  import opened GoMaps
  import opened Devices

  /** Quantities per MIG profile: a geometry, a ledger or a request. */
  type Counts = map<ProfileName, int>

  /** The state of a GPU. Ledgers are in normal form, so equal ledgers are equal counts. */
  datatype Ledger = Ledger(index: int, allowed: seq<Counts>, used: Counts, free: Counts)

  /** Known geometries are validated to hold quantities of at least 1, devices are never negative. */
  ghost predicate ValidLedger(l: Ledger) {
    && Positive(l.used) && Positive(l.free)
    && forall i | 0 <= i < |l.allowed| :: Positive(l.allowed[i])
  }

  ghost function GeometryAt(l: Ledger, p: ProfileName): int {
    Get(l.used, p) + Get(l.free, p)
  }

  // ----- the rules of one GPU -----

  predicate BusySensitive3211(candidate: Counts) {
    || (|candidate| == 3
        && Get(candidate, "3g.20gb") == 1 && Get(candidate, "2g.10gb") == 1 && Get(candidate, "1g.5gb") == 2)
    || (|candidate| == 3
        && Get(candidate, "3g.40gb") == 1 && Get(candidate, "2g.20gb") == 1 && Get(candidate, "1g.10gb") == 2)
  }

  ghost predicate Idle(l: Ledger) {
    l.used == map[] && l.free == map[]
  }

  /** Applying the geometry would not delete any device in use. */
  ghost predicate Covers(geometry: Counts, used: Counts) {
    forall p | p in used :: Get(geometry, p) >= used[p]
  }

  ghost predicate Eligible(l: Ledger, i: int) {
    && 0 <= i < |l.allowed|
    && (BusySensitive3211(l.allowed[i]) ==> Idle(l))
    && Covers(l.allowed[i], l.used)
  }

  /**
   * How many more of the `required` devices of a profile are free once the free count goes from `before` to `after`.
   */
  ghost function Gain(required: int, before: int, after: int): int {
    Max(0, Min(required, after) - Min(required, before))
  }

  ghost function Gains(used: Counts, free: Counts, required: Counts, geometry: Counts): Counts {
    map p | p in required :: Gain(required[p], Get(free, p), Get(geometry, p) - Get(used, p))
  }

  ghost function Score(l: Ledger, required: Counts, geometry: Counts): int {
    Total(Gains(l.used, l.free, required, geometry))
  }

  /** What candidate `i` is worth to the search: nothing unless it is eligible. */
  ghost function Value(l: Ledger, required: Counts, i: int): int {
    if Eligible(l, i) then Score(l, required, l.allowed[i]) else 0
  }

  ghost function Values(l: Ledger, required: Counts): (v: seq<int>)
    ensures |v| == |l.allowed|
  {
    seq(|l.allowed|, i => Value(l, required, i))
  }

  /** `i` is the earliest position of the highest value, and that value is positive. */
  ghost predicate FirstMax(v: seq<int>, i: int) {
    && 0 <= i < |v| && v[i] > 0
    && (forall j | 0 <= j < |v| :: v[j] <= v[i])
    && (forall j | 0 <= j < i :: v[j] < v[i])
  }

  /** The candidate that a search for `required` has to choose. */
  ghost predicate FirstBest(l: Ledger, required: Counts, i: int) {
    FirstMax(Values(l, required), i)
  }

  ghost predicate Improvable(l: Ledger, required: Counts) {
    exists i :: 0 <= i < |l.allowed| && Value(l, required, i) > 0
  }

  /** `l` with its free devices changed so that used and free together form `geometry`. */
  ghost function Install(l: Ledger, geometry: Counts): Ledger {
    l.(free := Norm(map p | p in geometry :: geometry[p] - Get(l.used, p)))
  }

  /** The position that a search settles on: the earliest maximum, or -1 when no value is positive. */
  ghost function BestOf(v: seq<int>): (best: int)
    ensures -1 <= best < |v|
  {
    if v == [] then -1 else
      var n := |v| - 1;
      var best := BestOf(v[..n]);
      if v[n] > 0 && (best < 0 || v[n] > v[best]) then n else best
  }

  /** The GPU after a search for `required`: the first best candidate installed, or nothing changed. */
  ghost function UpdateFor(l: Ledger, required: Counts): Ledger {
    var i := BestOf(Values(l, required));
    if i < 0 then l else Install(l, l.allowed[i])
  }

  // ----- what the search guarantees -----

  /** The search finds the earliest of the highest positive values, and fails only if there is none. */
  lemma {:induction false} BestOfIsFirstMax(v: seq<int>)
    ensures var best := BestOf(v);
            if best < 0 then forall j | 0 <= j < |v| :: v[j] <= 0 else FirstMax(v, best)
  {
    if v != [] {
      var n := |v| - 1;
      BestOfIsFirstMax(v[..n]);
      assert forall j | 0 <= j < n :: v[..n][j] == v[j];
    }
  }

  /** A finished search settles whether the GPU can be improved, and by which candidate. */
  lemma BestDecides(l: Ledger, required: Counts)
    ensures var best := BestOf(Values(l, required));
            && (best >= 0 <==> Improvable(l, required))
            && (best >= 0 ==> FirstBest(l, required, best))
            && (forall i :: FirstBest(l, required, i) ==> i == best)
  {
    var v := Values(l, required);
    BestOfIsFirstMax(v);
    assert forall i | 0 <= i < |v| :: v[i] == Value(l, required, i);
  }

  /** The same by the scores of the eligible candidates. */
  lemma BestByScore(l: Ledger, required: Counts)
    ensures var best := BestOf(Values(l, required));
            && (best >= 0 ==> Eligible(l, best) && Score(l, required, l.allowed[best]) > 0)
            && (forall j | 0 <= j < |l.allowed| && Eligible(l, j) ::
                  Score(l, required, l.allowed[j]) <= if best < 0 then 0 else Score(l, required, l.allowed[best]))
            && (forall j | 0 <= j < best && Eligible(l, j) ::
                  Score(l, required, l.allowed[j]) < Score(l, required, l.allowed[best]))
  {
    hide Score, Eligible;
    var v := Values(l, required);
    var best := BestOf(v);
    BestOfIsFirstMax(v);
    forall j | 0 <= j < |l.allowed| && Eligible(l, j)
      ensures Score(l, required, l.allowed[j]) <= if best < 0 then 0 else Score(l, required, l.allowed[best])
      ensures j < best ==> Score(l, required, l.allowed[j]) < Score(l, required, l.allowed[best])
    {
      assert v[j] == Value(l, required, j) && (best >= 0 ==> v[best] == Value(l, required, best));
    }
  }

  /** `i` is the earliest of the eligible candidates with the highest score. */
  ghost predicate Highest(l: Ledger, required: Counts, i: int) {
    && 0 <= i < |l.allowed| && Eligible(l, i)
    && (forall j | 0 <= j < |l.allowed| && Eligible(l, j) ::
          Score(l, required, l.allowed[j]) <= Score(l, required, l.allowed[i]))
    && (forall j | 0 <= j < i && Eligible(l, j) ::
          Score(l, required, l.allowed[j]) < Score(l, required, l.allowed[i]))
  }

  /** What a search installs is the earliest of the best eligible geometries; it installs nothing if none scores. */
  lemma InstalledIsBest(l: Ledger, u: Ledger, required: Counts)
    requires ValidLedger(l) && u == UpdateFor(l, required)
    ensures if u == l then forall j | 0 <= j < |l.allowed| && Eligible(l, j) :: Score(l, required, l.allowed[j]) <= 0
            else exists i :: Highest(l, required, i) && u.used == l.used && InGeometry(u, l.allowed[i])
  {
    hide Score, Eligible, Install, Covers;
    BestByScore(l, required);
    UpdateForKeeps(l, required);
    BestDecides(l, required);
    var i := BestOf(Values(l, required));
    if i >= 0 {
      InstallExact(l, i);
      assert Highest(l, required, i);
    }
  }

  /** A geometry that is sensitive to devices on the GPU is installed on an idle GPU only, and use is always covered. */
  lemma EligibleMeans(l: Ledger, i: nat)
    requires i < |l.allowed|
    ensures Eligible(l, i)
            <==> && (forall p | p in l.used :: l.used[p] <= Get(l.allowed[i], p))
                 && (BusySensitive3211(l.allowed[i]) ==> l.used == map[] && l.free == map[])
  {
  }

  /** A positive score means that some profile gains capacity, so the candidate differs from the current geometry. */
  lemma ScoreMeansChange(l: Ledger, required: Counts, geometry: Counts)
    ensures Score(l, required, geometry) >= 0
    ensures Score(l, required, geometry) > 0
            <==> exists p :: p in required && Get(l.free, p) < required[p] && GeometryAt(l, p) < Get(geometry, p)
  {
    hide Total;
    var gains := Gains(l.used, l.free, required, geometry);
    TotalPositive(gains);
    forall p | p in required
      ensures p in gains && (gains[p] > 0 <==> Get(l.free, p) < required[p] && GeometryAt(l, p) < Get(geometry, p))
    {
    }
  }

  /**
   * A score adds up, profile by profile, how many more of the missing devices a geometry has room for: nothing for a
   * profile that is free in the requested quantity or that does not grow.
   */
  lemma ScoreUnfolds(l: Ledger, required: Counts, geometry: Counts, p: ProfileName)
    requires p in required
    ensures var short, room := required[p] - Get(l.free, p), Get(geometry, p) - (Get(l.used, p) + Get(l.free, p));
            Score(l, required, geometry)
            == Score(l, required - {p}, geometry) + if short <= 0 || room <= 0 then 0 else Min(room, short)
    ensures Score(l, map[], geometry) == 0
  {
    hide Total;
    var gains := Gains(l.used, l.free, required, geometry);
    assert gains - {p} == Gains(l.used, l.free, required - {p}, geometry);
    assert Gains(l.used, l.free, map[], geometry) == map[];
    TotalRemove(gains, p);
    TotalOfNone();
    GainByCase(required[p], Get(l.free, p), GeometryAt(l, p), Get(geometry, p), Get(l.used, p));
  }

  lemma TotalOfNone()
    ensures Total<ProfileName>(map[]) == 0
  {
  }

  /** The 3-2-1-1 geometries of both memory sizes, and nothing else that has the same number of devices. */
  lemma BusySensitiveGeometries(candidate: Counts)
    ensures BusySensitive3211(map["3g.20gb" := 1, "2g.10gb" := 1, "1g.5gb" := 2])
    ensures BusySensitive3211(map["3g.40gb" := 1, "2g.20gb" := 1, "1g.10gb" := 2])
    ensures BusySensitive3211(candidate) ==>
              || candidate == map["3g.20gb" := 1, "2g.10gb" := 1, "1g.5gb" := 2]
              || candidate == map["3g.40gb" := 1, "2g.20gb" := 1, "1g.10gb" := 2]
  {
    SizeOfThree("3g.20gb", "2g.10gb", "1g.5gb");
    SizeOfThree("3g.40gb", "2g.20gb", "1g.10gb");
    if |candidate| == 3 && Get(candidate, "3g.20gb") == 1 && Get(candidate, "2g.10gb") == 1
       && Get(candidate, "1g.5gb") == 2 {
      ThreeKeys(candidate, "3g.20gb", "2g.10gb", "1g.5gb");
    } else if BusySensitive3211(candidate) {
      ThreeKeys(candidate, "3g.40gb", "2g.20gb", "1g.10gb");
    }
  }

  lemma SizeOfThree(a: ProfileName, b: ProfileName, c: ProfileName)
    requires a != b && b != c && a != c
    ensures |map[a := 1, b := 1, c := 2]| == 3
  {
    var m: Counts := map[a := 1, b := 1, c := 2];
    assert m.Keys == {a, b, c};
  }

  /** A map of three entries has no other keys than the three that are known. */
  lemma ThreeKeys(m: Counts, a: ProfileName, b: ProfileName, c: ProfileName)
    requires a != b && b != c && a != c && |m| == 3 && a in m && b in m && c in m
    ensures m == map[a := m[a], b := m[b], c := m[c]]
  {
    var rest := m.Keys - {a} - {b} - {c};
    assert |rest| == 0;
    assert m.Keys == {a, b, c};
  }

  /** Used devices survive, used plus free is exactly the installed geometry, and no free count is negative. */
  lemma InstallExact(l: Ledger, i: int)
    requires ValidLedger(l) && Eligible(l, i)
    ensures Install(l, l.allowed[i]).used == l.used
    ensures forall p :: GeometryAt(Install(l, l.allowed[i]), p) == Get(l.allowed[i], p)
    ensures ValidLedger(Install(l, l.allowed[i]))
  {
    var geometry := l.allowed[i];
    var free := map p | p in geometry :: geometry[p] - Get(l.used, p);
    forall p ensures GeometryAt(Install(l, geometry), p) == Get(geometry, p) {
      assert Get(Norm(free), p) == Get(free, p);
    }
    assert NonNegative(free);
  }

  ghost predicate InGeometry(l: Ledger, geometry: Counts) {
    forall p :: GeometryAt(l, p) == Get(geometry, p)
  }

  /** Used devices are kept, and the GPU is either untouched or in one of its allowed geometries. */
  ghost predicate Kept(l: Ledger, u: Ledger) {
    && ValidLedger(u) && u.used == l.used && u.index == l.index && u.allowed == l.allowed
    && (u == l || exists i :: 0 <= i < |l.allowed| && InGeometry(u, l.allowed[i]))
  }

  lemma KeptParts(l: Ledger, u: Ledger, p: ProfileName)
    requires Kept(l, u)
    ensures u.index == l.index && u.used == l.used && GeometryAt(u, p) >= Get(l.used, p)
  {
  }

  /**
   * A search never gives up a used device, never leaves the allowed geometries, and changes the GPU if it can improve
   * it.
   */
  lemma UpdateForKeeps(l: Ledger, required: Counts)
    requires ValidLedger(l)
    ensures Kept(l, UpdateFor(l, required))
    ensures UpdateFor(l, required) != l <==> Improvable(l, required)
  {
    BestDecides(l, required);
    var i := BestOf(Values(l, required));
    if i >= 0 {
      InstallExact(l, i);
      assert InGeometry(Install(l, l.allowed[i]), l.allowed[i]);
      ScoreMeansChange(l, required, l.allowed[i]);
    }
  }

  /** The increments that the source adds up, case by case, are the gain in satisfied demand. */
  lemma GainByCase(required: int, free: int, current: int, candidate: int, used: int)
    requires current == used + free
    ensures Gain(required, free, candidate - used)
            == if free >= required || candidate - current <= 0 then 0 else Min(candidate - current, required - free)
  {
  }

  // ----- the search -----

  predicate IsIdle(used: Counts, free: Counts) {
    (forall p | p in used :: used[p] <= 0) && (forall p | p in free :: free[p] <= 0)
  }

  predicate KeepsUsed(geometry: Counts, used: Counts) {
    forall p | p in used :: Get(geometry, p) >= used[p]
  }

  lemma IsIdleIsIdle(used: Counts, free: Counts)
    requires NonNegative(used) && NonNegative(free)
    ensures IsIdle(used, free) <==> Norm(used) == map[] && Norm(free) == map[]
  {
    if IsIdle(used, free) {
      assert Norm(used) == map[] && Norm(free) == map[];
    } else if p :| p in used && used[p] > 0 {
      assert p in Norm(used);
    } else {
      var p :| p in free && free[p] > 0;
      assert p in Norm(free);
    }
  }

  lemma KeepsUsedIsCovers(geometry: Counts, used: Counts)
    requires Positive(geometry)
    ensures KeepsUsed(geometry, used) <==> Covers(geometry, Norm(used))
  {
    if p :| p in used && Get(geometry, p) < used[p] {
      assert p in Norm(used);
    }
  }

  /** The inner loop of the search: what one candidate would provide. */
  method Provided(used: Counts, free: Counts, candidate: Counts, current: Counts, required: Counts)
    returns (provided: int)
    requires forall p :: Get(current, p) == Get(used, p) + Get(free, p)
    ensures provided == Total(Gains(used, free, required, candidate))
  {
    provided := 0;
    ghost var gains := Gains(used, free, required, candidate);
    ghost var seen: Counts := map[];
    var todo := required.Keys;
    while todo != {}
      invariant todo <= required.Keys
      invariant seen.Keys == required.Keys - todo
      invariant forall p | p in seen :: seen[p] == gains[p]
      invariant provided == Total(seen)
    {
      var p :| p in todo;
      todo := todo - {p};
      TotalUpdate(seen, p, gains[p]);
      seen := seen[p := gains[p]];
      GainByCase(required[p], Get(free, p), Get(current, p), Get(candidate, p), Get(used, p));
      var currentFree := Get(free, p);
      if currentFree >= required[p] {
        continue;
      }
      var needed := required[p] - currentFree;
      var additional := Get(candidate, p) - Get(current, p);
      if additional <= 0 {
        continue;
      }
      provided := provided + Min(additional, needed);
    }
    assert seen == gains;
  }

  /** The maps of a GPU, and the sum of them, are those of ledger `l`. */
  ghost predicate Mirrors(l: Ledger, used: Counts, free: Counts, current: Counts) {
    && ValidLedger(l) && NonNegative(used) && NonNegative(free)
    && l.used == Norm(used) && l.free == Norm(free)
    && forall p :: Get(current, p) == Get(used, p) + Get(free, p)
  }

  /** One turn of the candidate loop: 0 for a candidate that is skipped. */
  method Appraise(
    ghost l: Ledger, candidate: Counts, ghost i: int, used: Counts, free: Counts, current: Counts, required: Counts)
    returns (provided: int)
    requires Mirrors(l, used, free, current) && 0 <= i < |l.allowed| && l.allowed[i] == candidate
    ensures provided == Value(l, required, i)
  {
    AppraisalFacts(l, candidate, i, used, free, required);
    if BusySensitive3211(candidate) && !IsIdle(used, free) {
      return 0;
    }
    if !KeepsUsed(candidate, used) {
      return 0;
    }
    provided := Provided(used, free, candidate, current, required);
  }

  lemma AppraisalFacts(l: Ledger, candidate: Counts, i: int, used: Counts, free: Counts, required: Counts)
    requires ValidLedger(l) && 0 <= i < |l.allowed| && l.allowed[i] == candidate
    requires NonNegative(used) && NonNegative(free) && l.used == Norm(used) && l.free == Norm(free)
    ensures Value(l, required, i)
            == if (BusySensitive3211(candidate) && !IsIdle(used, free)) || !KeepsUsed(candidate, used) then 0
               else Total(Gains(used, free, required, candidate))
  {
    hide BusySensitive3211, Total, IsIdle, KeepsUsed, Covers, Norm;
    IsIdleIsIdle(used, free);
    KeepsUsedIsCovers(candidate, used);
    SameGains(used, free, required, candidate);
  }

  lemma SameGains(used: Counts, free: Counts, required: Counts, candidate: Counts)
    ensures Gains(used, free, required, candidate) == Gains(Norm(used), Norm(free), required, candidate)
  {
    hide Norm;
    assert forall p :: Get(Norm(used), p) == Get(used, p) && Get(Norm(free), p) == Get(free, p);
  }

  /** The candidate loop of `UpdateGeometryFor`: the index of the chosen geometry, or -1. */
  method Search(ghost l: Ledger, allowed: seq<Counts>, used: Counts, free: Counts, current: Counts, required: Counts)
    returns (best: int)
    requires Mirrors(l, used, free, current) && l.allowed == allowed
    ensures best == BestOf(Values(l, required))
    ensures -1 <= best < |allowed| && (best >= 0 ==> Eligible(l, best))
    ensures forall j | 0 <= j < |allowed| && Eligible(l, j) ::
              Score(l, required, allowed[j]) <= if best < 0 then 0 else Score(l, required, allowed[best])
    ensures forall j | 0 <= j < best && Eligible(l, j) ::
              Score(l, required, allowed[j]) < Score(l, required, allowed[best])
  {
    BestByScore(l, required);
    hide Value, Mirrors;
    ghost var v := Values(l, required);
    best := -1;
    var maxProvided := 0;
    for i := 0 to |allowed|
      invariant best == BestOf(v[..i])
      invariant maxProvided == if best < 0 then 0 else v[best]
    {
      var provided := Appraise(l, allowed[i], i, used, free, current, required);
      assert v[..i + 1][..i] == v[..i];
      if provided <= 0 {
        continue;
      }
      if best < 0 || provided > maxProvided {
        best, maxProvided := i, provided;
      }
    }
    assert v[..|v|] == v;
  }

  /** The two loops of `ApplyGeometry`: set the free devices of the geometry, drop those outside it. */
  method Retarget(geometry: Counts, used: Counts, before: Counts) returns (free: Counts)
    ensures free == map p | p in geometry :: geometry[p] - Get(used, p)
  {
    free := before;
    var todo := geometry.Keys;
    while todo != {}
      invariant todo <= geometry.Keys
      invariant free.Keys == before.Keys + (geometry.Keys - todo)
      invariant forall p | p in geometry.Keys - todo :: free[p] == geometry[p] - Get(used, p)
    {
      var p :| p in todo;
      todo := todo - {p};
      free := free[p := geometry[p] - Get(used, p)];
    }
    todo := free.Keys;
    while todo != {}
      invariant geometry.Keys <= free.Keys <= geometry.Keys + todo
      invariant forall p | p in geometry :: free[p] == geometry[p] - Get(used, p)
    {
      var p :| p in todo;
      todo := todo - {p};
      if p !in geometry {
        free := free - {p};
      }
    }
  }

  lemma EligibleCovers(l: Ledger, i: int)
    requires Eligible(l, i)
    ensures Covers(l.allowed[i], l.used)
  {
  }

  lemma BestDiffers(l: Ledger, required: Counts, current: Counts)
    requires BestOf(Values(l, required)) >= 0 && forall p :: Get(current, p) == Get(l.used, p) + Get(l.free, p)
    ensures l.allowed[BestOf(Values(l, required))] != current
  {
    hide Score, Eligible, Values;
    var best := BestOf(Values(l, required));
    BestByScore(l, required);
    ScoreMeansChange(l, required, l.allowed[best]);
  }

  // ----- the object -----

  class GPU {
    const index: int
    const allowed: seq<Counts>
    var used: Counts
    var free: Counts

    ghost predicate Valid()
      reads this
    {
      NonNegative(used) && NonNegative(free) && forall i | 0 <= i < |allowed| :: Positive(allowed[i])
    }

    ghost function View(): (l: Ledger)
      reads this
      ensures Valid() ==> ValidLedger(l)
    {
      Ledger(index, allowed, Norm(used), Norm(free))
    }

    constructor (index: int, allowed: seq<Counts>, used: Counts, free: Counts)
      ensures this.index == index && this.allowed == allowed && this.used == used && this.free == free
    {
      this.index, this.allowed, this.used, this.free := index, allowed, used, free;
    }

    method Clone() returns (c: GPU)
      requires Valid()
      ensures fresh(c) && c.Valid() && c.View() == View()
    {
      c := new GPU(index, allowed, used, free);
    }

    method GetGeometry() returns (r: Counts)
      requires Valid()
      ensures forall p :: Get(r, p) == Get(used, p) + Get(free, p)
      ensures NonNegative(r)
    {
      r := map[];
      var todo := used.Keys;
      while todo != {}
        invariant todo <= used.Keys
        invariant NonNegative(r)
        invariant forall p :: Get(r, p) == if p in todo then 0 else Get(used, p)
      {
        var p :| p in todo;
        todo := todo - {p};
        r := r[p := Get(r, p) + used[p]];
      }
      todo := free.Keys;
      while todo != {}
        invariant todo <= free.Keys
        invariant NonNegative(r)
        invariant forall p :: Get(r, p) == Get(used, p) + if p in todo then 0 else Get(free, p)
      {
        var p :| p in todo;
        todo := todo - {p};
        r := r[p := Get(r, p) + free[p]];
      }
    }

    predicate CanApplyGeometry(geometry: Counts)
      reads this
    {
      geometry in allowed && KeepsUsed(geometry, used)
    }

    /** Refused geometries change nothing; the others change the free devices only. */
    method ApplyGeometry(geometry: Counts) returns (ok: bool)
      requires Valid()
      modifies this`free
      ensures Valid()
      ensures ok <==> geometry in allowed && Covers(geometry, old(View()).used)
      ensures View() == if ok then Install(old(View()), geometry) else old(View())
    {
      ok := CanApplyGeometry(geometry);
      if geometry in allowed {
        KeepsUsedIsCovers(geometry, used);
      }
      if !ok {
        return;
      }
      free := Retarget(geometry, used, free);
      forall p | p in free ensures free[p] >= 0 {
        assert Get(Norm(used), p) == Get(used, p);
      }
    }

    /** Installs the first best eligible candidate, and reports true exactly when there is one. */
    method UpdateGeometryFor(required: Counts) returns (updated: bool)
      requires Valid()
      modifies this`free
      ensures Valid() && View() == UpdateFor(old(View()), required)
      ensures updated <==> Improvable(old(View()), required)
      ensures updated <==> View() != old(View())
      ensures var l, u := old(View()), View();
              if !updated
              then forall j | 0 <= j < |l.allowed| && Eligible(l, j) :: Score(l, required, l.allowed[j]) <= 0
              else exists i :: Highest(l, required, i) && u.used == l.used && InGeometry(u, l.allowed[i])
    {
      hide UpdateFor, Improvable, Eligible, Score, Highest, InGeometry, GPU.Valid, GPU.View;
      ghost var l := View();
      updated := Reshape(required);
      InstalledIsBest(l, View(), required);
    }

    /** The search, and the change of the free devices. */
    method Reshape(required: Counts) returns (updated: bool)
      requires Valid()
      modifies this`free
      ensures Valid() && View() == UpdateFor(old(View()), required)
      ensures updated <==> Improvable(old(View()), required)
      ensures updated <==> View() != old(View())
    {
      ghost var l := View();
      var current := GetGeometry();
      var best := Search(l, allowed, used, free, current, required);
      UpdateForKeeps(l, required);
      BestDecides(l, required);
      if best < 0 {
        return false;
      }
      // The equality guard of the source never fires, and the error it ignores never occurs.
      updated := allowed[best] != current;
      assert updated by { BestDiffers(l, required, current); }
      if updated {
        assert allowed[best] in allowed && Covers(allowed[best], l.used) by { EligibleCovers(l, best); }
        var applied := ApplyGeometry(allowed[best]);
        assert applied;
      }
    }

    /** Moves used devices back to free; refuses, and changes nothing, when some profile has too few in use. */
    method ReleaseProfiles(profiles: Counts) returns (ok: bool)
      requires Valid() && NonNegative(profiles)
      modifies this`used, this`free
      ensures Valid()
      ensures ok <==> forall p | p in profiles :: Get(old(View()).used, p) >= profiles[p]
      ensures !ok ==> View() == old(View())
      ensures ok ==> forall p ::
                && Get(View().used, p) == Get(old(View()).used, p) - Get(profiles, p)
                && Get(View().free, p) == Get(old(View()).free, p) + Get(profiles, p)
    {
      ok := forall p | p in profiles :: Get(used, p) >= profiles[p];
      assert forall p :: Get(View().used, p) == Get(used, p) && Get(View().free, p) == Get(free, p);
      if !ok {
        return;
      }
      Move(profiles);
    }

    /** The second loop of `ReleaseProfiles`. */
    method Move(profiles: Counts)
      requires Valid() && NonNegative(profiles)
      requires forall p | p in profiles :: Get(used, p) >= profiles[p]
      modifies this`used, this`free
      ensures Valid()
      ensures forall p :: Get(used, p) == Get(old(used), p) - Get(profiles, p)
      ensures forall p :: Get(free, p) == Get(old(free), p) + Get(profiles, p)
    {
      ghost var wasUsed, wasFree := used, free;
      var todo := profiles.Keys;
      while todo != {}
        invariant todo <= profiles.Keys
        invariant NonNegative(used) && NonNegative(free)
        invariant forall p :: Get(used, p) == Get(wasUsed, p) - (if p in todo then 0 else Get(profiles, p))
        invariant forall p :: Get(free, p) == Get(wasFree, p) + (if p in todo then 0 else Get(profiles, p))
      {
        var p := Any(todo);
        todo := todo - {p};
        used, free := Shift(used, free, p, profiles[p]);
      }
    }
  }

  /** One profile of the loop: an entry that drops to 0 is deleted. */
  method Shift(used: Counts, free: Counts, p: ProfileName, quantity: int) returns (used': Counts, free': Counts)
    requires NonNegative(used) && NonNegative(free) && 0 <= quantity <= Get(used, p)
    ensures NonNegative(used') && NonNegative(free')
    ensures forall q :: Get(used', q) == Get(used, q) - if q == p then quantity else 0
    ensures forall q :: Get(free', q) == Get(free, q) + if q == p then quantity else 0
  {
    used' := used[p := Get(used, p) - quantity];
    if used'[p] == 0 {
      used' := used' - {p};
    }
    free' := free[p := Get(free, p) + quantity];
  }
}
