/** A node: its GPUs in a fixed order, and the greedy walk that serves a demand from them. */
module MigNode {
  import opened GoMaps
  import opened Devices
  import opened Lists
  import opened MigGpu

  // ----- a node as a value -----

  ghost predicate ValidLedgers(ls: seq<Ledger>) {
    forall i | 0 <= i < |ls| :: ValidLedger(ls[i])
  }

  /** Ledgers as they are read from annotations: an entry may be 0, which means the same as no entry. */
  ghost predicate SaneLedgers(ls: seq<Ledger>) {
    forall i | 0 <= i < |ls| ::
      && NonNegative(ls[i].used) && NonNegative(ls[i].free)
      && forall j | 0 <= j < |ls[i].allowed| :: Positive(ls[i].allowed[j])
  }

  /** The ledgers without their empty entries. */
  ghost function Normal(ls: seq<Ledger>): (rs: seq<Ledger>)
    ensures |rs| == |ls| && (SaneLedgers(ls) ==> ValidLedgers(rs))
    ensures forall i, p | 0 <= i < |ls| ::
              && rs[i].index == ls[i].index && rs[i].allowed == ls[i].allowed
              && Get(rs[i].used, p) == Get(ls[i].used, p) && Get(rs[i].free, p) == Get(ls[i].free, p)
  {
    seq(|ls|, i requires 0 <= i < |ls| => ls[i].(used := Norm(ls[i].used), free := Norm(ls[i].free)))
  }

  lemma NormalSame(ls: seq<Ledger>)
    requires ValidLedgers(ls)
    ensures SaneLedgers(ls) && Normal(ls) == ls
  {
    forall i | 0 <= i < |ls| ensures Normal(ls)[i] == ls[i] {
      NormKeeps(ls[i].used);
      NormKeeps(ls[i].free);
    }
  }

  /** Free devices of a profile on the first `n` GPUs. */
  ghost function FreeSum(ls: seq<Ledger>, n: nat, p: ProfileName): int
    requires n <= |ls|
  {
    if n == 0 then 0 else FreeSum(ls, n - 1, p) + Get(ls[n - 1].free, p)
  }

  /** Used devices of a profile on the first `n` GPUs. */
  ghost function UsedSum(ls: seq<Ledger>, n: nat, p: ProfileName): int
    requires n <= |ls|
  {
    if n == 0 then 0 else UsedSum(ls, n - 1, p) + Get(ls[n - 1].used, p)
  }

  ghost function NodeFree(ls: seq<Ledger>, p: ProfileName): int {
    FreeSum(ls, |ls|, p)
  }

  ghost function NodeUsed(ls: seq<Ledger>, p: ProfileName): int {
    UsedSum(ls, |ls|, p)
  }

  /** The positive part of a request. */
  ghost function Demand(required: Counts): (d: Counts)
    ensures Positive(d)
  {
    map p | p in required && required[p] > 0 :: required[p]
  }

  ghost predicate IsResidual(demand: Counts, free: Counts, d: Counts) {
    Positive(d) && forall p :: Get(d, p) == Max(0, Get(demand, p) - Get(free, p))
  }

  /** What is left of a demand once the free devices are set against it. */
  ghost function Residual(demand: Counts, free: Counts): (d: Counts)
    requires Positive(demand) && Positive(free)
    ensures Positive(d)
  {
    assert IsResidual(demand, free, map p | p in demand && demand[p] > Get(free, p) :: demand[p] - Get(free, p));
    var d :| IsResidual(demand, free, d);
    d
  }

  lemma ResidualAt(demand: Counts, free: Counts, p: ProfileName)
    requires Positive(demand) && Positive(free)
    ensures Get(Residual(demand, free), p) == Max(0, Get(demand, p) - Get(free, p))
    ensures Get(free, p) >= 0
  {
  }

  /** The demand that is still outstanding when the walk reaches GPU `n`. */
  ghost function Outstanding(ls: seq<Ledger>, demand: Counts, n: nat): (d: Counts)
    requires n <= |ls| && ValidLedgers(ls) && Positive(demand)
    ensures Positive(d)
  {
    if n == 0 then demand else
      var d := Outstanding(ls, demand, n - 1);
      UpdateForKeeps(ls[n - 1], d);
      Residual(d, UpdateFor(ls[n - 1], d).free)
  }

  /** The GPUs after the walk: each one updated for the demand that the GPUs before it left outstanding. */
  ghost function Walk(ls: seq<Ledger>, demand: Counts): (us: seq<Ledger>)
    requires ValidLedgers(ls) && Positive(demand)
    ensures |us| == |ls|
  {
    seq(|ls|, i requires 0 <= i < |ls| => UpdateFor(ls[i], Outstanding(ls, demand, i)))
  }

  ghost function NodeUpdate(ls: seq<Ledger>, required: Counts): (us: seq<Ledger>)
    requires ValidLedgers(ls)
    ensures |us| == |ls|
  {
    Walk(ls, Demand(required))
  }

  // ----- what the walk guarantees -----

  /** Only the positive part of a request matters to a GPU. */
  lemma OnlyDemandMatters(l: Ledger, required: Counts)
    requires ValidLedger(l)
    ensures UpdateFor(l, required) == UpdateFor(l, Demand(required))
    ensures Improvable(l, required) <==> Improvable(l, Demand(required))
  {
    hide Value, Demand;
    var v, w := Values(l, required), Values(l, Demand(required));
    forall i | 0 <= i < |l.allowed| ensures Value(l, required, i) == Value(l, Demand(required), i) {
      OnlyDemandScores(l, required, i);
    }
    assert v == w;
  }

  lemma OnlyDemandScores(l: Ledger, required: Counts, i: nat)
    requires ValidLedger(l) && i < |l.allowed|
    ensures Value(l, required, i) == Value(l, Demand(required), i)
  {
    hide Total, Gains, Eligible, Demand;
    var a := Gains(l.used, l.free, required, l.allowed[i]);
    var b := Gains(l.used, l.free, Demand(required), l.allowed[i]);
    forall p ensures Get(a, p) == Get(b, p) {
      SameGain(l.used, l.free, required, l.allowed[i], p);
    }
    TotalSame(a, b);
  }

  /** What is requested in no positive quantity gains nothing. */
  lemma SameGain(used: Counts, free: Counts, required: Counts, geometry: Counts, p: ProfileName)
    requires Positive(free)
    ensures Get(Gains(used, free, required, geometry), p) == Get(Gains(used, free, Demand(required), geometry), p)
  {
    hide Gains, Gain;
    GainsAt(used, free, required, geometry, p);
    GainsAt(used, free, Demand(required), geometry, p);
    if p in required && required[p] <= 0 {
      NoGain(required[p], Get(free, p), Get(geometry, p) - Get(used, p));
    }
  }

  lemma GainsAt(used: Counts, free: Counts, required: Counts, geometry: Counts, p: ProfileName)
    ensures Get(Gains(used, free, required, geometry), p)
            == if p in required then Gain(required[p], Get(free, p), Get(geometry, p) - Get(used, p)) else 0
  {
    hide Gain;
  }

  lemma NoGain(required: int, before: int, after: int)
    requires required <= 0 <= before
    ensures Gain(required, before, after) == 0
  {
  }

  lemma LedgerStep(ls: seq<Ledger>, demand: Counts, n: nat, p: ProfileName)
    requires ValidLedgers(ls) && n < |ls| && Positive(demand)
    ensures var free := Get(Walk(ls, demand)[n].free, p);
            && free >= 0
            && Get(Outstanding(ls, demand, n + 1), p) == Max(0, Get(Outstanding(ls, demand, n), p) - free)
  {
    hide UpdateFor;
    var d := Outstanding(ls, demand, n);
    UpdateForKeeps(ls[n], d);
    ResidualAt(d, UpdateFor(ls[n], d).free, p);
  }

  /** Outstanding demand after `n` GPUs is exactly what their free devices do not cover, for every profile. */
  lemma {:induction false} GreedyLedger(ls: seq<Ledger>, demand: Counts, n: nat, p: ProfileName)
    requires ValidLedgers(ls) && Positive(demand) && n <= |ls|
    ensures Get(Outstanding(ls, demand, n), p) == Max(0, Get(demand, p) - FreeSum(Walk(ls, demand), n, p))
  {
    hide UpdateFor, Walk, Residual;
    if n > 0 {
      GreedyLedger(ls, demand, n - 1, p);
      LedgerStep(ls, demand, n - 1, p);
    }
  }

  /** `d` is what the free devices of the first `i` GPUs leave of a request. */
  ghost predicate LeftOver(required: Counts, us: seq<Ledger>, i: nat, d: Counts)
    requires i <= |us|
  {
    forall p :: Get(d, p) == Max(0, Get(required, p) - FreeSum(us, i, p))
  }

  /** GPU `i` is updated for exactly what the free devices of the GPUs before it leave of the request. */
  ghost predicate ServedAt(ls: seq<Ledger>, us: seq<Ledger>, required: Counts, i: int) {
    0 <= i < |ls| == |us| && exists d: Counts :: LeftOver(required, us, i, d) && us[i] == UpdateFor(ls[i], d)
  }

  /** Every GPU is served in turn. */
  lemma NodeStepwise(ls: seq<Ledger>, us: seq<Ledger>, required: Counts)
    requires ValidLedgers(ls) && us == NodeUpdate(ls, required)
    ensures forall i | 0 <= i < |ls| :: ServedAt(ls, us, required, i)
  {
    hide UpdateFor, NodeUpdate, LeftOver;
    forall i | 0 <= i < |ls| ensures ServedAt(ls, us, required, i) {
      var d := NodeStep(ls, us, required, i);
    }
  }

  lemma NodeStep(ls: seq<Ledger>, us: seq<Ledger>, required: Counts, i: nat) returns (d: Counts)
    requires ValidLedgers(ls) && us == NodeUpdate(ls, required) && i < |ls|
    ensures us[i] == UpdateFor(ls[i], d) && Positive(d)
    ensures LeftOver(required, us, i, d)
  {
    hide UpdateFor, Outstanding, Walk;
    d := Outstanding(ls, Demand(required), i);
    StepOf(ls, required, i);
    NodeUpdateKeeps(ls, required);
    forall p ensures Get(d, p) == Max(0, Get(required, p) - FreeSum(us, i, p)) {
      GreedyLedger(ls, Demand(required), i, p);
      FreeSumNonNegative(us, i, p);
    }
  }

  /** Once the request is met, the remaining GPUs are left alone. */
  lemma LaterGpusUntouched(ls: seq<Ledger>, required: Counts, i: nat)
    requires ValidLedgers(ls) && i < |ls|
    requires forall p | p in required :: required[p] <= FreeSum(NodeUpdate(ls, required), i, p)
    ensures NodeUpdate(ls, required)[i] == ls[i]
  {
    hide UpdateFor, Outstanding, NodeUpdate;
    var us := NodeUpdate(ls, required);
    var d := NodeStep(ls, us, required, i);
    forall p ensures Get(d, p) == 0 {
      NodeUpdateKeeps(ls, required);
      FreeSumNonNegative(us, i, p);
    }
    NothingShort(ls[i], d);
  }

  lemma NothingShort(l: Ledger, d: Counts)
    requires ValidLedger(l) && Positive(d) && forall p :: Get(d, p) == 0
    ensures UpdateFor(l, d) == l
  {
    hide UpdateFor, Score;
    UpdateForKeeps(l, d);
    forall geometry: Counts ensures Score(l, d, geometry) == 0 {
      ScoreMeansChange(l, d, geometry);
      assert forall p | p in d :: d[p] == Get(d, p);
    }
  }

  /** Every GPU keeps its used devices, and is either untouched or in one of its allowed geometries. */
  lemma WalkKeeps(ls: seq<Ledger>, demand: Counts, i: nat)
    requires ValidLedgers(ls) && Positive(demand) && i < |ls|
    ensures Kept(ls[i], Walk(ls, demand)[i])
  {
    hide UpdateFor;
    UpdateForKeeps(ls[i], Outstanding(ls, demand, i));
  }

  ghost predicate AllKept(ls: seq<Ledger>, us: seq<Ledger>) {
    |us| == |ls| && forall i {:trigger us[i]} | 0 <= i < |ls| :: Kept(ls[i], us[i])
  }

  lemma NodeUpdateKeeps(ls: seq<Ledger>, required: Counts)
    requires ValidLedgers(ls)
    ensures AllKept(ls, NodeUpdate(ls, required)) && ValidLedgers(NodeUpdate(ls, required))
  {
    hide UpdateFor, Walk;
    var us := NodeUpdate(ls, required);
    forall i {:trigger us[i]} | 0 <= i < |ls| ensures Kept(ls[i], us[i]) {
      WalkKeeps(ls, Demand(required), i);
    }
  }

  /** The walk meets the whole demand exactly when the node ends up with enough free devices of every profile. */
  lemma WalkMeetsDemand(ls: seq<Ledger>, required: Counts)
    requires ValidLedgers(ls)
    ensures Outstanding(ls, Demand(required), |ls|) == map[]
            <==> forall p | p in required :: NodeFree(NodeUpdate(ls, required), p) >= required[p]
  {
    hide NodeUpdate, Outstanding;
    var left := Outstanding(ls, Demand(required), |ls|);
    forall p ensures p in left <==> p in required && NodeFree(NodeUpdate(ls, required), p) < required[p] {
      StillMissing(ls, required, p);
    }
    if p :| p in required && NodeFree(NodeUpdate(ls, required), p) < required[p] {
      assert p in left;
    }
  }

  lemma StillMissing(ls: seq<Ledger>, required: Counts, p: ProfileName)
    requires ValidLedgers(ls)
    ensures p in Outstanding(ls, Demand(required), |ls|)
            <==> p in required && NodeFree(NodeUpdate(ls, required), p) < required[p]
  {
    hide Walk, Outstanding;
    NodeUpdateKeeps(ls, required);
    FreeSumNonNegative(NodeUpdate(ls, required), |ls|, p);
    GreedyLedger(ls, Demand(required), |ls|, p);
  }

  lemma {:induction false} FreeSumNonNegative(ls: seq<Ledger>, n: nat, p: ProfileName)
    requires ValidLedgers(ls) && n <= |ls|
    ensures FreeSum(ls, n, p) >= 0 && UsedSum(ls, n, p) >= 0
  {
    if n > 0 {
      FreeSumNonNegative(ls, n - 1, p);
    }
  }

  // ----- releasing used devices -----

  /** Devices of a profile that GPU `i` gives back when the GPUs are asked in order for `quantity` of them. */
  ghost function Taken(ls: seq<Ledger>, quantity: int, i: nat, p: ProfileName): int
    requires i < |ls|
  {
    Min(Get(ls[i].used, p), Max(0, quantity - UsedSum(ls, i, p)))
  }

  ghost function GiveBack(l: Ledger, given: Counts): Ledger {
    l.(used := Norm(map p | p in l.used :: l.used[p] - Get(given, p)),
       free := Norm(map p | p in l.free.Keys + given.Keys :: Get(l.free, p) + Get(given, p)))
  }

  /** The node after every profile of `profiles` has been released from its GPUs in order. */
  ghost function Released(ls: seq<Ledger>, profiles: Counts): (rs: seq<Ledger>)
    ensures |rs| == |ls|
  {
    seq(|ls|, i requires 0 <= i < |ls| => GiveBack(ls[i], map p | p in profiles :: Taken(ls, profiles[p], i, p)))
  }

  /** Taking stops at the requested quantity, and gets there if the node has that many in use. */
  lemma {:induction false} TakenSum(ls: seq<Ledger>, profiles: Counts, n: nat, p: ProfileName)
    requires ValidLedgers(ls) && NonNegative(profiles) && p in profiles && n <= |ls|
    ensures UsedSum(Released(ls, profiles), n, p) == UsedSum(ls, n, p) - Min(profiles[p], UsedSum(ls, n, p))
    ensures FreeSum(Released(ls, profiles), n, p) == FreeSum(ls, n, p) + Min(profiles[p], UsedSum(ls, n, p))
  {
    hide Released;
    if n > 0 {
      TakenSum(ls, profiles, n - 1, p);
      FreeSumNonNegative(ls, n - 1, p);
      GiveBackCounts(ls, profiles, n - 1, p);
    }
  }

  lemma GiveBackCounts(ls: seq<Ledger>, profiles: Counts, i: nat, p: ProfileName)
    requires ValidLedgers(ls) && NonNegative(profiles) && i < |ls|
    ensures var taken := if p in profiles then Taken(ls, profiles[p], i, p) else 0;
            && Get(Released(ls, profiles)[i].used, p) == Get(ls[i].used, p) - taken
            && Get(Released(ls, profiles)[i].free, p) == Get(ls[i].free, p) + taken
            && 0 <= taken <= Get(ls[i].used, p)
  {
    var given := map p | p in profiles :: Taken(ls, profiles[p], i, p);
    var taken := if p in profiles then Taken(ls, profiles[p], i, p) else 0;
    assert Get(given, p) == taken;
    assert Released(ls, profiles)[i] == GiveBack(ls[i], given);
  }

  ghost predicate Releasable(ls: seq<Ledger>, profiles: Counts) {
    forall p | p in profiles :: NodeUsed(ls, p) >= profiles[p]
  }

  /** Whatever is taken, ledgers stay valid and every GPU holds as many devices as before. */
  lemma ReleasedValid(ls: seq<Ledger>, profiles: Counts)
    requires ValidLedgers(ls) && NonNegative(profiles)
    ensures ValidLedgers(Released(ls, profiles))
    ensures forall i, p :: 0 <= i < |ls| ==> GeometryAt(Released(ls, profiles)[i], p) == GeometryAt(ls[i], p)
  {
    var rs := Released(ls, profiles);
    forall i, p | 0 <= i < |ls|
      ensures GeometryAt(rs[i], p) == GeometryAt(ls[i], p) && Get(rs[i].used, p) >= 0 && Get(rs[i].free, p) >= 0
    {
      GiveBackCounts(ls, profiles, i, p);
    }
    forall i | 0 <= i < |ls| ensures ValidLedger(rs[i]) {
      forall p | p in rs[i].used ensures rs[i].used[p] > 0 { GiveBackCounts(ls, profiles, i, p); }
      forall p | p in rs[i].free ensures rs[i].free[p] > 0 { GiveBackCounts(ls, profiles, i, p); }
    }
  }

  /** Releasing keeps every ledger valid and every GPU's used plus free, and lowers node-wide use by the request. */
  lemma ReleasedConserves(ls: seq<Ledger>, profiles: Counts)
    requires ValidLedgers(ls) && NonNegative(profiles) && Releasable(ls, profiles)
    ensures ValidLedgers(Released(ls, profiles))
    ensures forall i, p :: 0 <= i < |ls| ==> GeometryAt(Released(ls, profiles)[i], p) == GeometryAt(ls[i], p)
    ensures forall p :: NodeUsed(Released(ls, profiles), p) == NodeUsed(ls, p) - Get(profiles, p)
  {
    hide Released, ValidLedger;
    ReleasedValid(ls, profiles);
    forall p ensures NodeUsed(Released(ls, profiles), p) == NodeUsed(ls, p) - Get(profiles, p) {
      if p in profiles {
        TakenSum(ls, profiles, |ls|, p);
      } else {
        UntouchedUse(ls, profiles, |ls|, p);
      }
    }
  }

  lemma {:induction false} UntouchedUse(ls: seq<Ledger>, profiles: Counts, n: nat, p: ProfileName)
    requires ValidLedgers(ls) && NonNegative(profiles) && p !in profiles && n <= |ls|
    ensures UsedSum(Released(ls, profiles), n, p) == UsedSum(ls, n, p)
  {
    hide Released;
    if n > 0 {
      UntouchedUse(ls, profiles, n - 1, p);
      GiveBackCounts(ls, profiles, n - 1, p);
    }
  }

  /** `v` is `l` with `n` devices of profile `p` moved from used to free. */
  ghost predicate Gave(l: Ledger, v: Ledger, p: ProfileName, n: int) {
    && v.index == l.index && v.allowed == l.allowed
    && forall q ::
         && Get(v.used, q) == Get(l.used, q) - (if q == p then n else 0)
         && Get(v.free, q) == Get(l.free, q) + (if q == p then n else 0)
  }

  /** `vs` is `ls` after the profiles in `done` have been released. */
  ghost predicate GaveBack(ls: seq<Ledger>, vs: seq<Ledger>, profiles: Counts, done: set<ProfileName>)
    requires done <= profiles.Keys
  {
    && |vs| == |ls|
    && forall i {:trigger vs[i]} | 0 <= i < |ls| ::
         && vs[i].index == ls[i].index && vs[i].allowed == ls[i].allowed
         && forall p ::
              && Get(vs[i].used, p) == Get(ls[i].used, p) - (if p in done then Taken(ls, profiles[p], i, p) else 0)
              && Get(vs[i].free, p) == Get(ls[i].free, p) + (if p in done then Taken(ls, profiles[p], i, p) else 0)
  }

  lemma TakenStep(ls: seq<Ledger>, quantity: int, i: nat, p: ProfileName)
    requires ValidLedgers(ls) && i < |ls|
    ensures var left := Max(0, quantity - UsedSum(ls, i, p));
            && Taken(ls, quantity, i, p) == Min(Get(ls[i].used, p), left)
            && Max(0, quantity - UsedSum(ls, i + 1, p)) == left - Taken(ls, quantity, i, p)
    ensures Get(ls[i].used, p) >= 0
    ensures Taken(ls, quantity, i, p) == 0 ==> Gave(ls[i], ls[i], p, Taken(ls, quantity, i, p))
  {
    UsedSumStep(ls, i, p);
  }

  lemma GaveOne(ls: seq<Ledger>, vs: seq<Ledger>, p: ProfileName, quantity: int)
    requires |vs| == |ls|
    requires forall j {:trigger vs[j]} | 0 <= j < |ls| :: Gave(ls[j], vs[j], p, Taken(ls, quantity, j, p))
    ensures GaveBack(ls, vs, map[p := quantity], {p})
  {
    hide Taken;
  }

  /** Once the quantity is met, no later GPU gives anything. */
  lemma NothingLeft(ls: seq<Ledger>, quantity: int, i: nat, p: ProfileName)
    requires ValidLedgers(ls) && i <= |ls| && (i < |ls| ==> quantity <= UsedSum(ls, i, p))
    ensures forall j | i <= j < |ls| :: Gave(ls[j], ls[j], p, Taken(ls, quantity, j, p))
    ensures Max(0, quantity - UsedSum(ls, i, p)) == Max(0, quantity - NodeUsed(ls, p))
    decreases |ls| - i
  {
    if i < |ls| {
      UsedSumStep(ls, i, p);
      NothingLeft(ls, quantity, i + 1, p);
      forall j | i <= j < |ls| ensures Gave(ls[j], ls[j], p, Taken(ls, quantity, j, p)) {
      }
    }
  }

  // ----- the object -----

  /** Inner loop of `UpdateGeometryFor`: sets the free devices of one GPU against the outstanding request. */
  method Subtract(required: Counts, free: Counts) returns (rest: Counts)
    requires NonNegative(free)
    ensures Demand(rest) == Residual(Demand(required), Norm(free))
  {
    rest := required;
    var todo := free.Keys;
    while todo != {}
      invariant todo <= free.Keys
      invariant forall p :: Max(0, Get(rest, p)) == Max(0, Get(required, p) - if p in todo then 0 else Get(free, p))
    {
      var p :| p in todo;
      todo := todo - {p};
      var left := Get(rest, p) - free[p];
      rest := rest[p := left];
      if left <= 0 {
        rest := rest - {p};
      }
    }
    SubtractIsResidual(required, free, rest);
  }

  lemma SubtractIsResidual(required: Counts, free: Counts, rest: Counts)
    requires NonNegative(free)
    requires forall p :: Max(0, Get(rest, p)) == Max(0, Get(required, p) - Get(free, p))
    ensures Demand(rest) == Residual(Demand(required), Norm(free))
  {
    hide Residual, Norm;
    var r := Residual(Demand(required), Norm(free));
    forall p ensures Get(Demand(rest), p) == Get(r, p) {
      ResidualAt(Demand(required), Norm(free), p);
      assert Get(Norm(free), p) == Get(free, p);
    }
    PositiveSame(Demand(rest), r);
  }

  lemma WalkAt(ls: seq<Ledger>, demand: Counts, i: nat)
    requires ValidLedgers(ls) && Positive(demand) && i < |ls|
    ensures Walk(ls, demand)[i] == UpdateFor(ls[i], Outstanding(ls, demand, i))
    ensures Positive(Walk(ls, demand)[i].free)
    ensures Outstanding(ls, demand, i + 1) == Residual(Outstanding(ls, demand, i), Walk(ls, demand)[i].free)
  {
    hide UpdateFor;
    UpdateForKeeps(ls[i], Outstanding(ls, demand, i));
  }

  /** An empty request leaves every GPU as it is. */
  lemma {:induction false} NothingRequired(ls: seq<Ledger>, n: nat)
    requires ValidLedgers(ls) && n <= |ls|
    ensures Outstanding(ls, map[], n) == map[]
    ensures n < |ls| ==> Walk(ls, map[])[n] == ls[n]
  {
    hide UpdateFor, Walk;
    if n > 0 {
      NothingRequired(ls, n - 1);
      WalkAt(ls, map[], n - 1);
      forall p ensures Get(Outstanding(ls, map[], n), p) == 0 {
        ResidualAt(map[], ls[n - 1].free, p);
      }
      PositiveSame(Outstanding(ls, map[], n), map[]);
    }
    if n < |ls| {
      WalkAt(ls, map[], n);
      UpdateForKeeps(ls[n], map[]);
      assert !Improvable(ls[n], map[]) by {
        forall geometry: Counts ensures Score(ls[n], map[], geometry) == 0 {
          ScoreMeansChange(ls[n], map[], geometry);
        }
      }
    }
  }

  class Node {
    const gpus: seq<GPU>

    ghost predicate Valid()
      reads this, gpus
    {
      NoDup(gpus) && forall i | 0 <= i < |gpus| :: gpus[i].Valid()
    }

    ghost function View(): (ls: seq<Ledger>)
      reads this, gpus
      ensures |ls| == |gpus| && forall i {:trigger ls[i]} | 0 <= i < |gpus| :: ls[i] == gpus[i].View()
      ensures Valid() ==> ValidLedgers(ls)
    {
      seq(|gpus|, i requires 0 <= i < |gpus| reads gpus => gpus[i].View())
    }

    /** Fresh GPU objects holding the given ledgers. */
    constructor (ls: seq<Ledger>)
      requires SaneLedgers(ls)
      ensures Valid() && fresh(gpus) && View() == Normal(ls)
    {
      var gs: seq<GPU> := [];
      for i := 0 to |ls|
        invariant |gs| == i && fresh(gs) && NoDup(gs)
        invariant forall j {:trigger gs[j]} | 0 <= j < i :: gs[j].Valid() && gs[j].View() == Normal(ls)[j]
      {
        var g := new GPU(ls[i].index, ls[i].allowed, ls[i].used, ls[i].free);
        gs := gs + [g];
      }
      gpus := gs;
    }

    constructor Adopt(gpus: seq<GPU>)
      requires NoDup(gpus)
      ensures this.gpus == gpus
    {
      this.gpus := gpus;
    }

    /** A copy on fresh objects: whatever is done to it cannot reach the original. */
    method Clone() returns (c: Node)
      requires Valid()
      ensures fresh(c) && fresh(c.gpus) && c.Valid() && c.View() == View()
    {
      var gs: seq<GPU> := [];
      for i := 0 to |gpus|
        invariant |gs| == i && fresh(gs) && NoDup(gs)
        invariant forall j {:trigger gs[j]} | 0 <= j < i :: gs[j].Valid() && gs[j].View() == gpus[j].View()
      {
        var g := gpus[i].Clone();
        gs := gs + [g];
      }
      c := new Node.Adopt(gs);
    }

    /** The greedy walk, in place. True exactly when some GPU changed. */
    method UpdateGeometryFor(slices: Counts) returns (updated: bool)
      requires Valid()
      modifies gpus
      ensures Valid() && View() == NodeUpdate(old(View()), slices)
      ensures updated <==> View() != old(View())
      ensures var ls, us := old(View()), View();
              forall i | 0 <= i < |ls| :: ServedAt(ls, us, slices, i)
    {
      hide NodeUpdate, ServedAt;
      ghost var start := View();
      NodeStepwise(start, NodeUpdate(start, slices), slices);
      if |gpus| == 0 || |slices| == 0 {
        EmptyWalk(View(), slices);
        return false;
      }
      updated := VisitAll(slices);
    }

    /** The loop over the GPUs. */
    method VisitAll(slices: Counts) returns (updated: bool)
      requires Valid()
      modifies gpus
      ensures Valid() && View() == NodeUpdate(old(View()), slices)
      ensures updated <==> View() != old(View())
    {
      hide UpdateFor, NodeUpdate, Outstanding, Residual, Demand, GPU.View, GPU.Valid;
      ghost var ls, us := View(), NodeUpdate(View(), slices);
      var required := slices;
      updated := false;
      assert Outstanding(ls, Demand(slices), 0) == Demand(slices) by { WalkStarts(ls, Demand(slices)); }
      for i := 0 to |gpus|
        invariant Valid()
        invariant forall j {:trigger gpus[j]} | 0 <= j < |gpus| :: gpus[j].View() == if j < i then us[j] else ls[j]
        invariant Demand(required) == Outstanding(ls, Demand(slices), i)
        invariant updated <==> exists j | 0 <= j < i :: us[j] != ls[j]
      {
        var changed;
        StepOf(ls, slices, i);
        changed, required := Visit(gpus[i], required);
        updated := updated || changed;
      }
      assert View() == us;
    }

    /** The geometry of the node: used plus free devices of all its GPUs. */
    method Geometry() returns (r: Counts)
      requires Valid()
      ensures forall p :: Get(r, p) == NodeUsed(View(), p) + NodeFree(View(), p)
    {
      hide UsedSum, FreeSum, GPU.View;
      ghost var ls := View();
      r := map[];
      SumsStart(ls);
      for i := 0 to |gpus|
        invariant forall p :: Get(r, p) == UsedSum(ls, i, p) + FreeSum(ls, i, p)
      {
        var g := GeometryOf(gpus[i], ls[i]);
        r := AddAll(r, g);
        forall p ensures Get(r, p) == UsedSum(ls, i + 1, p) + FreeSum(ls, i + 1, p) {
          SumsStep(ls, i, p);
        }
      }
    }

    method FreeGeometry() returns (r: Counts)
      requires Valid()
      ensures forall p :: Get(r, p) == NodeFree(View(), p)
    {
      hide FreeSum, GPU.View;
      ghost var ls := View();
      r := map[];
      SumsStart(ls);
      for i := 0 to |gpus|
        invariant forall p :: Get(r, p) == FreeSum(ls, i, p)
      {
        FreeOf(gpus[i]);
        r := AddAll(r, gpus[i].free);
        forall p ensures Get(r, p) == FreeSum(ls, i + 1, p) {
          SumsStep(ls, i, p);
        }
      }
    }

    /** The loop over the GPUs for one profile; `remaining` is what the node could not give back. */
    method ReleaseOne(p: ProfileName, quantity: int) returns (remaining: int)
      requires Valid() && quantity >= 0
      modifies gpus
      ensures Valid() && GaveBack(old(View()), View(), map[p := quantity], {p})
      ensures remaining == Max(0, quantity - NodeUsed(old(View()), p))
    {
      hide GPU.View, GPU.Valid, UsedSum, Gave, Taken, GaveBack;
      ghost var ls := View();
      remaining := quantity;
      var i := 0;
      UsedSumStep(ls, 0, p);
      while i < |gpus|
        invariant 0 <= i <= |gpus| && Valid()
        invariant remaining == Max(0, quantity - UsedSum(ls, i, p))
        invariant forall j {:trigger gpus[j]} | 0 <= j < i :: Gave(ls[j], gpus[j].View(), p, Taken(ls, quantity, j, p))
        invariant forall j {:trigger gpus[j]} | i <= j < |gpus| :: gpus[j].View() == ls[j]
      {
        TakenStep(ls, quantity, i, p);
        var available;
        available, remaining := GiveFrom(gpus[i], p, remaining);
        i := i + 1;
        if available && remaining == 0 {
          break;
        }
      }
      NothingLeft(ls, quantity, i, p);
      forall j | 0 <= j < |gpus| ensures Gave(ls[j], View()[j], p, Taken(ls, quantity, j, p)) {
        assert View()[j] == gpus[j].View();
      }
      GaveOne(ls, View(), p, quantity);
    }

    /**
     * True exactly when the node has enough devices in use for every profile, and then each profile is given back
     * by the GPUs in order. On false some profiles may have been released; used plus free is conserved either way.
     */
    method ReleaseProfiles(profiles: Counts) returns (ok: bool)
      requires Valid() && NonNegative(profiles)
      modifies gpus
      ensures Valid() && Conserved(old(View()), View())
      ensures ok <==> Releasable(old(View()), profiles)
      ensures ok <==> forall p | p in profiles :: NodeUsed(old(View()), p) >= profiles[p]
      ensures ok ==> View() == Released(old(View()), profiles)
      ensures !ok ==> LeftBehind(old(View()), View(), profiles)
    {
      hide GaveBack, Released, NodeUsed, Node.View, LeftBehind;
      ghost var ls := View();
      var todo := profiles.Keys;
      NothingGiven(ls, profiles);
      while todo != {}
        invariant todo <= profiles.Keys && Valid()
        invariant GaveBack(ls, View(), profiles, profiles.Keys - todo)
        invariant forall p | p in profiles.Keys - todo :: NodeUsed(ls, p) >= profiles[p]
      {
        var p :| p in todo;
        ghost var done, vs := profiles.Keys - todo, View();
        var remaining := ReleaseOne(p, profiles[p]);
        GaveMore(ls, vs, View(), profiles, done, p);
        todo := todo - {p};
        assert profiles.Keys - todo == done + {p};
        if remaining > 0 {
          GaveConserves(ls, View(), profiles, done + {p});
          assert !Releasable(ls, profiles) by { NotReleasable(ls, profiles, p); }
          Stuck(ls, View(), profiles, done + {p}, p);
          return false;
        }
      }
      assert profiles.Keys - {} == profiles.Keys;
      GaveConserves(ls, View(), profiles, profiles.Keys);
      GaveAll(ls, View(), profiles);
      ok := true;
    }
  }

  /** Every GPU holds the same devices as before, used or free. */
  ghost predicate Conserved(ls: seq<Ledger>, vs: seq<Ledger>) {
    && |vs| == |ls|
    && forall i {:trigger vs[i]} | 0 <= i < |ls| ::
         && vs[i].index == ls[i].index && vs[i].allowed == ls[i].allowed
         && forall p :: GeometryAt(vs[i], p) == GeometryAt(ls[i], p)
  }

  lemma NothingGiven(ls: seq<Ledger>, profiles: Counts)
    ensures GaveBack(ls, ls, profiles, profiles.Keys - profiles.Keys)
  {
  }

  /** A refused release is not undone: some profiles are given back, among them one that the node has too few of. */
  ghost predicate LeftBehind(ls: seq<Ledger>, vs: seq<Ledger>, profiles: Counts) {
    exists done ::
      && done <= profiles.Keys && GaveBack(ls, vs, profiles, done)
      && exists p :: p in done && NodeUsed(ls, p) < profiles[p]
  }

  lemma Stuck(ls: seq<Ledger>, vs: seq<Ledger>, profiles: Counts, done: set<ProfileName>, p: ProfileName)
    requires done <= profiles.Keys && GaveBack(ls, vs, profiles, done) && p in done && NodeUsed(ls, p) < profiles[p]
    ensures LeftBehind(ls, vs, profiles)
  {
    hide GaveBack, NodeUsed;
  }

  lemma NotReleasable(ls: seq<Ledger>, profiles: Counts, p: ProfileName)
    requires p in profiles && NodeUsed(ls, p) < profiles[p]
    ensures !Releasable(ls, profiles)
  {
  }

  lemma GaveConserves(ls: seq<Ledger>, vs: seq<Ledger>, profiles: Counts, done: set<ProfileName>)
    requires done <= profiles.Keys && GaveBack(ls, vs, profiles, done)
    ensures Conserved(ls, vs)
  {
    hide Taken;
  }

  /** Releasing one more profile on top of `done` others: the others do not change what this one finds in use. */
  lemma GaveMore(
    ls: seq<Ledger>, vs: seq<Ledger>, ws: seq<Ledger>, profiles: Counts, done: set<ProfileName>, p: ProfileName)
    requires done <= profiles.Keys && p in profiles && p !in done
    requires GaveBack(ls, vs, profiles, done) && GaveBack(vs, ws, map[p := profiles[p]], {p})
    ensures GaveBack(ls, ws, profiles, done + {p})
    ensures NodeUsed(vs, p) == NodeUsed(ls, p)
  {
    hide Taken;
    UsedSumSame(ls, vs, profiles, done, |ls|, p);
    forall i {:trigger ws[i]} | 0 <= i < |ls|
      ensures ws[i].index == ls[i].index && ws[i].allowed == ls[i].allowed
      ensures forall q ::
                && Get(ws[i].used, q) == Get(ls[i].used, q)
                   - (if q in done + {p} then Taken(ls, profiles[q], i, q) else 0)
                && Get(ws[i].free, q) == Get(ls[i].free, q)
                   + (if q in done + {p} then Taken(ls, profiles[q], i, q) else 0)
    {
      TakenSame(ls, vs, profiles, done, i, p);
      assert vs[i].index == ls[i].index;
    }
  }

  lemma TakenSame(ls: seq<Ledger>, vs: seq<Ledger>, profiles: Counts, done: set<ProfileName>, i: nat, p: ProfileName)
    requires done <= profiles.Keys && p in profiles && p !in done && GaveBack(ls, vs, profiles, done) && i < |ls|
    ensures Taken(vs, profiles[p], i, p) == Taken(ls, profiles[p], i, p)
  {
    UsedSumSame(ls, vs, profiles, done, i, p);
    assert vs[i].index == ls[i].index;
  }

  lemma {:induction false} UsedSumSame(
    ls: seq<Ledger>, vs: seq<Ledger>, profiles: Counts, done: set<ProfileName>, n: nat, p: ProfileName)
    requires done <= profiles.Keys && p !in done && GaveBack(ls, vs, profiles, done) && n <= |ls|
    ensures UsedSum(vs, n, p) == UsedSum(ls, n, p)
  {
    hide Taken;
    if n > 0 {
      UsedSumSame(ls, vs, profiles, done, n - 1, p);
    }
  }

  lemma GaveAll(ls: seq<Ledger>, vs: seq<Ledger>, profiles: Counts)
    requires ValidLedgers(ls) && ValidLedgers(vs) && NonNegative(profiles)
    requires GaveBack(ls, vs, profiles, profiles.Keys)
    requires forall p | p in profiles :: NodeUsed(ls, p) >= profiles[p]
    ensures Releasable(ls, profiles) && vs == Released(ls, profiles)
  {
    hide Taken, Released;
    var rs := Released(ls, profiles);
    ReleasedConserves(ls, profiles);
    forall i | 0 <= i < |ls| ensures vs[i] == rs[i] {
      ReleasedKeepsIdentity(ls, profiles, i);
      forall p ensures Get(vs[i].used, p) == Get(rs[i].used, p) && Get(vs[i].free, p) == Get(rs[i].free, p) {
        GiveBackCounts(ls, profiles, i, p);
      }
      PositiveSame(vs[i].used, rs[i].used);
      PositiveSame(vs[i].free, rs[i].free);
    }
  }

  lemma ReleasedKeepsIdentity(ls: seq<Ledger>, profiles: Counts, i: nat)
    requires i < |ls|
    ensures Released(ls, profiles)[i].index == ls[i].index && Released(ls, profiles)[i].allowed == ls[i].allowed
  {
  }

  method GeometryOf(g: GPU, ghost l: Ledger) returns (r: Counts)
    requires g.Valid() && g.View() == l
    ensures forall p :: Get(r, p) == Get(l.used, p) + Get(l.free, p)
  {
    r := g.GetGeometry();
  }

  lemma FreeOf(g: GPU)
    ensures forall p :: Get(g.free, p) == Get(g.View().free, p) && Get(g.used, p) == Get(g.View().used, p)
  {
  }

  lemma SumsStart(ls: seq<Ledger>)
    ensures forall p :: UsedSum(ls, 0, p) == 0 && FreeSum(ls, 0, p) == 0
  {
  }

  lemma SumsStep(ls: seq<Ledger>, i: nat, p: ProfileName)
    requires i < |ls|
    ensures UsedSum(ls, i + 1, p) == UsedSum(ls, i, p) + Get(ls[i].used, p)
    ensures FreeSum(ls, i + 1, p) == FreeSum(ls, i, p) + Get(ls[i].free, p)
  {
  }

  /** One profile on one GPU: a GPU without such devices in use is skipped, and the others never refuse. */
  method GiveFrom(g: GPU, p: ProfileName, wanted: int) returns (available: bool, remaining: int)
    requires g.Valid() && wanted >= 0
    modifies g
    ensures available <==> Get(old(g.View()).used, p) != 0
    ensures g.Valid() && Gave(old(g.View()), g.View(), p, Min(Get(old(g.View()).used, p), wanted))
    ensures remaining == wanted - Min(Get(old(g.View()).used, p), wanted)
  {
    FreeOf(g);
    available, remaining := Get(g.used, p) != 0, wanted;
    if available {
      var toRelease := Min(Get(g.used, p), wanted);
      var ok := g.ReleaseProfiles(map[p := toRelease]);
      assert ok;
      remaining := wanted - toRelease;
    }
  }

  method AddAll(a: Counts, b: Counts) returns (r: Counts)
    ensures forall p :: Get(r, p) == Get(a, p) + Get(b, p)
  {
    r := a;
    var todo := b.Keys;
    while todo != {}
      invariant todo <= b.Keys
      invariant forall p :: Get(r, p) == Get(a, p) + if p in todo then 0 else Get(b, p)
    {
      var p :| p in todo;
      todo := todo - {p};
      r := r[p := Get(r, p) + b[p]];
    }
  }

  lemma UsedSumStep(ls: seq<Ledger>, i: nat, p: ProfileName)
    requires ValidLedgers(ls) && i <= |ls|
    ensures UsedSum(ls, 0, p) == 0
    ensures i < |ls| ==> UsedSum(ls, i + 1, p) == UsedSum(ls, i, p) + Get(ls[i].used, p)
    ensures UsedSum(ls, i, p) >= 0
  {
    FreeSumNonNegative(ls, i, p);
  }

  /** One turn of the loop: update a GPU, then set its free devices against the request. */
  method Visit(g: GPU, required: Counts) returns (changed: bool, rest: Counts)
    requires g.Valid()
    modifies g
    ensures g.Valid() && g.View() == UpdateFor(old(g.View()), Demand(required))
    ensures changed <==> g.View() != old(g.View())
    ensures Demand(rest) == Residual(Demand(required), g.View().free)
  {
    hide UpdateFor, Residual, Demand;
    OnlyDemandMatters(g.View(), required);
    changed := g.UpdateGeometryFor(required);
    rest := Subtract(required, g.free);
  }

  lemma EmptyWalk(ls: seq<Ledger>, slices: Counts)
    requires ValidLedgers(ls) && (ls == [] || slices == map[])
    ensures NodeUpdate(ls, slices) == ls
  {
    hide Walk;
    if ls != [] {
      assert Demand(slices) == map[];
      forall i | 0 <= i < |ls| ensures NodeUpdate(ls, slices)[i] == ls[i] {
        NothingRequired(ls, i);
      }
    }
  }

  lemma WalkStarts(ls: seq<Ledger>, demand: Counts)
    requires ValidLedgers(ls) && Positive(demand)
    ensures Outstanding(ls, demand, 0) == demand
  {
  }

  lemma StepOf(ls: seq<Ledger>, slices: Counts, i: nat)
    requires ValidLedgers(ls) && i < |ls|
    ensures NodeUpdate(ls, slices)[i] == UpdateFor(ls[i], Outstanding(ls, Demand(slices), i))
    ensures Positive(NodeUpdate(ls, slices)[i].free)
    ensures Outstanding(ls, Demand(slices), i + 1)
            == Residual(Outstanding(ls, Demand(slices), i), NodeUpdate(ls, slices)[i].free)
  {
    WalkAt(ls, Demand(slices), i);
  }
}
