/** A GPU shared by memory slices: create from spare memory, delete the free slices and try again, restore. */
module Slicing {
  import opened GoMaps
  import opened Lists
  import opened Text

  type SliceName = string
  type Slices = map<SliceName, int>

  const PROFILE_PREFIX := "nvidia.com/gpu-"
  const MIN_SLICE_GB := 1

  // ----- names and sizes -----

  function NewProfile(size: int): SliceName {
    Itoa(size) + "gb"
  }

  function SizeOf(p: SliceName): (size: int)
    ensures IsInt(size)
  {
    var text := TrimSuffix(TrimPrefix(p, PROFILE_PREFIX), "gb");
    if Atoi(text).Some? then Atoi(text).value else 0
  }

  /** The size of a printed profile is read back. */
  lemma SizeRoundTrip(size: int)
    requires IsInt(size)
    ensures SizeOf(NewProfile(size)) == size
  {
    hide Atoi, Digits;
    var p := NewProfile(size);
    assert p[0] == Itoa(size)[0];
    assert p[0] == '-' || IsDigit(p[0]);
    assert PROFILE_PREFIX[0] == 'n';
    assert p[..|p| - 2] == Itoa(size) && p[|p| - 2..] == "gb";
    AtoiItoa(size);
  }

  /** The size is read from resource names as well. */
  lemma SizeOfResource(size: int)
    requires IsInt(size)
    ensures SizeOf("nvidia.com/gpu-" + NewProfile(size)) == size
  {
    hide Atoi, Digits;
    var p := NewProfile(size);
    assert ("nvidia.com/gpu-" + p)[|PROFILE_PREFIX|..] == p;
    assert p[..|p| - 2] == Itoa(size) && p[|p| - 2..] == "gb";
    AtoiItoa(size);
  }

  /** A name as it is printed, and the smallest size that is accepted. */
  lemma SizesInNames()
    ensures NewProfile(10) == "10gb"
    ensures LargeEnough(map[NewProfile(1) := 1]) && !LargeEnough(map[NewProfile(0) := 1])
  {
    assert NewProfile(10) == "10gb" by { DecimalNotation(1, 0); DecimalNotation(0, 1); }
    hide SizeOf, NewProfile;
    SizeRoundTrip(1);
    SizeRoundTrip(0);
    assert NewProfile(0) in map[NewProfile(0) := 1];
  }

  /** A profile that is named as it would be printed. */
  predicate Canonical(p: SliceName) {
    NewProfile(SizeOf(p)) == p
  }

  lemma NewProfilesAreCanonical(p: SliceName)
    ensures Canonical(NewProfile(SizeOf(p))) && SizeOf(NewProfile(SizeOf(p))) == SizeOf(p)
  {
    hide SizeOf, NewProfile;
    SizeRoundTrip(SizeOf(p));
  }

  // ----- memory -----

  ghost function Weights(m: Slices): Slices {
    map p | p in m :: SizeOf(p) * m[p]
  }

  ghost function Mem(m: Slices): int {
    Total(Weights(m))
  }

  lemma MemUpdate(m: Slices, p: SliceName, v: int)
    ensures Mem(m[p := v]) == Mem(m) - SizeOf(p) * Get(m, p) + SizeOf(p) * v
  {
    hide SizeOf, Total;
    assert Weights(m[p := v]) == Weights(m)[p := SizeOf(p) * v];
    TotalUpdate(Weights(m), p, SizeOf(p) * v);
  }

  lemma MemRemove(m: Slices, p: SliceName)
    requires p in m
    ensures Mem(m - {p}) == Mem(m) - SizeOf(p) * m[p]
  {
    hide SizeOf, Total;
    assert Weights(m - {p}) == Weights(m) - {p};
    TotalRemove(Weights(m), p);
  }

  lemma MemAdd(m: Slices, p: SliceName, n: int)
    ensures Mem(m[p := Get(m, p) + n]) == Mem(m) + SizeOf(p) * n
  {
    hide SizeOf, Mem;
    MemUpdate(m, p, Get(m, p) + n);
    Distributes(SizeOf(p), Get(m, p), n);
  }

  lemma Distributes(a: int, b: int, c: int)
    ensures a * (b + c) == a * b + a * c
  {
  }

  lemma TimesNonNegative(a: int, b: int)
    requires a >= 0 && b >= 0
    ensures a * b >= 0
  {
  }

  predicate LargeEnough(m: Slices) {
    forall p | p in m :: SizeOf(p) >= MIN_SLICE_GB
  }

  /** Slices of at least the minimal size, in non-negative quantities. */
  ghost predicate Sound(m: Slices) {
    forall p | p in m :: SizeOf(p) >= MIN_SLICE_GB && m[p] >= 0
  }

  /** Deleting slices does not take more memory. */
  lemma {:induction false} MemShrinks(m: Slices, gone: set<SliceName>)
    requires Sound(m)
    ensures Sound(m - gone) && Mem(m - gone) <= Mem(m)
    decreases |gone|
  {
    hide SizeOf, Mem;
    if p :| p in gone {
      MemShrinks(m, gone - {p});
      var rest := m - (gone - {p});
      assert m - gone == rest - {p};
      if p in rest {
        MemRemove(rest, p);
        TimesNonNegative(SizeOf(p), rest[p]);
      } else {
        assert m - gone == rest;
      }
    } else {
      assert m - gone == m;
    }
  }

  // ----- one turn of the allocator, on values; `budget` is the memory that used slices leave -----

  /** As many of `wanted` slices as the spare memory holds. */
  ghost predicate Fits(n: int, wanted: int, size: int, spare: int) {
    && 0 <= n <= Max(0, wanted)
    && (n > 0 ==> size * n <= spare)
    && (n < wanted ==> spare < size * (n + 1))
  }

  ghost function Grown(free: Slices, size: int, n: int): Slices {
    if n <= 0 then free else free[NewProfile(size) := Get(free, NewProfile(size)) + n]
  }

  /** `createSlices`, whose error is ignored. */
  ghost function Tried(free: Slices, budget: int, size: int, n: int): Slices {
    if budget - Mem(free) < size * n then free else free[NewProfile(size) := Get(free, NewProfile(size)) + n]
  }

  /** The original slices are restored in some order, each profile as a whole or not at all. */
  ghost function Restored(free: Slices, budget: int, order: seq<SliceName>, original: Slices): Slices
    requires forall p | p in order :: p in original
  {
    if order == [] then free else
      var p := order[|order| - 1];
      Tried(Restored(free, budget, order[..|order| - 1], original), budget, SizeOf(p), original[p])
  }

  ghost predicate OrderOf(order: seq<SliceName>, keys: set<SliceName>) {
    NoDup(order) && forall p :: p in order <==> p in keys
  }

  /** What one missing profile does to the free slices. */
  datatype Turn = Turn(profile: SliceName, fromSpare: int, fromFreed: int, order: seq<SliceName>, after: Slices)

  ghost predicate IsTurn(budget: int, original: Slices, missing: int, before: Slices, t: Turn) {
    var size := SizeOf(t.profile);
    var kept := Grown(before, size, t.fromSpare) - original.Keys;
    && Fits(t.fromSpare, missing, size, budget - Mem(before))
    && Fits(t.fromFreed, missing - t.fromSpare, size, budget - Mem(kept))
    && OrderOf(t.order, original.Keys)
    && t.after == Restored(Grown(kept, size, t.fromFreed), budget, t.order, original)
  }

  ghost function Before(original: Slices, turns: seq<Turn>, i: nat): Slices
    requires i <= |turns|
  {
    if i == 0 then original else turns[i - 1].after
  }

  ghost predicate AreTurns(budget: int, original: Slices, missing: Slices, turns: seq<Turn>) {
    forall i | 0 <= i < |turns| ::
      && turns[i].profile in missing
      && IsTurn(budget, original, missing[turns[i].profile], Before(original, turns, i), turns[i])
  }

  ghost function Missing(free: Slices, required: Slices): Slices {
    map p | p in required && required[p] - Get(free, p) > 0 :: required[p] - Get(free, p)
  }

  /** Each missing profile has one turn, smaller slices first. */
  ghost predicate InOrder(turns: seq<Turn>, missing: Slices) {
    && (forall i, j | 0 <= i < j < |turns| ::
          turns[i].profile != turns[j].profile && SizeOf(turns[i].profile) <= SizeOf(turns[j].profile))
    && forall p :: p in missing <==> exists i :: 0 <= i < |turns| && turns[i].profile == p
  }

  ghost predicate Created(t: Turn) {
    t.fromSpare > 0 || t.fromFreed > 0
  }

  ghost predicate AnyCreated(turns: seq<Turn>) {
    exists i :: 0 <= i < |turns| && Created(turns[i])
  }

  // ----- memory is never exceeded -----

  lemma GrownKeeps(free: Slices, p: SliceName, n: int, wanted: int, budget: int)
    requires Sound(free) && Mem(free) <= budget && SizeOf(p) >= MIN_SLICE_GB
    requires Fits(n, wanted, SizeOf(p), budget - Mem(free))
    ensures Sound(Grown(free, SizeOf(p), n)) && Mem(Grown(free, SizeOf(p), n)) <= budget
  {
    hide SizeOf, NewProfile, Mem;
    NewProfilesAreCanonical(p);
    MemAdd(free, NewProfile(SizeOf(p)), n);
  }

  lemma {:induction false} RestoredKeeps(free: Slices, budget: int, order: seq<SliceName>, original: Slices)
    requires Sound(free) && Mem(free) <= budget && Sound(original) && forall p | p in order :: p in original
    ensures Sound(Restored(free, budget, order, original)) && Mem(Restored(free, budget, order, original)) <= budget
    ensures forall q :: Get(Restored(free, budget, order, original), q) >= Get(free, q)
  {
    hide SizeOf, NewProfile, Mem;
    if order != [] {
      var n := |order| - 1;
      var p, rest := order[n], Restored(free, budget, order[..n], original);
      assert p in order;
      RestoredKeeps(free, budget, order[..n], original);
      NewProfilesAreCanonical(p);
      MemAdd(rest, NewProfile(SizeOf(p)), original[p]);
    }
  }

  lemma TurnKeeps(budget: int, original: Slices, missing: int, before: Slices, t: Turn)
    requires IsTurn(budget, original, missing, before, t)
    requires Sound(original) && Sound(before) && Mem(before) <= budget && SizeOf(t.profile) >= MIN_SLICE_GB
    ensures Sound(t.after) && Mem(t.after) <= budget
  {
    hide SizeOf, Mem, Grown, Sound, Fits;
    var size := SizeOf(t.profile);
    var grown := Grown(before, size, t.fromSpare);
    GrownKeeps(before, t.profile, t.fromSpare, missing, budget);
    MemShrinks(grown, original.Keys);
    GrownKeeps(grown - original.Keys, t.profile, t.fromFreed, missing - t.fromSpare, budget);
    RestoredKeeps(Grown(grown - original.Keys, size, t.fromFreed), budget, t.order, original);
  }

  /** After every turn the slices are large enough, and with the used ones within the memory of the GPU. */
  lemma {:induction false} TurnsKeep(budget: int, original: Slices, missing: Slices, turns: seq<Turn>, i: nat)
    requires AreTurns(budget, original, missing, turns) && i <= |turns|
    requires Sound(original) && Mem(original) <= budget && forall p | p in missing :: SizeOf(p) >= MIN_SLICE_GB
    ensures Sound(Before(original, turns, i)) && Mem(Before(original, turns, i)) <= budget
  {
    hide IsTurn, SizeOf, Mem;
    if i > 0 {
      TurnsKeep(budget, original, missing, turns, i - 1);
      TurnKeeps(budget, original, missing[turns[i - 1].profile], Before(original, turns, i - 1), turns[i - 1]);
    }
  }

  // ----- when nothing is created -----

  ghost predicate CanonicalSlices(m: Slices) {
    forall p | p in m && m[p] != 0 :: Canonical(p)
  }

  ghost predicate Same(a: Slices, b: Slices) {
    forall p :: Get(a, p) == Get(b, p)
  }

  lemma MemSame(a: Slices, b: Slices)
    requires Same(a, b)
    ensures Mem(a) == Mem(b)
  {
    hide SizeOf, Total;
    forall p ensures Get(Weights(a), p) == Get(Weights(b), p) {
      assert Get(a, p) == Get(b, p);
      assert Get(Weights(a), p) == SizeOf(p) * Get(a, p) && Get(Weights(b), p) == SizeOf(p) * Get(b, p);
    }
    TotalSame(Weights(a), Weights(b));
  }

  ghost function Only(m: Slices, keys: seq<SliceName>): Slices {
    map p | p in m && p in keys :: m[p]
  }

  lemma OnlyOneMore(m: Slices, keys: seq<SliceName>, n: nat)
    requires n < |keys| && NoDup(keys) && keys[n] in m
    ensures keys[n] !in Only(m, keys[..n])
    ensures Only(m, keys[..n + 1]) == Only(m, keys[..n])[keys[n] := m[keys[n]]]
    ensures Mem(Only(m, keys[..n + 1])) == Mem(Only(m, keys[..n])) + SizeOf(keys[n]) * m[keys[n]]
  {
    hide SizeOf, Mem;
    var less := Only(m, keys[..n]);
    assert keys[n] !in keys[..n];
    assert Only(m, keys[..n + 1]) == less[keys[n] := m[keys[n]]];
    MemUpdate(less, keys[n], m[keys[n]]);
  }

  lemma OnlyAtMost(m: Slices, keys: seq<SliceName>)
    requires Sound(m)
    ensures Mem(Only(m, keys)) <= Mem(m)
  {
    hide SizeOf, Mem;
    var gone := set p | p in m && p !in keys;
    assert Only(m, keys) == m - gone;
    MemShrinks(m, gone);
  }

  lemma TriedFits(rest: Slices, only: Slices, budget: int, p: SliceName, v: int)
    requires Same(rest, only) && p !in only && Mem(only) + SizeOf(p) * v <= budget
    requires v != 0 ==> Canonical(p)
    ensures Same(Tried(rest, budget, SizeOf(p), v), only[p := v])
  {
    MemSame(rest, only);
    hide SizeOf, NewProfile, Mem;
    forall q ensures Get(Tried(rest, budget, SizeOf(p), v), q) == Get(only[p := v], q) {
      assert Get(rest, q) == Get(only, q) && Get(rest, NewProfile(SizeOf(p))) == Get(only, NewProfile(SizeOf(p)));
    }
  }

  /** Canonical original slices all come back to those of them that are there already. */
  lemma {:induction false} RestoresRest(
    free: Slices, budget: int, done: seq<SliceName>, order: seq<SliceName>, n: nat, original: Slices)
    requires n <= |order| && NoDup(done + order) && forall p | p in done + order :: p in original
    requires Same(free, Only(original, done)) && Sound(original) && Mem(original) <= budget && CanonicalSlices(original)
    ensures (forall p | p in order :: p in original)
    ensures Same(Restored(free, budget, order[..n], original), Only(original, done + order[..n]))
  {
    hide SizeOf, NewProfile, Mem, Tried, Canonical, Same;
    var keys := done + order;
    assert forall p | p in order :: p in keys;
    if n == 0 {
      assert done + order[..0] == done;
    } else {
      RestoresRest(free, budget, done, order, n - 1, original);
      var p, m := order[n - 1], |done| + n - 1;
      assert p in order && order[..n][..n - 1] == order[..n - 1];
      assert keys[m] == p && keys[..m] == done + order[..n - 1] && keys[..m + 1] == done + order[..n];
      OnlyOneMore(original, keys, m);
      OnlyAtMost(original, keys[..m + 1]);
      TriedFits(Restored(free, budget, order[..n - 1], original), Only(original, keys[..m]), budget, p, original[p]);
    }
  }

  /** From empty free slices, canonical original ones all come back. */
  lemma RestoresAll(free: Slices, budget: int, order: seq<SliceName>, original: Slices)
    requires OrderOf(order, original.Keys)
    requires Same(free, map[]) && Sound(original) && Mem(original) <= budget && CanonicalSlices(original)
    ensures Same(Restored(free, budget, order, original), original)
  {
    hide SizeOf, Mem, Restored, Canonical, Same;
    assert [] + order == order && order[..|order|] == order;
    assert Only(original, []) == map[] && Only(original, order) == original;
    RestoresRest(free, budget, [], order, |order|, original);
  }

  lemma IdleTurnRestores(budget: int, original: Slices, missing: int, before: Slices, t: Turn)
    requires IsTurn(budget, original, missing, before, t) && !Created(t)
    requires Sound(original) && Mem(original) <= budget && CanonicalSlices(original) && Same(before, original)
    ensures Same(t.after, original)
  {
    hide SizeOf, Mem, Restored, Canonical;
    var kept := before - original.Keys;
    forall p ensures Get(kept, p) == 0 {
      assert Get(before, p) == Get(original, p);
    }
    RestoresAll(kept, budget, t.order, original);
  }

  lemma {:induction false} IdleTurnsRestore(budget: int, original: Slices, missing: Slices, turns: seq<Turn>, i: nat)
    requires AreTurns(budget, original, missing, turns) && i <= |turns|
    requires Sound(original) && Mem(original) <= budget && CanonicalSlices(original)
    requires forall j | 0 <= j < |turns| :: !Created(turns[j])
    ensures Same(Before(original, turns, i), original)
  {
    hide IsTurn, SizeOf, Mem, Canonical;
    if i > 0 {
      IdleTurnsRestore(budget, original, missing, turns, i - 1);
      IdleTurnRestores(budget, original, missing[turns[i - 1].profile], Before(original, turns, i - 1), turns[i - 1]);
    }
  }

  lemma {:induction false} RestoredNames(
    free: Slices, budget: int, order: seq<SliceName>, original: Slices, q: SliceName)
    requires forall p | p in order :: p in original
    requires q !in free && !Canonical(q)
    ensures q !in Restored(free, budget, order, original)
  {
    hide SizeOf, NewProfile, Mem;
    if order != [] {
      RestoredNames(free, budget, order[..|order| - 1], original, q);
      NewProfilesAreCanonical(order[|order| - 1]);
    }
  }

  /** A free profile under another name than its printed one is deleted in the first turn for good. */
  lemma OddNameIsLost(budget: int, original: Slices, missing: int, before: Slices, t: Turn, q: SliceName)
    requires IsTurn(budget, original, missing, before, t) && q in original && !Canonical(q)
    ensures q !in t.after
  {
    hide SizeOf, NewProfile, Mem, Restored, Fits;
    NewProfilesAreCanonical(t.profile);
    var kept := Grown(before, SizeOf(t.profile), t.fromSpare) - original.Keys;
    RestoredNames(Grown(kept, SizeOf(t.profile), t.fromFreed), budget, t.order, original, q);
  }

  /** A search that creates nothing leaves the original free slices exactly if they are named canonically. */
  lemma FalseRestoresExactlyWhen(budget: int, original: Slices, missing: Slices, turns: seq<Turn>)
    requires AreTurns(budget, original, missing, turns) && turns != []
    requires Sound(original) && Mem(original) <= budget
    requires forall j | 0 <= j < |turns| :: !Created(turns[j])
    ensures Same(Before(original, turns, |turns|), original) <==> CanonicalSlices(original)
  {
    hide IsTurn, SizeOf, Mem, Canonical;
    var last := |turns| - 1;
    if CanonicalSlices(original) {
      IdleTurnsRestore(budget, original, missing, turns, |turns|);
    } else {
      var q :| q in original && original[q] != 0 && !Canonical(q);
      OddNameIsLost(budget, original, missing[turns[last].profile], Before(original, turns, last), turns[last], q);
      assert Get(turns[last].after, q) != Get(original, q);
    }
  }

  // ----- when something is created -----

  /** Slices whose name no original free slice has are never deleted again. */
  lemma TurnKeepsOthers(budget: int, original: Slices, missing: int, before: Slices, t: Turn, q: SliceName)
    requires IsTurn(budget, original, missing, before, t) && q !in original
    requires Sound(original) && Sound(before) && Mem(before) <= budget && SizeOf(t.profile) >= MIN_SLICE_GB
    ensures Get(t.after, q) >= Get(before, q)
    ensures q == NewProfile(SizeOf(t.profile)) && Created(t) ==> Get(t.after, q) > Get(before, q)
  {
    hide SizeOf, NewProfile, Mem, Restored, Sound, Fits;
    var size := SizeOf(t.profile);
    var grown := Grown(before, size, t.fromSpare);
    GrownKeeps(before, t.profile, t.fromSpare, missing, budget);
    MemShrinks(grown, original.Keys);
    GrownKeeps(grown - original.Keys, t.profile, t.fromFreed, missing - t.fromSpare, budget);
    RestoredKeeps(Grown(grown - original.Keys, size, t.fromFreed), budget, t.order, original);
  }

  lemma {:induction false} OthersLast(
    budget: int, original: Slices, missing: Slices, turns: seq<Turn>, i: nat, j: nat, q: SliceName)
    requires AreTurns(budget, original, missing, turns) && i <= j <= |turns| && q !in original
    requires Sound(original) && Mem(original) <= budget && forall p | p in missing :: SizeOf(p) >= MIN_SLICE_GB
    ensures Get(Before(original, turns, j), q) >= Get(Before(original, turns, i), q)
    decreases j
  {
    hide IsTurn, SizeOf, Mem, Sound;
    if i < j {
      OthersLast(budget, original, missing, turns, i, j - 1, q);
      TurnsKeep(budget, original, missing, turns, j - 1);
      TurnKeepsOthers(budget, original, missing[turns[j - 1].profile], Before(original, turns, j - 1), turns[j - 1], q);
    }
  }

  /** A created slice lasts, so that the geometry does change, unless an original free slice has the same name. */
  lemma CreatedLasts(budget: int, original: Slices, missing: Slices, turns: seq<Turn>, i: nat)
    requires AreTurns(budget, original, missing, turns) && i < |turns| && Created(turns[i])
    requires Sound(original) && Mem(original) <= budget && forall p | p in missing :: SizeOf(p) >= MIN_SLICE_GB
    requires NewProfile(SizeOf(turns[i].profile)) !in original
    ensures Get(Before(original, turns, |turns|), NewProfile(SizeOf(turns[i].profile))) > 0
    ensures !Same(Before(original, turns, |turns|), original)
  {
    hide IsTurn, SizeOf, NewProfile, Mem, Sound;
    var q := NewProfile(SizeOf(turns[i].profile));
    OthersLast(budget, original, missing, turns, 0, i, q);
    TurnsKeep(budget, original, missing, turns, i);
    TurnKeepsOthers(budget, original, missing[turns[i].profile], Before(original, turns, i), turns[i], q);
    OthersLast(budget, original, missing, turns, i + 1, |turns|, q);
  }

  /** So success means a change if no missing profile has the name of an original free slice. */
  lemma NewNamesLast(budget: int, original: Slices, missing: Slices, turns: seq<Turn>)
    requires AreTurns(budget, original, missing, turns) && AnyCreated(turns)
    requires Sound(original) && Mem(original) <= budget && forall p | p in missing :: SizeOf(p) >= MIN_SLICE_GB
    requires forall p | p in missing :: NewProfile(SizeOf(p)) !in original
    ensures !Same(Before(original, turns, |turns|), original)
  {
    hide IsTurn, SizeOf, NewProfile, Mem, Sound, Same;
    var i :| 0 <= i < |turns| && Created(turns[i]);
    CreatedLasts(budget, original, missing, turns, i);
  }

  lemma TimesMonotone(a: int, b: int, c: int)
    requires a >= 0 && b <= c
    ensures a * b <= a * c
  {
  }

  /**
   * A single missing profile that the spare memory holds is created in full, and the geometry is unchanged in the end
   * exactly when the original free slices include that profile.
   */
  lemma SpareSlicesLastExactlyWhen(budget: int, original: Slices, missing: int, t: Turn)
    requires IsTurn(budget, original, missing, original, t) && SizeOf(t.profile) >= MIN_SLICE_GB
    requires Sound(original) && Mem(original) <= budget && CanonicalSlices(original)
    requires missing > 0 && SizeOf(t.profile) * missing <= budget - Mem(original)
    ensures Created(t)
    ensures Same(t.after, original) <==> NewProfile(SizeOf(t.profile)) in original
  {
    hide SizeOf, NewProfile, Mem, Restored, Sound, Canonical;
    var size := SizeOf(t.profile);
    if t.fromSpare < missing {
      TimesMonotone(size, t.fromSpare + 1, missing);
      assert false;
    }
    if NewProfile(size) in original {
      assert Grown(original, size, t.fromSpare) - original.Keys == map[];
      RestoresAll(map[], budget, t.order, original);
    } else {
      TurnKeepsOthers(budget, original, missing, original, t, NewProfile(size));
      assert Get(t.after, NewProfile(size)) != Get(original, NewProfile(size));
    }
  }

  /** The `i`th profile to be restored fits in the memory that is left when its turn comes. */
  ghost predicate ComesBack(free: Slices, budget: int, order: seq<SliceName>, original: Slices, i: int)
    requires forall p | p in order :: p in original
  {
    && 0 <= i < |order|
    && SizeOf(order[i]) * original[order[i]] <= budget - Mem(Restored(free, budget, order[..i], original))
  }

  ghost predicate IsRestored(free: Slices, budget: int, order: seq<SliceName>, original: Slices, n: nat, p: SliceName)
    requires n <= |order| && forall p | p in order :: p in original
  {
    exists i :: 0 <= i < n && order[i] == p && ComesBack(free, budget, order, original, i)
  }

  /** Restoring adds to a profile its original quantity if it fits in its turn, and nothing otherwise. */
  lemma {:induction false} RestoredCount(
    free: Slices, budget: int, order: seq<SliceName>, original: Slices, n: nat, q: SliceName)
    requires n <= |order| && NoDup(order) && (forall p | p in order :: p in original) && CanonicalSlices(original)
    ensures Get(Restored(free, budget, order[..n], original), q)
            == Get(free, q) + if IsRestored(free, budget, order, original, n, q) then Get(original, q) else 0
  {
    hide SizeOf, NewProfile, Mem;
    if n > 0 {
      RestoredCount(free, budget, order, original, n - 1, q);
      var p := order[n - 1];
      assert p in order && order[..n][..n - 1] == order[..n - 1];
      assert original[p] != 0 ==> NewProfile(SizeOf(p)) == p;
      assert IsRestored(free, budget, order, original, n, q)
        <==> IsRestored(free, budget, order, original, n - 1, q)
             || (q == p && ComesBack(free, budget, order, original, n - 1));
      assert q == p ==> !IsRestored(free, budget, order, original, n - 1, q);
    }
  }

  /** The free slices of a turn just before the original ones are restored. */
  ghost function Unrestored(original: Slices, before: Slices, t: Turn): Slices {
    Grown(Grown(before, SizeOf(t.profile), t.fromSpare) - original.Keys, SizeOf(t.profile), t.fromFreed)
  }

  /** Nothing is there under a name that no original free slice has. */
  ghost predicate NothingNew(original: Slices, free: Slices) {
    forall q | q !in original :: Get(free, q) == 0
  }

  /**
   * What makes a turn end on the original free slices, whatever came before it: nothing under a new name, and either
   * nothing was created from the freed memory, or just the original number of that profile was, which then did not fit
   * a second time while all the others did.
   */
  ghost predicate EndsUnchanged(budget: int, original: Slices, before: Slices, t: Turn)
    requires forall p | p in t.order :: p in original
  {
    var free, name := Unrestored(original, before, t), NewProfile(SizeOf(t.profile));
    && NothingNew(original, free)
    && (t.fromFreed == 0
        || (t.fromFreed == Get(original, name)
            && forall p | p in original && original[p] != 0 ::
                 IsRestored(free, budget, t.order, original, |t.order|, p) <==> p != name))
  }

  lemma UnrestoredCount(original: Slices, before: Slices, t: Turn, q: SliceName)
    requires t.fromFreed >= 0 && q in original
    ensures Get(Unrestored(original, before, t), q) == if q == NewProfile(SizeOf(t.profile)) then t.fromFreed else 0
  {
    hide SizeOf, NewProfile;
  }

  lemma NewNameShows(original: Slices, before: Slices, t: Turn)
    requires Sound(before) && t.fromSpare >= 0 && t.fromFreed > 0 && NewProfile(SizeOf(t.profile)) !in original
    ensures Get(Unrestored(original, before, t), NewProfile(SizeOf(t.profile))) > 0
  {
    hide SizeOf, NewProfile;
  }

  /** A turn ends on the original free slices exactly then. */
  lemma UnchangedExactlyWhen(budget: int, original: Slices, missing: int, before: Slices, t: Turn)
    requires IsTurn(budget, original, missing, before, t)
    requires Sound(before) && Sound(original) && Mem(original) <= budget && CanonicalSlices(original)
    ensures Same(t.after, original) <==> EndsUnchanged(budget, original, before, t)
  {
    hide SizeOf, NewProfile, Mem, Restored, Unrestored, IsRestored, Sound, Canonical;
    var free, name, n := Unrestored(original, before, t), NewProfile(SizeOf(t.profile)), |t.order|;
    forall q
      ensures Get(t.after, q)
              == Get(free, q) + if IsRestored(free, budget, t.order, original, n, q) then Get(original, q) else 0
      ensures q in original ==> Get(free, q) == if q == name then t.fromFreed else 0
    {
      TurnCount(budget, original, missing, before, t, q);
      if q in original {
        UnrestoredCount(original, before, t, q);
      }
    }
    if t.fromFreed > 0 && name !in original {
      NewNameShows(original, before, t);
    }
    if t.fromFreed == 0 && NothingNew(original, free) {
      AllComeBack(budget, original, missing, before, t);
    }
    if Same(t.after, original) {
      forall q | q !in original ensures Get(free, q) == 0 {
        assert Get(t.after, q) == Get(original, q);
      }
      if t.fromFreed > 0 {
        assert Get(t.after, name) == Get(original, name);
        forall p | p in original && original[p] != 0
          ensures IsRestored(free, budget, t.order, original, n, p) <==> p != name
        {
          assert Get(t.after, p) == Get(original, p);
        }
      }
    }
    if EndsUnchanged(budget, original, before, t) && t.fromFreed > 0 {
      forall q ensures Get(t.after, q) == Get(original, q) {
        assert q !in original ==> Get(free, q) == 0;
      }
    }
  }

  lemma AllComeBack(budget: int, original: Slices, missing: int, before: Slices, t: Turn)
    requires IsTurn(budget, original, missing, before, t) && t.fromFreed == 0
    requires Sound(original) && Mem(original) <= budget && CanonicalSlices(original)
    requires NothingNew(original, Unrestored(original, before, t))
    ensures Same(t.after, original)
  {
    hide SizeOf, NewProfile, Mem, Restored, Unrestored, Sound, Canonical;
    var free := Unrestored(original, before, t);
    forall q ensures Get(free, q) == 0 {
      if q in original {
        UnrestoredCount(original, before, t, q);
      }
    }
    RestoresAll(free, budget, t.order, original);
    TurnAfter(budget, original, missing, before, t);
  }

  lemma TurnAfter(budget: int, original: Slices, missing: int, before: Slices, t: Turn)
    requires IsTurn(budget, original, missing, before, t)
    ensures t.after == Restored(Unrestored(original, before, t), budget, t.order, original)
  {
    hide SizeOf, Mem, Restored;
  }

  lemma TurnCount(budget: int, original: Slices, missing: int, before: Slices, t: Turn, q: SliceName)
    requires IsTurn(budget, original, missing, before, t) && CanonicalSlices(original)
    ensures var free := Unrestored(original, before, t);
            && Get(t.after, q)
               == Get(free, q)
                  + (if IsRestored(free, budget, t.order, original, |t.order|, q) then Get(original, q) else 0)
            && (IsRestored(free, budget, t.order, original, |t.order|, q) ==> q in original)
  {
    hide SizeOf, Mem, Restored, Unrestored, ComesBack, Canonical;
    TurnAfter(budget, original, missing, before, t);
    assert t.order[..|t.order|] == t.order;
    RestoredCount(Unrestored(original, before, t), budget, t.order, original, |t.order|, q);
  }

  // ----- one missing profile: the condition, on the inputs alone -----

  /** How many slices fit. */
  ghost function Fitting(wanted: int, size: int, spare: int): int
    requires size > 0
  {
    if wanted <= 0 || spare < size then 0 else Min(wanted, spare / size)
  }

  lemma FitsIsFitting(n: int, wanted: int, size: int, spare: int)
    requires size > 0
    ensures Fits(n, wanted, size, spare) <==> n == Fitting(wanted, size, spare)
  {
    var k := Fitting(wanted, size, spare);
    FittingFits(wanted, size, spare);
    if Fits(n, wanted, size, spare) {
      if n < k {
        TimesMonotone(size, n + 1, k);
      } else if k < n {
        TimesMonotone(size, k + 1, n);
      }
    }
  }

  lemma FittingFits(wanted: int, size: int, spare: int)
    requires size > 0
    ensures Fits(Fitting(wanted, size, spare), wanted, size, spare)
  {
    if wanted > 0 && spare >= size {
      var q := spare / size;
      assert spare == size * q + spare % size;
      TimesMonotone(size, Min(wanted, q), q);
      assert size * (q + 1) == size * q + size;
    }
  }

  /**
   * Success without a change: the missing profile is an original one, and either the spare memory holds all that is
   * missing, or just the original number is created from the freed memory, which then does not fit a second time.
   */
  ghost predicate CanBeLost(budget: int, original: Slices, size: int, missing: int)
    requires size > 0
  {
    var name := NewProfile(size);
    var spare := Fitting(missing, size, budget - Mem(original));
    var freed := Fitting(missing - spare, size, budget);
    && name in original && spare + freed > 0
    && (freed == 0 || (freed == original[name] && size * freed > budget - Mem(original)))
  }

  ghost predicate Lost(budget: int, original: Slices, missing: int, t: Turn) {
    IsTurn(budget, original, missing, original, t) && Created(t) && Same(t.after, original)
  }

  lemma {:induction false} AnyOrder(keys: set<SliceName>) returns (order: seq<SliceName>)
    ensures OrderOf(order, keys)
    decreases |keys|
  {
    order := [];
    if keys != {} {
      var p := SomeIn(keys);
      order := AnyOrder(keys - {p});
      NoDupSnoc(order, p);
      order := order + [p];
    }
  }

  /** Restoring never takes memory away. */
  lemma {:induction false} RestoredGrows(free: Slices, budget: int, order: seq<SliceName>, original: Slices, i: nat)
    requires Sound(original) && i <= |order| && forall p | p in order :: p in original
    ensures Mem(Restored(free, budget, order[..i], original)) <= Mem(Restored(free, budget, order, original))
    decreases |order|
  {
    hide SizeOf, NewProfile, Mem;
    if i == |order| {
      assert order[..i] == order;
    } else {
      var n := |order| - 1;
      var p, rest := order[n], Restored(free, budget, order[..n], original);
      assert p in order && order[..n][..i] == order[..i];
      RestoredGrows(free, budget, order[..n], original, i);
      NewProfilesAreCanonical(p);
      MemAdd(rest, NewProfile(SizeOf(p)), original[p]);
      TimesNonNegative(SizeOf(p), original[p]);
    }
  }

  /** On an original name, the first pass is deleted again, and the second one has the whole budget. */
  lemma FirstTurn(budget: int, original: Slices, missing: int, t: Turn)
    requires IsTurn(budget, original, missing, original, t) && SizeOf(t.profile) > 0
    requires NewProfile(SizeOf(t.profile)) in original
    ensures t.fromSpare == Fitting(missing, SizeOf(t.profile), budget - Mem(original))
    ensures t.fromFreed == Fitting(missing - t.fromSpare, SizeOf(t.profile), budget)
    ensures t.fromSpare >= 0 && t.fromFreed >= 0
    ensures t.after == Restored(Grown(map[], SizeOf(t.profile), t.fromFreed), budget, t.order, original)
  {
    hide SizeOf, NewProfile, Mem, Restored, Fitting;
    var size := SizeOf(t.profile);
    assert Grown(original, size, t.fromSpare) - original.Keys == map[];
    NoMemory();
    FitsIsFitting(t.fromSpare, missing, size, budget - Mem(original));
    FitsIsFitting(t.fromFreed, missing - t.fromSpare, size, budget);
  }

  /** What is created under a name that no original slice has lasts. */
  lemma LostIsOriginal(budget: int, original: Slices, missing: int, t: Turn)
    requires Lost(budget, original, missing, t) && SizeOf(t.profile) >= MIN_SLICE_GB
    requires Sound(original) && Mem(original) <= budget
    ensures NewProfile(SizeOf(t.profile)) in original
  {
    hide SizeOf, NewProfile, Mem, IsTurn, Sound;
    var name := NewProfile(SizeOf(t.profile));
    if name !in original {
      TurnKeepsOthers(budget, original, missing, original, t, name);
      assert false;
    }
  }

  lemma LostMeans(budget: int, original: Slices, missing: int, t: Turn)
    requires Lost(budget, original, missing, t) && SizeOf(t.profile) >= MIN_SLICE_GB
    requires Sound(original) && Mem(original) <= budget && CanonicalSlices(original)
    ensures CanBeLost(budget, original, SizeOf(t.profile), missing)
  {
    hide SizeOf, NewProfile, Mem, IsTurn, Sound, Fitting, Restored, Canonical;
    LostIsOriginal(budget, original, missing, t);
    FirstTurn(budget, original, missing, t);
    if t.fromFreed != 0 {
      NotTwice(budget, original, missing, t);
    }
  }

  lemma NotTwice(budget: int, original: Slices, missing: int, t: Turn)
    requires Lost(budget, original, missing, t) && t.fromFreed != 0 && NewProfile(SizeOf(t.profile)) in original
    requires Sound(original) && Mem(original) <= budget && CanonicalSlices(original)
    ensures var name := NewProfile(SizeOf(t.profile));
            t.fromFreed == original[name] && SizeOf(t.profile) * original[name] > budget - Mem(original)
  {
    hide SizeOf, NewProfile, Mem, Sound, Fits, Restored, Unrestored, Canonical, IsRestored;
    var name, free := NewProfile(SizeOf(t.profile)), Unrestored(original, original, t);
    UnchangedExactlyWhen(budget, original, missing, original, t);
    assert original[name] != 0 && !IsRestored(free, budget, t.order, original, |t.order|, name);
    var i :| 0 <= i < |t.order| && t.order[i] == name;
    NotBack(free, budget, t.order, original, i);
    RestoredGrows(free, budget, t.order, original, i);
    TurnAfter(budget, original, missing, original, t);
    MemSame(t.after, original);
    NewProfilesAreCanonical(t.profile);
  }

  lemma NotBack(free: Slices, budget: int, order: seq<SliceName>, original: Slices, i: nat)
    requires i < |order| && forall p | p in order :: p in original
    requires !IsRestored(free, budget, order, original, |order|, order[i])
    ensures SizeOf(order[i]) * original[order[i]] > budget - Mem(Restored(free, budget, order[..i], original))
  {
    hide SizeOf, Mem, Restored;
  }

  /** A run that loses what it creates: the created profile is the last one to be restored. */
  lemma LostRun(budget: int, original: Slices, profile: SliceName, missing: int) returns (t: Turn)
    requires SizeOf(profile) >= MIN_SLICE_GB && CanBeLost(budget, original, SizeOf(profile), missing)
    requires Sound(original) && Mem(original) <= budget && CanonicalSlices(original)
    ensures t.profile == profile && Lost(budget, original, missing, t)
  {
    hide SizeOf, NewProfile, Mem, Sound, Fits, Fitting, Restored, Canonical, Same;
    var size := SizeOf(profile);
    var name := NewProfile(size);
    var spare := Fitting(missing, size, budget - Mem(original));
    var freed := Fitting(missing - spare, size, budget);
    var others := AnyOrder(original.Keys - {name});
    NoDupSnoc(others, name);
    var order := others + [name];
    var free := Grown(map[], size, freed);
    t := Turn(profile, spare, freed, order, Restored(free, budget, order, original));
    assert Grown(original, size, spare) - original.Keys == map[];
    NoMemory();
    FitsIsFitting(spare, missing, size, budget - Mem(original));
    FitsIsFitting(freed, missing - spare, size, budget);
    if freed == 0 {
      assert Same(free, map[]) by { SameItself(free); }
      RestoresAll(free, budget, order, original);
    } else {
      NewProfilesAreCanonical(profile);
      RestoredButLast(free, budget, others, name, original);
    }
  }

  lemma SameItself(a: Slices)
    ensures Same(a, a)
  {
  }

  lemma RestoredButLast(free: Slices, budget: int, others: seq<SliceName>, name: SliceName, original: Slices)
    requires OrderOf(others, original.Keys - {name}) && name in original && free == map[name := original[name]]
    requires Canonical(name) && SizeOf(name) * original[name] > budget - Mem(original)
    requires Sound(original) && Mem(original) <= budget && CanonicalSlices(original)
    ensures forall p | p in others + [name] :: p in original
    ensures Same(Restored(free, budget, others + [name], original), original)
  {
    hide SizeOf, NewProfile, Mem, Restored, Canonical, Same;
    var order := others + [name];
    assert order[..|others|] == others && others[..|others|] == others;
    NoDupCons(name, others);
    assert Only(original, [name]) == free && Only(original, [name] + others) == original;
    SameItself(free);
    RestoresRest(free, budget, [name], others, |others|, original);
    var rest := Restored(free, budget, others, original);
    MemSame(rest, original);
    RestoredLast(free, budget, others, name, original);
  }

  lemma NoDupCons(x: SliceName, s: seq<SliceName>)
    requires NoDup(s) && x !in s
    ensures NoDup([x] + s)
  {
  }

  lemma RestoredLast(free: Slices, budget: int, others: seq<SliceName>, name: SliceName, original: Slices)
    requires forall p | p in others + [name] :: p in original
    ensures forall p | p in others :: p in original
    ensures Restored(free, budget, others + [name], original)
            == Tried(Restored(free, budget, others, original), budget, SizeOf(name), original[name])
  {
    hide SizeOf, Mem, Tried;
    var order := others + [name];
    assert forall p | p in others :: p in order;
    assert order[..|others|] == others;
  }

  /**
   * A call with one missing profile can report success on unchanged slices exactly if memory, original slices and
   * request are such that a created slice can be lost; otherwise success means a change.
   */
  lemma SuccessMeansChangeExactlyWhen(budget: int, original: Slices, missing: Slices, p: SliceName)
    requires missing.Keys == {p} && SizeOf(p) >= MIN_SLICE_GB
    requires Sound(original) && Mem(original) <= budget && CanonicalSlices(original)
    ensures (forall turns: seq<Turn> |
               AreTurns(budget, original, missing, turns) && InOrder(turns, missing) && AnyCreated(turns) ::
               !Same(Before(original, turns, |turns|), original))
            <==> !CanBeLost(budget, original, SizeOf(p), missing[p])
  {
    hide SizeOf, NewProfile, Mem, Sound, IsTurn, Same, CanBeLost, CanonicalSlices, InOrder;
    forall turns: seq<Turn> |
      AreTurns(budget, original, missing, turns) && InOrder(turns, missing) && AnyCreated(turns)
      ensures Same(Before(original, turns, |turns|), original) ==> CanBeLost(budget, original, SizeOf(p), missing[p])
    {
      OneTurnOnly(turns, missing, p);
      if Same(turns[0].after, original) {
        LostMeans(budget, original, missing[p], turns[0]);
      }
    }
    if CanBeLost(budget, original, SizeOf(p), missing[p]) {
      var t := LostRun(budget, original, p, missing[p]);
      OneTurnInOrder(t, missing);
      assert Created([t][0]);
      assert AreTurns(budget, original, missing, [t]) && AnyCreated([t]);
      assert Same(Before(original, [t], 1), original);
    }
  }

  lemma OneTurnInOrder(t: Turn, missing: Slices)
    requires missing.Keys == {t.profile}
    ensures InOrder([t], missing)
  {
    assert [t][0].profile == t.profile;
    assert forall p :: p in missing <==> p in missing.Keys;
  }

  /**
   * One free slice of 10GB, 10GB spare, and a request for two: a slice is created, deleted with its namesake, and lost.
   */
  lemma CreatedSliceCanBeLost() returns (budget: int, original: Slices, required: Slices)
    ensures Sound(original) && Mem(original) <= budget && CanonicalSlices(original)
    ensures forall turns: seq<Turn> |
              && AreTurns(budget, original, Missing(original, required), turns)
              && InOrder(turns, Missing(original, required)) ::
              AnyCreated(turns) && Same(Before(original, turns, |turns|), original)
  {
    var p := NewProfile(10);
    SizeRoundTrip(10);
    hide *;
    budget, original, required := 20, map[p := 1], map[p := 2];
    ExampleMemory(p, original);
    forall turns: seq<Turn> |
      AreTurns(budget, original, Missing(original, required), turns) && InOrder(turns, Missing(original, required))
      ensures AnyCreated(turns) && Same(Before(original, turns, |turns|), original)
    {
      ExampleTurn(p, original, required, turns);
    }
  }

  lemma ExampleMemory(p: SliceName, original: Slices)
    requires SizeOf(p) == 10 && NewProfile(10) == p && original == map[p := 1]
    ensures Sound(original) && Mem(original) == 10 && CanonicalSlices(original)
  {
    hide SizeOf, NewProfile, Mem;
    MemUpdate(map[], p, 1);
    NoMemory();
    assert map[][p := 1] == original;
  }

  lemma ExampleTurn(p: SliceName, original: Slices, required: Slices, turns: seq<Turn>)
    requires SizeOf(p) == 10 && NewProfile(10) == p && original == map[p := 1] && required == map[p := 2]
    requires Mem(original) == 10
    requires AreTurns(20, original, Missing(original, required), turns) && InOrder(turns, Missing(original, required))
    ensures AnyCreated(turns) && Same(Before(original, turns, |turns|), original)
  {
    hide SizeOf, NewProfile, Mem, IsTurn, InOrder;
    assert Missing(original, required) == map[p := 1];
    OneTurnOnly(turns, Missing(original, required), p);
    LostInOneTurn(p, original, turns[0]);
    assert Created(turns[0]);
  }

  lemma OneTurnOnly(turns: seq<Turn>, missing: Slices, p: SliceName)
    requires InOrder(turns, missing) && missing.Keys == {p}
    ensures |turns| == 1 && turns[0].profile == p
  {
    hide SizeOf;
    assert p in missing;
    assert forall i | 0 <= i < |turns| :: turns[i].profile in missing;
    var names := seq(|turns|, i requires 0 <= i < |turns| => turns[i].profile);
    if |turns| > 1 {
      NotAllTheSame(names, p);
      assert false;
    }
  }

  lemma LostInOneTurn(p: SliceName, original: Slices, t: Turn)
    requires SizeOf(p) == 10 && NewProfile(10) == p && original == map[p := 1] && Mem(original) == 10
    requires t.profile == p && IsTurn(20, original, 1, original, t)
    ensures t.fromSpare == 1 && t.after == original
  {
    hide SizeOf, NewProfile, Mem;
    NoMemory();
    assert t.fromSpare == 1 && t.fromFreed == 0;
    assert Grown(original, 10, 1) - original.Keys == map[];
    assert t.order == [p] by { OnlyOrder(t.order, p); }
    assert [p][..0] == [];
    assert Restored(map[], 20, [p], original) == Tried(map[], 20, 10, 1);
  }

  lemma OnlyOrder(order: seq<SliceName>, p: SliceName)
    requires OrderOf(order, {p})
    ensures order == [p]
  {
    assert p in order;
    if |order| > 1 {
      NotAllTheSame(order, p);
      assert false;
    }
  }

  // ----- how much of a request is served -----

  /** The names of the first `n` profiles that have a turn. */
  ghost function Turned(turns: seq<Turn>, n: nat): seq<SliceName>
    requires n <= |turns|
  {
    seq(n, i requires 0 <= i < n => turns[i].profile)
  }

  /** The original slices, and of the missing ones those that had their turn. */
  ghost function ServedSoFar(original: Slices, missing: Slices, turns: seq<Turn>, n: nat): Slices
    requires n <= |turns|
  {
    original + Only(missing, Turned(turns, n))
  }

  lemma {:induction false} RestoredAlike(free: Slices, budget: int, order: seq<SliceName>, a: Slices, b: Slices)
    requires forall p | p in order :: p in a && p in b && a[p] == b[p]
    ensures Restored(free, budget, order, a) == Restored(free, budget, order, b)
  {
    hide SizeOf, Tried;
    if order != [] {
      var n := |order| - 1;
      assert order[n] in order;
      RestoredAlike(free, budget, order[..n], a, b);
    }
  }

  lemma NoDupJoin(a: seq<SliceName>, b: seq<SliceName>)
    requires NoDup(a) && NoDup(b) && forall p | p in a :: p !in b
    ensures NoDup(a + b)
  {
    forall i, j | 0 <= i < j < |a + b| ensures (a + b)[i] != (a + b)[j] {
      assert i < |a| <= j ==> a[i] in a && b[j - |a|] in b;
    }
  }

  /** Whatever else is there, the original slices come back if there is room for all. */
  lemma RestoresBeside(free: Slices, budget: int, order: seq<SliceName>, original: Slices, added: Slices)
    requires OrderOf(order, original.Keys) && original.Keys !! added.Keys && Same(free, added)
    requires Sound(original + added) && Mem(original + added) <= budget && CanonicalSlices(original + added)
    ensures Same(Restored(free, budget, order, original), original + added)
  {
    hide SizeOf, Mem, Restored, Canonical, Same, Sound;
    var all := original + added;
    var done := AnyOrder(added.Keys);
    NoDupJoin(done, order);
    assert forall p | p in done + order :: p in all;
    assert Only(all, done) == added && Only(all, done + order) == all && order[..|order|] == order;
    RestoresRest(free, budget, done, order, |order|, all);
    RestoredAlike(free, budget, order, original, all);
  }

  /** A turn for a new name that fits beside everything else creates all that is missing, and loses nothing. */
  lemma ServedTurn(budget: int, original: Slices, added: Slices, missing: int, before: Slices, t: Turn)
    requires IsTurn(budget, original, missing, before, t) && Canonical(t.profile) && missing > 0
    requires t.profile !in original && t.profile !in added && original.Keys !! added.Keys
    requires var all := original + added[t.profile := missing];
             Sound(all) && Mem(all) <= budget && CanonicalSlices(all)
    requires Same(before, original + added)
    ensures Same(t.after, original + added[t.profile := missing])
  {
    hide SizeOf, Mem, Restored, Canonical, Same, Sound, Fits;
    var more := added[t.profile := missing];
    AllFromSpare(budget, original, added, missing, before, t);
    KeptBeside(original, added, missing, before, t.profile);
    RestoresBeside(
      Grown(before, SizeOf(t.profile), missing) - original.Keys, budget, t.order, original, more);
  }

  lemma AllFromSpare(budget: int, original: Slices, added: Slices, missing: int, before: Slices, t: Turn)
    requires IsTurn(budget, original, missing, before, t) && missing > 0
    requires t.profile !in original && t.profile !in added && Same(before, original + added)
    requires var all := original + added[t.profile := missing]; Sound(all) && Mem(all) <= budget
    ensures t.fromSpare == missing && t.fromFreed == 0
  {
    hide SizeOf, Mem, Restored;
    var all, size := original + added[t.profile := missing], SizeOf(t.profile);
    assert t.profile in all && size >= MIN_SLICE_GB;
    assert all == (original + added)[t.profile := missing];
    MemUpdate(original + added, t.profile, missing);
    MemSame(before, original + added);
    if t.fromSpare < missing {
      TimesMonotone(size, t.fromSpare + 1, missing);
      assert false;
    }
  }

  lemma KeptBeside(original: Slices, added: Slices, missing: int, before: Slices, p: SliceName)
    requires Canonical(p) && missing > 0 && p !in original && p !in added && original.Keys !! added.Keys
    requires Same(before, original + added)
    ensures Same(Grown(before, SizeOf(p), missing) - original.Keys, added[p := missing])
  {
    hide SizeOf, NewProfile;
    var kept := Grown(before, SizeOf(p), missing) - original.Keys;
    forall q ensures Get(kept, q) == Get(added[p := missing], q) {
      assert Get(before, q) == Get(original + added, q);
    }
  }

  lemma {:induction false} ServedTurns(budget: int, original: Slices, missing: Slices, turns: seq<Turn>, n: nat)
    requires AreTurns(budget, original, missing, turns) && InOrder(turns, missing) && n <= |turns|
    requires Positive(missing) && original.Keys !! missing.Keys
    requires Sound(original + missing) && Mem(original + missing) <= budget
    requires forall p | p in original + missing :: Canonical(p)
    ensures Same(Before(original, turns, n), ServedSoFar(original, missing, turns, n))
  {
    hide SizeOf, NewProfile, Mem, IsTurn, Canonical, InOrder, Same, Only, Turned, Sound, AreTurns;
    if n == 0 {
      NothingServed(original, missing, turns);
    } else {
      ServedTurns(budget, original, missing, turns, n - 1);
      var t := turns[n - 1];
      var added, more := Only(missing, Turned(turns, n - 1)), Only(missing, Turned(turns, n));
      OneMoreServed(missing, turns, n - 1);
      PartFits(budget, original, missing, more);
      TurnAt(budget, original, missing, turns, n - 1);
      ServedTurn(budget, original, added, missing[t.profile], Before(original, turns, n - 1), t);
    }
  }

  lemma TurnAt(budget: int, original: Slices, missing: Slices, turns: seq<Turn>, i: nat)
    requires AreTurns(budget, original, missing, turns) && i < |turns|
    ensures turns[i].profile in missing
    ensures IsTurn(budget, original, missing[turns[i].profile], Before(original, turns, i), turns[i])
  {
    hide IsTurn;
  }

  lemma NothingServed(original: Slices, missing: Slices, turns: seq<Turn>)
    ensures ServedSoFar(original, missing, turns, 0) == original && Same(original, original)
  {
    assert Only(missing, Turned(turns, 0)) == map[];
  }

  lemma OneMoreServed(missing: Slices, turns: seq<Turn>, n: nat)
    requires InOrder(turns, missing) && n < |turns|
    ensures var p, added := turns[n].profile, Only(missing, Turned(turns, n));
            && p in missing && p !in added && added.Keys <= missing.Keys
            && Only(missing, Turned(turns, n + 1)) == added[p := missing[p]]
            && (forall q | q in Only(missing, Turned(turns, n + 1)) ::
                  q in missing && Only(missing, Turned(turns, n + 1))[q] == missing[q])
  {
    hide SizeOf;
    var p := turns[n].profile;
    assert p in missing by { assert turns[n].profile == p; }
    assert Turned(turns, n + 1) == Turned(turns, n) + [p];
    forall q | q in Turned(turns, n) ensures q != p {
      var i :| 0 <= i < n && Turned(turns, n)[i] == q;
      assert turns[i].profile != turns[n].profile;
    }
  }

  lemma PartFits(budget: int, original: Slices, missing: Slices, part: Slices)
    requires original.Keys !! missing.Keys && part.Keys <= missing.Keys && forall p | p in part :: part[p] == missing[p]
    requires Sound(original + missing) && Mem(original + missing) <= budget
    requires forall p | p in original + missing :: Canonical(p)
    ensures Sound(original + part) && Mem(original + part) <= budget && CanonicalSlices(original + part)
  {
    hide SizeOf, Mem, Canonical;
    var all := original + missing;
    var gone := missing.Keys - part.Keys;
    assert all - gone == original + part;
    MemShrinks(all, gone);
  }

  /**
   * If every requested profile is there already or is new, and all of it fits beside the original slices, the request
   * is served in full and nothing that was there is lost.
   */
  lemma RequestIsServed(budget: int, original: Slices, required: Slices, turns: seq<Turn>)
    requires AreTurns(budget, original, Missing(original, required), turns)
    requires InOrder(turns, Missing(original, required))
    requires Sound(original) && FitsBeside(budget, original, required)
    ensures forall p :: Get(Before(original, turns, |turns|), p) == Max(Get(original, p), Get(required, p))
  {
    hide SizeOf, NewProfile, Mem, IsTurn, Canonical, InOrder, Before, ServedSoFar, AreTurns, Sound;
    var missing := Missing(original, required);
    assert missing == Shortage(original, required);
    SoundJoin(original, required);
    ServedTurns(budget, original, missing, turns, |turns|);
    forall p ensures Get(Before(original, turns, |turns|), p) == Max(Get(original, p), Get(required, p)) {
      AllServed(original, required, turns, p);
      assert Get(Before(original, turns, |turns|), p) == Get(ServedSoFar(original, missing, turns, |turns|), p);
    }
  }

  lemma SoundJoin(original: Slices, required: Slices)
    requires Sound(original) && Sound(required)
    ensures Sound(original + Missing(original, required)) && Positive(Missing(original, required))
  {
    hide SizeOf;
  }

  lemma AllServed(original: Slices, required: Slices, turns: seq<Turn>, p: SliceName)
    requires InOrder(turns, Missing(original, required)) && Sound(original) && Sound(required)
    requires p in required && p in original ==> required[p] <= original[p]
    ensures Get(ServedSoFar(original, Missing(original, required), turns, |turns|), p)
            == Max(Get(original, p), Get(required, p))
  {
    hide SizeOf;
    var missing := Missing(original, required);
    if p in missing {
      var i :| 0 <= i < |turns| && turns[i].profile == p;
      assert Turned(turns, |turns|)[i] == p;
      assert p in Turned(turns, |turns|) && p in Only(missing, Turned(turns, |turns|));
    }
  }

  /** Every requested profile is there already, or is new, and the new ones fit beside the others. */
  ghost predicate FitsBeside(budget: int, free: Slices, required: Slices) {
    && Sound(required) && (forall p | p in free || p in required :: Canonical(p))
    && (forall p | p in required && p in free :: required[p] <= free[p])
    && Mem(free + Shortage(free, required)) <= budget
  }

  /** What a request asks for beyond the free slices. */
  ghost function Shortage(free: Slices, required: Slices): Slices {
    map p | p in required && required[p] > Get(free, p) :: required[p] - Get(free, p)
  }

  /** Of one new profile as many slices are created as the memory that used slices leave has room for. */
  lemma OneIsServedAsFits(budget: int, original: Slices, required: Slices, turns: seq<Turn>, p: SliceName)
    requires AreTurns(budget, original, Missing(original, required), turns)
    requires InOrder(turns, Missing(original, required))
    requires Sound(original) && Mem(original) <= budget && CanonicalSlices(original)
    requires p in required && required[p] > Get(original, p) && SizeOf(p) >= MIN_SLICE_GB
    requires forall q | q in required && q != p :: required[q] <= Get(original, q)
    requires NewProfile(SizeOf(p)) !in original
    ensures Get(Before(original, turns, |turns|), NewProfile(SizeOf(p)))
            == Fitting(required[p] - Get(original, p), SizeOf(p), budget)
  {
    hide SizeOf, NewProfile, Mem, IsTurn, Sound, Canonical, InOrder, Fitting;
    var missing := Missing(original, required);
    assert missing.Keys == {p};
    OneTurnOnly(turns, missing, p);
    NewNameCount(budget, original, missing[p], turns[0]);
  }

  lemma NewNameCount(budget: int, original: Slices, missing: int, t: Turn)
    requires IsTurn(budget, original, missing, original, t) && SizeOf(t.profile) >= MIN_SLICE_GB
    requires Sound(original) && CanonicalSlices(original) && NewProfile(SizeOf(t.profile)) !in original
    ensures Get(t.after, NewProfile(SizeOf(t.profile))) == Fitting(missing, SizeOf(t.profile), budget)
  {
    hide SizeOf, NewProfile, Mem, Restored, Canonical, IsRestored, Fitting;
    var size, name := SizeOf(t.profile), NewProfile(SizeOf(t.profile));
    var kept := Grown(original, size, t.fromSpare) - original.Keys;
    TurnCount(budget, original, missing, original, t, name);
    assert kept == if t.fromSpare > 0 then map[name := t.fromSpare] else map[];
    NoMemory();
    NewProfilesAreCanonical(t.profile);
    MemUpdate(map[], name, t.fromSpare);
    assert map[][name := t.fromSpare] == map[name := t.fromSpare];
    assert Mem(kept) == size * t.fromSpare;
    assert Get(Unrestored(original, original, t), name) == t.fromSpare + t.fromFreed;
    MemShrinks(original, original.Keys);
    assert original - original.Keys == map[];
    FitsTwice(t.fromSpare, t.fromFreed, missing, size, budget - Mem(original), budget);
  }

  /** Filling up in two goes is filling up at once. */
  lemma FitsTwice(a: int, b: int, wanted: int, size: int, spare: int, budget: int)
    requires size > 0 && spare <= budget && Fits(a, wanted, size, spare) && Fits(b, wanted - a, size, budget - size * a)
    ensures a + b == Fitting(wanted, size, budget)
  {
    hide Fitting;
    Distributes(size, a, b);
    Distributes(size, a, b + 1);
    assert size * (a + (b + 1)) == size * (a + b + 1);
    FitsIsFitting(a + b, wanted, size, budget);
  }

  // ----- the object -----

  /** The loops that add up the memory of slices. */
  method SlicesMemory(m: Slices) returns (total: int)
    ensures total == Mem(m)
  {
    hide SizeOf, Total;
    total := 0;
    ghost var seen: Slices := map[];
    assert Weights(seen) == map[];
    assert Mem(seen) == 0 by { NoMemory(); }
    var todo := m.Keys;
    while todo != {}
      invariant todo <= m.Keys && seen.Keys == m.Keys - todo && forall p | p in seen :: seen[p] == m[p]
      invariant total == Mem(seen)
    {
      var p :| p in todo;
      todo := todo - {p};
      total := total + SizeOf(p) * m[p];
      MemUpdate(seen, p, m[p]);
      seen := seen[p := m[p]];
    }
    assert seen == m;
  }

  lemma NoMemory()
    ensures Mem(map[]) == 0
  {
    assert Weights(map[]) == map[];
  }

  class GPU {
    const memory: int
    var used: Slices
    var free: Slices

    ghost predicate Valid()
      reads this
    {
      Sound(used) && Sound(free) && Mem(used) + Mem(free) <= memory
    }

    /** The memory that the used slices leave. */
    ghost function Budget(): int
      reads this
    {
      memory - Mem(used)
    }

    constructor (memory: int, used: Slices, free: Slices)
      ensures this.memory == memory && this.used == used && this.free == free
    {
      this.memory, this.used, this.free := memory, used, free;
    }

    /**
     * Accepted exactly when no slice is too small and all of them fit; for non-negative quantities that is validity.
     */
    method Validate() returns (ok: bool)
      ensures ok <==> LargeEnough(used) && LargeEnough(free) && Mem(used) + Mem(free) <= memory
      ensures NonNegative(used) && NonNegative(free) ==> (ok <==> Valid())
    {
      hide SizeOf, Mem;
      if !LargeEnough(used) || !LargeEnough(free) {
        return false;
      }
      var total := GetTotSlicesMemory();
      ok := total <= memory;
    }

    method GetTotSlicesMemory() returns (total: int)
      ensures total == Mem(used) + Mem(free)
    {
      var a := SlicesMemory(used);
      var b := SlicesMemory(free);
      total := a + b;
    }

    method CanCreateMoreSlices() returns (ok: bool)
      ensures ok <==> Budget() - Mem(free) >= MIN_SLICE_GB
    {
      var total := GetTotSlicesMemory();
      ok := memory - total >= MIN_SLICE_GB;
    }

    method CreateSlices(size: int, n: int) returns (ok: bool)
      modifies this`free
      ensures ok <==> size * n <= Budget() - Mem(old(free))
      ensures free == Tried(old(free), Budget(), size, n)
    {
      hide NewProfile, Mem;
      var total := GetTotSlicesMemory();
      ok := memory - total >= size * n;
      if ok {
        var p := NewProfile(size);
        free := free[p := Get(free, p) + n];
      }
    }

    /** One slice more on top of `n`. */
    method CreateNext(size: int, ghost n: int, ghost start: Slices) returns (ok: bool)
      requires IsInt(size) && n >= 0 && free == Grown(start, size, n) && Mem(free) == Mem(start) + size * n
      modifies this`free
      ensures ok <==> size * (n + 1) <= Budget() - Mem(start)
      ensures free == Grown(start, size, if ok then n + 1 else n)
      ensures ok ==> Mem(free) == Mem(start) + size * (n + 1)
    {
      hide NewProfile, Mem, SizeOf;
      Distributes(size, n, 1);
      SizeRoundTrip(size);
      MemAdd(free, NewProfile(size), 1);
      ok := CreateSlices(size, 1);
    }

    /** First pass: from spare memory. */
    method FromSpare(size: int, wanted: int) returns (n: int)
      requires IsInt(size)
      modifies this`free
      ensures n >= 0 && free == Grown(old(free), size, n)
      ensures size >= MIN_SLICE_GB ==> Fits(n, wanted, size, Budget() - Mem(old(free)))
    {
      hide NewProfile, Mem;
      ghost var start := free;
      n := 0;
      var more := CanCreateMoreSlices();
      if !more {
        return;
      }
      while n < wanted
        invariant 0 <= n <= Max(0, wanted)
        invariant free == Grown(start, size, n) && Mem(free) == Mem(start) + size * n
        invariant n > 0 ==> size * n <= Budget() - Mem(start)
      {
        var ok := CreateNext(size, n, start);
        if !ok {
          break;
        }
        n := n + 1;
      }
    }

    /** Second pass, after the original free slices are deleted. */
    method FromFreed(size: int, wanted: int) returns (n: int)
      requires IsInt(size)
      modifies this`free
      ensures n >= 0 && free == Grown(old(free), size, n)
      ensures size >= MIN_SLICE_GB ==> Fits(n, wanted, size, Budget() - Mem(old(free)))
    {
      hide NewProfile, Mem;
      ghost var start := free;
      n := 0;
      while n < wanted
        invariant 0 <= n <= Max(0, wanted)
        invariant free == Grown(start, size, n) && Mem(free) == Mem(start) + size * n
        invariant n > 0 ==> size * n <= Budget() - Mem(start)
      {
        var more := CanCreateMoreSlices();
        if !more {
          NoRoom(size, n, Budget() - Mem(start));
          break;
        }
        var ok := CreateNext(size, n, start);
        if !ok {
          break;
        }
        n := n + 1;
      }
    }

    /** Puts the original free slices back, in any order, as far as memory allows. */
    method Restore(original: Slices) returns (ghost order: seq<SliceName>)
      modifies this`free
      ensures OrderOf(order, original.Keys)
      ensures free == Restored(old(free), Budget(), order, original)
    {
      hide SizeOf, Tried;
      ghost var start := free;
      order := [];
      var todo := original.Keys;
      while todo != {}
        invariant todo <= original.Keys
        invariant NoDup(order) && forall p :: p in order <==> p in original.Keys - todo
        invariant free == Restored(start, Budget(), order, original)
      {
        var p :| p in todo;
        todo := todo - {p};
        assert (order + [p])[..|order|] == order;
        NoDupSnoc(order, p);
        order := order + [p];
        var ok := CreateSlices(SizeOf(p), original[p]);
      }
    }

    /** The turn of one missing profile. */
    method TurnFor(p: SliceName, missing: int, original: Slices) returns (any: bool, ghost t: Turn)
      modifies this`free
      ensures t.profile == p && t.after == free && (any <==> Created(t))
      ensures SizeOf(p) >= MIN_SLICE_GB ==> IsTurn(Budget(), original, missing, old(free), t)
    {
      hide SizeOf, Mem, Grown, Fits, Restored;
      var size := SizeOf(p);
      var a := FromSpare(size, missing);
      free := free - original.Keys;
      var b := FromFreed(size, missing - a);
      ghost var order := Restore(original);
      any := a > 0 || b > 0;
      t := Turn(p, a, b, order, free);
    }

    /**
     * Creates as many of the missing slices as it can. Used slices are not touched; the free ones go through one turn
     * per missing profile, smaller profiles first; the result is true exactly when some turn created a slice.
     */
    method UpdateGeometryFor(required: Slices) returns (updated: bool, ghost turns: seq<Turn>)
      requires Valid()
      modifies this`free
      ensures InOrder(turns, Missing(old(free), required)) && free == Before(old(free), turns, |turns|)
      ensures updated <==> AnyCreated(turns)
      ensures (forall p | p in required :: SizeOf(p) >= MIN_SLICE_GB) ==>
                Valid() && AreTurns(Budget(), old(free), Missing(old(free), required), turns)
      ensures FitsBeside(Budget(), old(free), required) ==>
                forall p :: Get(free, p) == Max(Get(old(free), p), Get(required, p))
    {
      hide FitsBeside;
      hide SizeOf, Mem, Recorded, Created, AnyCreated, Before, InOrder, AreTurns, Missing;
      ghost var start, budget := free, Budget();
      var missing := GetMissingSlices(free, required);
      var original := free;
      var sorted := SortedBySize(missing);
      updated, turns := false, [];
      NothingRecorded(budget, original, missing, sorted);
      for i := 0 to |sorted|
        invariant |turns| == i && free == Before(original, turns, i)
        invariant Recorded(budget, original, missing, sorted, turns)
        invariant updated <==> AnyCreated(turns)
      {
        assert sorted[i] in missing;
        var any;
        ghost var t;
        any, t := TurnFor(sorted[i], missing[sorted[i]], original);
        RecordOne(budget, original, missing, sorted, turns, t);
        turns := turns + [t];
        updated := updated || any;
      }
      AllRecorded(budget, original, required, missing, sorted, turns);
      if FitsBeside(budget, original, required) {
        assert forall p | p in required :: SizeOf(p) >= MIN_SLICE_GB by { SizesOf(budget, original, required); }
        RequestIsServed(budget, original, required, turns);
      }
    }
  }

  lemma SizesOf(budget: int, free: Slices, required: Slices)
    requires FitsBeside(budget, free, required)
    ensures forall p | p in required :: SizeOf(p) >= MIN_SLICE_GB
  {
    hide SizeOf;
  }

  /** The turns of the first missing profiles. */
  ghost predicate Recorded(budget: int, original: Slices, missing: Slices, sorted: seq<SliceName>, turns: seq<Turn>) {
    && |turns| <= |sorted|
    && forall i | 0 <= i < |turns| ::
         && turns[i].profile == sorted[i] && sorted[i] in missing
         && (SizeOf(sorted[i]) >= MIN_SLICE_GB ==>
               IsTurn(budget, original, missing[sorted[i]], Before(original, turns, i), turns[i]))
  }

  lemma NothingRecorded(budget: int, original: Slices, missing: Slices, sorted: seq<SliceName>)
    ensures Recorded(budget, original, missing, sorted, []) && Before(original, [], 0) == original && !AnyCreated([])
  {
  }

  lemma RecordOne(budget: int, original: Slices, missing: Slices, sorted: seq<SliceName>, turns: seq<Turn>, t: Turn)
    requires Recorded(budget, original, missing, sorted, turns) && |turns| < |sorted|
    requires t.profile == sorted[|turns|] && sorted[|turns|] in missing
    requires SizeOf(t.profile) >= MIN_SLICE_GB ==>
               IsTurn(budget, original, missing[t.profile], Before(original, turns, |turns|), t)
    ensures Recorded(budget, original, missing, sorted, turns + [t])
    ensures Before(original, turns + [t], |turns| + 1) == t.after
    ensures AnyCreated(turns + [t]) <==> AnyCreated(turns) || Created(t)
  {
    hide IsTurn, SizeOf, Created;
    var more := turns + [t];
    forall i | 0 <= i <= |turns| ensures Before(original, more, i) == Before(original, turns, i) {
    }
    assert forall i | 0 <= i < |turns| :: more[i] == turns[i];
    assert more[|turns|] == t;
    if AnyCreated(turns) {
      var i :| 0 <= i < |turns| && Created(turns[i]);
      assert Created(more[i]);
    }
  }

  lemma AllRecorded(
    budget: int, original: Slices, required: Slices, missing: Slices, sorted: seq<SliceName>, turns: seq<Turn>)
    requires Recorded(budget, original, missing, sorted, turns) && |turns| == |sorted|
    requires missing == Missing(original, required) && OrderOf(sorted, missing.Keys)
    requires forall i, j | 0 <= i < j < |sorted| :: SizeOf(sorted[i]) <= SizeOf(sorted[j])
    requires Sound(original) && Mem(original) <= budget
    ensures InOrder(turns, missing)
    ensures (forall p | p in required :: SizeOf(p) >= MIN_SLICE_GB) ==>
              && AreTurns(budget, original, missing, turns)
              && Sound(Before(original, turns, |turns|)) && Mem(Before(original, turns, |turns|)) <= budget
  {
    hide IsTurn, SizeOf, Mem, Before;
    forall p ensures p in missing <==> exists i :: 0 <= i < |turns| && turns[i].profile == p {
      if p in missing {
        var i :| 0 <= i < |sorted| && sorted[i] == p;
        assert turns[i].profile == p;
      }
    }
    if forall p | p in required :: SizeOf(p) >= MIN_SLICE_GB {
      assert AreTurns(budget, original, missing, turns);
      TurnsKeep(budget, original, missing, turns, |turns|);
    }
  }

  lemma NoRoom(size: int, n: int, spare: int)
    requires spare - size * n < MIN_SLICE_GB && n >= 0
    ensures size >= MIN_SLICE_GB ==> spare < size * (n + 1)
  {
    Distributes(size, n, 1);
  }

  method GetMissingSlices(free: Slices, required: Slices) returns (missing: Slices)
    ensures missing == Missing(free, required)
    ensures forall p :: p in missing <==> p in required && required[p] > Get(free, p)
    ensures forall p | p in missing :: missing[p] == required[p] - Get(free, p)
  {
    missing := map[];
    var todo := required.Keys;
    while todo != {}
      invariant todo <= required.Keys
      invariant missing == map p | p in Missing(free, required) && p !in todo :: Missing(free, required)[p]
    {
      var p :| p in todo;
      todo := todo - {p};
      var diff := required[p] - Get(free, p);
      if diff > 0 {
        missing := missing[p := diff];
      }
    }
  }

  predicate SmallerSlice(a: SliceName, b: SliceName) {
    SizeOf(a) < SizeOf(b)
  }

  method SortedBySize(missing: Slices) returns (sorted: seq<SliceName>)
    ensures OrderOf(sorted, missing.Keys)
    ensures forall i, j | 0 <= i < j < |sorted| :: SizeOf(sorted[i]) <= SizeOf(sorted[j])
  {
    hide SizeOf, StableSort;
    var keys: seq<SliceName> := [];
    var todo := missing.Keys;
    while todo != {}
      invariant todo <= missing.Keys
      invariant NoDup(keys) && forall p :: p in keys <==> p in missing.Keys - todo
    {
      var p :| p in todo;
      todo := todo - {p};
      NoDupSnoc(keys, p);
      keys := keys + [p];
    }
    sorted := StableSort(keys, SmallerSlice);
    StableSortSorts(keys, SmallerSlice);
    PermutedOrder(keys, sorted, missing.Keys);
  }

  lemma PermutedOrder(keys: seq<SliceName>, sorted: seq<SliceName>, all: set<SliceName>)
    requires OrderOf(keys, all) && multiset(sorted) == multiset(keys)
    ensures OrderOf(sorted, all)
  {
    forall p ensures p in sorted <==> p in all {
      assert p in multiset(sorted) <==> p in multiset(keys);
    }
    forall i, j | 0 <= i < j < |sorted| ensures sorted[i] != sorted[j] {
      if sorted[i] == sorted[j] {
        TwiceInMultiset(sorted, i, j);
        OnceInMultiset(keys, sorted[i]);
        assert false;
      }
    }
  }
}
