/** The annotation map of a node, read and rewritten as a whole. */
module NodeAnnotations {
  import opened GoMaps
  import opened Annotations
  import opened Text
  import opened Wire

  // ----- what a map of annotations says -----

  ghost function One<T>(o: Option<T>): multiset<T> {
    match o
    case None => multiset{}
    case Some(x) => multiset{x}
  }

  /** Everything that a parser accepts among the annotations. */
  ghost function Harvest<T>(m: map<string, string>, parse: (string, string) -> Option<T>): multiset<T>
    decreases |m|
  {
    if m == map[] then multiset{} else
      var k :| k in m;
      assert |m - {k}| < |m| by { RemoveShrinks(m, k); }
      One(parse(k, m[k])) + Harvest(m - {k}, parse)
  }

  lemma HarvestStep<T>(m: map<string, string>, parse: (string, string) -> Option<T>) returns (j: string)
    requires m != map[]
    ensures j in m && Harvest(m, parse) == One(parse(j, m[j])) + Harvest(m - {j}, parse)
  {
    j :| j in m && Harvest(m, parse) == One(parse(j, m[j])) + Harvest(m - {j}, parse);
  }

  lemma {:induction false} HarvestRemove<T>(m: map<string, string>, parse: (string, string) -> Option<T>, k: string)
    requires k in m
    ensures Harvest(m, parse) == One(parse(k, m[k])) + Harvest(m - {k}, parse)
    decreases |m|
  {
    hide Harvest, One;
    var j := HarvestStep(m, parse);
    RemoveShrinks(m, j);
    if j != k {
      HarvestRemove(m - {j}, parse, k);
      RemoveShrinks(m, k);
      HarvestRemove(m - {k}, parse, j);
      assert m - {j} - {k} == m - {k} - {j};
      Exchange(One(parse(j, m[j])), One(parse(k, m[k])), Harvest(m - {j} - {k}, parse));
    }
  }

  lemma Exchange<T>(a: multiset<T>, b: multiset<T>, c: multiset<T>)
    ensures a + (b + c) == b + (a + c)
  {
  }

  lemma HarvestAdd<T>(m: map<string, string>, parse: (string, string) -> Option<T>, k: string, v: string)
    requires k !in m
    ensures Harvest(m[k := v], parse) == One(parse(k, v)) + Harvest(m, parse)
  {
    hide Harvest, One;
    HarvestRemove(m[k := v], parse, k);
    assert m[k := v] - {k} == m;
  }

  lemma {:induction false} HarvestNothing<T>(m: map<string, string>, parse: (string, string) -> Option<T>)
    requires forall k | k in m :: parse(k, m[k]).None?
    ensures Harvest(m, parse) == multiset{}
    decreases |m|
  {
    if m != map[] {
      hide Harvest;
      var k := HarvestStep(m, parse);
      RemoveShrinks(m, k);
      HarvestNothing(m - {k}, parse);
    }
  }

  /** Annotations that the parser rejects do not matter. */
  lemma {:induction false} HarvestSame<T>(
    a: map<string, string>, b: map<string, string>, parse: (string, string) -> Option<T>)
    requires forall k | k in a && parse(k, a[k]).Some? :: k in b && b[k] == a[k]
    requires forall k | k in b && parse(k, b[k]).Some? :: k in a && a[k] == b[k]
    ensures Harvest(a, parse) == Harvest(b, parse)
    decreases |a|
  {
    hide Harvest, One;
    if k :| k in a && parse(k, a[k]).Some? {
      HarvestRemove(a, parse, k);
      HarvestRemove(b, parse, k);
      RemoveShrinks(a, k);
      HarvestSame(a - {k}, b - {k}, parse);
    } else {
      HarvestNothing(a, parse);
      HarvestNothing(b, parse);
    }
  }

  // ----- reading -----

  /** All annotations of both kinds, in any order. */
  method ParseNodeAnnotations(m: map<string, string>)
    returns (statuses: seq<StatusAnnotation>, specs: seq<SpecAnnotation>)
    ensures multiset(statuses) == Harvest(m, ParseStatusAnnotation)
    ensures multiset(specs) == Harvest(m, ParseSpecAnnotation)
  {
    hide ParseSpecAnnotation, ParseStatusAnnotation, Harvest;
    statuses, specs := [], [];
    ghost var seen: map<string, string> := map[];
    HarvestNothing(seen, ParseStatusAnnotation);
    HarvestNothing(seen, ParseSpecAnnotation);
    var todo := m.Keys;
    while todo != {}
      invariant todo <= m.Keys && seen.Keys == m.Keys - todo && forall k | k in seen :: seen[k] == m[k]
      invariant multiset(statuses) == Harvest(seen, ParseStatusAnnotation)
      invariant multiset(specs) == Harvest(seen, ParseSpecAnnotation)
    {
      var k :| k in todo;
      todo := todo - {k};
      HarvestAdd(seen, ParseStatusAnnotation, k, m[k]);
      HarvestAdd(seen, ParseSpecAnnotation, k, m[k]);
      seen := seen[k := m[k]];
      statuses, specs := ParseOne(k, m[k], statuses, specs);
    }
    assert seen == m;
  }

  /** The body of the loop: a key that is read as a spec is not tried as a status. */
  method ParseOne(k: string, v: string, statuses: seq<StatusAnnotation>, specs: seq<SpecAnnotation>)
    returns (statuses': seq<StatusAnnotation>, specs': seq<SpecAnnotation>)
    ensures multiset(statuses') == One(ParseStatusAnnotation(k, v)) + multiset(statuses)
    ensures multiset(specs') == One(ParseSpecAnnotation(k, v)) + multiset(specs)
  {
    hide ParseSpecAnnotation, ParseStatusAnnotation;
    NotBoth(k, v);
    statuses', specs' := statuses, specs;
    var spec := ParseSpecAnnotation(k, v);
    if spec.Some? {
      specs' := specs + [spec.value];
      return;
    }
    var status := ParseStatusAnnotation(k, v);
    if status.Some? {
      statuses' := statuses + [status.value];
    }
  }

  lemma NotBoth(k: string, v: string)
    ensures ParseSpecAnnotation(k, v).Some? ==> ParseStatusAnnotation(k, v).None?
  {
    if HasPrefix(k, SPEC_PREFIX) {
      PrefixesDisjoint(k);
    }
  }

  // ----- rewriting -----

  ghost function Cleared(m: map<string, string>, prefix: string): map<string, string> {
    map k | k in m && !HasPrefix(k, prefix) :: m[k]
  }

  method ClearPrefix(m: map<string, string>, prefix: string) returns (r: map<string, string>)
    ensures r == Cleared(m, prefix)
  {
    r := m;
    var todo := m.Keys;
    while todo != {}
      invariant todo <= m.Keys
      invariant r == map k | k in m && (k in todo || !HasPrefix(k, prefix)) :: m[k]
    {
      var k :| k in todo;
      todo := todo - {k};
      if HasPrefix(k, prefix) {
        r := r - {k};
      }
    }
  }

  /** The entries can be told apart by their keys, are new to the map, and are read back. */
  ghost predicate Writable<T>(
    m: map<string, string>, list: seq<T>, key: T -> string, value: T -> string, parse: (string, string) -> Option<T>)
  {
    && (forall i | 0 <= i < |list| :: key(list[i]) !in m && parse(key(list[i]), value(list[i])) == Some(list[i]))
    && (forall i, j | 0 <= i < j < |list| :: key(list[i]) != key(list[j]))
  }

  ghost function Written<T>(
    m: map<string, string>, list: seq<T>, key: T -> string, value: T -> string): map<string, string>
  {
    if list == [] then m else
      var x := list[|list| - 1];
      Written(m, list[..|list| - 1], key, value)[key(x) := value(x)]
  }

  method WriteAll<T>(m: map<string, string>, list: seq<T>, key: T -> string, value: T -> string)
    returns (r: map<string, string>)
    ensures r == Written(m, list, key, value)
  {
    r := m;
    for i := 0 to |list|
      invariant r == Written(m, list[..i], key, value)
    {
      assert list[..i + 1][..i] == list[..i];
      r := r[key(list[i]) := value(list[i])];
    }
    assert list[..|list|] == list;
  }

  /** Entries that are written elsewhere leave an annotation alone. */
  lemma {:induction false} WrittenElsewhere<T>(
    m: map<string, string>, list: seq<T>, key: T -> string, value: T -> string, k: string)
    requires forall i | 0 <= i < |list| :: key(list[i]) != k
    ensures k in Written(m, list, key, value) <==> k in m
    ensures k in m ==> Written(m, list, key, value)[k] == m[k]
  {
    if list != [] {
      WrittenElsewhere(m, list[..|list| - 1], key, value, k);
    }
  }

  /** Reading back what was written gives what was there and the list, each entry exactly once. */
  lemma {:induction false} WrittenHarvest<T>(
    m: map<string, string>, list: seq<T>, key: T -> string, value: T -> string, parse: (string, string) -> Option<T>)
    requires Writable(m, list, key, value, parse)
    ensures Harvest(Written(m, list, key, value), parse) == Harvest(m, parse) + multiset(list)
  {
    hide Harvest;
    if list != [] {
      var n := |list| - 1;
      assert list == list[..n] + [list[n]];
      WrittenHarvest(m, list[..n], key, value, parse);
      WrittenElsewhere(m, list[..n], key, value, key(list[n]));
      HarvestAdd(Written(m, list[..n], key, value), parse, key(list[n]), value(list[n]));
    }
  }

  lemma ClearedHarvest<T>(m: map<string, string>, prefix: string, parse: (string, string) -> Option<T>)
    requires forall k, v :: parse(k, v).Some? ==> HasPrefix(k, prefix)
    ensures Harvest(Cleared(m, prefix), parse) == multiset{}
  {
    HarvestNothing(Cleared(m, prefix), parse);
  }

  function ReadAnnotation(m: map<string, string>, k: string): string {
    if k in m then m[k] else ""
  }

  /** Annotations outside `prefix`, other than `planKey`, are as they were. */
  ghost predicate OthersKept(before: map<string, string>, after: map<string, string>, prefix: string, planKey: string) {
    forall k | !HasPrefix(k, prefix) && k != planKey ::
      (k in after <==> k in before) && (k in before ==> after[k] == before[k])
  }

  /** The whole rewrite: everything under `prefix` is replaced by the list, and the plan id is set. */
  ghost function Rewritten<T>(
    m: map<string, string>, list: seq<T>, key: T -> string, value: T -> string,
    prefix: string, planKey: string, id: string): map<string, string>
  {
    Written(Cleared(m, prefix), list, key, value)[planKey := id]
  }

  lemma RewriteKeepsOthers<T>(
    m: map<string, string>, list: seq<T>, key: T -> string, value: T -> string,
    prefix: string, planKey: string, id: string)
    requires forall i | 0 <= i < |list| :: HasPrefix(key(list[i]), prefix)
    ensures OthersKept(m, Rewritten(m, list, key, value, prefix, planKey, id), prefix, planKey)
  {
    hide Written, HasPrefix;
    var after := Rewritten(m, list, key, value, prefix, planKey, id);
    forall k | !HasPrefix(k, prefix) && k != planKey
      ensures (k in after <==> k in m) && (k in m ==> after[k] == m[k])
    {
      WrittenElsewhere(Cleared(m, prefix), list, key, value, k);
    }
  }

  lemma RewriteHarvest<T>(
    m: map<string, string>, list: seq<T>, key: T -> string, value: T -> string,
    prefix: string, planKey: string, id: string, parse: (string, string) -> Option<T>)
    requires forall k, v :: parse(k, v).Some? ==> HasPrefix(k, prefix)
    requires !HasPrefix(planKey, prefix) && Writable(Cleared(m, prefix), list, key, value, parse)
    ensures Harvest(Rewritten(m, list, key, value, prefix, planKey, id), parse) == multiset(list)
  {
    hide Harvest, Writable, Written, HasPrefix;
    ClearedHarvest(m, prefix, parse);
    WrittenHarvest(Cleared(m, prefix), list, key, value, parse);
    HarvestSame(
      Rewritten(m, list, key, value, prefix, planKey, id), Written(Cleared(m, prefix), list, key, value), parse);
  }

  /** Annotations that are read under another prefix are read the same after a rewrite. */
  lemma OtherPrefixKept<T>(
    before: map<string, string>, after: map<string, string>, prefix: string, planKey: string,
    other: string, parse: (string, string) -> Option<T>)
    requires OthersKept(before, after, prefix, planKey)
    requires forall k, v :: parse(k, v).Some? ==> HasPrefix(k, other)
    requires !HasPrefix(planKey, other) && forall k | HasPrefix(k, other) :: !HasPrefix(k, prefix)
    ensures Harvest(after, parse) == Harvest(before, parse)
  {
    hide Harvest, HasPrefix;
    HarvestSame(after, before, parse);
  }
}
