/** Creating MIG devices on one GPU: orderings of the profiles are tried until the hardware takes one of them. */
module Nvml {
  import opened Lists

  // ----- all orderings of a list -----

  function InsertedAt<K>(p: seq<K>, x: K, i: nat): seq<K>
    requires i <= |p|
  {
    p[..i] + [x] + p[i..]
  }

  function InsertEverywhere<K>(p: seq<K>, x: K): seq<seq<K>> {
    seq(|p| + 1, i requires 0 <= i <= |p| => InsertedAt(p, x, i))
  }

  function InsertIntoAll<K>(ps: seq<seq<K>>, x: K): seq<seq<K>> {
    if ps == [] then [] else InsertIntoAll(ps[..|ps| - 1], x) + InsertEverywhere(ps[|ps| - 1], x)
  }

  function Orderings<K>(s: seq<K>): seq<seq<K>> {
    if s == [] then [[]] else InsertIntoAll(Orderings(s[..|s| - 1]), s[|s| - 1])
  }

  lemma {:induction false} InsertIntoAllHas<K>(ps: seq<seq<K>>, x: K, p: seq<K>, i: nat)
    requires p in ps && i <= |p|
    ensures InsertedAt(p, x, i) in InsertIntoAll(ps, x)
  {
    var n := |ps| - 1;
    assert ps == ps[..n] + [ps[n]];
    if p == ps[n] {
      assert InsertEverywhere(p, x)[i] == InsertedAt(p, x, i);
    } else {
      InsertIntoAllHas(ps[..n], x, p, i);
    }
  }

  lemma InsertedElements<K>(p: seq<K>, x: K, i: nat)
    requires i <= |p|
    ensures multiset(InsertedAt(p, x, i)) == multiset(p) + multiset{x}
  {
    assert p == p[..i] + p[i..];
  }

  lemma {:induction false} InsertIntoAllOnly<K>(ps: seq<seq<K>>, x: K, q: seq<K>) returns (p: seq<K>)
    requires q in InsertIntoAll(ps, x)
    ensures p in ps && multiset(q) == multiset(p) + multiset{x}
  {
    var n := |ps| - 1;
    if q in InsertIntoAll(ps[..n], x) {
      p := InsertIntoAllOnly(ps[..n], x, q);
    } else {
      p := ps[n];
      var i :| 0 <= i <= |p| && q == InsertedAt(p, x, i);
      InsertedElements(p, x, i);
    }
  }

  lemma {:induction false} OrderingsOnly<K>(s: seq<K>, q: seq<K>)
    requires q in Orderings(s)
    ensures multiset(q) == multiset(s)
  {
    if s != [] {
      var n := |s| - 1;
      assert s == s[..n] + [s[n]];
      var p := InsertIntoAllOnly(Orderings(s[..n]), s[n], q);
      OrderingsOnly(s[..n], p);
    }
  }

  lemma {:induction false} OrderingsAll<K>(s: seq<K>, q: seq<K>)
    requires multiset(q) == multiset(s)
    ensures q in Orderings(s)
    decreases |s|
  {
    if s == [] {
      assert |q| == |multiset(q)|;
    } else {
      var n := |s| - 1;
      var i := FindLast(s, q);
      var p := q[..i] + q[i + 1..];
      assert InsertedAt(p, s[n], i) == q;
      OrderingsAll(s[..n], p);
      InsertIntoAllHas(Orderings(s[..n]), s[n], p, i);
      hide InsertIntoAll, InsertedAt;
    }
  }

  /** Exactly the lists with the same elements. */
  lemma OrderingsComplete<K>(s: seq<K>, q: seq<K>)
    ensures q in Orderings(s) <==> multiset(q) == multiset(s)
  {
    hide Orderings;
    if q in Orderings(s) {
      OrderingsOnly(s, q);
    }
    if multiset(q) == multiset(s) {
      OrderingsAll(s, q);
    }
  }

  /** `util.PermutationGenerator`; an empty list has no permutation to offer. */
  class PermutationGenerator<K> {
    const orderings: seq<seq<K>>
    var next: nat

    constructor (s: seq<K>)
      ensures orderings == (if s == [] then [] else Orderings(s)) && next == 0
    {
      orderings := if s == [] then [] else Orderings(s);
      next := 0;
    }

    method Next() returns (more: bool)
      modifies this`next
      ensures more <==> old(next) < |orderings|
      ensures next == if more then old(next) + 1 else old(next)
    {
      more := next < |orderings|;
      if more {
        next := next + 1;
      }
    }

    method Permutation() returns (p: seq<K>)
      requires 0 < next <= |orderings|
      ensures p == orderings[next - 1]
    {
      p := orderings[next - 1];
    }
  }

  // ----- the device -----

  /** A GPU instance, and whether it has its compute instance. */
  datatype Instance = Instance(profile: string, compute: bool)

  /**
   * Hardware whose answer depends on the instances that exist, in the order of their creation. Look-ups of profile
   * information and legal destructions may fail: `works` tells whether the `n`th of them succeeds.
   */
  class Device {
    const works: nat -> bool
    const takesGpuInstance: (seq<Instance>, string) -> bool
    const takesComputeInstance: (seq<Instance>, string) -> bool
    var instances: seq<Instance>
    var asked: nat

    constructor (works: nat -> bool, gi: (seq<Instance>, string) -> bool, ci: (seq<Instance>, string) -> bool)
      ensures this.works == works && takesGpuInstance == gi && takesComputeInstance == ci
      ensures instances == [] && asked == 0
    {
      this.works, takesGpuInstance, takesComputeInstance, instances, asked := works, gi, ci, [], 0;
    }

    method LookUp() returns (ok: bool)
      modifies this`asked
      ensures ok == works(old(asked)) && asked == old(asked) + 1
    {
      ok, asked := works(asked), asked + 1;
    }

    method CreateGpuInstance(p: string) returns (ok: bool)
      modifies this`instances
      ensures ok == takesGpuInstance(old(instances), p)
      ensures instances == if ok then old(instances) + [Instance(p, false)] else old(instances)
    {
      ok := takesGpuInstance(instances, p);
      if ok {
        instances := instances + [Instance(p, false)];
      }
    }

    method CreateComputeInstance(i: nat) returns (ok: bool)
      requires i < |instances|
      modifies this`instances
      ensures ok == takesComputeInstance(old(instances), old(instances)[i].profile)
      ensures instances == if ok then old(instances)[i := old(instances)[i].(compute := true)] else old(instances)
    {
      ok := takesComputeInstance(instances, instances[i].profile);
      if ok {
        instances := instances[i := instances[i].(compute := true)];
      }
    }

    method DestroyComputeInstance(i: nat) returns (ok: bool)
      requires i < |instances|
      modifies this`instances, this`asked
      ensures ok == works(old(asked)) && asked == old(asked) + 1
      ensures instances == if ok then old(instances)[i := old(instances)[i].(compute := false)] else old(instances)
    {
      ok, asked := works(asked), asked + 1;
      if ok {
        instances := instances[i := instances[i].(compute := false)];
      }
    }

    /** A GPU instance can go once its compute instance is gone. */
    method DestroyGpuInstance(i: nat) returns (ok: bool)
      requires i < |instances|
      modifies this`instances, this`asked
      ensures ok == (works(old(asked)) && !old(instances)[i].compute) && asked == old(asked) + 1
      ensures instances == if ok then old(instances)[..i] + old(instances)[i + 1..] else old(instances)
    {
      ok, asked := works(asked) && !instances[i].compute, asked + 1;
      if ok {
        instances := instances[..i] + instances[i + 1..];
      }
    }
  }

  ghost function Full(order: seq<string>): seq<Instance> {
    seq(|order|, i requires 0 <= i < |order| => Instance(order[i], true))
  }

  /** The hardware takes every profile of the ordering in turn, starting from the given instances. */
  ghost predicate Takes(d: Device, start: seq<Instance>, order: seq<string>) {
    forall k | 0 <= k < |order| ::
      && d.takesGpuInstance(start + Full(order[..k]), order[k])
      && d.takesComputeInstance(start + Full(order[..k]) + [Instance(order[k], false)], order[k])
  }

  // ----- one ordering -----

  datatype Attempt = Created | Refused | Failed

  /** Some look-up or destruction among those asked for failed. */
  ghost predicate Trouble(works: nat -> bool, from: nat, to: nat) {
    exists n :: from <= n < to && !works(n)
  }

  lemma MoreTrouble(works: nat -> bool, from: nat, to: nat)
    requires from <= to
    ensures Trouble(works, from, to + 1) <==> Trouble(works, from, to) || !works(to)
  {
  }

  /** Removes `gpus` instances from position `base` on, of which the first `computes` have a compute instance. */
  method Cleanup(d: Device, base: nat, gpus: nat, computes: nat) returns (ok: bool)
    requires base + gpus == |d.instances| && computes <= gpus
    requires forall j | base + computes <= j < |d.instances| :: !d.instances[j].compute
    modifies d`instances, d`asked
    ensures ok ==> d.instances == old(d.instances)[..base]
    ensures ok <==> !Trouble(d.works, old(d.asked), d.asked)
    ensures d.asked >= old(d.asked)
  {
    hide Trouble;
    ghost var start, asked := d.instances[..base], d.asked;
    NoTrouble(d.works, asked);
    ok := true;
    for i := 0 to computes
      invariant |d.instances| == base + gpus && d.instances[..base] == start
      invariant forall j | base + computes <= j < |d.instances| :: !d.instances[j].compute
      invariant ok ==> forall j | base <= j < base + i :: !d.instances[j].compute
      invariant d.asked >= asked && (ok <==> !Trouble(d.works, asked, d.asked))
    {
      MoreTrouble(d.works, asked, d.asked);
      var done := d.DestroyComputeInstance(base + i);
      ok := ok && done;
    }
    var at := base;
    for i := 0 to gpus
      invariant base <= at && at + (gpus - i) == |d.instances| && d.instances[..base] == start
      invariant ok ==> at == base && forall j | base <= j < |d.instances| :: !d.instances[j].compute
      invariant d.asked >= asked && (ok <==> !Trouble(d.works, asked, d.asked))
    {
      MoreTrouble(d.works, asked, d.asked);
      var done := d.DestroyGpuInstance(at);
      if !done {
        ok := false;
        at := at + 1;
      }
    }
    assert ok ==> d.instances[..base] == d.instances;
  }

  lemma NoTrouble(works: nat -> bool, n: nat)
    ensures !Trouble(works, n, n)
  {
  }

  lemma TroubleJoins(works: nat -> bool, from: nat, middle: nat, to: nat)
    requires from <= middle <= to
    ensures Trouble(works, from, to) <==> Trouble(works, from, middle) || Trouble(works, middle, to)
  {
  }

  /** Tries one ordering. It fails exactly if looking up profile information or destroying an instance does. */
  method TryOrdering(d: Device, order: seq<string>) returns (r: Attempt)
    modifies d`instances, d`asked
    ensures r.Created? ==> Takes(d, old(d.instances), order) && d.instances == old(d.instances) + Full(order)
    ensures r.Refused? ==> !Takes(d, old(d.instances), order) && d.instances == old(d.instances)
    ensures d.asked >= old(d.asked) && (r.Failed? <==> Trouble(d.works, old(d.asked), d.asked))
  {
    hide Trouble, Takes;
    ghost var start, asked := d.instances, d.asked;
    NoTrouble(d.works, asked);
    TakesNothing(d, start, order);
    var base := |d.instances|;
    for k := 0 to |order|
      invariant d.instances == start + Full(order[..k]) && Takes(d, start, order[..k])
      invariant d.asked >= asked && !Trouble(d.works, asked, d.asked)
    {
      TakesPrefix(d, start, order, k);
      MoreTrouble(d.works, asked, d.asked);
      var known := d.LookUp();
      if !known {
        return Failed;
      }
      var gi := d.CreateGpuInstance(order[k]);
      if !gi {
        ghost var before := d.asked;
        var clean := Cleanup(d, base, k, k);
        TroubleJoins(d.works, asked, before, d.asked);
        return if clean then Refused else Failed;
      }
      MoreTrouble(d.works, asked, d.asked);
      known := d.LookUp();
      if !known {
        return Failed;
      }
      var ci := d.CreateComputeInstance(base + k);
      if !ci {
        ghost var before := d.asked;
        var clean := Cleanup(d, base, k + 1, k);
        TroubleJoins(d.works, asked, before, d.asked);
        return if clean then Refused else Failed;
      }
      assert d.instances == start + Full(order[..k + 1]);
    }
    assert order[..|order|] == order;
    r := Created;
  }

  lemma TakesNothing(d: Device, start: seq<Instance>, order: seq<string>)
    ensures Takes(d, start, order[..0])
  {
  }

  lemma TakesPrefix(d: Device, start: seq<Instance>, order: seq<string>, k: nat)
    requires k < |order| && Takes(d, start, order[..k])
    ensures Takes(d, start, order) ==>
              && d.takesGpuInstance(start + Full(order[..k]), order[k])
              && d.takesComputeInstance(start + Full(order[..k]) + [Instance(order[k], false)], order[k])
    ensures d.takesGpuInstance(start + Full(order[..k]), order[k])
            && d.takesComputeInstance(start + Full(order[..k]) + [Instance(order[k], false)], order[k])
            ==> Takes(d, start, order[..k + 1])
  {
    var more := order[..k + 1];
    forall i | 0 <= i <= k ensures more[..i] == order[..i] {
    }
    forall i | 0 <= i < k ensures order[..k][..i] == order[..i] && order[..k][i] == order[i] {
    }
  }

  // ----- all of them -----

  /**
   * All or nothing: success adds exactly the requested devices, in an ordering that the hardware takes; refusal leaves
   * the device as it was, and means that the list is empty or that the hardware takes none of its orderings.
   */
  method CreateMigDevices(d: Device, profiles: seq<string>) returns (r: Attempt, ghost order: seq<string>)
    modifies d`instances, d`asked
    ensures r.Created? ==>
              && |d.instances| == |old(d.instances)| + |profiles|
              && forall i | |old(d.instances)| <= i < |d.instances| :: d.instances[i].compute
    ensures r.Created? ==>
              && profiles != [] && multiset(order) == multiset(profiles) && Takes(d, old(d.instances), order)
              && d.instances == old(d.instances) + Full(order)
    ensures r.Refused? ==>
              && d.instances == old(d.instances)
              && (profiles == [] || forall q | multiset(q) == multiset(profiles) :: !Takes(d, old(d.instances), q))
    ensures d.asked >= old(d.asked) && (r.Failed? <==> Trouble(d.works, old(d.asked), d.asked))
  {
    hide Takes, Orderings, Trouble;
    ghost var start, asked := d.instances, d.asked;
    NoTrouble(d.works, asked);
    order := [];
    var generator := new PermutationGenerator(profiles);
    var more := generator.Next();
    while more
      invariant d.instances == start && d.asked >= asked && !Trouble(d.works, asked, d.asked)
      invariant more ==> 0 < generator.next <= |generator.orderings|
      invariant !more ==> generator.next == |generator.orderings|
      invariant forall i | 0 <= i < (if more then generator.next - 1 else generator.next) ::
                  !Takes(d, start, generator.orderings[i])
      decreases |generator.orderings| - generator.next, more
    {
      var p := generator.Permutation();
      ghost var before := d.asked;
      var attempt := TryOrdering(d, p);
      TroubleJoins(d.works, asked, before, d.asked);
      if !attempt.Refused? {
        if attempt.Created? {
          OrderingsComplete(profiles, p);
          assert |multiset(p)| == |multiset(profiles)|;
        }
        return attempt, p;
      }
      more := generator.Next();
    }
    forall q | profiles != [] && multiset(q) == multiset(profiles) ensures !Takes(d, start, q) {
      OrderingsComplete(profiles, q);
    }
    r := Refused;
  }

  /** The names of the devices are what is conserved or added: the multiset of profiles on the GPU. */
  ghost function Names(instances: seq<Instance>): multiset<string> {
    multiset(seq(|instances|, i requires 0 <= i < |instances| => instances[i].profile))
  }

  lemma CreatedNames(start: seq<Instance>, order: seq<string>)
    ensures Names(start + Full(order)) == Names(start) + multiset(order)
  {
    var a := seq(|start|, i requires 0 <= i < |start| => start[i].profile);
    var all := start + Full(order);
    var b := seq(|all|, i requires 0 <= i < |all| => all[i].profile);
    assert b == a + order;
  }
}
