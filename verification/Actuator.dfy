/** Carrying out a plan on the GPUs: deletes, creates, and the rollback when creates fail. */
module Actuator {
  import opened GoMaps
  import opened Lists
  import opened Devices
  import opened Annotations
  import opened Plan

  // ----- multisets of profiles -----

  /** The profiles of a list that sit on the given GPUs. */
  ghost function OnGpus(profiles: seq<Profile>, gpus: set<int>): multiset<Profile> {
    if profiles == [] then multiset{} else
      var p := profiles[|profiles| - 1];
      OnGpus(profiles[..|profiles| - 1], gpus) + if p.gpu in gpus then multiset{p} else multiset{}
  }

  lemma {:induction false} OnGpusCount(profiles: seq<Profile>, gpus: set<int>, k: Profile)
    ensures OnGpus(profiles, gpus)[k] == if k.gpu in gpus then multiset(profiles)[k] else 0
  {
    if profiles != [] {
      var n := |profiles| - 1;
      assert profiles == profiles[..n] + [profiles[n]];
      OnGpusCount(profiles[..n], gpus, k);
    }
  }

  function ProfileGpu(p: Profile): int {
    p.gpu
  }

  // ----- the devices on the GPUs -----

  /** Devices by their ids. */
  type Book = map<string, Profile>

  /** How many devices there are of every profile. */
  ghost function HeldOf(book: Book): multiset<Profile>
    decreases |book|
  {
    if book == map[] then multiset{} else
      var id :| id in book;
      assert |book - {id}| < |book| by { RemoveShrinks(book, id); }
      HeldOf(book - {id}) + multiset{book[id]}
  }

  lemma HeldUnfold(book: Book) returns (id: string)
    requires book != map[]
    ensures id in book && HeldOf(book) == HeldOf(book - {id}) + multiset{book[id]}
  {
    id :| id in book && HeldOf(book) == HeldOf(book - {id}) + multiset{book[id]};
  }

  lemma {:induction false} HeldRemove(book: Book, id: string)
    requires id in book
    ensures HeldOf(book) == HeldOf(book - {id}) + multiset{book[id]}
    decreases |book|
  {
    hide HeldOf;
    var j := HeldUnfold(book);
    RemoveShrinks(book, j);
    if j != id {
      HeldRemove(book - {j}, id);
      RemoveShrinks(book, id);
      HeldRemove(book - {id}, j);
      assert book - {j} - {id} == book - {id} - {j};
    }
  }

  lemma HeldAdd(book: Book, id: string, p: Profile)
    requires id !in book
    ensures HeldOf(book[id := p]) == HeldOf(book) + multiset{p}
  {
    HeldRemove(book[id := p], id);
    assert book[id := p] - {id} == book;
  }

  /** Every device of `a` is still the same one in `b`. */
  ghost predicate Extends(a: Book, b: Book) {
    forall id | id in a :: id in b && b[id] == a[id]
  }

  lemma NothingAdded(book: Book)
    ensures Extends(book, book) && HeldOf(book) == HeldOf(book) + multiset([])
  {
    hide HeldOf;
  }

  lemma OneAdded(start: Book, book: Book, id: string, p: Profile, added: seq<Profile>)
    requires Extends(start, book) && id !in book && HeldOf(book) == HeldOf(start) + multiset(added)
    ensures Extends(start, book[id := p]) && HeldOf(book[id := p]) == HeldOf(start) + multiset(added + [p])
  {
    hide HeldOf;
    HeldAdd(book, id, p);
  }

  lemma {:induction false} Longest(ids: set<string>) returns (n: nat)
    ensures forall id | id in ids :: |id| <= n
    decreases |ids|
  {
    n := 0;
    if ids != {} {
      var id := SomeIn(ids);
      var m := Longest(ids - {id});
      n := Max(m, |id|);
    }
  }

  /** There is always an id that no device has. */
  lemma FreshId(ids: set<string>)
    ensures exists id: string :: id !in ids
  {
    var n := Longest(ids);
    var id := seq(n + 1, i => 'x');
    assert id !in ids;
  }

  datatype DeleteOutcome = Removed | NotFound | Failed

  /**
   * The hardware. Every request may be refused: `creates` tells whether a GPU accepts, in each round of creates, and
   * `deletes` whether a device can be deleted before that round.
   */
  class Client {
    const creates: (nat, int) -> bool
    const deletes: (nat, string) -> bool
    var book: Book
    var round: nat

    constructor (book: Book, creates: (nat, int) -> bool, deletes: (nat, string) -> bool)
      ensures this.book == book && this.creates == creates && this.deletes == deletes && round == 0
    {
      this.book, this.creates, this.deletes, round := book, creates, deletes, 0;
    }

    ghost function Held(): multiset<Profile>
      reads this
    {
      HeldOf(book)
    }

    /** A device is deleted by its id. */
    method DeleteMigDevice(id: string) returns (outcome: DeleteOutcome)
      modifies this`book
      ensures outcome == if id !in old(book) then NotFound else if deletes(round, id) then Removed else Failed
      ensures book == if outcome.Removed? then old(book) - {id} else old(book)
    {
      if id !in book {
        return NotFound;
      }
      if !deletes(round, id) {
        return Failed;
      }
      book := book - {id};
      return Removed;
    }

    /** All devices of one GPU are created, under new ids that the hardware chooses, or none of them. */
    method CreateOnGpu(g: int, profiles: seq<Profile>) returns (ok: bool)
      modifies this`book
      ensures ok <==> creates(round, g)
      ensures Extends(old(book), book)
      ensures Held() == if ok then old(Held()) + multiset(profiles) else old(Held())
    {
      hide HeldOf, Extends;
      ok := creates(round, g);
      NothingAdded(book);
      if !ok {
        return;
      }
      for i := 0 to |profiles|
        invariant Extends(old(book), book) && HeldOf(book) == HeldOf(old(book)) + multiset(profiles[..i])
      {
        assert profiles[..i + 1] == profiles[..i] + [profiles[i]];
        FreshId(book.Keys);
        var id :| id !in book;
        OneAdded(old(book), book, id, profiles[i], profiles[..i]);
        book := book[id := profiles[i]];
      }
      assert profiles[..|profiles|] == profiles;
    }

    /** One request per GPU, in any order; a GPU that refuses does not stop the others. */
    method CreateMigDevices(profiles: seq<Profile>) returns (created: seq<Profile>, failed: bool, ghost ok: set<int>)
      modifies this
      ensures Held() == old(Held()) + OnGpus(profiles, ok) && multiset(created) == OnGpus(profiles, ok)
      ensures failed <==> exists p :: p in profiles && p.gpu !in ok
      ensures forall g :: g in ok <==> creates(old(round), g) && exists p :: p in profiles && p.gpu == g
      ensures round == old(round) + 1
      ensures Extends(old(book), book)
    {
      hide OnGpus, Pick, Served, HeldOf;
      var groups := GroupBy(profiles, ProfileGpu);
      created, failed, ok := [], false, {};
      NoneServed(profiles, Held());
      var todo := groups.Keys;
      while todo != {}
        invariant todo <= groups.Keys && ok <= groups.Keys - todo
        invariant Served(profiles, old(Held()), Held(), created, ok) && Extends(old(book), book)
        invariant failed <==> ok != groups.Keys - todo
        invariant round == old(round) && forall g :: g in ok <==> g in groups.Keys - todo && creates(round, g)
      {
        var g := Any(todo);
        todo := todo - {g};
        var accepted;
        accepted, created := CreateGroup(g, groups[g], created, profiles, ok, old(Held()));
        if !accepted {
          failed := true;
          continue;
        }
        ok := ok + {g};
      }
      GroupsOf(profiles, groups.Keys, ok);
      round := round + 1;
      assert Served(profiles, old(Held()), Held(), created, ok);
      AllServed(profiles, old(Held()), Held(), created, ok);
    }

    /** The request to one GPU. */
    method CreateGroup(
      g: int, group: seq<Profile>, before: seq<Profile>, ghost profiles: seq<Profile>, ghost ok: set<int>,
      ghost start: multiset<Profile>)
      returns (accepted: bool, created: seq<Profile>)
      requires group == Pick(profiles, ProfileGpu, g) && g !in ok && Served(profiles, start, Held(), before, ok)
      modifies this`book
      ensures accepted <==> creates(round, g)
      ensures Served(profiles, start, Held(), created, if accepted then ok + {g} else ok) && Extends(old(book), book)
    {
      hide OnGpus, Pick, HeldOf;
      created := before;
      accepted := CreateOnGpu(g, group);
      if accepted {
        OnOneMoreGpu(profiles, ok, g);
        AddedGroup(start, before, group);
        created := before + group;
      }
    }
  }

  /** The devices of the GPUs in `ok` have been created, and are listed. */
  ghost predicate Served(
    profiles: seq<Profile>, start: multiset<Profile>, held: multiset<Profile>, created: seq<Profile>, ok: set<int>)
  {
    held == start + multiset(created) && multiset(created) == OnGpus(profiles, ok)
  }

  lemma NoneServed(profiles: seq<Profile>, held: multiset<Profile>)
    ensures Served(profiles, held, held, [], {})
  {
    OnNoGpus(profiles);
  }

  lemma AllServed(
    profiles: seq<Profile>, start: multiset<Profile>, held: multiset<Profile>, created: seq<Profile>, ok: set<int>)
    requires Served(profiles, start, held, created, ok)
    ensures held == start + OnGpus(profiles, ok) && multiset(created) == OnGpus(profiles, ok)
  {
  }

  lemma AddedGroup(start: multiset<Profile>, created: seq<Profile>, group: seq<Profile>)
    ensures start + multiset(created) + multiset(group) == start + multiset(created + group)
    ensures multiset(created + group) == multiset(created) + multiset(group)
  {
  }

  lemma GroupsOf(profiles: seq<Profile>, gpus: set<int>, ok: set<int>)
    requires forall g :: g in gpus <==> Pick(profiles, ProfileGpu, g) != []
    requires ok <= gpus
    ensures ok != gpus <==> exists p :: p in profiles && p.gpu !in ok
    ensures forall g :: g in gpus <==> exists p :: p in profiles && p.gpu == g
  {
    hide Pick;
    forall g ensures g in gpus <==> exists p :: p in profiles && p.gpu == g {
      GroupOfGpu(profiles, g);
    }
    if p :| p in profiles && p.gpu !in ok {
      assert p.gpu in gpus;
    }
    if g :| g in gpus && g !in ok {
      var p :| p in profiles && p.gpu == g;
    }
  }

  lemma {:induction false} OnNoGpus(profiles: seq<Profile>)
    ensures OnGpus(profiles, {}) == multiset{}
  {
    if profiles != [] {
      OnNoGpus(profiles[..|profiles| - 1]);
    }
  }

  lemma OnOneMoreGpu(profiles: seq<Profile>, gpus: set<int>, g: int)
    requires g !in gpus
    ensures OnGpus(profiles, gpus + {g}) == OnGpus(profiles, gpus) + multiset(Pick(profiles, ProfileGpu, g))
  {
    if profiles != [] {
      OnOneMoreGpu(profiles[..|profiles| - 1], gpus, g);
    }
  }

  lemma GroupOfGpu(profiles: seq<Profile>, g: int)
    ensures Pick(profiles, ProfileGpu, g) != [] <==> exists p :: p in profiles && p.gpu == g
  {
    hide Pick;
    PickMembers(profiles, ProfileGpu, g);
    var picked := Pick(profiles, ProfileGpu, g);
    if picked != [] {
      assert picked[0] in profiles && ProfileGpu(picked[0]) == g;
    }
    if p :| p in profiles && p.gpu == g {
      assert ProfileGpu(p) == g && p in picked;
    }
  }

  // ----- applying a plan -----

  predicate ContainsUsedResources(ops: seq<DeleteOperation>) {
    exists i | 0 <= i < |ops| :: exists d | d in ops[i].resources :: !IsFree(d)
  }

  lemma {:induction false} DeletedMembers(ops: seq<DeleteOperation>, d: Device)
    ensures d in Deleted(ops) <==> exists i :: 0 <= i < |ops| && d in ops[i].resources
  {
    if ops != [] {
      var n := |ops| - 1;
      DeletedMembers(ops[..n], d);
      if i :| 0 <= i < n && d in ops[i].resources {
        assert d in ops[..n][i].resources;
      }
    }
  }

  lemma ContainsUsedMeans(ops: seq<DeleteOperation>)
    ensures ContainsUsedResources(ops) <==> exists d :: d in Deleted(ops) && !IsFree(d)
  {
    hide Deleted;
    if i, d :| 0 <= i < |ops| && d in ops[i].resources && !IsFree(d) {
      DeletedMembers(ops, d);
    }
    if d :| d in Deleted(ops) && !IsFree(d) {
      DeletedMembers(ops, d);
    }
  }

  /** One profile per device to create. */
  method FlattenCreates(ops: seq<CreateOperation>) returns (profiles: seq<Profile>)
    ensures forall k :: multiset(profiles)[k] == Wished(ops, k)
  {
    profiles := [];
    for i := 0 to |ops|
      invariant forall k :: multiset(profiles)[k] == Wished(ops[..i], k)
    {
      assert ops[..i + 1][..i] == ops[..i];
      ghost var before := profiles;
      for j := 0 to Max(0, ops[i].quantity)
        invariant forall k :: multiset(profiles)[k] == multiset(before)[k] + if k == ops[i].profile then j else 0
      {
        profiles := profiles + [ops[i].profile];
      }
    }
    assert ops[..|ops|] == ops;
  }

  /** As `Created`, for lists in which a quantity could be negative. */
  ghost function Wished(ops: seq<CreateOperation>, k: Profile): nat {
    if ops == [] then 0 else
      var op := ops[|ops| - 1];
      Wished(ops[..|ops| - 1], k) + if op.profile == k then Max(0, op.quantity) else 0
  }

  /** The profiles of the free devices of a list. */
  ghost function FreeProfiles(s: seq<Device>): multiset<Profile> {
    if s == [] then multiset{} else
      var d := s[|s| - 1];
      FreeProfiles(s[..|s| - 1]) + if IsFree(d) then multiset{ProfileOf(d)} else multiset{}
  }

  lemma {:induction false} FreeProfilesCount(s: seq<Device>, k: Profile)
    ensures FreeProfiles(s)[k] == Tally(s, k, true)
  {
    if s != [] {
      FreeProfilesCount(s[..|s| - 1], k);
    }
  }

  lemma {:induction false} FreeProfilesAppend(a: seq<Device>, b: seq<Device>)
    ensures FreeProfiles(a + b) == FreeProfiles(a) + FreeProfiles(b)
  {
    if b == [] {
      assert a + b == a;
    } else {
      assert (a + b)[..|a + b| - 1] == a + b[..|b| - 1];
      FreeProfilesAppend(a, b[..|b| - 1]);
    }
  }

  /** `deleted` lists some of the free devices, and all of them exactly if nothing failed. */
  ghost predicate DeletedOf(deleted: seq<Profile>, devices: seq<Device>, failed: bool) {
    && multiset(deleted) <= FreeProfiles(devices)
    && if failed then |deleted| < |FreeProfiles(devices)| else multiset(deleted) == FreeProfiles(devices)
  }

  lemma DeletedAppend(d: seq<Profile>, s: seq<Device>, f: bool, d': seq<Profile>, s': seq<Device>, f': bool)
    requires DeletedOf(d, s, f) && DeletedOf(d', s', f')
    ensures DeletedOf(d + d', s + s', f || f')
  {
    hide FreeProfiles;
    FreeProfilesAppend(s, s');
    AtMost(d, FreeProfiles(s));
    AtMost(d', FreeProfiles(s'));
    assert multiset(d + d') == multiset(d) + multiset(d');
  }

  lemma AtMost(s: seq<Profile>, m: multiset<Profile>)
    requires multiset(s) <= m
    ensures |s| <= |m|
  {
    assert m == multiset(s) + (m - multiset(s));
  }

  lemma DeletedOne(d: Device, removed: bool)
    ensures DeletedOf([], [], false)
    ensures IsFree(d) ==> DeletedOf(if removed then [ProfileOf(d)] else [], [d], !removed)
    ensures !IsFree(d) ==> DeletedOf([], [d], false)
  {
    assert [d][..0] == [];
    assert FreeProfiles([d]) == if IsFree(d) then multiset{ProfileOf(d)} else multiset{};
  }

  /** Only listed devices are gone; all others are the same as before. */
  ghost predicate Spared(before: Book, after: Book, gone: seq<Device>) {
    forall id | id in before && !HasId(gone, id) :: id in after && after[id] == before[id]
  }

  lemma SparedAppend(a: Book, b: Book, c: Book, x: seq<Device>, y: seq<Device>)
    requires Spared(a, b, x) && Spared(b, c, y)
    ensures Spared(a, c, x + y)
  {
    forall id | id in a && !HasId(x + y, id) ensures id in c && c[id] == a[id] {
      assert forall d | d in x || d in y :: d in x + y;
    }
  }

  lemma NoneGone(book: Book)
    ensures Spared(book, book, [])
  {
  }

  lemma SparedOne(book: Book, d: Device)
    ensures Spared(book, book, [d]) && Spared(book, book - {d.id}, [d])
  {
    assert d in [d];
  }

  /** The devices are of the profiles that they are listed under, unless they are gone. */
  ghost predicate Truthful(book: Book, devices: seq<Device>) {
    forall d | d in devices && d.id in book :: book[d.id] == ProfileOf(d)
  }

  /** A listing of all the devices, each under its own profile. */
  ghost predicate ListingOf(devices: seq<Device>, book: Book) {
    && UniqueIds(devices) && (forall d | d in devices :: d.id in book && book[d.id] == ProfileOf(d))
    && forall id | id in book :: HasId(devices, id)
  }

  /** There is one, whatever the statuses. */
  lemma {:induction false} AnyListing(book: Book, status: Status) returns (devices: seq<Device>)
    ensures ListingOf(devices, book)
    decreases |book|
  {
    devices := [];
    if book != map[] {
      var id := SomeIn(book.Keys);
      RemoveShrinks(book, id);
      var rest := AnyListing(book - {id}, status);
      devices := rest + [Device(id, book[id].gpu, book[id].name, status)];
      ListingMore(rest, book, id, status);
    }
  }

  lemma ListingMore(rest: seq<Device>, book: Book, id: string, status: Status)
    requires id in book && ListingOf(rest, book - {id})
    ensures ListingOf(rest + [Device(id, book[id].gpu, book[id].name, status)], book)
  {
    var d := Device(id, book[id].gpu, book[id].name, status);
    var devices := rest + [d];
    assert d in devices && ProfileOf(d) == book[id];
    forall other | other in book ensures HasId(devices, other) {
      if other != id {
        assert HasId(rest, other);
        var e :| e in rest && e.id == other;
        assert e in devices;
      }
    }
  }

  /** Such a listing counts what is held. */
  lemma {:induction false} ListingCounts(devices: seq<Device>, book: Book, k: Profile)
    requires ListingOf(devices, book)
    ensures HeldOf(book)[k] == Num(devices, k)
  {
    if devices == [] {
      NothingListed(devices, book);
    } else {
      hide ListingOf, HeldOf;
      var n := |devices| - 1;
      ListingLess(devices, book);
      ListingCounts(devices[..n], book - {devices[n].id}, k);
      HeldRemove(book, devices[n].id);
    }
  }

  lemma NothingListed(devices: seq<Device>, book: Book)
    requires devices == [] && ListingOf(devices, book)
    ensures book == map[]
  {
    if id :| id in book {
      assert false;
    }
  }

  lemma ListingLess(devices: seq<Device>, book: Book)
    requires devices != [] && ListingOf(devices, book)
    ensures var d := devices[|devices| - 1];
            && d.id in book && book[d.id] == ProfileOf(d) && ListingOf(devices[..|devices| - 1], book - {d.id})
  {
    hide HasId;
    var n := |devices| - 1;
    assert devices[n] in devices;
    forall id | id in book && id != devices[n].id ensures HasId(devices[..n], id) {
      LessIds(devices, id);
    }
  }

  lemma LessIds(devices: seq<Device>, id: string)
    requires devices != [] && HasId(devices, id) && id != devices[|devices| - 1].id
    ensures HasId(devices[..|devices| - 1], id)
  {
    var i :| 0 <= i < |devices| && devices[i].id == id;
    assert devices[..|devices| - 1][i].id == id;
  }

  /** What deleting does: `deleted` are the profiles of the devices that went. */
  ghost predicate Shrunk(before: Book, after: Book, deleted: seq<Profile>, gone: seq<Device>) {
    && HeldOf(after) + multiset(deleted) == HeldOf(before)
    && Extends(after, before) && Spared(before, after, gone)
  }

  lemma NoneShrunk(book: Book)
    ensures Shrunk(book, book, [], [])
  {
    NoneGone(book);
  }

  lemma ShrunkAppend(a: Book, b: Book, c: Book, d: seq<Profile>, d': seq<Profile>, x: seq<Device>, y: seq<Device>)
    requires Shrunk(a, b, d, x) && Shrunk(b, c, d', y)
    ensures Shrunk(a, c, d + d', x + y)
  {
    hide HeldOf, Spared;
    SparedAppend(a, b, c, x, y);
    assert multiset(d + d') == multiset(d) + multiset(d');
  }

  /** The ids of the free devices of a list that the hardware lets go. */
  ghost function GoneIds(s: seq<Device>, deletes: (nat, string) -> bool, round: nat): set<string> {
    set d | d in s && IsFree(d) && deletes(round, d.id) :: d.id
  }

  lemma GoneAppend(book: Book, a: seq<Device>, b: seq<Device>, deletes: (nat, string) -> bool, round: nat)
    ensures book - GoneIds(a + b, deletes, round) == book - GoneIds(a, deletes, round) - GoneIds(b, deletes, round)
    ensures book - GoneIds([], deletes, round) == book
  {
    assert GoneIds(a + b, deletes, round) == GoneIds(a, deletes, round) + GoneIds(b, deletes, round);
    assert GoneIds([], deletes, round) == {};
  }

  /** One device: skipped if it is not free, and reported if it was deleted. */
  method DeleteFree(client: Client, d: Device) returns (deleted: seq<Profile>, failed: bool)
    requires Truthful(client.book, [d])
    modifies client`book
    ensures client.book == old(client.book) - GoneIds([d], client.deletes, client.round)
    ensures DeletedOf(deleted, [d], failed) && Shrunk(old(client.book), client.book, deleted, [d])
  {
    hide DeletedOf, Spared, HeldOf;
    deleted, failed := [], false;
    ghost var book := client.book;
    SparedOne(book, d);
    GoneOne(book, d, client.deletes, client.round);
    if !IsFree(d) {
      DeletedOne(d, false);
      return;
    }
    var outcome := client.DeleteMigDevice(d.id);
    DeletedOne(d, outcome.Removed?);
    if outcome.Removed? {
      assert d in [d];
      HeldRemove(book, d.id);
      deleted := [ProfileOf(d)];
    } else {
      failed := true;
    }
  }

  lemma GoneOne(book: Book, d: Device, deletes: (nat, string) -> bool, round: nat)
    ensures book - GoneIds([d], deletes, round)
            == if IsFree(d) && d.id in book && deletes(round, d.id) then book - {d.id} else book
  {
    assert GoneIds([d], deletes, round) == if IsFree(d) && deletes(round, d.id) then {d.id} else {} by {
      assert d in [d];
    }
  }

  /** All devices of an operation, one profile per deleted device. */
  method ApplyDeleteOp(client: Client, op: DeleteOperation) returns (deleted: seq<Profile>, failed: bool)
    requires Truthful(client.book, op.resources)
    modifies client`book
    ensures client.book == old(client.book) - GoneIds(op.resources, client.deletes, client.round)
    ensures DeletedOf(deleted, op.resources, failed) && Shrunk(old(client.book), client.book, deleted, op.resources)
  {
    hide DeletedOf, Shrunk, GoneIds;
    deleted, failed := [], false;
    ghost var before, answers, round := client.book, client.deletes, client.round;
    NoneShrunk(before);
    GoneAppend(before, [], [], answers, round);
    assert DeletedOf([], [], false) by { DeletedOne(Device("", 0, "", Free), true); }
    for i := 0 to |op.resources|
      invariant DeletedOf(deleted, op.resources[..i], failed)
      invariant Shrunk(before, client.book, deleted, op.resources[..i])
      invariant client.book == before - GoneIds(op.resources[..i], answers, round)
    {
      GoneAppend(before, op.resources[..i], [op.resources[i]], answers, round);
      assert op.resources[..i + 1] == op.resources[..i] + [op.resources[i]];
      ghost var now := client.book;
      StillTruthful(before, now, deleted, op.resources[..i], op.resources, [op.resources[i]]);
      var d, f := DeleteFree(client, op.resources[i]);
      ShrunkAppend(before, now, client.book, deleted, d, op.resources[..i], [op.resources[i]]);
      DeletedAppend(deleted, op.resources[..i], failed, d, [op.resources[i]], f);
      deleted, failed := deleted + d, failed || f;
    }
    assert op.resources[..|op.resources|] == op.resources;
  }

  lemma StillTruthful(
    before: Book, now: Book, deleted: seq<Profile>, gone: seq<Device>, all: seq<Device>, some: seq<Device>)
    requires Shrunk(before, now, deleted, gone) && Truthful(before, all) && forall d | d in some :: d in all
    ensures Truthful(now, some)
  {
    hide HeldOf, Spared;
  }

  /** All delete operations; an operation that fails does not stop the others. */
  method ApplyDeletes(client: Client, ops: seq<DeleteOperation>) returns (deleted: seq<Profile>, failed: bool)
    requires Truthful(client.book, Deleted(ops))
    modifies client`book
    ensures client.book == old(client.book) - GoneIds(Deleted(ops), client.deletes, client.round)
    ensures DeletedOf(deleted, Deleted(ops), failed) && Shrunk(old(client.book), client.book, deleted, Deleted(ops))
  {
    hide DeletedOf, Shrunk, Truthful, GoneIds;
    deleted, failed := [], false;
    ghost var before, answers, round := client.book, client.deletes, client.round;
    NoneShrunk(before);
    GoneAppend(before, [], [], answers, round);
    assert DeletedOf([], [], false) by { DeletedOne(Device("", 0, "", Free), true); }
    for i := 0 to |ops|
      invariant DeletedOf(deleted, Deleted(ops[..i]), failed)
      invariant Shrunk(before, client.book, deleted, Deleted(ops[..i]))
      invariant client.book == before - GoneIds(Deleted(ops[..i]), answers, round)
    {
      GoneAppend(before, Deleted(ops[..i]), ops[i].resources, answers, round);
      assert ops[..i + 1][..i] == ops[..i];
      ghost var now := client.book;
      forall d | d in ops[i].resources ensures d in Deleted(ops) {
        DeletedMembers(ops, d);
      }
      StillTruthful(before, now, deleted, Deleted(ops[..i]), Deleted(ops), ops[i].resources);
      var d, f := ApplyDeleteOp(client, ops[i]);
      ShrunkAppend(before, now, client.book, deleted, d, Deleted(ops[..i]), ops[i].resources);
      DeletedAppend(deleted, Deleted(ops[..i]), failed, d, ops[i].resources, f);
      deleted, failed := deleted + d, failed || f;
    }
    assert ops[..|ops|] == ops;
  }

  datatype Outcome = Refused | Done | Incomplete

  /** What an apply did: the devices that went, and the GPUs on which creates and rollback succeeded. */
  datatype Trace = Trace(deleted: multiset<Profile>, created: set<int>, rolledBack: bool, restored: set<int>)

  /** The ledger of an apply, at one profile. */
  ghost predicate Accounts(
    before: multiset<Profile>, after: multiset<Profile>, plan: MigConfigPlan, t: Trace, k: Profile)
  {
    && t.deleted[k] <= before[k]
    && after[k] == before[k] - t.deleted[k]
                   + (if k.gpu in t.created then Wished(plan.createOps, k) else 0)
                   + (if t.rolledBack && k.gpu in t.restored then t.deleted[k] else 0)
  }

  ghost predicate DeletesBusy(plan: MigConfigPlan) {
    exists d :: d in Deleted(plan.deleteOps) && !IsFree(d)
  }

  /** Every device that the plan creates was accepted by its GPU. */
  ghost predicate AllCreated(plan: MigConfigPlan, created: set<int>) {
    forall k | Wished(plan.createOps, k) > 0 :: k.gpu in created
  }

  /** What an apply does to the devices held, and how it ends; `restarts` tells if the device plugin comes up again. */
  ghost predicate Effect(
    before: multiset<Profile>, after: multiset<Profile>, plan: MigConfigPlan,
    restarts: bool, outcome: Outcome, t: Trace)
  {
    if DeletesBusy(plan) then outcome == Refused && after == before else
      && t.deleted <= FreeProfiles(Deleted(plan.deleteOps))
      && (forall k :: Accounts(before, after, plan, t, k))
      && (t.rolledBack <==> t.deleted != multiset{} && !AllCreated(plan, t.created))
      && outcome == if t.deleted == FreeProfiles(Deleted(plan.deleteOps)) && AllCreated(plan, t.created) && restarts
                    then Done else Incomplete
  }

  /**
   * Deletes, creates and rollback are tried on all devices and GPUs, and the answers of the hardware alone decide what
   * becomes of them: what is deleted is what the hardware lets go, creates succeed on the GPUs that accept, and so does
   * the rollback.
   */
  ghost predicate Answered(
    book: Book, creates: (nat, int) -> bool, deletes: (nat, string) -> bool, round: nat, plan: MigConfigPlan, t: Trace)
  {
    && HeldOf(book - GoneIds(Deleted(plan.deleteOps), deletes, round)) + t.deleted == HeldOf(book)
    && (forall g :: g in t.created <==> creates(round, g) && WishedFor(plan, g))
    && (t.rolledBack ==> forall g :: g in t.restored <==> creates(round + 1, g) && TouchesGpu(t.deleted, g))
  }

  ghost predicate WishedFor(plan: MigConfigPlan, g: int) {
    exists k :: Wished(plan.createOps, k) > 0 && k.gpu == g
  }

  ghost predicate TouchesGpu(profiles: multiset<Profile>, g: int) {
    exists k :: k in profiles && k.gpu == g
  }

  /**
   * Applies a plan. A plan that would delete a device in use is refused outright. Otherwise the deletes come first,
   * then the creates GPU by GPU, and if any create fails every deleted profile is created again.
   */
  method Apply(client: Client, plan: MigConfigPlan, restarts: bool) returns (outcome: Outcome, ghost t: Trace)
    requires Truthful(client.book, Deleted(plan.deleteOps))
    modifies client
    ensures Effect(old(client.Held()), client.Held(), plan, restarts, outcome, t)
    ensures outcome.Refused? <==> exists d :: d in Deleted(plan.deleteOps) && !IsFree(d)
    ensures outcome.Refused? ==> client.book == old(client.book)
    ensures Spared(old(client.book), client.book, if outcome.Refused? then [] else Deleted(plan.deleteOps))
    ensures !outcome.Refused? ==>
              Answered(old(client.book), client.creates, client.deletes, old(client.round), plan, t)
  {
    hide OnGpus, Wished, FreeProfiles, Deleted, DeletedOf, AllCreated, Spared, Accounts, HeldOf, Truthful, GoneIds;
    hide Answered, Extends, Shrunk;
    t := Trace(multiset{}, {}, false, {});
    ContainsUsedMeans(plan.deleteOps);
    if ContainsUsedResources(plan.deleteOps) {
      // The spec annotations are cleared, so that the partitioner computes a new plan.
      NoneGone(client.book);
      return Refused, t;
    }
    ghost var before, start, round := client.Held(), client.book, client.round;
    var deleted, failed := ApplyDeletes(client, plan.deleteOps);
    ghost var left, rest := client.Held(), client.book;
    ShrunkMeans(start, rest, deleted, Deleted(plan.deleteOps));
    var profiles := FlattenCreates(plan.createOps);
    var createFailed;
    ghost var ok, restored;
    createFailed, ok, restored := CreateOrRollBack(client, profiles, deleted);
    t := Trace(multiset(deleted), ok, createFailed && |deleted| > 0, restored);
    // When all creates succeed a restart is always due.
    outcome := if failed || createFailed || !restarts then Incomplete else Done;
    CreatesAsWished(plan, profiles, ok);
    AnsweredOf(start, rest, client.creates, client.deletes, round, plan, deleted, profiles, t);
    LedgerOf(before, left, client.Held(), plan, deleted, profiles, t);
    EffectOf(before, client.Held(), plan, restarts, deleted, failed, createFailed, t);
    SparedGrows(start, rest, client.book, Deleted(plan.deleteOps));
  }

  lemma ShrunkMeans(before: Book, after: Book, deleted: seq<Profile>, gone: seq<Device>)
    requires Shrunk(before, after, deleted, gone)
    ensures HeldOf(after) + multiset(deleted) == HeldOf(before) && Spared(before, after, gone)
  {
    hide HeldOf, Spared;
  }

  /** The creates, and after a failure one more round of creates for what was deleted. */
  method CreateOrRollBack(client: Client, profiles: seq<Profile>, deleted: seq<Profile>)
    returns (failed: bool, ghost ok: set<int>, ghost restored: set<int>)
    modifies client
    ensures failed <==> exists p :: p in profiles && p.gpu !in ok
    ensures client.Held()
            == old(client.Held()) + OnGpus(profiles, ok)
               + if failed && |deleted| > 0 then OnGpus(deleted, restored) else multiset{}
    ensures forall g :: g in ok <==> client.creates(old(client.round), g) && exists p :: p in profiles && p.gpu == g
    ensures failed && |deleted| > 0 ==>
              forall g :: g in restored
                <==> client.creates(old(client.round) + 1, g) && exists p :: p in deleted && p.gpu == g
    ensures Extends(old(client.book), client.book)
  {
    hide OnGpus, HeldOf;
    var created;
    created, failed, ok := client.CreateMigDevices(profiles);
    restored := {};
    if failed && |deleted| > 0 {
      var again, againFailed;
      again, againFailed, restored := client.CreateMigDevices(deleted);
    }
  }

  lemma AnsweredOf(
    book: Book, rest: Book, creates: (nat, int) -> bool, deletes: (nat, string) -> bool, round: nat,
    plan: MigConfigPlan, deleted: seq<Profile>, profiles: seq<Profile>, t: Trace)
    requires rest == book - GoneIds(Deleted(plan.deleteOps), deletes, round)
    requires HeldOf(rest) + multiset(deleted) == HeldOf(book) && t.deleted == multiset(deleted)
    requires forall k :: multiset(profiles)[k] == Wished(plan.createOps, k)
    requires forall g :: g in t.created <==> creates(round, g) && exists p :: p in profiles && p.gpu == g
    requires t.rolledBack ==>
               forall g :: g in t.restored <==> creates(round + 1, g) && exists p :: p in deleted && p.gpu == g
    ensures Answered(book, creates, deletes, round, plan, t)
  {
    hide HeldOf, Wished, GoneIds, Deleted;
    assert forall k :: (k in profiles <==> k in multiset(profiles)) && (k in deleted <==> k in t.deleted);
    forall g ensures (exists p :: p in profiles && p.gpu == g) <==> WishedFor(plan, g) {
      if p :| p in profiles && p.gpu == g {
        assert Wished(plan.createOps, p) > 0;
      }
    }
    forall g ensures (exists p :: p in deleted && p.gpu == g) <==> TouchesGpu(t.deleted, g) {
    }
  }

  lemma SparedGrows(before: Book, left: Book, after: Book, gone: seq<Device>)
    requires Spared(before, left, gone) && Extends(left, after)
    ensures Spared(before, after, gone)
  {
  }

  lemma LedgerOf(
    before: multiset<Profile>, left: multiset<Profile>, after: multiset<Profile>, plan: MigConfigPlan,
    deleted: seq<Profile>, profiles: seq<Profile>, t: Trace)
    requires left + multiset(deleted) == before && t.deleted == multiset(deleted)
    requires forall k :: multiset(profiles)[k] == Wished(plan.createOps, k)
    requires after == left + OnGpus(profiles, t.created)
             + if t.rolledBack then OnGpus(deleted, t.restored) else multiset{}
    ensures forall k :: Accounts(before, after, plan, t, k)
  {
    hide OnGpus, Wished;
    forall k ensures Accounts(before, after, plan, t, k) {
      OnGpusCount(profiles, t.created, k);
      OnGpusCount(deleted, t.restored, k);
      assert before[k] == left[k] + multiset(deleted)[k];
    }
  }

  lemma EffectOf(
    before: multiset<Profile>, after: multiset<Profile>, plan: MigConfigPlan, restarts: bool,
    deleted: seq<Profile>, failed: bool, createFailed: bool, t: Trace)
    requires !DeletesBusy(plan) && DeletedOf(deleted, Deleted(plan.deleteOps), failed)
    requires t.deleted == multiset(deleted) && (createFailed <==> !AllCreated(plan, t.created))
    requires t.rolledBack == (createFailed && |deleted| > 0) && forall k :: Accounts(before, after, plan, t, k)
    ensures Effect(before, after, plan, restarts, if failed || createFailed || !restarts then Incomplete else Done, t)
  {
    hide FreeProfiles, Deleted, AllCreated, Accounts, DeletesBusy;
    assert |multiset(deleted)| == |deleted|;
  }

  lemma CreatesAsWished(plan: MigConfigPlan, profiles: seq<Profile>, ok: set<int>)
    requires forall k :: multiset(profiles)[k] == Wished(plan.createOps, k)
    ensures AllCreated(plan, ok) <==> !exists p :: p in profiles && p.gpu !in ok
  {
    hide Wished;
    assert forall k :: k in profiles <==> k in multiset(profiles);
  }

  // ----- consequences -----

  /** If creates are refused on every GPU and the rollback reaches every GPU that lost a device, nothing has changed. */
  lemma RollbackRestores(before: multiset<Profile>, after: multiset<Profile>, plan: MigConfigPlan, t: Trace)
    requires forall k :: Accounts(before, after, plan, t, k)
    requires t.created == {} && t.rolledBack && forall k | k in t.deleted :: k.gpu in t.restored
    ensures after == before
  {
    forall k ensures after[k] == before[k] {
      assert Accounts(before, after, plan, t, k);
    }
  }

  /**
   * If creates fail after devices were deleted, no profile ends with fewer devices than before, provided that the GPUs
   * that lost devices accept the rollback.
   */
  lemma RollbackBringsBack(
    book: Book, creates: (nat, int) -> bool, deletes: (nat, string) -> bool, round: nat, after: multiset<Profile>,
    plan: MigConfigPlan, restarts: bool, outcome: Outcome, t: Trace)
    requires Effect(HeldOf(book), after, plan, restarts, outcome, t) && !DeletesBusy(plan)
    requires Answered(book, creates, deletes, round, plan, t)
    requires exists k :: Wished(plan.createOps, k) > 0 && !creates(round, k.gpu)
    requires forall k | k in t.deleted :: creates(round + 1, k.gpu)
    ensures after >= HeldOf(book)
  {
    hide HeldOf, Wished, Deleted, FreeProfiles, GoneIds;
    var refused :| Wished(plan.createOps, refused) > 0 && !creates(round, refused.gpu);
    assert !AllCreated(plan, t.created);
    forall k ensures after[k] >= HeldOf(book)[k] {
      assert Accounts(HeldOf(book), after, plan, t, k);
      assert k in t.deleted ==> TouchesGpu(t.deleted, k.gpu);
    }
  }

  /** The hardware does everything that is asked for the plan. */
  ghost predicate Cooperates(
    book: Book, creates: (nat, int) -> bool, deletes: (nat, string) -> bool, round: nat, plan: MigConfigPlan)
  {
    && (forall d | d in Deleted(plan.deleteOps) :: d.id in book && deletes(round, d.id))
    && (forall k | Wished(plan.createOps, k) > 0 :: creates(round, k.gpu))
  }

  /** Hardware that never refuses. */
  ghost predicate Reliable(creates: (nat, int) -> bool, deletes: (nat, string) -> bool) {
    (forall n, g :: creates(n, g)) && forall n, id :: deletes(n, id)
  }

  lemma {:induction false} GoneHeld(book: Book, s: seq<Device>, deletes: (nat, string) -> bool, round: nat)
    requires UniqueIds(s) && Truthful(book, s) && forall d | d in s :: IsFree(d) && d.id in book && deletes(round, d.id)
    ensures HeldOf(book - GoneIds(s, deletes, round)) + FreeProfiles(s) == HeldOf(book)
  {
    hide HeldOf, GoneIds;
    if s == [] {
      GoneAppend(book, [], [], deletes, round);
    } else {
      var n := |s| - 1;
      var d := s[n];
      assert s == s[..n] + [d] && d in s;
      var less := book - GoneIds(s[..n], deletes, round);
      GoneHeld(book, s[..n], deletes, round);
      GoneAppend(book, s[..n], [d], deletes, round);
      StillThere(book, s, deletes, round);
      GoneOne(less, d, deletes, round);
      HeldRemove(less, d.id);
    }
  }

  lemma StillThere(book: Book, s: seq<Device>, deletes: (nat, string) -> bool, round: nat)
    requires s != [] && UniqueIds(s) && Truthful(book, s) && s[|s| - 1].id in book
    ensures var d, less := s[|s| - 1], book - GoneIds(s[..|s| - 1], deletes, round);
            d.id in less && less[d.id] == ProfileOf(d)
  {
    assert s[|s| - 1] in s;
  }

  /** An apply is carried out in full exactly when the hardware does all that is asked, and the plugin restarts. */
  lemma DoneExactlyWhen(
    book: Book, creates: (nat, int) -> bool, deletes: (nat, string) -> bool, round: nat, after: multiset<Profile>,
    plan: MigConfigPlan, restarts: bool, outcome: Outcome, t: Trace)
    requires Effect(HeldOf(book), after, plan, restarts, outcome, t) && !DeletesBusy(plan)
    requires Answered(book, creates, deletes, round, plan, t)
    requires UniqueIds(Deleted(plan.deleteOps)) && Truthful(book, Deleted(plan.deleteOps))
    requires forall d | d in Deleted(plan.deleteOps) :: d.id in book
    ensures outcome.Done? <==> Cooperates(book, creates, deletes, round, plan) && restarts
  {
    hide HeldOf, Wished, Deleted, FreeProfiles, GoneIds, Truthful, Accounts, UniqueIds;
    var gone := Deleted(plan.deleteOps);
    forall k | Wished(plan.createOps, k) > 0 ensures k.gpu in t.created <==> creates(round, k.gpu) {
      assert WishedFor(plan, k.gpu);
    }
    if forall d | d in gone :: deletes(round, d.id) {
      GoneHeld(book, gone, deletes, round);
      assert t.deleted == FreeProfiles(gone) by {
        SameSummand(HeldOf(book - GoneIds(gone, deletes, round)), t.deleted, FreeProfiles(gone));
      }
    } else {
      FewerGone(book, gone, deletes, round, t.deleted);
    }
  }

  lemma SameSummand(a: multiset<Profile>, b: multiset<Profile>, c: multiset<Profile>)
    requires a + b == a + c
    ensures b == c
  {
    forall k ensures b[k] == c[k] {
      assert (a + b)[k] == a[k] + b[k] && (a + c)[k] == a[k] + c[k];
    }
  }

  /** If the hardware keeps one of the devices, not all of them are counted as deleted. */
  lemma FewerGone(
    book: Book, s: seq<Device>, deletes: (nat, string) -> bool, round: nat, deleted: multiset<Profile>)
    requires UniqueIds(s) && Truthful(book, s) && (forall d | d in s :: IsFree(d) && d.id in book)
    requires HeldOf(book - GoneIds(s, deletes, round)) + deleted == HeldOf(book)
    requires exists d :: d in s && !deletes(round, d.id)
    ensures deleted != FreeProfiles(s)
  {
    hide HeldOf, FreeProfiles, GoneIds;
    var all := (n: nat, id: string) => true;
    GoneHeld(book, s, all, round);
    var d :| d in s && !deletes(round, d.id);
    var left, none := book - GoneIds(s, deletes, round), book - GoneIds(s, all, round);
    MoreLeft(book, s, deletes, all, round, d);
    HeldRemove(left, d.id);
    HeldSubmap(none, left - {d.id});
    var p := left[d.id];
    assert HeldOf(left)[p] > HeldOf(none)[p];
    assert (HeldOf(none) + FreeProfiles(s))[p] == (HeldOf(left) + deleted)[p];
  }

  lemma MoreLeft(
    book: Book, s: seq<Device>, deletes: (nat, string) -> bool, all: (nat, string) -> bool, round: nat, d: Device)
    requires UniqueIds(s) && d in s && d.id in book && !deletes(round, d.id) && forall n, id :: all(n, id)
    requires forall e | e in s :: IsFree(e)
    ensures var left, none := book - GoneIds(s, deletes, round), book - GoneIds(s, all, round);
            d.id in left && Extends(none, left - {d.id})
  {
    assert d.id in GoneIds(s, all, round);
    assert d.id !in GoneIds(s, deletes, round) by {
      var i :| 0 <= i < |s| && s[i] == d;
      assert forall e | e in s && e.id == d.id :: e == d;
    }
  }

  lemma {:induction false} HeldSubmap(a: Book, b: Book)
    requires Extends(a, b)
    ensures HeldOf(a) <= HeldOf(b)
    decreases |a|
  {
    hide HeldOf;
    if a == map[] {
      NothingHeld();
    } else {
      var id := SomeIn(a.Keys);
      RemoveShrinks(a, id);
      HeldSubmap(a - {id}, b - {id});
      HeldRemove(a, id);
      HeldRemove(b, id);
    }
  }

  lemma NothingHeld()
    ensures HeldOf(map[]) == multiset{}
  {
  }

  /** All devices that the plan creates are on the same GPU. */
  ghost predicate OneGpu(plan: MigConfigPlan) {
    forall j, k | Wished(plan.createOps, j) > 0 && Wished(plan.createOps, k) > 0 :: j.gpu == k.gpu
  }

  /** A create failed, and every deleted device was created again. */
  ghost predicate FullRollback(t: Trace) {
    t.rolledBack && forall k | k in t.deleted :: k.gpu in t.restored
  }

  lemma OneGpuRestores(
    before: multiset<Profile>, after: multiset<Profile>, plan: MigConfigPlan,
    restarts: bool, outcome: Outcome, t: Trace)
    requires Effect(before, after, plan, restarts, outcome, t) && !DeletesBusy(plan) && FullRollback(t) && OneGpu(plan)
    ensures after == before
  {
    hide Wished, Deleted, FreeProfiles;
    var refused :| Wished(plan.createOps, refused) > 0 && refused.gpu !in t.created;
    forall k ensures after[k] == before[k] {
      assert Accounts(before, after, plan, t, k);
      assert Wished(plan.createOps, k) > 0 ==> k.gpu == refused.gpu;
    }
  }

  /** The devices that a plan creates on one GPU. */
  ghost function WishedOn(ops: seq<CreateOperation>, g: int): multiset<Profile> {
    if ops == [] then multiset{} else
      var op := ops[|ops| - 1];
      WishedOn(ops[..|ops| - 1], g)
      + if op.profile.gpu == g then multiset{}[op.profile := Max(0, op.quantity)] else multiset{}
  }

  lemma {:induction false} WishedOnCount(ops: seq<CreateOperation>, g: int, k: Profile)
    ensures WishedOn(ops, g)[k] == if k.gpu == g then Wished(ops, k) else 0
  {
    if ops != [] {
      WishedOnCount(ops[..|ops| - 1], g, k);
    }
  }

  /** Two GPUs with creates: one may accept while the other refuses, and then the rollback comes on top. */
  lemma TwoGpusOvershoot(before: multiset<Profile>, plan: MigConfigPlan, restarts: bool)
    returns (after: multiset<Profile>, t: Trace)
    requires !DeletesBusy(plan) && !OneGpu(plan)
    requires multiset{} != FreeProfiles(Deleted(plan.deleteOps)) <= before
    ensures Effect(before, after, plan, restarts, Incomplete, t) && FullRollback(t) && after > before
  {
    hide Wished, Deleted, FreeProfiles;
    var gone := FreeProfiles(Deleted(plan.deleteOps));
    var j, k :| Wished(plan.createOps, j) > 0 && Wished(plan.createOps, k) > 0 && j.gpu != k.gpu;
    var added := WishedOn(plan.createOps, j.gpu);
    after := before + added;
    t := Trace(gone, {j.gpu}, true, set p | p in gone :: p.gpu);
    forall p ensures Accounts(before, after, plan, t, p) {
      WishedOnCount(plan.createOps, j.gpu, p);
    }
    WishedOnCount(plan.createOps, j.gpu, j);
    assert after[j] > before[j];
    assert !AllCreated(plan, t.created);
  }

  /**
   * A plan that deletes a held device is sure to be undone by every full rollback exactly when all its creates are on
   * one GPU.
   */
  lemma RollbackRestoresExactlyWhen(before: multiset<Profile>, plan: MigConfigPlan, restarts: bool)
    requires !DeletesBusy(plan) && multiset{} != FreeProfiles(Deleted(plan.deleteOps)) <= before
    ensures OneGpu(plan)
            <==> forall after, outcome, t | Effect(before, after, plan, restarts, outcome, t) && FullRollback(t)
                 :: after == before
  {
    hide Effect, FullRollback, OneGpu, DeletesBusy, FreeProfiles, Deleted;
    if OneGpu(plan) {
      forall after, outcome, t | Effect(before, after, plan, restarts, outcome, t) && FullRollback(t)
        ensures after == before {
        OneGpuRestores(before, after, plan, restarts, outcome, t);
      }
    } else {
      var after, t := TwoGpusOvershoot(before, plan, restarts);
    }
  }

  lemma DesiredOfTwo(a: SpecAnnotation, b: SpecAnnotation, k: Profile)
    ensures Desired([a, b], k) == (if SpecProfile(a) == k then a.quantity else 0)
            + if SpecProfile(b) == k then b.quantity else 0
  {
    assert [a, b][..1] == [a] && [a][..0] == [];
    assert Desired([a], k) == if SpecProfile(a) == k then a.quantity else 0;
  }

  lemma CreatedOfTwo(a: CreateOperation, b: CreateOperation, k: Profile)
    requires a.quantity >= 0 && b.quantity >= 0
    ensures Created([a, b], k) == Wished([a, b], k)
            == (if a.profile == k then a.quantity else 0) + if b.profile == k then b.quantity else 0
  {
    assert [a, b][..1] == [a] && [a][..0] == [];
    assert Created([a], k) == Wished([a], k) == if a.profile == k then a.quantity else 0;
  }

  lemma DeletedOfOne(d: Device)
    ensures Deleted([DeleteOperation([d])]) == [d]
    ensures FreeProfiles([d]) == if IsFree(d) then multiset{ProfileOf(d)} else multiset{}
  {
    assert [DeleteOperation([d])][..0] == [] && [d][..0] == [];
  }

  /** The example: a free device to go on GPU 0, and one to be created on GPU 0 and on GPU 1. */
  lemma ExampleCounts(
    devices: seq<Device>, specs: seq<SpecAnnotation>, plan: MigConfigPlan,
    old0: Profile, new0: Profile, new1: Profile, k: Profile)
    requires old0 == Profile(0, "1g.5gb") && new0 == Profile(0, "2g.10gb") && new1 == Profile(1, "2g.10gb")
    requires devices == [Device("a", 0, "1g.5gb", Free)]
    requires specs == [SpecAnnotation("2g.10gb", 0, 1), SpecAnnotation("2g.10gb", 1, 1)]
    requires plan == MigConfigPlan([DeleteOperation(devices)], [CreateOperation(new0, 1), CreateOperation(new1, 1)])
    ensures Desired(specs, k) == (if k == new0 then 1 else 0) + if k == new1 then 1 else 0
    ensures Tally(devices, k, true) == (if k == old0 then 1 else 0) && Tally(devices, k, false) == 0
    ensures Deleted(plan.deleteOps) == devices && FreeProfiles(devices) == multiset{old0}
    ensures Created(plan.createOps, k) == Wished(plan.createOps, k) == Desired(specs, k)
  {
    hide Desired, Created, Wished, Tally, Deleted, FreeProfiles;
    DesiredOfTwo(specs[0], specs[1], k);
    CreatedOfTwo(plan.createOps[0], plan.createOps[1], k);
    TallyOne(devices[0], k, true);
    TallyOne(devices[0], k, false);
    DeletedOfOne(devices[0]);
  }

  lemma ExamplePlan(
    devices: seq<Device>, specs: seq<SpecAnnotation>, plan: MigConfigPlan, old0: Profile, new0: Profile, new1: Profile)
    requires old0 == Profile(0, "1g.5gb") && new0 == Profile(0, "2g.10gb") && new1 == Profile(1, "2g.10gb")
    requires devices == [Device("a", 0, "1g.5gb", Free)]
    requires specs == [SpecAnnotation("2g.10gb", 0, 1), SpecAnnotation("2g.10gb", 1, 1)]
    requires plan == MigConfigPlan([DeleteOperation(devices)], [CreateOperation(new0, 1), CreateOperation(new1, 1)])
    ensures IsPlanFor(devices, specs, plan)
  {
    hide Tally, Desired, Created, Deleted;
    ExampleCounts(devices, specs, plan, old0, new0, new1, new0);
    ExampleCounts(devices, specs, plan, old0, new0, new1, new1);
    assert Desired(specs, new0) > Num(devices, new0) && Desired(specs, new1) > Num(devices, new1);
    forall k: Profile
      ensures if Grows(devices, specs, k.gpu) then Rebuilt(devices, specs, plan, k)
              else Balanced(devices, specs, plan, k)
    {
      ExampleCounts(devices, specs, plan, old0, new0, new1, k);
    }
    assert !InSync(devices, specs);
  }

  /**
   * A plan of the planner that an apply can carry out like this: GPU 0 accepts, GPU 1 refuses, the rollback succeeds
   * everywhere, and there are more devices than before.
   */
  lemma RollbackCanOvershoot()
    returns (
      devices: seq<Device>, specs: seq<SpecAnnotation>, plan: MigConfigPlan,
      before: multiset<Profile>, after: multiset<Profile>, t: Trace)
    ensures UniqueIds(devices) && IsPlanFor(devices, specs, plan) && forall k :: before[k] == Num(devices, k)
    ensures Effect(before, after, plan, true, Incomplete, t) && FullRollback(t) && after > before
  {
    var old0, new0, new1 := Profile(0, "1g.5gb"), Profile(0, "2g.10gb"), Profile(1, "2g.10gb");
    devices := [Device("a", 0, "1g.5gb", Free)];
    specs := [SpecAnnotation("2g.10gb", 0, 1), SpecAnnotation("2g.10gb", 1, 1)];
    plan := MigConfigPlan([DeleteOperation(devices)], [CreateOperation(new0, 1), CreateOperation(new1, 1)]);
    hide Tally, Deleted, Wished, FreeProfiles, IsPlanFor, Effect, FullRollback;
    ExamplePlan(devices, specs, plan, old0, new0, new1);
    ExampleCounts(devices, specs, plan, old0, new0, new1, new0);
    ExampleCounts(devices, specs, plan, old0, new0, new1, new1);
    before := multiset{old0};
    forall k ensures before[k] == Num(devices, k) {
      ExampleCounts(devices, specs, plan, old0, new0, new1, k);
    }
    after, t := TwoGpusOvershoot(before, plan, true);
  }

  /** An apply that is carried out in full leaves exactly the desired number of devices of every profile. */
  lemma FullApplyConverges(
    devices: seq<Device>, specs: seq<SpecAnnotation>, plan: MigConfigPlan,
    before: multiset<Profile>, after: multiset<Profile>, t: Trace, k: Profile)
    requires UniqueIds(devices) && IsPlanFor(devices, specs, plan) && before[k] == Num(devices, k)
    requires forall d | d in Deleted(plan.deleteOps) :: IsFree(d)
    requires Accounts(before, after, plan, t, k)
    requires t.deleted == FreeProfiles(Deleted(plan.deleteOps)) && !t.rolledBack
    requires Wished(plan.createOps, k) > 0 ==> k.gpu in t.created
    ensures after[k] == Max(0, Desired(specs, k))
  {
    hide Tally, Deleted, Created, Wished, FreeProfiles, IsPlanFor;
    var gone := Deleted(plan.deleteOps);
    Convergence(devices, specs, plan, k);
    WithoutCounts(devices, gone, k, true) by { SafeIds(devices, specs, plan); }
    WithoutCounts(devices, gone, k, false) by { SafeIds(devices, specs, plan); }
    FreeProfilesCount(gone, k);
    NoneBusy(gone, k);
    WishedIsCreated(plan.createOps, k) by { SafeIds(devices, specs, plan); }
  }

  lemma SafeIds(devices: seq<Device>, specs: seq<SpecAnnotation>, plan: MigConfigPlan)
    requires UniqueIds(devices) && IsPlanFor(devices, specs, plan)
    ensures SameIds(devices, Deleted(plan.deleteOps)) && forall d | d in Deleted(plan.deleteOps) :: d in devices
    ensures forall i | 0 <= i < |plan.createOps| :: plan.createOps[i].quantity > 0
  {
  }

  lemma NoneBusy(s: seq<Device>, k: Profile)
    requires forall d | d in s :: IsFree(d)
    ensures Tally(s, k, false) == 0
  {
    if Tally(s, k, false) > 0 {
      TallyWitness(s, k, false);
      assert false;
    }
  }

  lemma {:induction false} WishedIsCreated(ops: seq<CreateOperation>, k: Profile)
    requires forall i | 0 <= i < |ops| :: ops[i].quantity >= 0
    ensures Wished(ops, k) == Created(ops, k)
  {
    if ops != [] {
      WishedIsCreated(ops[..|ops| - 1], k);
    }
  }
}
