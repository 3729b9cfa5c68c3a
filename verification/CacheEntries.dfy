// What each operation on the cache leaves of every entry, field by field.
module CacheEntries {
  import opened Options
  import opened Cache
  import opened CacheShape
  import opened CacheRuns

  // The entry at an address, if there is one.
  function EntryAt(c: Cache, x: Id): Option<Entry> {
    if x in c.entries then Some(c.entries[x]) else None
  }

  // What becomes of an entry that its name no longer leads to: it waits while it is used, and is freed otherwise.
  function GivenUp(e: Entry): Option<Entry> {
    if e.uses > 0 then Some(e.(removed := true)) else None
  }

  // A lookup counts a hit and a use and sets the time to live of the entry of that name, or gives it up when the file
  // has changed; it leaves the others as they are.
  ghost predicate LookedUp(c: Cache, c': Cache, name: string, mtime: int, size: int, check: bool, ttl: int) {
    forall x: Id :: EntryAt(c', x) ==
      if !Holds(c, name, x) then EntryAt(c, x)
      else
        var e := c.entries[x];
        if check && (e.mtime != mtime || e.size != size) then GivenUp(e)
        else Some(e.(hits := e.hits + 1, uses := e.uses + 1, ttl := ttl))
  }

  // A new entry takes over the count of reloads of the one it replaces, which is given up.
  ghost predicate Replaced(c: Cache, c': Cache, id: Id, e: Entry) {
    && (forall x: Id ::
          x != id ==> EntryAt(c', x) == if Holds(c, e.name, x) then GivenUp(c.entries[x]) else EntryAt(c, x))
    && (forall y: Id ::
          Holds(c, e.name, y) ==> EntryAt(c', id) == Some(e.(reloads := e.reloads + c.entries[y].reloads)))
    && ((forall y: Id :: !Holds(c, e.name, y)) ==> EntryAt(c', id) == Some(e))
  }

  // A request that ends takes back its uses; an entry that waits for removal and has lost its last use is freed.
  ghost predicate Released(c: Cache, c': Cache, ids: seq<Id>) {
    forall x: Id :: EntryAt(c', x) ==
      if x !in c.entries then None
      else
        var e, n := c.entries[x], multiset(ids)[x];
        if n > 0 && e.removed && e.uses <= n then None else Some(e.(uses := e.uses - n))
  }

  // Clearing gives up every entry of the table.
  ghost predicate Cleared(c: Cache, c': Cache) {
    forall x: Id :: EntryAt(c', x) == if InTable(c, x) then GivenUp(c.entries[x]) else EntryAt(c, x)
  }

  // Pruning frees the unused entries whose time is over and the ones whose file is missing or changed, and those only.
  ghost predicate Pruned(c: Cache, c': Cache, t: int, stale: set<string>) {
    forall x: Id :: EntryAt(c', x) ==
      if InTable(c, x) && var e := c.entries[x]; ((e.ttl != 0 && e.ttl < t && e.uses <= 0) || e.name in stale)
      then None else EntryAt(c, x)
  }

  // Purging frees what waits for removal.
  ghost predicate Purged(c: Cache, c': Cache) {
    forall x: Id :: EntryAt(c', x) == if InTable(c, x) then EntryAt(c, x) else None
  }

  // ----- lookups and additions -----

  lemma FindLeaves(H: string -> nat, c: Cache, name: string, mtime: int, size: int, check: bool, ttl: int)
    requires Shape(H, c)
    ensures forall id :: id in c.chains[Slot(H(name))] ==> id in c.entries
    ensures LookedUp(c, Find(c, H(name), name, mtime, size, check, ttl).0, name, mtime, size, check, ttl)
  {
    SearchFinds(H, c, name);
    var k := Slot(H(name));
    var i := Search(c.entries, c.chains[k], H(name), name);
    if i < |c.chains[k]| { OnlyName(c, c.chains[k][i]); }
  }

  lemma AddLeaves(H: string -> nat, c: Cache, id: Id, e: Entry)
    requires Shape(H, c) && id !in c.entries && e.hv == H(e.name) && !e.removed
    ensures forall x :: x in c.chains[Slot(e.hv)] ==> x in c.entries
    ensures Replaced(c, Add(c, id, e), id, e)
  {
    SearchFinds(H, c, e.name);
    var k := Slot(e.hv);
    var i := Search(c.entries, c.chains[k], e.hv, e.name);
    if i < |c.chains[k]| {
      ReplaceLeaves(c, id, e, k, i);
    } else {
      PushLeaves(c, id, e);
    }
  }

  lemma PushLeaves(c: Cache, id: Id, e: Entry)
    requires |c.chains| == EA_HASH_SIZE && id !in c.entries && !e.removed
    requires forall y :: InTable(c, y) ==> c.entries[y].name != e.name
    ensures Replaced(c, Push(c, id, e), id, e)
  {
  }

  lemma ReplaceLeaves(c: Cache, id: Id, e: Entry, k: nat, i: nat)
    requires |c.chains| == EA_HASH_SIZE && OneName(c) && id !in c.entries && !e.removed && k == Slot(e.hv)
    requires i < |c.chains[k]| && Holds(c, e.name, c.chains[k][i])
    ensures Replaced(c, AddOver(c, id, e, k, i), id, e)
  {
    OnlyName(c, c.chains[k][i]);
    assert Push(c, id, e).chains[k][i + 1] == c.chains[k][i];
  }

  // ----- the end of a request -----

  lemma OneReleased(H: string -> nat, c: Cache, id: Id)
    requires Shape(H, c) && id in c.entries
    ensures Released(c, Drop(c, id), [id])
  {
    assert c.entries[id].removed ==> id in c.gone;
  }

  lemma ReleasedOn(c: Cache, c1: Cache, c2: Cache, id: Id, ids: seq<Id>)
    requires Released(c, c1, [id]) && Released(c1, c2, ids)
    requires forall x :: x in c.entries && x !in c1.entries ==> x !in ids
    ensures Released(c, c2, [id] + ids)
  {
    forall x: Id ensures multiset([id] + ids)[x] == multiset([id])[x] + multiset(ids)[x] {
      assert multiset([id] + ids) == multiset([id]) + multiset(ids);
    }
    forall x: Id | x in c.entries && x !in c1.entries ensures multiset(ids)[x] == 0 {
      assert x !in ids;
    }
  }

  // An entry that is gone is not recorded any more.
  lemma GoneIsUnused(c: Cache, w1: World, p: nat)
    requires p < |w1.used| && forall id :: Uses(w1.used, id) > 0 ==> id in w1.c.entries
    ensures forall x :: x in c.entries && x !in w1.c.entries ==> x !in w1.used[p]
  {
    forall x | x in w1.used[p] ensures Uses(w1.used, x) > 0 { NamedIsUsed(w1.used, p, x); }
  }

  lemma FirstReleased(c: Cache, c1: Cache, c2: Cache, ids: seq<Id>)
    requires ids != [] && Released(c, c1, [ids[0]]) && Released(c1, c2, ids[1..])
    requires forall x :: x in c.entries && x !in c1.entries ==> x !in ids[1..]
    ensures Released(c, c2, ids)
  {
    ReleasedOn(c, c1, c2, ids[0], ids[1..]);
    assert ids == [ids[0]] + ids[1..];
  }

  // One record dropped.
  lemma DropLeaves(H: string -> nat, w: World, p: nat) returns (w1: World)
    requires Good(H, w) && p < |w.used| && w.used[p] != []
    ensures w.used[p][0] in w.c.entries && w1 == World(Drop(w.c, w.used[p][0]), w.used[p := w.used[p][1..]])
    ensures Good(H, w1) && Released(w.c, w1.c, [w.used[p][0]])
    ensures forall x :: x in w.c.entries && x !in w1.c.entries ==> x !in w1.used[p]
  {
    DropGood(H, w, p);
    w1 := World(Drop(w.c, w.used[p][0]), w.used[p := w.used[p][1..]]);
    OneReleased(H, w.c, w.used[p][0]);
    GoneIsUnused(w.c, w1, p);
  }

  lemma {:induction false} EndLeaves(H: string -> nat, w: World, p: nat)
    requires Good(H, w) && p < |w.used|
    ensures Released(w.c, EndRequest(H, w, p).c, w.used[p])
    decreases |w.used[p]|
  {
    var ids := w.used[p];
    if ids != [] {
      var w1 := DropLeaves(H, w, p);
      EndLeaves(H, w1, p);
      FirstReleased(w.c, w1.c, EndRequest(H, w, p).c, ids);
    }
  }

  // ----- clearing, pruning and purging -----

  lemma {:induction false} ChainCleared(H: string -> nat, c: Cache, k: nat, x: Id)
    requires Shape(H, c) && k < EA_HASH_SIZE && (forall id :: id in c.chains[k] ==> id in c.entries)
    ensures EntryAt(ClearChain(c, k), x) == if x in c.chains[k] then GivenUp(c.entries[x]) else EntryAt(c, x)
    decreases |c.chains[k]|
  {
    if c.chains[k] != [] {
      assert c.chains[k][0] in c.chains[k];
      UnchainShape(H, c, k, 0);
      WithoutFacts(c.chains[k], 0);
      ClearRest(H, Unchain(c, k, 0), k);
      ChainCleared(H, Unchain(c, k, 0), k, x);
    }
  }

  lemma SlotCleared(H: string -> nat, c: Cache, k: nat, x: Id)
    requires Shape(H, c) && k < EA_HASH_SIZE
    ensures forall id :: id in c.chains[k] ==> id in c.entries
    ensures Shape(H, ClearChain(c, k))
    ensures EntryAt(ClearChain(c, k), x) ==
            if InTable(c, x) && Slot(c.entries[x].hv) == k then GivenUp(c.entries[x]) else EntryAt(c, x)
  {
    ClearRest(H, c, k);
    ClearChainShape(H, c, k);
    ClearStep(H, c, k);
    ChainCleared(H, c, k, x);
  }

  lemma {:induction false} ClearedFrom(H: string -> nat, c: Cache, k: nat, x: Id)
    requires Shape(H, c) && k <= EA_HASH_SIZE
    ensures EntryAt(ClearFrom(H, c, k), x) ==
            if InTable(c, x) && Slot(c.entries[x].hv) >= k then GivenUp(c.entries[x]) else EntryAt(c, x)
    decreases EA_HASH_SIZE - k
  {
    if k < EA_HASH_SIZE {
      SlotCleared(H, c, k, x);
      ClearedFrom(H, ClearChain(c, k), k + 1, x);
    }
  }

  lemma ClearLeaves(H: string -> nat, c: Cache)
    requires Shape(H, c)
    ensures Cleared(c, ClearFrom(H, c, 0))
  {
    forall x: Id
      ensures EntryAt(ClearFrom(H, c, 0), x) == if InTable(c, x) then GivenUp(c.entries[x]) else EntryAt(c, x)
    {
      ClearedFrom(H, c, 0, x);
    }
  }

  // What every step leaves of the entries, and of the lists of records.
  lemma StepOnEntries(H: string -> nat, w: World, st: Step)
    requires Good(H, w) && Enabled(H, w, st)
    ensures var w' := Next(H, w, st);
      match st
      case Lookup(p, name, mtime, size, check, ttl) =>
        && LookedUp(w.c, w'.c, name, mtime, size, check, ttl)
        && (forall x: Id :: Holds(w'.c, name, x) ==> w'.used == w.used[p := [x] + w.used[p]])
        && ((forall x: Id :: !Holds(w'.c, name, x)) ==> w'.used == w.used)
      case Store(id, e) => Replaced(w.c, w'.c, id, e) && w'.used == w.used
      case Load(p, id, e) => Replaced(w.c, w'.c, id, e) && w'.used == w.used[p := [id] + w.used[p]]
      case End(p) => Released(w.c, w'.c, w.used[p]) && w'.used == w.used[p := []]
      case Clear => Cleared(w.c, w'.c) && w'.used == w.used
      case Prune(t, stale) => Pruned(w.c, w'.c, t, stale) && w'.used == w.used
      case PurgeGone => w' == w
  {
    match st
    case Lookup(p, name, mtime, size, check, ttl) =>
      FindLeaves(H, w.c, name, mtime, size, check, ttl);
      FindMeans(H, w.c, name, mtime, size, check, ttl);
    case Store(id, e) => AddLeaves(H, w.c, id, e);
    case Load(p, id, e) => AddLeaves(H, w.c, id, e);
    case End(p) => EndLeaves(H, w, p);
    case Clear => ClearLeaves(H, w.c);
    case Prune(t, stale) =>
    case PurgeGone => assert Purge(w.c).entries == w.c.entries;
  }
}
