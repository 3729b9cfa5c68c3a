// Any number of processes on one cache: use counts, and what may be freed.
module CacheRuns {
  import opened Cache
  import opened CacheShape

  // ----- clearing and pruning whole tables -----

  lemma {:induction false} ClearChainShape(H: string -> nat, c: Cache, k: nat)
    requires Shape(H, c) && k < EA_HASH_SIZE && (forall id :: id in c.chains[k] ==> id in c.entries)
    ensures Shape(H, ClearChain(c, k)) && Keeps(c, ClearChain(c, k)) && SameNames(c, ClearChain(c, k))
    ensures forall x :: InTable(ClearChain(c, k), x) <==> InTable(c, x) && x !in c.chains[k]
    decreases |c.chains[k]|
  {
    if c.chains[k] != [] {
      var c1 := Unchain(c, k, 0);
      assert c.chains[k][0] in c.chains[k];
      UnchainLists(H, c, k, 0);
      UnchainShape(H, c, k, 0);
      UnchainKeeps(H, c, k, 0);
      WithoutFacts(c.chains[k], 0);
      ClearRest(H, c1, k);
      ClearChainShape(H, c1, k);
      KeepsTransitive(c, c1, ClearChain(c1, k));
    }
  }

  lemma ClearRest(H: string -> nat, c: Cache, k: nat)
    requires Lists(H, c) && k < EA_HASH_SIZE
    ensures forall id :: id in c.chains[k] ==> InTable(c, id)
  {
    forall id | id in c.chains[k] ensures InTable(c, id) {
      assert Belongs(H, c, k, id);
    }
  }

  // ----- what an operation does to used entries -----

  // c' has the same used entries as c, with the same counts; removed entries are used ones.
  ghost predicate Keeps(c: Cache, c': Cache) {
    && (forall id :: id in c.entries && c.entries[id].uses > 0 ==> id in c'.entries)
    && (forall id :: id in c'.entries ==> id in c.entries && c'.entries[id].uses == c.entries[id].uses)
    && (GoneUsed(c) ==> GoneUsed(c'))
  }

  ghost predicate GoneUsed(c: Cache) {
    forall id :: id in c.gone ==> id in c.entries && c.entries[id].uses > 0
  }

  lemma KeepsTransitive(c: Cache, c1: Cache, c2: Cache)
    requires Keeps(c, c1) && Keeps(c1, c2)
    ensures Keeps(c, c2)
  {
  }

  lemma UnchainKeeps(H: string -> nat, c: Cache, k: nat, i: nat)
    requires Lists(H, c) && k < EA_HASH_SIZE && i < |c.chains[k]| && c.chains[k][i] in c.entries
    ensures Keeps(c, Unchain(c, k, i)) && SameNames(c, Unchain(c, k, i))
  {
    ChainEntry(H, c, k, i);
  }

  // eaccelerator_clear, from chain k on
  ghost function ClearFrom(H: string -> nat, c: Cache, k: nat): (c': Cache)
    requires Shape(H, c) && k <= EA_HASH_SIZE
    ensures Shape(H, c') && Keeps(c, c')
    ensures forall x :: InTable(c', x) <==> InTable(c, x) && Slot(c.entries[x].hv) < k
    decreases EA_HASH_SIZE - k
  {
    if k == EA_HASH_SIZE then c
    else
      ClearRest(H, c, k);
      ClearChainShape(H, c, k);
      ClearStep(H, c, k);
      var c1 := ClearChain(c, k);
      var c2 := ClearFrom(H, c1, k + 1);
      KeepsTransitive(c, c1, c2);
      c2
  }

  // Entries of chain k are the ones that belong there.
  lemma ClearStep(H: string -> nat, c: Cache, k: nat)
    requires Shape(H, c) && k < EA_HASH_SIZE
    ensures forall x :: InTable(c, x) ==> (x in c.chains[k] <==> Slot(c.entries[x].hv) == k)
  {
  }

  // One chain pruned from position i: the doomed entries go, the others stay as they are.
  lemma {:induction false} PruneChainShape(H: string -> nat, c: Cache, k: nat, i: nat, t: int, stale: set<string>)
    requires Shape(H, c) && k < EA_HASH_SIZE && i <= |c.chains[k]|
    requires (forall id :: id in c.chains[k] ==> id in c.entries)
    ensures var c' := PruneChain(c, k, i, t, stale);
            && Shape(H, c') && c'.gone == c.gone
            && (forall x ::
                  x in c'.entries <==> x in c.entries && !(x in c.chains[k][i..] && Doomed(c.entries[x], t, stale)))
            && (forall x :: x in c'.entries ==> c'.entries[x] == c.entries[x])
    decreases |c.chains[k]| - i
  {
    if i < |c.chains[k]| {
      var id, chain := c.chains[k][i], c.chains[k];
      if Doomed(c.entries[id], t, stale) {
        var c1 := FreeAt(c, k, i);
        FreeAtLists(H, c, k, i);
        FreeAtShape(H, c, k, i);
        WithoutFacts(chain, i);
        ClearRest(H, c1, k);
        PruneChainShape(H, c1, k, i, t, stale);
        assert c1.chains[k][i..] == chain[i + 1..];
        SplitAt(chain, i);
      } else {
        PruneChainShape(H, c, k, i + 1, t, stale);
        SplitAt(chain, i);
      }
    }
  }

  lemma SplitAt(s: seq<Id>, i: nat)
    requires i < |s| && NoDup(s)
    ensures forall x :: x in s[i..] <==> x == s[i] || x in s[i + 1..]
    ensures s[i] !in s[i + 1..]
  {
    assert s[i..] == [s[i]] + s[i + 1..];
  }

  // eaccelerator_prune, from chain k on
  ghost function PruneFrom(H: string -> nat, c: Cache, k: nat, t: int, stale: set<string>): (c': Cache)
    requires Shape(H, c) && k <= EA_HASH_SIZE
    ensures Shape(H, c') && c'.gone == c.gone
    ensures forall x :: x in c'.entries <==>
              x in c.entries && !(InTable(c, x) && Slot(c.entries[x].hv) >= k && Doomed(c.entries[x], t, stale))
    ensures forall x :: x in c'.entries ==> c'.entries[x] == c.entries[x]
    decreases EA_HASH_SIZE - k
  {
    if k == EA_HASH_SIZE then c
    else
      ClearRest(H, c, k);
      PruneChainShape(H, c, k, 0, t, stale);
      ClearStep(H, c, k);
      assert c.chains[k][0..] == c.chains[k];
      PruneFrom(H, PruneChain(c, k, 0, t, stale), k + 1, t, stale)
  }

  // ----- use counts -----

  // The shared cache and the used-list of every process.
  datatype World = World(c: Cache, used: seq<seq<Id>>)

  // How many records name an entry.
  function Uses(used: seq<seq<Id>>, id: Id): nat {
    if used == [] then 0 else multiset(used[0])[id] + Uses(used[1..], id)
  }

  lemma {:induction false} UsesUpdate(used: seq<seq<Id>>, p: nat, s: seq<Id>, id: Id)
    requires p < |used|
    ensures Uses(used[p := s], id) == Uses(used, id) - multiset(used[p])[id] + multiset(s)[id]
    decreases p
  {
    if p == 0 {
      assert used[0 := s][1..] == used[1..];
    } else {
      UsesUpdate(used[1..], p - 1, s, id);
      assert used[p := s][1..] == used[1..][p - 1 := s];
    }
  }

  lemma {:induction false} NamedIsUsed(used: seq<seq<Id>>, p: nat, id: Id)
    requires p < |used| && id in used[p]
    ensures Uses(used, id) > 0
    decreases p
  {
    if p > 0 { NamedIsUsed(used[1..], p - 1, id); }
  }

  // use_cnt counts the records; nothing a record names is gone; removed entries are still used.
  ghost predicate Counted(w: World) {
    && (forall id :: id in w.c.entries ==> w.c.entries[id].uses == Uses(w.used, id))
    && (forall id: Id :: Uses(w.used, id) > 0 ==> id in w.c.entries)
    && GoneUsed(w.c)
  }

  ghost predicate Good(H: string -> nat, w: World) {
    Shape(H, w.c) && Counted(w)
  }

  lemma KeepsCounted(w: World, c': Cache)
    requires Counted(w) && Keeps(w.c, c')
    ensures Counted(World(c', w.used))
  {
  }

  // ----- the steps of a process -----

  // A record for id.
  function Record(used: seq<seq<Id>>, p: nat, id: Id): seq<seq<Id>>
    requires p < |used|
  {
    used[p := [id] + used[p]]
  }

  lemma RecordUses(used: seq<seq<Id>>, p: nat, id: Id)
    requires p < |used|
    ensures forall x: Id :: Uses(Record(used, p, id), x) == Uses(used, x) + (if x == id then 1 else 0)
  {
    forall x: Id ensures Uses(Record(used, p, id), x) == Uses(used, x) + (if x == id then 1 else 0) {
      UsesUpdate(used, p, [id] + used[p], x);
      assert multiset([id] + used[p]) == multiset{id} + multiset(used[p]);
    }
  }

  lemma UnrecordUses(used: seq<seq<Id>>, p: nat)
    requires p < |used| && used[p] != []
    ensures forall x: Id :: Uses(used[p := used[p][1..]], x) == Uses(used, x) - (if x == used[p][0] then 1 else 0)
  {
    var u := used[p];
    forall x: Id ensures Uses(used[p := u[1..]], x) == Uses(used, x) - (if x == u[0] then 1 else 0) {
      UsesUpdate(used, p, u[1..], x);
      assert u == [u[0]] + u[1..];
      assert multiset(u) == multiset{u[0]} + multiset(u[1..]);
    }
  }

  lemma HitCounted(w: World, p: nat, id: Id, e: Entry)
    requires Counted(w) && p < |w.used| && id in w.c.entries && e.uses == w.c.entries[id].uses + 1
    ensures Counted(World(w.c.(entries := w.c.entries[id := e]), Record(w.used, p, id)))
  {
    RecordUses(w.used, p, id);
  }

  // A lookup that hits is registered in the same step.
  lemma FindCounted(H: string -> nat, w: World, p: nat, name: string, mtime: int, size: int, check: bool, ttl: int)
    requires Good(H, w) && p < |w.used| && forall id :: id in w.c.chains[Slot(H(name))] ==> id in w.c.entries
    ensures var (c', r) := Find(w.c, H(name), name, mtime, size, check, ttl);
            Counted(World(c', if r.Some? then Record(w.used, p, r.value) else w.used))
  {
    var k := Slot(H(name));
    var i := Search(w.c.entries, w.c.chains[k], H(name), name);
    var (c', r) := Find(w.c, H(name), name, mtime, size, check, ttl);
    if r.Some? {
      HitCounted(w, p, r.value, c'.entries[r.value]);
    } else if i < |w.c.chains[k]| {
      UnchainKeeps(H, w.c, k, i);
      KeepsCounted(w, c');
    }
  }

  lemma FindGood(H: string -> nat, w: World, p: nat, name: string, mtime: int, size: int, check: bool, ttl: int)
    requires Good(H, w) && p < |w.used|
    ensures forall id :: id in w.c.chains[Slot(H(name))] ==> id in w.c.entries
    ensures var (c', r) := Find(w.c, H(name), name, mtime, size, check, ttl);
            Good(H, World(c', if r.Some? then Record(w.used, p, r.value) else w.used))
  {
    FindMeans(H, w.c, name, mtime, size, check, ttl);
    FindCounted(H, w, p, name, mtime, size, check, ttl);
  }

  // A new entry, with one use if it is registered at once.
  lemma PushCounted(w: World, id: Id, e: Entry, used': seq<seq<Id>>)
    requires Counted(w) && id !in w.c.entries && |w.c.chains| == EA_HASH_SIZE
    requires forall x: Id :: Uses(used', x) == Uses(w.used, x) + (if x == id then e.uses else 0)
    ensures Counted(World(Push(w.c, id, e), used'))
  {
  }

  lemma AddOverCounted(H: string -> nat, w: World, id: Id, e: Entry, used': seq<seq<Id>>, k: nat, i: nat)
    requires Good(H, w) && id !in w.c.entries && e.hv == H(e.name) && !e.removed && k == Slot(e.hv)
    requires i <= |w.c.chains[k]| && (i < |w.c.chains[k]| ==> w.c.chains[k][i] in w.c.entries)
    requires forall x: Id :: Uses(used', x) == Uses(w.used, x) + (if x == id then e.uses else 0)
    ensures Counted(World(AddOver(w.c, id, e, k, i), used'))
  {
    if i == |w.c.chains[k]| {
      PushCounted(w, id, e, used');
    } else {
      ReplaceCounted(H, w, id, Inherit(e, w.c.entries[w.c.chains[k][i]]), used', k, i);
    }
  }

  lemma ReplaceCounted(H: string -> nat, w: World, id: Id, e: Entry, used': seq<seq<Id>>, k: nat, i: nat)
    requires Good(H, w) && id !in w.c.entries && e.hv == H(e.name) && !e.removed && k == Slot(e.hv)
    requires i < |w.c.chains[k]| && w.c.chains[k][i] in w.c.entries
    requires forall x: Id :: Uses(used', x) == Uses(w.used, x) + (if x == id then e.uses else 0)
    ensures var c1 := Push(w.c, id, e);
            i + 1 < |c1.chains[k]| && c1.chains[k][i + 1] in c1.entries && Counted(World(Unchain(c1, k, i + 1), used'))
  {
    var c1 := Push(w.c, id, e);
    PushUnchain(H, w.c, id, e, k, i);
    PushCounted(w, id, e, used');
    UnchainKeeps(H, c1, k, i + 1);
    KeepsCounted(World(c1, used'), Unchain(c1, k, i + 1));
  }

  lemma AddGood(H: string -> nat, w: World, id: Id, e: Entry, used': seq<seq<Id>>)
    requires Good(H, w) && id !in w.c.entries && e.hv == H(e.name) && !e.removed
    requires forall x: Id :: Uses(used', x) == Uses(w.used, x) + (if x == id then e.uses else 0)
    ensures forall x :: x in w.c.chains[Slot(e.hv)] ==> x in w.c.entries
    ensures Good(H, World(Add(w.c, id, e), used'))
  {
    AddShape(H, w.c, id, e);
    var i := Search(w.c.entries, w.c.chains[Slot(e.hv)], e.hv, e.name);
    assert i < |w.c.chains[Slot(e.hv)]| ==> w.c.chains[Slot(e.hv)][i] in w.c.chains[Slot(e.hv)];
    AddOverCounted(H, w, id, e, used', Slot(e.hv), i);
  }

  lemma DropCounted(w: World, id: Id, used': seq<seq<Id>>)
    requires Counted(w) && id in w.c.entries && NoDup(w.c.gone) && Scheduled(w.c)
    requires (w.c.entries[id].removed ==> id in w.c.gone)
    requires forall x: Id :: Uses(used', x) == Uses(w.used, x) - (if x == id then 1 else 0)
    ensures Counted(World(Drop(w.c, id), used'))
  {
    if id in w.c.gone {
      WithoutFacts(w.c.gone, IndexIn(w.c.gone, id));
    }
  }

  // One record is taken off the list.  The entry it names is there; it is freed only if no record names it any more.
  lemma DropGood(H: string -> nat, w: World, p: nat)
    requires Good(H, w) && p < |w.used| && w.used[p] != []
    ensures var id := w.used[p][0];
            && id in w.c.entries
            && Good(H, World(Drop(w.c, id), w.used[p := w.used[p][1..]]))
            && (id !in Drop(w.c, id).entries ==> Uses(w.used[p := w.used[p][1..]], id) == 0)
            && (forall x :: x != id ==> (x in Drop(w.c, id).entries <==> x in w.c.entries))
  {
    var id := w.used[p][0];
    NamedIsUsed(w.used, p, id);
    UnrecordUses(w.used, p);
    DropShape(H, w.c, id);
    DropCounted(w, id, w.used[p := w.used[p][1..]]);
  }

  // The locked loop of eaccelerator_clean_request.
  ghost function EndRequest(H: string -> nat, w: World, p: nat): (w': World)
    requires Good(H, w) && p < |w.used|
    ensures Good(H, w') && w'.used == w.used[p := []] && w'.c == DropAll(w.c, w.used[p])
    ensures forall name: string, x: Id :: Holds(w'.c, name, x) <==> Holds(w.c, name, x)
    decreases |w.used[p]|
  {
    if w.used[p] == [] then w
    else
      DropGood(H, w, p);
      DropShape(H, w.c, w.used[p][0]);
      EndRequest(H, World(Drop(w.c, w.used[p][0]), w.used[p := w.used[p][1..]]), p)
  }

  // ----- the two operations that look at no use count -----

  // No script in use is missing or changed on disk.
  ghost predicate UnusedStale(c: Cache, stale: set<string>) {
    forall id :: InTable(c, id) && c.entries[id].name in stale ==> c.entries[id].uses <= 0
  }

  lemma PruneKeeps(c: Cache, c': Cache, t: int, stale: set<string>)
    requires UnusedStale(c, stale) && c'.gone == c.gone
    requires forall x :: x in c'.entries <==> x in c.entries && !(InTable(c, x) && Doomed(c.entries[x], t, stale))
    requires forall x :: x in c'.entries ==> c'.entries[x] == c.entries[x]
    ensures Keeps(c, c')
  {
    forall x | x in c.entries && c.entries[x].uses > 0 ensures x in c'.entries {
      assert InTable(c, x) ==> !Doomed(c.entries[x], t, stale);
    }
  }

  // Pruning with files missing or changed is harmless exactly when no used script is among them.
  lemma PruneSafeExactly(H: string -> nat, w: World, t: int, stale: set<string>)
    requires Good(H, w)
    ensures Shape(H, PruneFrom(H, w.c, 0, t, stale))
    ensures Good(H, World(PruneFrom(H, w.c, 0, t, stale), w.used)) <==>
            UnusedStale(w.c, stale)
  {
    var c' := PruneFrom(H, w.c, 0, t, stale);
    if UnusedStale(w.c, stale) {
      PruneKeeps(w.c, c', t, stale);
      KeepsCounted(w, c');
    } else {
      var id :| InTable(w.c, id) && w.c.entries[id].name in stale && w.c.entries[id].uses > 0;
      assert Doomed(w.c.entries[id], t, stale) && id !in c'.entries && Uses(w.used, id) > 0;
    }
  }

  // Purging is harmless exactly when nothing is waiting to be removed.
  lemma PurgeSafeExactly(H: string -> nat, w: World)
    requires Good(H, w)
    ensures Shape(H, Purge(w.c))
    ensures Good(H, World(Purge(w.c), w.used)) <==> w.c.gone == []
  {
    PurgeShape(H, w.c);
    if w.c.gone == [] {
      assert Purge(w.c).entries == w.c.entries;
    } else {
      var id := w.c.gone[0];
      assert id in w.c.gone && id !in Purge(w.c).entries && Uses(w.used, id) > 0;
    }
  }

  // ----- runs -----

  datatype Step =
    | Lookup(p: nat, name: string, mtime: int, size: int, check: bool, ttl: int)
    | Store(id: Id, e: Entry)         // eaccelerator_store: not used yet
    | Load(p: nat, id: Id, e: Entry)  // hash_find_file: used at once by the process that loads it
    | End(p: nat)
    | Clear
    | Prune(t: int, stale: set<string>) // eaccelerator_prune when no script in use is missing or changed on disk
    | PurgeGone                         // eaccelerator_purge when nothing in use waits to be removed

  ghost predicate Enabled(H: string -> nat, w: World, st: Step) {
    match st
    case Lookup(p, _, _, _, _, _) => p < |w.used|
    case Store(id, e) => id !in w.c.entries && e.hv == H(e.name) && !e.removed && e.uses == 0
    case Load(p, id, e) => p < |w.used| && id !in w.c.entries && e.hv == H(e.name) && !e.removed && e.uses == 1
    case End(p) => p < |w.used|
    case Clear => true
    case Prune(_, stale) => UnusedStale(w.c, stale)
    case PurgeGone => w.c.gone == []
  }

  ghost function Next(H: string -> nat, w: World, st: Step): (w': World)
    requires Good(H, w) && Enabled(H, w, st)
  {
    match st
    case Lookup(p, name, mtime, size, check, ttl) =>
      FindGood(H, w, p, name, mtime, size, check, ttl);
      var (c', r) := Find(w.c, H(name), name, mtime, size, check, ttl);
      World(c', if r.Some? then Record(w.used, p, r.value) else w.used)
    case Store(id, e) => SearchFinds(H, w.c, e.name); World(Add(w.c, id, e), w.used)
    case Load(p, id, e) => SearchFinds(H, w.c, e.name); World(Add(w.c, id, e), Record(w.used, p, id))
    case End(p) => EndRequest(H, w, p)
    case Clear => World(ClearFrom(H, w.c, 0), w.used)
    case Prune(t, stale) => World(PruneFrom(H, w.c, 0, t, stale), w.used)
    case PurgeGone => World(Purge(w.c), w.used)
  }

  lemma NextGood(H: string -> nat, w: World, st: Step)
    requires Good(H, w) && Enabled(H, w, st)
    ensures Good(H, Next(H, w, st)) && |Next(H, w, st).used| == |w.used|
  {
    match st
    case Lookup(p, name, mtime, size, check, ttl) =>
      FindGood(H, w, p, name, mtime, size, check, ttl);
    case Store(id, e) =>
      AddGood(H, w, id, e, w.used);
    case Load(p, id, e) =>
      RecordUses(w.used, p, id);
      AddGood(H, w, id, e, Record(w.used, p, id));
    case End(p) =>
    case Clear =>
      KeepsCounted(w, ClearFrom(H, w.c, 0));
    case Prune(t, stale) =>
      PruneSafeExactly(H, w, t, stale);
    case PurgeGone =>
      PurgeSafeExactly(H, w);
  }

  // Steps that are enabled one after the other.
  ghost predicate Interleaving(H: string -> nat, w: World, steps: seq<Step>)
    requires Good(H, w)
    decreases |steps|
  {
    steps == [] || (Enabled(H, w, steps[0])
                    && (NextGood(H, w, steps[0]); Interleaving(H, Next(H, w, steps[0]), steps[1..])))
  }

  ghost function Run(H: string -> nat, w: World, steps: seq<Step>): World
    requires Good(H, w) && Interleaving(H, w, steps)
    decreases |steps|
  {
    if steps == [] then w else (NextGood(H, w, steps[0]); Run(H, Next(H, w, steps[0]), steps[1..]))
  }

  // Over every interleaving of any number of processes the counts are right and no used entry is freed.
  lemma {:induction false} RunsGood(H: string -> nat, w: World, steps: seq<Step>)
    requires Good(H, w) && Interleaving(H, w, steps)
    ensures Good(H, Run(H, w, steps))
    decreases |steps|
  {
    if steps != [] {
      NextGood(H, w, steps[0]);
      RunsGood(H, Next(H, w, steps[0]), steps[1..]);
    }
  }

  function Empty(n: nat): World {
    World(Cache(map[], seq(EA_HASH_SIZE, _ => []), [], 0, 0), seq(n, _ => []))
  }

  lemma {:induction false} NoUses(used: seq<seq<Id>>)
    requires forall p :: 0 <= p < |used| ==> used[p] == []
    ensures forall x: Id :: Uses(used, x) == 0
    decreases |used|
  {
    if used != [] { NoUses(used[1..]); }
  }

  lemma {:induction false} TotalOfNone(chains: seq<seq<Id>>)
    requires forall k :: 0 <= k < |chains| ==> chains[k] == []
    ensures Total(chains) == 0
    decreases |chains|
  {
    if chains != [] { TotalOfNone(chains[1..]); }
  }

  lemma EmptyGood(H: string -> nat, n: nat)
    ensures Good(H, Empty(n))
  {
    NoUses(Empty(n).used);
    TotalOfNone(Empty(n).c.chains);
  }

  // Once all requests have ended nothing is waiting to be removed and nothing is in use.
  lemma AllEnded(H: string -> nat, w: World)
    requires Good(H, w) && forall p :: 0 <= p < |w.used| ==> w.used[p] == []
    ensures w.c.gone == [] && w.c.remCnt == 0
    ensures forall id :: id in w.c.entries ==> w.c.entries[id].uses == 0 && !w.c.entries[id].removed
  {
    NoUses(w.used);
    if w.c.gone != [] { Someone(w.c.gone); }
  }

  lemma Someone(s: seq<Id>)
    requires s != []
    ensures exists x :: x in s
  {
    assert s[0] in s;
  }

  // The steps on the table as a map: which name leads to which entry.
  lemma StepOnMap(H: string -> nat, w: World, st: Step, name: string, x: Id)
    requires Good(H, w) && Enabled(H, w, st)
    ensures match st
      case Lookup(p, key, mtime, size, check, ttl) =>
        Holds(Next(H, w, st).c, name, x) <==>
          && Holds(w.c, name, x)
          && !(name == key && check && (w.c.entries[x].mtime != mtime || w.c.entries[x].size != size))
      case Store(id, e) => Holds(Next(H, w, st).c, name, x) <==> if name == e.name then x == id else Holds(w.c, name, x)
      case Load(p, id, e) => Holds(Next(H, w, st).c, name, x) <==>
          if name == e.name then x == id else Holds(w.c, name, x)
      case End(p) => Holds(Next(H, w, st).c, name, x) <==> Holds(w.c, name, x)
      case Clear => !Holds(Next(H, w, st).c, name, x)
      case Prune(t, stale) =>
        Holds(Next(H, w, st).c, name, x) <==>
          && Holds(w.c, name, x) && name !in stale
          && var e := w.c.entries[x]; (e.ttl == 0 || e.ttl >= t || e.uses > 0)
      case PurgeGone => Holds(Next(H, w, st).c, name, x) <==> Holds(w.c, name, x)
  {
    match st
    case Lookup(p, key, mtime, size, check, ttl) =>
      FindMeans(H, w.c, key, mtime, size, check, ttl);
      if Holds(w.c, key, x) {
        var (c', r) := Find(w.c, H(key), key, mtime, size, check, ttl);
        if r.Some? { OnlyName(w.c, r.value); }
      }
    case Store(id, e) =>
      AddMeans(H, w.c, id, e);
    case Load(p, id, e) =>
      AddMeans(H, w.c, id, e);
    case End(p) =>
    case Clear =>
    case Prune(t, stale) =>
    case PurgeGone =>
      assert Purge(w.c).entries == w.c.entries;
  }

  // ----- where the two guards fail -----

  function Fresh(H: string -> nat, name: string): Entry {
    Entry(H(name), name, 0, 0, 0, 0, 0, 1, false)
  }

  // A process loads a script and goes on using it.
  ghost function Loaded(H: string -> nat, name: string, id: Id): (w: World)
    ensures Good(H, w) && InTable(w.c, id) && w.c.entries[id].name == name && w.c.entries[id].uses == 1
    ensures var steps := [Load(0, id, Fresh(H, name))]; Good(H, Empty(1)) && Interleaving(H, Empty(1), steps) && w == Run(H, Empty(1), steps)
  {
    var st := Load(0, id, Fresh(H, name));
    EmptyGood(H, 1);
    NextGood(H, Empty(1), st);
    StepOnMap(H, Empty(1), st, name, id);
    var w := Next(H, Empty(1), st);
    NoUses(Empty(1).used);
    RecordUses(Empty(1).used, 0, id);
    assert [st][1..] == [];
    w
  }

  // When its file changes now, pruning frees the entry under it.
  lemma PruneFreesUsed(H: string -> nat, name: string, id: Id, t: int)
    ensures !Good(H, World(PruneFrom(H, Loaded(H, name, id).c, 0, t, {name}), Loaded(H, name, id).used))
  {
    PruneSafeExactly(H, Loaded(H, name, id), t, {name});
  }

  // When the cache is cleared now, the entry waits for the process to end; purging then frees it at once.
  lemma PurgeFreesUsed(H: string -> nat, name: string, id: Id)
    ensures var w := Next(H, Loaded(H, name, id), Clear); Good(H, w) && !Good(H, World(Purge(w.c), w.used))
  {
    var w0 := Loaded(H, name, id);
    NextGood(H, w0, Clear);
    StepOnMap(H, w0, Clear, name, id);
    var w := Next(H, w0, Clear);
    assert id in w.c.entries && w.c.entries[id].removed;
    PurgeSafeExactly(H, w);
  }
}
