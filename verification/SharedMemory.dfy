// The cache on top of the allocator: every block that is given out belongs to somebody.
module SharedMemory {
  import opened Options
  import opened Cache
  import opened CacheShape
  import opened CacheRuns
  import opened Arena
  import FreeList

  // ----- an arena is determined by its live blocks -----

  // Two coalesced tilings with the same live blocks are the same, free list included.
  lemma {:induction false} SameLiveSameArena(a: seq<Tile>, b: seq<Tile>, lo: nat, hi: nat)
    requires Wf(a, lo, hi) && Wf(b, lo, hi) && Live(a) == Live(b)
    ensures a == b
    decreases |a|
  {
    TiledSpan(a, lo, hi);
    TiledSpan(b, lo, hi);
    if a != [] && b != [] {
      FirstTileSame(a, b, lo, hi);
      FirstTileSame(b, a, lo, hi);
      assert a[0] == b[0];
      RestLive(a, lo, hi);
      RestLive(b, lo, hi);
      assert Coalesced(a[1..]) && Coalesced(b[1..]);
      SameLiveSameArena(a[1..], b[1..], lo + a[0].size, hi);
    }
  }

  lemma RestLive(a: seq<Tile>, lo: nat, hi: nat)
    requires Tiled(a, lo, hi) && a != []
    ensures Live(a[1..]) == Live(a) - {a[0]}
  {
    forall t | t in a[1..] ensures t != a[0] {
      var i :| 0 <= i < |a[1..]| && a[1..][i] == t;
      AddrsDiffer(a, lo, hi, 0, i + 1);
    }
  }

  lemma LaterStarts(a: seq<Tile>, lo: nat, hi: nat, i: nat)
    requires Tiled(a, lo, hi) && i < |a|
    ensures i > 0 ==> a[i].addr > lo
  {
    if i > 0 { InOrder(a, lo, hi, 0, i); }
  }

  // The first tile of b is at least as long as that of a, and of the same kind.
  lemma FirstTileSame(a: seq<Tile>, b: seq<Tile>, lo: nat, hi: nat)
    requires Wf(a, lo, hi) && Wf(b, lo, hi) && Live(a) == Live(b) && a != [] && b != []
    ensures !a[0].free ==> b[0] == a[0]
    ensures a[0].free && b[0].free ==> a[0].size <= b[0].size
  {
    FreeList.TiledSpaced(a, lo, hi);
    FreeList.TiledSpaced(b, lo, hi);
    if !a[0].free {
      assert a[0] in Live(b);
      var i :| 0 <= i < |b| && b[i] == a[0];
      LaterStarts(b, lo, hi, i);
    } else if b[0].free && |b| > 1 {
      assert !b[0 + 1].free && b[1] in Live(a);
      InOrder(b, lo, hi, 0, 1);
      var i :| 0 <= i < |a| && a[i] == b[1];
      if i > 0 { assert a[0].addr + a[0].size <= a[i].addr; }
    } else if b[0].free {
      TiledSpan(b, lo, hi);
      TiledSpan(a, lo, hi);
      assert b[1..] == [];
    }
  }

  // ----- freeing a set of blocks -----

  // The payload addresses of the live blocks.
  ghost predicate Given(tiles: seq<Tile>, id: Id) {
    id >= HEAD && IsLive(tiles, id - HEAD)
  }

  function LiveBut(tiles: seq<Tile>, ids: seq<Id>): set<Tile> {
    set t | t in Live(tiles) && t.addr + HEAD !in ids
  }

  lemma GivenByLive(tiles: seq<Tile>, id: Id)
    ensures Given(tiles, id) <==> id >= HEAD && exists t :: t in Live(tiles) && t.addr == id - HEAD
  {
    if Given(tiles, id) { assert LiveAt(tiles, id - HEAD) in Live(tiles); }
  }

  lemma GivenBut(tiles: seq<Tile>, tiles': seq<Tile>, ids: seq<Id>, id: Id)
    requires Live(tiles') == LiveBut(tiles, ids)
    ensures Given(tiles', id) <==> Given(tiles, id) && id !in ids
  {
    GivenByLive(tiles, id);
    GivenByLive(tiles', id);
    if Given(tiles, id) && id !in ids {
      var t :| t in Live(tiles) && t.addr == id - HEAD;
      assert t in LiveBut(tiles, ids);
    }
  }

  lemma OneGone(tiles: seq<Tile>, lo: nat, hi: nat, addr: nat)
    requires Wf(tiles, lo, hi) && IsLive(tiles, addr)
    ensures Live(After(tiles, Free(addr))) == set t | t in Live(tiles) && t.addr != addr
  {
    var t := LiveAt(tiles, addr);
    var i := IndexOf(tiles, t);
    GiveLive(tiles, lo, hi, i);
    forall u | u in Live(tiles) && u.addr == addr ensures u == t {
      var j := IndexOf(tiles, u);
      if j != i { AddrsDiffer(tiles, lo, hi, i, j); }
    }
  }

  // eaccelerator_free_nolock on one entry after the other
  ghost function FreeInOrder(tiles: seq<Tile>, ids: seq<Id>): seq<Tile>
    decreases |ids|
  {
    if ids == [] then tiles
    else FreeInOrder(if ids[0] >= HEAD then After(tiles, Free(ids[0] - HEAD)) else tiles, ids[1..])
  }

  predicate Distinct(ids: seq<Id>) {
    forall i, j :: 0 <= i < j < |ids| ==> ids[i] != ids[j]
  }

  lemma {:induction false} FreeInOrderLive(tiles: seq<Tile>, lo: nat, hi: nat, ids: seq<Id>)
    requires Wf(tiles, lo, hi) && (forall id :: id in ids ==> Given(tiles, id)) && Distinct(ids)
    ensures Wf(FreeInOrder(tiles, ids), lo, hi)
    ensures Live(FreeInOrder(tiles, ids)) == LiveBut(tiles, ids)
    decreases |ids|
  {
    if ids == [] {
      assert Live(tiles) == LiveBut(tiles, ids);
    } else {
      var id, rest := ids[0], ids[1..];
      assert id in ids;
      AfterKeeps(tiles, lo, hi, Free(id - HEAD));
      RestGiven(tiles, lo, hi, ids);
      FreeInOrderLive(After(tiles, Free(id - HEAD)), lo, hi, rest);
    }
  }

  // After freeing the first one the others are still given out.
  lemma RestGiven(tiles: seq<Tile>, lo: nat, hi: nat, ids: seq<Id>)
    requires Wf(tiles, lo, hi) && ids != [] && (forall id :: id in ids ==> Given(tiles, id)) && Distinct(ids)
    ensures ids[0] in ids && ids[0] >= HEAD && Distinct(ids[1..])
    ensures var tiles' := After(tiles, Free(ids[0] - HEAD));
            (forall id :: id in ids[1..] ==> Given(tiles', id)) && LiveBut(tiles', ids[1..]) == LiveBut(tiles, ids)
  {
    var id, rest := ids[0], ids[1..];
    assert id in ids;
    LiveAfterFree(tiles, lo, hi, id - HEAD);
    OneGone(tiles, lo, hi, id - HEAD);
    assert forall x :: x in rest ==> x in ids && x != id;
    assert forall x :: x in ids <==> x == id || x in rest;
  }

  lemma FreeInOrderGiven(tiles: seq<Tile>, lo: nat, hi: nat, ids: seq<Id>)
    requires Wf(tiles, lo, hi) && (forall id :: id in ids ==> Given(tiles, id)) && Distinct(ids)
    ensures Wf(FreeInOrder(tiles, ids), lo, hi)
    ensures forall id: Id :: Given(FreeInOrder(tiles, ids), id) <==> Given(tiles, id) && id !in ids
  {
    FreeInOrderLive(tiles, lo, hi, ids);
    forall id: Id ensures Given(FreeInOrder(tiles, ids), id) <==> Given(tiles, id) && id !in ids {
      GivenBut(tiles, FreeInOrder(tiles, ids), ids, id);
    }
  }

  // The order in which blocks are freed makes no difference.
  lemma AnyOrder(tiles: seq<Tile>, lo: nat, hi: nat, ids: seq<Id>, ids': seq<Id>)
    requires Wf(tiles, lo, hi) && (forall id :: id in ids ==> Given(tiles, id)) && Distinct(ids) && Distinct(ids')
    requires forall id: Id :: id in ids <==> id in ids'
    ensures FreeInOrder(tiles, ids) == FreeInOrder(tiles, ids')
  {
    FreeInOrderLive(tiles, lo, hi, ids);
    FreeInOrderLive(tiles, lo, hi, ids');
    SameLiveSameArena(FreeInOrder(tiles, ids), FreeInOrder(tiles, ids'), lo, hi);
  }

  // A set of entries in some order.
  ghost function Ordered(ids: set<Id>): (s: seq<Id>)
    ensures Distinct(s) && forall id: Id :: id in s <==> id in ids
    decreases |ids|
  {
    if ids == {} then []
    else var id :| id in ids; [id] + Ordered(ids - {id})
  }

  // ----- cache and allocator together -----

  // `inst` is the eaccelerator_mm block, `building` are entries being written or read from disk.
  datatype System = System(tiles: seq<Tile>, w: World, inst: Id, building: set<Id>)

  ghost predicate Owned(s: System) {
    && (forall id: Id :: Given(s.tiles, id) <==> id == s.inst || id in s.building || id in s.w.c.entries)
    && s.inst !in s.building && s.inst !in s.w.c.entries && s.building !! s.w.c.entries.Keys
  }

  ghost predicate Sound(H: string -> nat, s: System, lo: nat, hi: nat) {
    Good(H, s.w) && Wf(s.tiles, lo, hi) && Owned(s)
  }

  datatype Act =
    | Allocate(n: nat)       // eaccelerator_malloc for a new entry
    | Discard(id: Id)        // the file on disk was corrupted or out of date
    | Publish(st: Step)      // Store or Load of an entry under construction
    | Use(st: Step)          // every other cache step

  ghost predicate CanAct(H: string -> nat, s: System, a: Act) {
    match a
    case Allocate(n) => n > 0
    case Discard(id) => id in s.building
    case Publish(st) => (st.Store? || st.Load?) && st.id in s.building && Enabled(H, s.w, st)
    case Use(st) => !st.Store? && !st.Load? && Enabled(H, s.w, st)
  }

  // What a cache step frees.
  function Lost(w: World, w': World): set<Id> {
    w.c.entries.Keys - w'.c.entries.Keys
  }

  ghost function Apply(H: string -> nat, s: System, a: Act): System
    requires Good(H, s.w) && CanAct(H, s, a)
  {
    match a
    case Allocate(n) =>
      var b := BestOf(s.tiles, RealSize(n));
      if b.None? then s
      else s.(tiles := After(s.tiles, Malloc(n)), building := s.building + {b.value.addr + HEAD})
    case Discard(id) => s.(tiles := FreeInOrder(s.tiles, [id]), building := s.building - {id})
    case Publish(st) =>
      var w' := Next(H, s.w, st);
      System(FreeInOrder(s.tiles, Ordered(Lost(s.w, w'))), w', s.inst, s.building - {st.id})
    case Use(st) =>
      var w' := Next(H, s.w, st);
      System(FreeInOrder(s.tiles, Ordered(Lost(s.w, w'))), w', s.inst, s.building)
  }

  // A malloc gives out one address that was not given out before.
  lemma MallocGiven(tiles: seq<Tile>, lo: nat, hi: nat, n: nat)
    requires Wf(tiles, lo, hi) && n > 0 && BestOf(tiles, RealSize(n)).Some?
    ensures var id := BestOf(tiles, RealSize(n)).value.addr + HEAD;
            && !Given(tiles, id)
            && forall x: Id :: Given(After(tiles, Malloc(n)), x) <==> Given(tiles, x) || x == id
  {
    var t, r := BestOf(tiles, RealSize(n)).value, RealSize(n);
    var i := IndexOf(tiles, t);
    var got, t' := Arena.Given(t, r), Take(tiles, i, r);
    TakeLive(tiles, i, r);
    assert got in Live(t');
    if Given(tiles, t.addr + HEAD) {
      var j := IndexOf(tiles, LiveAt(tiles, t.addr));
      AddrsDiffer(tiles, lo, hi, i, j);
    }
    forall x: Id ensures Given(t', x) <==> Given(tiles, x) || x == t.addr + HEAD {
      if Given(t', x) {
        var u := LiveAt(t', x - HEAD);
        assert u in Live(t') && (u in Live(tiles) || u == got);
      }
      if Given(tiles, x) {
        var u := LiveAt(tiles, x - HEAD);
        assert u in Live(tiles) && u in Live(t');
      }
    }
  }

  // The entry that a step publishes.
  function Published(st: Step): set<Id> {
    if st.Store? || st.Load? then {st.id} else {}
  }

  // What a cache step adds and removes.
  ghost predicate KeysAfter(w: World, w': World, published: set<Id>) {
    published <= w'.c.entries.Keys <= w.c.entries.Keys + published
  }

  lemma PublishKeys(H: string -> nat, w: World, st: Step)
    requires Good(H, w) && Enabled(H, w, st) && (st.Store? || st.Load?)
    ensures KeysAfter(w, Next(H, w, st), Published(st))
  {
    AddShape(H, w.c, st.id, st.e);
  }

  lemma LookupKeys(H: string -> nat, w: World, st: Step)
    requires Good(H, w) && Enabled(H, w, st) && st.Lookup?
    ensures KeysAfter(w, Next(H, w, st), {})
  {
    FindMeans(H, w.c, st.name, st.mtime, st.size, st.check, st.ttl);
  }

  lemma NextKeys(H: string -> nat, w: World, st: Step)
    requires Good(H, w) && Enabled(H, w, st)
    ensures KeysAfter(w, Next(H, w, st), Published(st))
  {
    match st
    case Lookup(_, _, _, _, _, _) => LookupKeys(H, w, st);
    case Store(_, _) => PublishKeys(H, w, st);
    case Load(_, _, _) => PublishKeys(H, w, st);
    case End(p) => DropAllKeys(w.c, w.used[p]);
    case Clear =>
    case Prune(_, _) =>
    case PurgeGone =>
  }

  lemma {:induction false} DropAllKeys(c: Cache, ids: seq<Id>)
    ensures forall x :: x in DropAll(c, ids).entries ==> x in c.entries
    decreases |ids|
  {
    if ids != [] && ids[0] in c.entries {
      DropAllKeys(Drop(c, ids[0]), ids[1..]);
    }
  }

  // No step loses or doubles a block.
  lemma ActSound(H: string -> nat, s: System, lo: nat, hi: nat, a: Act)
    requires Sound(H, s, lo, hi) && CanAct(H, s, a)
    ensures Sound(H, Apply(H, s, a), lo, hi)
  {
    match a
    case Allocate(n) => AllocateSound(H, s, lo, hi, n);
    case Discard(id) => DiscardSound(H, s, lo, hi, id);
    case Publish(st) => StepSound(H, s, lo, hi, st);
    case Use(st) =>
      StepSound(H, s, lo, hi, st);
      assert s.building - {} == s.building;
  }

  lemma AllocateSound(H: string -> nat, s: System, lo: nat, hi: nat, n: nat)
    requires Sound(H, s, lo, hi) && n > 0
    ensures Sound(H, Apply(H, s, Allocate(n)), lo, hi)
  {
    if BestOf(s.tiles, RealSize(n)).Some? {
      MallocGiven(s.tiles, lo, hi, n);
      AfterKeeps(s.tiles, lo, hi, Malloc(n));
      OneMoreOwned(s, After(s.tiles, Malloc(n)), BestOf(s.tiles, RealSize(n)).value.addr + HEAD);
    }
  }

  lemma OneMoreOwned(s: System, tiles: seq<Tile>, id: Id)
    requires Owned(s) && !Given(s.tiles, id) && forall x: Id :: Given(tiles, x) <==> Given(s.tiles, x) || x == id
    ensures Owned(s.(tiles := tiles, building := s.building + {id}))
  {
  }

  lemma DiscardSound(H: string -> nat, s: System, lo: nat, hi: nat, id: Id)
    requires Sound(H, s, lo, hi) && id in s.building
    ensures Sound(H, Apply(H, s, Discard(id)), lo, hi)
  {
    assert Given(s.tiles, id);
    FreeInOrderGiven(s.tiles, lo, hi, [id]);
  }

  // The system after the cache has become w'.
  ghost function Stepped(s: System, w': World, published: set<Id>): System {
    System(FreeInOrder(s.tiles, Ordered(Lost(s.w, w'))), w', s.inst, s.building - published)
  }

  lemma StepSound(H: string -> nat, s: System, lo: nat, hi: nat, st: Step)
    requires Sound(H, s, lo, hi) && Enabled(H, s.w, st) && Published(st) <= s.building
    ensures Sound(H, Stepped(s, Next(H, s.w, st), Published(st)), lo, hi)
  {
    NextGood(H, s.w, st);
    NextKeys(H, s.w, st);
    StepSoundBy(H, s, lo, hi, Next(H, s.w, st), Published(st));
  }

  lemma StepSoundBy(H: string -> nat, s: System, lo: nat, hi: nat, w': World, published: set<Id>)
    requires Owned(s) && Wf(s.tiles, lo, hi) && Good(H, w') && KeysAfter(s.w, w', published) && published <= s.building
    ensures Sound(H, Stepped(s, w', published), lo, hi)
  {
    StepOwned(s, lo, hi, w', published);
  }

  lemma StepOwned(s: System, lo: nat, hi: nat, w': World, published: set<Id>)
    requires Owned(s) && Wf(s.tiles, lo, hi) && published <= s.building && KeysAfter(s.w, w', published)
    ensures Owned(Stepped(s, w', published)) && Wf(Stepped(s, w', published).tiles, lo, hi)
  {
    forall id | id in Lost(s.w, w') ensures Given(s.tiles, id) { assert id in s.w.c.entries; }
    FreeInOrderGiven(s.tiles, lo, hi, Ordered(Lost(s.w, w')));
  }

  // ----- eaccelerator_malloc2: prune and try again -----

  // A stretch without live blocks lies in one bucket.
  lemma DeadStretch(tiles: seq<Tile>, lo: nat, hi: nat, a: nat, n: nat) returns (i: nat)
    requires Wf(tiles, lo, hi) && n > 0 && lo <= a && a + n <= hi
    requires forall j ::
               0 <= j < |tiles| && !tiles[j].free ==> tiles[j].addr + tiles[j].size <= a || a + n <= tiles[j].addr
    ensures i < |tiles| && tiles[i].free && n <= tiles[i].size
  {
    i := Around(tiles, lo, hi, a);
    TileSpans(tiles, lo, hi, i);
  }

  // The tile that holds address a.
  lemma {:induction false} Around(tiles: seq<Tile>, lo: nat, hi: nat, a: nat) returns (i: nat)
    requires Tiled(tiles, lo, hi) && lo <= a < hi
    ensures i < |tiles| && tiles[i].addr <= a < tiles[i].addr + tiles[i].size
    decreases |tiles|
  {
    if a < lo + tiles[0].size {
      i := 0;
    } else {
      i := Around(tiles[1..], lo + tiles[0].size, hi, a);
      i := i + 1;
    }
  }

  lemma {:induction false} TileSpans(tiles: seq<Tile>, lo: nat, hi: nat, i: nat)
    requires Tiled(tiles, lo, hi) && i < |tiles|
    ensures tiles[i].size > 0 && tiles[i].addr + tiles[i].size <= hi
    ensures tiles[i].addr + tiles[i].size < hi ==> i + 1 < |tiles| && tiles[i + 1].addr == tiles[i].addr + tiles[i].size
    decreases i
  {
    TiledSpan(tiles, lo, hi);
    if i > 0 {
      TileSpans(tiles[1..], lo + tiles[0].size, hi, i - 1);
    } else {
      TiledSpan(tiles[1..], lo + tiles[0].size, hi);
    }
  }

  lemma LiveApart(tiles: seq<Tile>, lo: nat, hi: nat, t: Tile, u: Tile)
    requires Wf(tiles, lo, hi) && t in Live(tiles) && u in Live(tiles) && t.addr != u.addr
    ensures t.addr + t.size <= u.addr || u.addr + u.size <= t.addr
  {
    var i, j := IndexOf(tiles, t), IndexOf(tiles, u);
    if i < j { InOrder(tiles, lo, hi, i, j); } else { InOrder(tiles, lo, hi, j, i); }
  }

  lemma FreedIsElsewhere(tiles: seq<Tile>, tiles': seq<Tile>, ids: seq<Id>, id: Id, t: Tile)
    requires Live(tiles') == LiveBut(tiles, ids) && id in ids && Given(tiles, id) && t in tiles' && !t.free
    ensures t in Live(tiles) && t.addr != LiveAt(tiles, id - HEAD).addr
  {
    assert t in Live(tiles');
  }

  // Freed in any company, a block leaves a bucket of at least its size.
  lemma FreedLeavesRoom(tiles: seq<Tile>, lo: nat, hi: nat, ids: seq<Id>, id: Id)
    requires Wf(tiles, lo, hi) && (forall x :: x in ids ==> Given(tiles, x)) && Distinct(ids) && id in ids
    requires Given(tiles, id)
    ensures BestOf(FreeInOrder(tiles, ids), LiveAt(tiles, id - HEAD).size).Some?
  {
    var b, tiles' := LiveAt(tiles, id - HEAD), FreeInOrder(tiles, ids);
    FreeInOrderLive(tiles, lo, hi, ids);
    forall j | 0 <= j < |tiles'| && !tiles'[j].free
      ensures tiles'[j].addr + tiles'[j].size <= b.addr || b.addr + b.size <= tiles'[j].addr
    {
      FreedIsElsewhere(tiles, tiles', ids, id, tiles'[j]);
      LiveApart(tiles, lo, hi, tiles'[j], b);
    }
    TileSpans(tiles, lo, hi, IndexOf(tiles, b));
    InSpan(tiles, lo, hi, IndexOf(tiles, b));
    var i := DeadStretch(tiles', lo, hi, b.addr, b.size);
    assert Fits(tiles'[i], b.size) && tiles'[i] in tiles';
  }

  lemma SmallerFits(tiles: seq<Tile>, r: nat, r': nat)
    requires r' <= r && BestOf(tiles, r).Some?
    ensures BestOf(tiles, r').Some?
  {
    assert Fits(BestOf(tiles, r).value, r');
  }

  // What a prune leaves room for.
  lemma PrunedLeavesRoom(H: string -> nat, s: System, lo: nat, hi: nat, w': World, st: Step, id: Id)
    requires Owned(s) && Wf(s.tiles, lo, hi) && Good(H, s.w) && Enabled(H, s.w, st) && st.Prune?
    requires w' == Next(H, s.w, st)
    requires InTable(s.w.c, id) && Doomed(s.w.c.entries[id], st.t, st.stale)
    ensures Given(s.tiles, id)
    ensures BestOf(FreeInOrder(s.tiles, Ordered(Lost(s.w, w'))), LiveAt(s.tiles, id - HEAD).size).Some?
  {
    var lost := Ordered(Lost(s.w, w'));
    assert id in s.w.c.entries && id !in w'.c.entries;
    forall x | x in lost ensures Given(s.tiles, x) { assert x in s.w.c.entries; }
    FreedLeavesRoom(s.tiles, lo, hi, lost, id);
  }

  // When no bucket fits but an entry that is pruned is big enough, the second attempt succeeds.
  lemma RetryFinds(H: string -> nat, s: System, lo: nat, hi: nat, n: nat, st: Step, id: Id)
    requires Sound(H, s, lo, hi) && n > 0 && Enabled(H, s.w, st) && st.Prune?
    requires InTable(s.w.c, id) && Doomed(s.w.c.entries[id], st.t, st.stale) && Given(s.tiles, id)
    requires RealSize(n) <= LiveAt(s.tiles, id - HEAD).size
    ensures var s1 := Apply(H, s, Use(st));
            Sound(H, s1, lo, hi) && BestOf(s1.tiles, RealSize(n)).Some? && Sound(H, Apply(H, s1, Allocate(n)), lo, hi)
  {
    var s1 := Apply(H, s, Use(st));
    ActSound(H, s, lo, hi, Use(st));
    ActSound(H, s1, lo, hi, Allocate(n));
    PrunedLeavesRoom(H, s, lo, hi, s1.w, st, id);
    SmallerFits(s1.tiles, LiveAt(s.tiles, id - HEAD).size, RealSize(n));
  }

  lemma InSpan(tiles: seq<Tile>, lo: nat, hi: nat, i: nat)
    requires Tiled(tiles, lo, hi) && i < |tiles|
    ensures lo <= tiles[i].addr
  {
    if i > 0 { InOrder(tiles, lo, hi, 0, i); }
  }

  // init_mm: a fresh arena, one block for eaccelerator_mm, an empty cache.
  lemma InitSound(H: string -> nat, lo: nat, hi: nat, size: nat, processes: nat)
    requires lo % ALIGN == 0 && 0 < size && lo + RealSize(size) <= hi
    ensures var whole := [Tile(lo, hi - lo, true)];
            BestOf(whole, RealSize(size)) == Some(whole[0]) &&
            Sound(H, System(After(whole, Malloc(size)), Empty(processes), lo + HEAD, {}), lo, hi)
  {
    var whole := [Tile(lo, hi - lo, true)];
    assert whole[1..] == [] && whole[..0] == [] && whole[..|whole| - 1] == [];
    assert Wf(whole, lo, hi);
    assert BestOf(whole, RealSize(size)) == Some(whole[0]);
    MallocGiven(whole, lo, hi, size);
    AfterKeeps(whole, lo, hi, Malloc(size));
    EmptyGood(H, processes);
    assert forall id: Id :: !Given(whole, id);
  }

  ghost predicate Acts(H: string -> nat, s: System, lo: nat, hi: nat, acts: seq<Act>)
    requires Sound(H, s, lo, hi)
    decreases |acts|
  {
    acts == [] || (CanAct(H, s, acts[0])
                   && (ActSound(H, s, lo, hi, acts[0]); Acts(H, Apply(H, s, acts[0]), lo, hi, acts[1..])))
  }

  ghost function RunActs(H: string -> nat, s: System, lo: nat, hi: nat, acts: seq<Act>): System
    requires Sound(H, s, lo, hi) && Acts(H, s, lo, hi, acts)
    decreases |acts|
  {
    if acts == [] then s else (ActSound(H, s, lo, hi, acts[0]); RunActs(H, Apply(H, s, acts[0]), lo, hi, acts[1..]))
  }

  // No shared memory is lost: in every run the allocated blocks are the instance block, the table and removed
  // entries, and the entries under construction.
  lemma {:induction false} NothingLost(H: string -> nat, s: System, lo: nat, hi: nat, acts: seq<Act>)
    requires Sound(H, s, lo, hi) && Acts(H, s, lo, hi, acts)
    ensures Sound(H, RunActs(H, s, lo, hi, acts), lo, hi)
    decreases |acts|
  {
    if acts != [] {
      ActSound(H, s, lo, hi, acts[0]);
      NothingLost(H, Apply(H, s, acts[0]), lo, hi, acts[1..]);
    }
  }

  // When all requests have ended nothing waits for removal, and clearing leaves no entry at all.
  lemma ClearEmpties(H: string -> nat, w: World)
    requires Good(H, w) && forall p :: 0 <= p < |w.used| ==> w.used[p] == []
    ensures Next(H, w, Clear).c.entries == map[]
  {
    NextGood(H, w, Clear);
    var c' := Next(H, w, Clear).c;
    AllEnded(H, Next(H, w, Clear));
    forall id ensures id !in c'.entries {
      assert id in c'.entries ==> InTable(c', id);
    }
    assert c'.entries.Keys == {};
  }

  // If then nothing is being built either, the instance block is all that is given out.
  lemma ClearGivesAllBack(H: string -> nat, s: System, lo: nat, hi: nat)
    requires Sound(H, s, lo, hi) && s.building == {} && forall p :: 0 <= p < |s.w.used| ==> s.w.used[p] == []
    ensures forall id: Id :: Given(Apply(H, s, Use(Clear)).tiles, id) <==> id == s.inst
  {
    ActSound(H, s, lo, hi, Use(Clear));
    ClearEmpties(H, s.w);
  }

  // And with it freed, the arena is one bucket again.
  lemma LastBlockRestores(tiles: seq<Tile>, lo: nat, hi: nat, inst: Id)
    requires Wf(tiles, lo, hi) && lo < hi && forall id: Id :: Given(tiles, id) <==> id == inst
    ensures inst >= HEAD && After(tiles, Free(inst - HEAD)) == [Tile(lo, hi - lo, true)]
  {
    assert Given(tiles, inst);
    forall a: nat ensures a in [inst - HEAD] <==> IsLive(tiles, a) {
      assert IsLive(tiles, a) <==> Given(tiles, a + HEAD);
    }
    FreeAllRestores(tiles, lo, hi, [inst - HEAD]);
    assert FreeEach([inst - HEAD]) == [Free(inst - HEAD)];
    assert AfterAll(tiles, [Free(inst - HEAD)]) == After(tiles, Free(inst - HEAD));
  }

  // Free and live bytes add up to the arena.
  lemma {:induction false} BytesAddUp(tiles: seq<Tile>, lo: nat, hi: nat)
    requires Tiled(tiles, lo, hi)
    ensures Sum(Frees(tiles)) + Sum(Taken(tiles)) == hi - lo
    decreases |tiles|
  {
    if tiles != [] {
      BytesAddUp(tiles[1..], lo + tiles[0].size, hi);
    }
  }

  function Taken(tiles: seq<Tile>): seq<Tile> {
    if tiles == [] then [] else if tiles[0].free then Taken(tiles[1..]) else [tiles[0]] + Taken(tiles[1..])
  }
}
