// The cache as eaccelerator_mm holds it: entries linked through their next pointers.
module CacheTable {
  import opened Options
  import opened Cache
  import opened CacheShape
  import opened CacheRuns
  import opened CacheEntries

  // The i-th pointer of a list, NULL past its end.
  function At(s: seq<Id>, i: nat): Id {
    if i < |s| then s[i] else 0
  }

  predicate Linked(next: map<Id, Id>, head: Id, s: seq<Id>) {
    head == At(s, 0) && forall i :: 0 <= i < |s| ==> LinkAt(next, s, i)
  }

  predicate LinkAt(next: map<Id, Id>, s: seq<Id>, i: nat)
    requires i < |s|
  {
    s[i] != 0 && s[i] in next && next[s[i]] == At(s, i + 1)
  }

  // Entry i of a list without repetitions is taken out.
  lemma Unlink(next: map<Id, Id>, head: Id, s: seq<Id>, i: nat, next': map<Id, Id>, head': Id)
    requires Linked(next, head, s) && NoDup(s) && i < |s|
    requires if i == 0 then next' == next && head' == At(s, 1)
             else head' == head && next' == next[s[i - 1] := At(s, i + 1)]
    ensures Linked(next', head', Without(s, i))
  {
    var r := Without(s, i);
    assert LinkAt(next, s, i);
    forall j: nat | j < |r| ensures LinkAt(next', r, j) {
      var k := if j < i then j else j + 1;
      assert r[j] == s[k] && LinkAt(next, s, k);
      assert At(r, j + 1) == if j + 1 < i then s[j + 1] else At(s, j + 2);
    }
  }

  // Pointers of other entries do not matter.
  lemma LinkedElsewhere(next: map<Id, Id>, head: Id, s: seq<Id>, next': map<Id, Id>)
    requires Linked(next, head, s) && forall id :: id in s ==> id in next' && id in next && next'[id] == next[id]
    ensures Linked(next', head, s)
  {
    forall i: nat | i < |s| ensures LinkAt(next', s, i) {
      assert LinkAt(next, s, i) && s[i] in s;
    }
  }

  lemma LinkFront(next: map<Id, Id>, head: Id, s: seq<Id>, id: Id, next': map<Id, Id>)
    requires Linked(next, head, s) && id != 0 && id !in s && next' == next[id := head]
    ensures Linked(next', id, [id] + s)
  {
    var r := [id] + s;
    forall i: nat | i < |r| ensures LinkAt(next', r, i) {
      if i > 0 { assert LinkAt(next, s, i - 1); assert s[i - 1] in s; }
    }
  }

  // All lists of the table.
  ghost predicate AllLinked(c: Cache, next: map<Id, Id>, hash: seq<Id>, removed: Id) {
    && |c.chains| == |hash| == EA_HASH_SIZE
    && (forall k :: 0 <= k < EA_HASH_SIZE ==> Linked(next, hash[k], c.chains[k]))
    && Linked(next, removed, c.gone)
  }

  // The heads after `*prev = p->next`.
  predicate Unlinked(c: Cache, next: map<Id, Id>, hash: seq<Id>, k: nat, i: nat, next': map<Id, Id>, hash': seq<Id>)
    requires k < |c.chains| && k < |hash| && i < |c.chains[k]|
  {
    var s := c.chains[k];
    if i == 0 then next' == next && hash' == hash[k := At(s, 1)]
      else hash' == hash && next' == next[s[i - 1] := At(s, i + 1)]
  }

  lemma UnlinkAll(H: string -> nat, c: Cache, next: map<Id, Id>, hash: seq<Id>, removed: Id, k: nat, i: nat,
                  next': map<Id, Id>, hash': seq<Id>)
    requires Lists(H, c) && AllLinked(c, next, hash, removed) && k < EA_HASH_SIZE && i < |c.chains[k]|
    requires Unlinked(c, next, hash, k, i, next', hash')
    ensures AllLinked(c.(chains := c.chains[k := Without(c.chains[k], i)]), next', hash', removed)
  {
    var s := c.chains[k];
    Unlink(next, hash[k], s, i, next', hash'[k]);
    forall j: nat | j < EA_HASH_SIZE && j != k ensures Linked(next', hash'[j], c.chains[j]) {
      if i > 0 { OnlyThere(H, c, k, i - 1, j); }
      LinkedKeys(next, hash[j], c.chains[j]);
      LinkedElsewhere(next, hash[j], c.chains[j], next');
    }
    if i > 0 { ChainEntry(H, c, k, i - 1); }
    LinkedKeys(next, removed, c.gone);
    LinkedElsewhere(next, removed, c.gone, next');
  }

  lemma LinkedKeys(next: map<Id, Id>, head: Id, s: seq<Id>)
    requires Linked(next, head, s)
    ensures forall id :: id in s ==> id in next && id != 0
  {
    forall id | id in s ensures id in next && id != 0 {
      var i: nat :| i < |s| && s[i] == id;
      assert LinkAt(next, s, i);
    }
  }

  // Pointers of entries that are in no list do not matter.
  lemma AllLinkedElsewhere(c: Cache, next: map<Id, Id>, hash: seq<Id>, removed: Id, next': map<Id, Id>, p: Id)
    requires AllLinked(c, next, hash, removed) && p !in c.gone && forall k ::
               0 <= k < EA_HASH_SIZE ==> p !in c.chains[k]
    requires forall id :: id in next && id != p ==> id in next' && next'[id] == next[id]
    ensures AllLinked(c, next', hash, removed)
  {
    forall j | 0 <= j < EA_HASH_SIZE ensures Linked(next', hash[j], c.chains[j]) {
      LinkedKeys(next, hash[j], c.chains[j]);
      LinkedElsewhere(next, hash[j], c.chains[j], next');
    }
    LinkedKeys(next, removed, c.gone);
    LinkedElsewhere(next, removed, c.gone, next');
  }

  // Once out of its chain, an entry is nowhere.
  lemma OutOfChain(H: string -> nat, c: Cache, k: nat, i: nat)
    requires Lists(H, c) && k < EA_HASH_SIZE && i < |c.chains[k]|
    ensures var c1 := c.(chains := c.chains[k := Without(c.chains[k], i)]);
            c.chains[k][i] !in c1.gone && forall j :: 0 <= j < EA_HASH_SIZE ==> c.chains[k][i] !in c1.chains[j]
  {
    ChainEntry(H, c, k, i);
    WithoutFacts(c.chains[k], i);
    forall j: nat | j < EA_HASH_SIZE && j != k ensures c.chains[k][i] !in c.chains[j] {
      OnlyThere(H, c, k, i, j);
    }
  }

  lemma DetachLinked(H: string -> nat, c: Cache, next: map<Id, Id>, hash: seq<Id>, removed: Id, k: nat, i: nat,
                     next1: map<Id, Id>, hash1: seq<Id>, next2: map<Id, Id>, removed2: Id)
    requires Lists(H, c) && AllLinked(c, next, hash, removed) && k < EA_HASH_SIZE && i < |c.chains[k]|
    requires c.chains[k][i] in c.entries
    requires Unlinked(c, next, hash, k, i, next1, hash1)
    requires var p := c.chains[k][i];
             if c.entries[p].uses > 0 then next2 == next1[p := removed] && removed2 == p
               else next2 == next1 - {p} && removed2 == removed
    ensures AllLinked(Unchain(c, k, i), next2, hash1, removed2)
  {
    var p, c1 := c.chains[k][i], c.(chains := c.chains[k := Without(c.chains[k], i)]);
    UnlinkAll(H, c, next, hash, removed, k, i, next1, hash1);
    OutOfChain(H, c, k, i);
    AllLinkedElsewhere(c1, next1, hash1, removed, next2, p);
    assert Unchain(c, k, i).chains == c1.chains;
    if c.entries[p].uses > 0 {
      LinkedKeys(next, hash[k], c.chains[k]);
      assert p in c.chains[k];
      LinkFront(next1, removed, c.gone, p, next2);
    }
  }

  // The loop over a chain.
  method Follow(ent: map<Id, Entry>, next: map<Id, Id>, ghost chain: seq<Id>, hv: nat, name: string, start: Id,
                before: Id, ghost from: nat)
    returns (p: Id, q: Id, ghost i: nat)
    requires from <= |chain| && start == At(chain, from) && before == (if from == 0 then 0 else chain[from - 1])
    requires forall j {:trigger LinkAt(next, chain, j)} :: 0 <= j < |chain| ==> LinkAt(next, chain, j)
    requires forall id :: id in chain ==> id in ent
    ensures from <= i <= |chain| && i == from + Search(ent, chain[from..], hv, name)
    ensures p == At(chain, i) && q == (if i == 0 then 0 else chain[i - 1]) && (p != 0 <==> i < |chain|)
  {
    p, q, i := start, before, from;
    assert from < |chain| ==> LinkAt(next, chain, from);
    while p != 0 && !(ent[p].hv == hv && ent[p].name == name)
      invariant from <= i <= |chain| && p == At(chain, i) && q == (if i == 0 then 0 else chain[i - 1])
      invariant i < |chain| ==> LinkAt(next, chain, i) && chain[i] in chain
      invariant from + Search(ent, chain[from..], hv, name) == i + Search(ent, chain[i..], hv, name)
      decreases |chain| - i
    {
      assert chain[i..][1..] == chain[i + 1..];
      q := p;
      p := next[p];
      i := i + 1;
      assert i < |chain| ==> LinkAt(next, chain, i);
    }
  }

  lemma ClearFromStep(H: string -> nat, c: Cache, k: nat)
    requires Shape(H, c) && k < EA_HASH_SIZE
    ensures forall id :: id in c.chains[k] ==> id in c.entries
    ensures Shape(H, ClearChain(c, k)) && ClearFrom(H, c, k) == ClearFrom(H, ClearChain(c, k), k + 1)
  {
    ClearRest(H, c, k);
    ClearChainShape(H, c, k);
  }

  lemma PruneFromStep(H: string -> nat, c: Cache, k: nat, t: int, stale: set<string>)
    requires Shape(H, c) && k < EA_HASH_SIZE
    ensures forall id :: id in c.chains[k] ==> id in c.entries
    ensures Shape(H, PruneChain(c, k, 0, t, stale))
    ensures PruneFrom(H, c, k, t, stale) == PruneFrom(H, PruneChain(c, k, 0, t, stale), k + 1, t, stale)
  {
    ClearRest(H, c, k);
    PruneChainShape(H, c, k, 0, t, stale);
  }

  // The file has changed since the entry was made.
  predicate Outdated(e: Entry, mtime: int, size: int, check: bool) {
    check && (mtime != e.mtime || size != e.size)
  }

  // The record that is dropped next.
  lemma NextDrop(H: string -> nat, c: Cache, used: seq<seq<Id>>, p: nat, ids: seq<Id>, j: nat)
    requires p < |used| && j < |ids| && Good(H, World(c, used[p := ids[j..]]))
    ensures ids[j] in c.entries && Good(H, World(Drop(c, ids[j]), used[p := ids[j + 1..]]))
    ensures DropAll(c, ids[j..]) == DropAll(Drop(c, ids[j]), ids[j + 1..])
  {
    var now := used[p := ids[j..]];
    assert now[p] == ids[j..] && ids[j..][0] == ids[j] && ids[j..][1..] == ids[j + 1..]
           && now[p := ids[j + 1..]] == used[p := ids[j + 1..]];
    DropGood(H, World(c, now), p);
  }

  class Table {
    ghost const H: string -> nat
    const hash: array<Id>
    var ent: map<Id, Entry>
    var next: map<Id, Id>
    var removed: Id
    var hashCnt: int
    var remCnt: int
    ghost var c: Cache

    ghost predicate Valid()
      reads this, hash
    {
      Sound() && OneName(c)
    }

    // Between the two halves of hash_add_mm a name may be there twice.
    ghost predicate Sound()
      reads this, hash
    {
      && hash.Length == EA_HASH_SIZE && Lists(H, c) && AllLinked(c, next, hash[..], removed)
      && ent == c.entries && hashCnt == c.hashCnt && remCnt == c.remCnt && 0 !in ent
    }

    // init_mm
    constructor (ghost H: string -> nat)
      ensures Valid() && fresh(hash) && c == Empty(0).c && this.H == H
    {
      this.H := H;
      hash := new Id[EA_HASH_SIZE](_ => 0);
      ent, next, removed, hashCnt, remCnt := map[], map[], 0, 0, 0;
      c := Empty(0).c;
      new;
      EmptyGood(H, 0);
    }

    // Walk chain k from its entry `from` to the first that matches.
    method Walk(k: nat, hv: nat, name: string, start: Id, before: Id, ghost from: nat)
      returns (p: Id, q: Id, ghost i: nat)
      requires Sound() && k < EA_HASH_SIZE && from <= |c.chains[k]|
      requires start == At(c.chains[k], from) && before == (if from == 0 then 0 else c.chains[k][from - 1])
      ensures i == from + Search(ent, c.chains[k][from..], hv, name)
      ensures p == At(c.chains[k], i) && q == (if i == 0 then 0 else c.chains[k][i - 1])
      ensures p != 0 <==> i < |c.chains[k]|
      ensures p != 0 ==> InTable(c, p)
    {
      assert Linked(next, hash[k], c.chains[k]);
      LinkedKeys(next, hash[k], c.chains[k]);
      ClearRest(H, c, k);
      p, q, i := Follow(ent, next, c.chains[k], hv, name, start, before, from);
    }

    method UnlinkEntry(k: nat, p: Id, q: Id, ghost i: nat)
      requires hash.Length == EA_HASH_SIZE && AllLinked(c, next, hash[..], removed)
      requires k < EA_HASH_SIZE && i < |c.chains[k]| && p == c.chains[k][i]
      requires q == (if i == 0 then 0 else c.chains[k][i - 1])
      modifies this`next, hash
      ensures Unlinked(c, old(next), old(hash[..]), k, i, next, hash[..])
    {
      assert Linked(next, hash[k], c.chains[k]);
      assert LinkAt(next, c.chains[k], i) && (i > 0 ==> LinkAt(next, c.chains[k], i - 1));
      if q == 0 {
        hash[k] := next[p];
      } else {
        next := next[q := next[p]];
      }
    }

    // Take p, which follows q in chain k, out of the table: schedule it for removal while it is used, free it
    // otherwise.
    method Detach(k: nat, p: Id, q: Id, ghost i: nat)
      requires Sound()
      requires k < EA_HASH_SIZE && i < |c.chains[k]| && p == c.chains[k][i]
      requires q == (if i == 0 then 0 else c.chains[k][i - 1])
      modifies this, hash
      ensures Sound() && p in old(c.entries) && c == Unchain(old(c), k, i)
    {
      ghost var next0, hash0, removed0 := next, hash[..], removed;
      ChainEntry(H, c, k, i);
      UnchainLists(H, c, k, i);
      UnlinkEntry(k, p, q, i);
      ghost var next1 := next;
      hashCnt := hashCnt - 1;
      if ent[p].uses > 0 {
        ent := ent[p := ent[p].(removed := true)];
        next := next[p := removed];
        removed := p;
        remCnt := remCnt + 1;
      } else {
        ent := ent - {p};
        next := next - {p};
      }
      DetachLinked(H, c, next0, hash0, removed0, k, i, next1, hash[..], next, removed);
      c := Unchain(c, k, i);
    }

    method Hit(p: Id, ttl: int)
      requires Valid() && InTable(c, p)
      modifies this`ent, this`c
      ensures Valid() && c == old(c).(entries := old(ent)[p := Used(old(ent[p]), ttl)])
    {
      ghost var c1 := c.(entries := ent[p := Used(ent[p], ttl)]);
      HitShape(H, c, p, Used(ent[p], ttl), c1);
      SameLinks(c, c1, next, hash[..], removed);
      ent := ent[p := Used(ent[p], ttl)];
      c := c1;
    }

    // What hash_find_mm does with the entry it finds.
    method Found(k: nat, p: Id, q: Id, ghost i: nat, mtime: int, size: int, check: bool, ttl: int, reloads: int)
      returns (r: Option<Id>, n: int)
      requires Valid() && k < EA_HASH_SIZE && i < |c.chains[k]| && InTable(c, p)
      requires p == c.chains[k][i] && q == (if i == 0 then 0 else c.chains[k][i - 1])
      modifies this, hash
      ensures Valid() && old(c.chains[k][i]) in old(c.entries)
      ensures (c, r) == FoundAt(old(c), k, i, mtime, size, check, ttl)
      ensures n == if Outdated(old(ent[p]), mtime, size, check) then old(ent[p].reloads) + 1 else reloads
    {
      r, n := None, reloads;
      if check && (mtime != ent[p].mtime || size != ent[p].size) {
        n := ent[p].reloads + 1;
        UnchainShape(H, c, k, i);
        Detach(k, p, q, i);
      } else {
        Hit(p, ttl);
        r := Some(p);
      }
    }

    // hash_find_mm
    method FindEntry(hv: nat, name: string, mtime: int, size: int, check: bool, ttl: int, reloads: int)
      returns (r: Option<Id>, n: int)
      requires Valid() && hv == H(name)
      modifies this, hash
      ensures Valid() && forall id :: id in old(c.chains[Slot(hv)]) ==> id in old(c.entries)
      ensures (c, r) == Find(old(c), hv, name, mtime, size, check, ttl)
      ensures LookedUp(old(c), c, name, mtime, size, check, ttl)
      ensures forall id ::
                Holds(old(c), name, id) && Outdated(old(ent)[id], mtime, size, check) ==> n == old(ent)[id].reloads + 1
      ensures (forall id :: Holds(old(c), name, id) ==> !Outdated(old(ent)[id], mtime, size, check)) ==> n == reloads
    {
      SearchFinds(H, c, name);
      FindLeaves(H, c, name, mtime, size, check, ttl);
      ClearRest(H, c, Slot(hv));
      var k := Slot(hv);
      var p, q;
      ghost var i;
      assert c.chains[k][0..] == c.chains[k] && Linked(next, hash[k], c.chains[k]);
      p, q, i := Walk(k, hv, name, hash[k], 0, 0);
      r, n := None, reloads;
      if p != 0 {
        r, n := Found(k, p, q, i, mtime, size, check, ttl, reloads);
      }
    }

    // The first half of hash_add_mm.
    method PushEntry(id: Id, e: Entry)
      requires Valid() && id != 0 && id !in ent && e.hv == H(e.name) && !e.removed
      modifies this, hash
      ensures Sound() && c == Push(old(c), id, e) && hash[Slot(e.hv)] == id && id in next
      ensures next[id] == old(hash[Slot(e.hv)])
    {
      var k := Slot(e.hv);
      PushLists(H, c, id, e);
      PushLinked(H, c, next, hash[..], removed, id, e);
      ent := ent[id := e];
      next := next[id := hash[k]];
      hash[k] := id;
      hashCnt := hashCnt + 1;
      c := Push(c, id, e);
    }

    // The second half: an older entry of the same name goes.
    method DropOlder(k: nat, id: Id, hv: nat, name: string, ghost c0: Cache, ghost e: Entry)
      requires Sound() && Lists(H, c0) && id !in c0.entries && k == Slot(e.hv) && e.hv == hv && e.name == name
      requires !e.removed
      requires c == Push(c0, id, e) && id != 0 && id in next && next[id] == At(c0.chains[k], 0)
      modifies this, hash
      ensures Sound() && (forall x :: x in c0.chains[k] ==> x in c0.entries)
      ensures c == AddOver(c0, id, e, k, Search(c0.entries, c0.chains[k], hv, name))
    {
      ClearRest(H, c0, k);
      assert c.chains[k] == [id] + c0.chains[k] && c.chains[k][1..] == c0.chains[k];
      var p, q;
      ghost var i;
      p, q, i := Walk(k, hv, name, next[id], id, 1);
      NewIsElsewhere(H, c0, id, e, k);
      if p != 0 {
        Replace(k, id, p, q, i, c0, e);
      }
    }

    method Replace(k: nat, id: Id, p: Id, q: Id, ghost i: nat, ghost c0: Cache, ghost e: Entry)
      requires Sound() && Lists(H, c0) && id !in c0.entries && k == Slot(e.hv) && !e.removed && c == Push(c0, id, e)
      requires 0 < i < |c.chains[k]| && p == c.chains[k][i] && p in ent && q == c.chains[k][i - 1]
      modifies this, hash
      ensures Sound() && c0.chains[k][i - 1] in c0.entries && c == AddOver(c0, id, e, k, i - 1)
    {
      ClearRest(H, c0, k);
      assert p == c0.chains[k][i - 1] && p in c0.chains[k];
      Reload(id, ent[p].reloads);
      assert c == Push(c0, id, Inherit(e, c0.entries[p]));
      Detach(k, p, q, i);
    }

    // hash_add_mm
    method AddEntry(id: Id, e: Entry)
      requires Valid() && id != 0 && id !in ent && e.hv == H(e.name) && !e.removed
      modifies this, hash
      ensures Valid() && forall x :: x in old(c.chains[Slot(e.hv)]) ==> x in old(c.entries)
      ensures c == Add(old(c), id, e) && Replaced(old(c), c, id, e)
    {
      ghost var c0 := c;
      AddShape(H, c, id, e);
      AddLeaves(H, c, id, e);
      assert Linked(next, hash[Slot(e.hv)], c.chains[Slot(e.hv)]);
      PushEntry(id, e);
      DropOlder(Slot(e.hv), id, e.hv, e.name, c0, e);
    }

    // hash[slot]->nreloads += p->nreloads
    method Reload(id: Id, more: int)
      requires Sound() && InTable(c, id)
      modifies this`ent, this`c
      ensures Sound() && c == old(c).(entries := old(ent)[id := old(ent[id]).(reloads := old(ent[id]).reloads + more)])
    {
      var e := ent[id];
      ReloadLists(H, c, id, e.(reloads := e.reloads + more));
      ent := ent[id := e.(reloads := e.reloads + more)];
      c := c.(entries := ent);
    }

    // The inner loop of eaccelerator_clear.  hash[k] keeps pointing at the first entry until all are gone.
    method EmptyChain(k: nat)
      requires Valid() && k < EA_HASH_SIZE && forall id :: id in c.chains[k] ==> id in c.entries
      modifies this, hash
      ensures Valid() && c == ClearChain(old(c), k)
    {
      var p := hash[k];
      assert hash[..] == hash[..][k := p];
      while p != 0
        invariant Held(k, p) && forall id :: id in c.chains[k] ==> id in c.entries
        invariant ClearChain(c, k) == ClearChain(old(c), k)
        decreases |c.chains[k]|
      {
        p := PopChain(k, p);
      }
      hash[k] := 0;
      assert c.chains[k] == [] by { ChainEnds(next, p, c.chains[k]); }
    }

    // Everything is in order but for the head of chain k, which is p.
    ghost predicate Held(k: nat, p: Id)
      requires k < EA_HASH_SIZE
      reads this, hash
    {
      && hash.Length == EA_HASH_SIZE && Shape(H, c) && AllLinked(c, next, hash[..][k := p], removed)
      && ent == c.entries && hashCnt == c.hashCnt && remCnt == c.remCnt && 0 !in ent && Linked(next, p, c.chains[k])
    }

    method PopChain(k: nat, r: Id) returns (p: Id)
      requires k < EA_HASH_SIZE && Held(k, r) && r != 0 && forall id :: id in c.chains[k] ==> id in c.entries
      modifies this
      ensures Held(k, p) && (forall id :: id in c.chains[k] ==> id in c.entries)
      ensures |old(c.chains[k])| > 0 && |c.chains[k]| < |old(c.chains[k])| && old(c.chains[k][0]) in old(c.entries)
      ensures NoDup(old(c.chains[k])) && c == Unchain(old(c), k, 0) && ClearChain(c, k) == ClearChain(old(c), k)
    {
      ghost var next0, heads, removed0 := next, hash[..][k := r], removed;
      assert LinkAt(next, c.chains[k], 0);
      ChainEntry(H, c, k, 0);
      UnchainShape(H, c, k, 0);
      ClearRest(H, Unchain(c, k, 0), k);
      p := next[r];
      hashCnt := hashCnt - 1;
      if ent[r].uses <= 0 {
        ent := ent - {r};
        next := next - {r};
      } else {
        ent := ent[r := ent[r].(removed := true)];
        next := next[r := removed];
        removed := r;
        remCnt := remCnt + 1;
      }
      DetachLinked(H, c, next0, heads, removed0, k, 0, next0, heads[k := p], next, removed);
      assert heads[k := p] == hash[..][k := p];
      c := Unchain(c, k, 0);
      assert Linked(next, heads[k := p][k], c.chains[k]);
    }

    // eaccelerator_clear
    method ClearAll()
      requires Valid()
      modifies this, hash
      ensures Valid() && c == ClearFrom(H, old(c), 0) && Cleared(old(c), c)
    {
      ClearLeaves(H, c);
      var i := 0;
      while i < EA_HASH_SIZE
        invariant i <= EA_HASH_SIZE && Valid() && ClearFrom(H, c, i) == ClearFrom(H, old(c), 0)
      {
        ClearFromStep(H, c, i);
        EmptyChain(i);
        i := i + 1;
      }
    }

    // The prune loop stands at entry j of chain k.
    ghost predicate Standing(k: nat, p: Id, q: Id, j: nat)
      requires k < EA_HASH_SIZE
      reads this, hash
    {
      && Valid() && j <= |c.chains[k]| && p == At(c.chains[k], j) && q == (if j == 0 then 0 else c.chains[k][j - 1])
      && (forall id :: id in c.chains[k] ==> id in c.entries) && NoDup(c.chains[k]) && (j < |c.chains[k]| ==> p != 0)
    }

    // The inner loop of eaccelerator_prune; stat finds the files in `stale` missing or changed.
    method PruneOne(k: nat, t: int, stale: set<string>)
      requires Valid() && k < EA_HASH_SIZE && forall id :: id in c.chains[k] ==> id in c.entries
      modifies this, hash
      ensures Valid() && c == PruneChain(old(c), k, 0, t, stale)
    {
      var q: Id, p := 0, hash[k];
      ghost var j := 0;
      assert Linked(next, hash[k], c.chains[k]);
      ChainEnds(next, p, c.chains[k]);
      while p != 0
        invariant Standing(k, p, q, j)
        invariant PruneChain(c, k, j, t, stale) == PruneChain(old(c), k, 0, t, stale)
        decreases |c.chains[k]| - j
      {
        p, q, j := PruneStep(k, p, q, j, t, stale);
      }
    }

    method PruneStep(k: nat, p: Id, q: Id, ghost j: nat, t: int, stale: set<string>)
      returns (p': Id, q': Id, ghost j': nat)
      requires k < EA_HASH_SIZE && Standing(k, p, q, j) && p != 0
      modifies this, hash
      ensures Standing(k, p', q', j') && |c.chains[k]| - j' < |old(c.chains[k])| - j
      ensures PruneChain(c, k, j', t, stale) == PruneChain(old(c), k, j, t, stale)
    {
      if Doomed(ent[p], t, stale) {
        p' := FreeEntry(k, p, q, j);
        q', j' := q, j;
      } else {
        assert Linked(next, hash[k], c.chains[k]) && LinkAt(next, c.chains[k], j);
        q', p', j' := p, next[p], j + 1;
      }
      assert Linked(next, hash[k], c.chains[k]) && (j' < |c.chains[k]| ==> LinkAt(next, c.chains[k], j'));
    }

    method FreeEntry(k: nat, r: Id, q: Id, ghost j: nat) returns (p: Id)
      requires Valid() && k < EA_HASH_SIZE && (forall id :: id in c.chains[k] ==> id in c.entries)
      requires j < |c.chains[k]| && r == c.chains[k][j] && q == (if j == 0 then 0 else c.chains[k][j - 1])
      modifies this, hash
      ensures Valid() && c == FreeAt(old(c), k, j) && p == At(c.chains[k], j)
      ensures (forall id :: id in c.chains[k] ==> id in c.entries) && NoDup(c.chains[k])
    {
      ghost var next0, hash0 := next, hash[..];
      assert Linked(next, hash[k], c.chains[k]) && LinkAt(next, c.chains[k], j);
      FreeAtShape(H, c, k, j);
      ClearRest(H, FreeAt(c, k, j), k);
      UnlinkEntry(k, r, q, j);
      p := next[r];
      ghost var next1 := next;
      hashCnt := hashCnt - 1;
      ent := ent - {r};
      next := next - {r};
      FreeLinked(H, c, next0, hash0, removed, k, j, next1, hash[..], next);
      c := FreeAt(c, k, j);
    }

    // eaccelerator_prune
    method PruneAll(t: int, stale: set<string>)
      requires Valid()
      modifies this, hash
      ensures Valid() && c == PruneFrom(H, old(c), 0, t, stale) && Pruned(old(c), c, t, stale)
    {
      var i := 0;
      while i < EA_HASH_SIZE
        invariant i <= EA_HASH_SIZE && Valid() && PruneFrom(H, c, i, t, stale) == PruneFrom(H, old(c), 0, t, stale)
      {
        PruneFromStep(H, c, i, t, stale);
        PruneOne(i, t, stale);
        i := i + 1;
      }
    }

    // Search the removed list for the entry's predecessor and take the entry out.
    method TakeRemoved(id: Id)
      requires Linked(next, removed, c.gone) && NoDup(c.gone) && id in c.gone
      modifies this`removed, this`next
      ensures Linked(next, removed, Without(c.gone, IndexIn(c.gone, id)))
      ensures forall x :: x in old(next) && x !in c.gone ==> x in next && next[x] == old(next[x])
    {
      ghost var gone, i := c.gone, IndexIn(c.gone, id);
      ghost var next0, removed0 := next, removed;
      assert LinkAt(next, gone, i);
      if removed == id {
        assert LinkAt(next, gone, 0);
        assert i == 0 by { assert gone[0] == id; }
        removed := next[id];
        Unlink(next0, removed0, gone, i, next, removed);
      } else {
        var q := removed;
        ghost var j := 0;
        assert i > 0;
        assert LinkAt(next, gone, 0);
        while q != 0 && next[q] != id
          invariant j < i && q == At(gone, j) && LinkAt(next, gone, j)
          decreases i - j
        {
          assert j + 1 != i;
          q := next[q];
          j := j + 1;
          assert LinkAt(next, gone, j);
        }
        assert j + 1 == i;
        if q != 0 {
          next := next[q := next[id]];
          Unlink(next0, removed0, gone, i, next, removed);
        }
      }
    }

    // An entry that waits for removal and has lost its last user goes.
    method Dispose(id: Id)
      requires hash.Length == EA_HASH_SIZE && Lists(H, c) && AllLinked(c, next, hash[..], removed) && id in c.gone
      requires id in ent
      modifies this`ent, this`next, this`removed, this`remCnt
      ensures ent == old(ent) - {id} && remCnt == old(remCnt) - 1
      ensures AllLinked(c.(gone := Without(c.gone, IndexIn(c.gone, id))), next, hash[..], removed)
    {
      ghost var next0 := next;
      TakeRemoved(id);
      remCnt := remCnt - 1;
      ent := ent - {id};
      ghost var next1 := next;
      next := next - {id};
      GoneLinked(H, c, next0, hash[..], id, next1, removed, c.(gone := Without(c.gone, IndexIn(c.gone, id))));
    }

    // One round of the locked loop of eaccelerator_clean_request.
    method DropOne(id: Id)
      requires Valid() && id in ent
      modifies this
      ensures Valid() && c == Drop(old(c), id)
    {
      ghost var c1 := Drop(c, id);
      DropShape(H, c, id);
      ent := ent[id := ent[id].(uses := ent[id].uses - 1)];
      if ent[id].removed && ent[id].uses <= 0 {
        assert id in c.gone;
        Dispose(id);
        SameLinks(c.(gone := c1.gone), c1, next, hash[..], removed);
      } else {
        SameLinks(c, c1, next, hash[..], removed);
      }
      c := c1;
    }

    // eaccelerator_clean_request up to the unlock: `ids` is the used-list of process p.
    method CleanRequest(ids: seq<Id>, ghost used: seq<seq<Id>>, ghost p: nat)
      requires Valid() && p < |used| && ids == used[p] && Good(H, World(c, used))
      modifies this
      ensures Valid() && Good(H, World(c, used[p := []])) && c == EndRequest(H, World(old(c), used), p).c
      ensures Released(old(c), c, ids)
    {
      EndLeaves(H, World(c, used), p);
      var j := 0;
      assert used[p := ids[0..]] == used;
      while j < |ids|
        invariant j <= |ids| && Valid() && Good(H, World(c, used[p := ids[j..]]))
        invariant DropAll(c, ids[j..]) == DropAll(old(c), ids)
      {
        NextDrop(H, c, used, p, ids, j);
        DropOne(ids[j]);
        j := j + 1;
      }
      assert ids[|ids|..] == [];
    }

    method FreeGone(head: Id, ghost gone: seq<Id>)
      requires Linked(next, head, gone) && NoDup(gone)
      modifies this`ent, this`next
      ensures next == old(next) - (set x | x in gone) && ent == old(ent) - (set x | x in gone)
    {
      var p := head;
      ghost var j := 0;
      ChainEnds(next, p, gone);
      while p != 0
        invariant j <= |gone| && p == At(gone, j) && (j < |gone| ==> p != 0)
        invariant next == old(next) - (set x | x in gone[..j]) && ent == old(ent) - (set x | x in gone[..j])
        decreases |gone| - j
      {
        assert LinkAt(old(next), gone, j);
        var q := next[p];
        ent := ent - {p};
        next := next - {p};
        assert gone[..j + 1] == gone[..j] + [p];
        p := q;
        j := j + 1;
        assert j < |gone| ==> LinkAt(old(next), gone, j);
      }
      assert gone[..j] == gone;
    }

    // eaccelerator_purge
    method PurgeAll()
      requires Valid()
      modifies this
      ensures Valid() && c == Purge(old(c)) && Purged(old(c), c)
    {
      ghost var c0, next0 := c, next;
      PurgeShape(H, c);
      var p := removed;
      remCnt, removed := 0, 0;
      FreeGone(p, c0.gone);
      PurgeLinked(H, c0, next0, hash[..], next);
      c := Purge(c);
      assert ent == c.entries;
    }
  }

  lemma GoneLinked(H: string -> nat, c: Cache, next: map<Id, Id>, hash: seq<Id>, id: Id, next1: map<Id, Id>,
                   removed1: Id, c': Cache)
    requires c'.chains == c.chains && id in c.gone && c'.gone == Without(c.gone, IndexIn(c.gone, id))
    requires Lists(H, c) && |hash| == EA_HASH_SIZE
    requires (forall k :: 0 <= k < EA_HASH_SIZE ==> Linked(next, hash[k], c.chains[k]))
    requires Linked(next1, removed1, Without(c.gone, IndexIn(c.gone, id)))
    requires forall x :: x in next && x !in c.gone ==> x in next1 && next1[x] == next[x]
    ensures AllLinked(c', next1 - {id}, hash, removed1)
  {
    WithoutFacts(c.gone, IndexIn(c.gone, id));
    var rest := Without(c.gone, IndexIn(c.gone, id));
    LinkedKeys(next1, removed1, rest);
    LinkedElsewhere(next1, removed1, rest, next1 - {id});
    forall k | 0 <= k < EA_HASH_SIZE ensures Linked(next1 - {id}, hash[k], c.chains[k]) {
      NotGone(H, c, k);
      LinkedKeys(next, hash[k], c.chains[k]);
      LinkedElsewhere(next, hash[k], c.chains[k], next1 - {id});
    }
  }

  lemma NotGone(H: string -> nat, c: Cache, k: nat)
    requires Lists(H, c) && k < EA_HASH_SIZE
    ensures forall x :: x in c.chains[k] ==> x !in c.gone
  {
    ClearRest(H, c, k);
  }

  lemma PurgeLinked(H: string -> nat, c: Cache, next: map<Id, Id>, hash: seq<Id>, next': map<Id, Id>)
    requires Lists(H, c) && |hash| == EA_HASH_SIZE
    requires (forall k :: 0 <= k < EA_HASH_SIZE ==> Linked(next, hash[k], c.chains[k]))
    requires next' == next - (set x | x in c.gone)
    ensures AllLinked(Purge(c), next', hash, 0)
  {
    forall k | 0 <= k < EA_HASH_SIZE ensures Linked(next', hash[k], c.chains[k]) {
      NotGone(H, c, k);
      LinkedKeys(next, hash[k], c.chains[k]);
      LinkedElsewhere(next, hash[k], c.chains[k], next');
    }
  }

  lemma ChainEnds(next: map<Id, Id>, p: Id, s: seq<Id>)
    requires Linked(next, p, s)
    ensures p == 0 <==> s == []
  {
    if s != [] { assert LinkAt(next, s, 0); }
  }

  lemma FreeLinked(H: string -> nat, c: Cache, next: map<Id, Id>, hash: seq<Id>, removed: Id, k: nat, i: nat,
                   next1: map<Id, Id>, hash1: seq<Id>, next2: map<Id, Id>)
    requires Lists(H, c) && AllLinked(c, next, hash, removed) && k < EA_HASH_SIZE && i < |c.chains[k]|
    requires Unlinked(c, next, hash, k, i, next1, hash1) && next2 == next1 - {c.chains[k][i]}
    ensures AllLinked(FreeAt(c, k, i), next2, hash1, removed)
  {
    var p, c1 := c.chains[k][i], c.(chains := c.chains[k := Without(c.chains[k], i)]);
    UnlinkAll(H, c, next, hash, removed, k, i, next1, hash1);
    OutOfChain(H, c, k, i);
    AllLinkedElsewhere(c1, next1, hash1, removed, next2, p);
    assert FreeAt(c, k, i).chains == c1.chains;
  }

  lemma ReloadLists(H: string -> nat, c: Cache, id: Id, e: Entry)
    requires Lists(H, c) && InTable(c, id) && e == c.entries[id].(reloads := e.reloads)
    ensures Lists(H, c.(entries := c.entries[id := e]))
  {
    var c' := c.(entries := c.entries[id := e]);
    forall k, x {:trigger x in c'.chains[k]} | 0 <= k < EA_HASH_SIZE && x in c'.chains[k] ensures Belongs(H, c', k, x) {
      assert x in c.chains[k] && Belongs(H, c, k, x);
    }
  }

  lemma PushLinked(H: string -> nat, c: Cache, next: map<Id, Id>, hash: seq<Id>, removed: Id, id: Id, e: Entry)
    requires Lists(H, c) && AllLinked(c, next, hash, removed) && id != 0 && id !in c.entries
    ensures var k := Slot(e.hv); AllLinked(Push(c, id, e), next[id := hash[k]], hash[k := id], removed)
  {
    var k := Slot(e.hv);
    var next' := next[id := hash[k]];
    forall j | 0 <= j < EA_HASH_SIZE ensures id !in c.chains[j] {
      ClearRest(H, c, j);
    }
    AllLinkedElsewhere(c, next, hash, removed, next', id);
    LinkFront(next, hash[k], c.chains[k], id, next');
  }

  // The search skips the new entry and sees the others as they were.
  lemma NewIsElsewhere(H: string -> nat, c: Cache, id: Id, e: Entry, k: nat)
    requires Lists(H, c) && id !in c.entries && k == Slot(e.hv)
    ensures Search(c.entries[id := e], c.chains[k], e.hv, e.name) == Search(c.entries, c.chains[k], e.hv, e.name)
  {
    ClearRest(H, c, k);
    SearchSame(c.entries, c.entries[id := e], c.chains[k], e.hv, e.name);
  }

  lemma {:induction false} SearchSame(a: map<Id, Entry>, b: map<Id, Entry>, chain: seq<Id>, hv: nat, name: string)
    requires forall id :: id in chain ==> id in a && id in b && a[id] == b[id]
    ensures Search(a, chain, hv, name) == Search(b, chain, hv, name)
    decreases |chain|
  {
    if chain != [] {
      assert forall id :: id in chain[1..] ==> id in chain;
      SearchSame(a, b, chain[1..], hv, name);
    }
  }

  // Counting a hit.
  function Used(e: Entry, ttl: int): Entry {
    e.(hits := e.hits + 1, uses := e.uses + 1, ttl := ttl)
  }

  lemma HitShape(H: string -> nat, c: Cache, p: Id, e: Entry, c': Cache)
    requires Shape(H, c) && InTable(c, p) && e.hv == c.entries[p].hv && e.name == c.entries[p].name && !e.removed
    requires c' == c.(entries := c.entries[p := e])
    ensures Shape(H, c')
  {
    forall k, id {:trigger id in c'.chains[k]} | 0 <= k < EA_HASH_SIZE && id in c'.chains[k]
      ensures Belongs(H, c', k, id)
    {
      assert id in c.chains[k] && Belongs(H, c, k, id);
    }
    OneNameFewer(c, c');
  }

  // The links do not run through the entries.
  lemma SameLinks(c: Cache, c': Cache, next: map<Id, Id>, hash: seq<Id>, removed: Id)
    requires AllLinked(c, next, hash, removed) && c'.chains == c.chains && c'.gone == c.gone
    ensures AllLinked(c', next, hash, removed)
  {
  }
}
