// What every cache operation keeps, and what it means for the map from file names to entries.
module CacheShape {
  import opened Options
  import opened Cache

  lemma {:induction false} TotalUpdate(chains: seq<seq<Id>>, k: nat, s: seq<Id>)
    requires k < |chains|
    ensures Total(chains[k := s]) == Total(chains) - |chains[k]| + |s|
    decreases k
  {
    if k == 0 {
      assert chains[0 := s][1..] == chains[1..];
    } else {
      TotalUpdate(chains[1..], k - 1, s);
      assert chains[k := s][1..] == chains[1..][k - 1 := s];
    }
  }

  lemma WithoutFacts(s: seq<Id>, i: nat)
    requires i < |s| && NoDup(s)
    ensures NoDup(Without(s, i)) && |Without(s, i)| == |s| - 1
    ensures forall id :: id in Without(s, i) <==> id in s && id != s[i]
  {
    var r := Without(s, i);
    assert forall j :: 0 <= j < |r| ==> r[j] == s[if j < i then j else j + 1];
    forall id | id in s && id != s[i] ensures id in r {
      var j :| 0 <= j < |s| && s[j] == id;
      assert r[if j < i then j else j - 1] == id;
    }
  }

  // ----- taking an entry out -----

  lemma ChainEntry(H: string -> nat, c: Cache, k: nat, i: nat)
    requires Listed(H, c) && k < EA_HASH_SIZE && i < |c.chains[k]|
    ensures var id := c.chains[k][i];
            && id in c.entries && !c.entries[id].removed && Slot(c.entries[id].hv) == k
            && c.entries[id].hv == H(c.entries[id].name) && id !in c.gone
  {
    assert c.chains[k][i] in c.chains[k];
  }

  lemma OneNameFewer(c: Cache, c': Cache)
    requires OneName(c) && forall id :: InTable(c', id) ==> InTable(c, id) && c'.entries[id].name == c.entries[id].name
    ensures OneName(c')
  {
    forall id, id' | InTable(c', id) && InTable(c', id') && c'.entries[id].name == c'.entries[id'].name
      ensures id == id'
    {
      assert InTable(c, id) && InTable(c, id');
    }
  }

  // An entry of chain k is in no other chain.
  lemma OnlyThere(H: string -> nat, c: Cache, k: nat, i: nat, k': nat)
    requires Listed(H, c) && k < EA_HASH_SIZE && i < |c.chains[k]| && k' < EA_HASH_SIZE && k' != k
    ensures c.chains[k][i] !in c.chains[k']
  {
    assert c.chains[k][i] in c.chains[k];
  }

  lemma FreeAtLists(H: string -> nat, c: Cache, k: nat, i: nat)
    requires Lists(H, c) && k < EA_HASH_SIZE && i < |c.chains[k]|
    ensures Lists(H, FreeAt(c, k, i))
    ensures forall id :: InTable(FreeAt(c, k, i), id) <==> InTable(c, id) && id != c.chains[k][i]
  {
    ChainEntry(H, c, k, i);
    WithoutFacts(c.chains[k], i);
    TotalUpdate(c.chains, k, Without(c.chains[k], i));
    var id, c' := c.chains[k][i], FreeAt(c, k, i);
    forall k', x {:trigger x in c'.chains[k']} | 0 <= k' < EA_HASH_SIZE && x in c'.chains[k']
      ensures Belongs(H, c', k', x)
    {
      assert x in c.chains[k'];
      if k' != k { OnlyThere(H, c, k, i, k'); }
    }
  }

  lemma FreeAtShape(H: string -> nat, c: Cache, k: nat, i: nat)
    requires Shape(H, c) && k < EA_HASH_SIZE && i < |c.chains[k]|
    ensures Shape(H, FreeAt(c, k, i))
  {
    FreeAtLists(H, c, k, i);
    OneNameFewer(c, FreeAt(c, k, i));
  }

  lemma ScheduleLists(H: string -> nat, c: Cache, k: nat, i: nat)
    requires Lists(H, c) && k < EA_HASH_SIZE && i < |c.chains[k]| && c.chains[k][i] in c.entries
    requires c.entries[c.chains[k][i]].uses > 0
    ensures Lists(H, Unchain(c, k, i))
    ensures forall id :: InTable(Unchain(c, k, i), id) <==> InTable(c, id) && id != c.chains[k][i]
  {
    ChainEntry(H, c, k, i);
    WithoutFacts(c.chains[k], i);
    TotalUpdate(c.chains, k, Without(c.chains[k], i));
    var id, c' := c.chains[k][i], Unchain(c, k, i);
    forall k', x {:trigger x in c'.chains[k']} | 0 <= k' < EA_HASH_SIZE && x in c'.chains[k']
      ensures Belongs(H, c', k', x)
    {
      assert x in c.chains[k'];
      if k' != k { OnlyThere(H, c, k, i, k'); }
    }
    assert c'.gone[0] == id;
    assert forall x :: x in c'.gone <==> x == id || x in c.gone;
  }

  lemma UnchainLists(H: string -> nat, c: Cache, k: nat, i: nat)
    requires Lists(H, c) && k < EA_HASH_SIZE && i < |c.chains[k]| && c.chains[k][i] in c.entries
    ensures Lists(H, Unchain(c, k, i))
    ensures forall id :: InTable(Unchain(c, k, i), id) <==> InTable(c, id) && id != c.chains[k][i]
  {
    if c.entries[c.chains[k][i]].uses > 0 {
      ScheduleLists(H, c, k, i);
    } else {
      FreeAtLists(H, c, k, i);
    }
  }

  lemma UnchainShape(H: string -> nat, c: Cache, k: nat, i: nat)
    requires Shape(H, c) && k < EA_HASH_SIZE && i < |c.chains[k]| && c.chains[k][i] in c.entries
    ensures Shape(H, Unchain(c, k, i))
  {
    UnchainLists(H, c, k, i);
    OneNameFewer(c, Unchain(c, k, i));
  }

  // ----- putting one in -----

  lemma PushLists(H: string -> nat, c: Cache, id: Id, e: Entry)
    requires Lists(H, c) && id !in c.entries && e.hv == H(e.name) && !e.removed
    ensures Lists(H, Push(c, id, e))
    ensures forall x :: InTable(Push(c, id, e), x) <==> InTable(c, x) || x == id
  {
    var k, c' := Slot(e.hv), Push(c, id, e);
    TotalUpdate(c.chains, k, [id] + c.chains[k]);
    assert id !in c.chains[k];
    assert c'.chains[k] == [id] + c.chains[k];
    forall k', x {:trigger x in c'.chains[k']} | 0 <= k' < EA_HASH_SIZE && x in c'.chains[k']
      ensures Belongs(H, c', k', x)
    {
      assert (x == id && k' == k) || x in c.chains[k'];
    }
    forall x | x in c'.entries
      ensures if c'.entries[x].removed then x in c'.gone else x in c'.chains[Slot(c'.entries[x].hv)]
    {
      if x == id { assert c'.chains[k][0] == id; }
    }
  }

  // ----- finding one -----

  lemma {:induction false} SearchFirst(entries: map<Id, Entry>, chain: seq<Id>, hv: nat, name: string)
    requires forall id :: id in chain ==> id in entries
    ensures var i := Search(entries, chain, hv, name);
            && (i < |chain| ==> Match(entries[chain[i]], hv, name))
            && forall j :: 0 <= j < i ==> !Match(entries[chain[j]], hv, name)
    decreases |chain|
  {
    if chain != [] && !Match(entries[chain[0]], hv, name) {
      assert forall id :: id in chain[1..] ==> id in chain;
      SearchFirst(entries, chain[1..], hv, name);
    }
  }

  // A chain holds an entry of that name exactly when the table does.
  lemma SearchFinds(H: string -> nat, c: Cache, name: string)
    requires Shape(H, c)
    ensures forall id :: id in c.chains[Slot(H(name))] ==> id in c.entries
    ensures var chain := c.chains[Slot(H(name))];
            var i := Search(c.entries, chain, H(name), name);
            && (i < |chain| ==> InTable(c, chain[i]) && c.entries[chain[i]].name == name)
            && (i == |chain| ==> forall id :: InTable(c, id) ==> c.entries[id].name != name)
  {
    var k := Slot(H(name));
    var chain := c.chains[k];
    assert forall id :: id in chain ==> id in c.entries;
    SearchFirst(c.entries, chain, H(name), name);
    var i := Search(c.entries, chain, H(name), name);
    if i < |chain| {
      assert chain[i] in chain;
    } else {
      forall id | InTable(c, id) ensures c.entries[id].name != name {
        var k' := Slot(c.entries[id].hv);
        assert id in c.chains[k'];
        var j :| 0 <= j < |c.chains[k']| && c.chains[k'][j] == id;
      }
    }
  }

  // What the table says about a name.
  predicate Holds(c: Cache, name: string, id: Id) {
    InTable(c, id) && c.entries[id].name == name
  }

  predicate SameNames(c: Cache, c': Cache) {
    forall x :: x in c.entries && x in c'.entries ==> c'.entries[x].name == c.entries[x].name
  }

  // hash_find_mm: a lookup, or an invalidation of just that name.
  lemma FindMeans(H: string -> nat, c: Cache, name: string, mtime: int, size: int, check: bool, ttl: int)
    requires Shape(H, c)
    ensures forall id :: id in c.chains[Slot(H(name))] ==> id in c.entries
    ensures var (c', r) := Find(c, H(name), name, mtime, size, check, ttl);
            && Shape(H, c')
            && (r.Some? ==> Holds(c, name, r.value) && Holds(c', name, r.value))
            && (r.Some? && check ==> c.entries[r.value].mtime == mtime && c.entries[r.value].size == size)
            && (r.None? ==> forall id :: Holds(c, name, id) ==>
                  check && (c.entries[id].mtime != mtime || c.entries[id].size != size))
            && (forall name': string, id: Id ::
                  Holds(c', name', id) <==> Holds(c, name', id) && (name' == name ==> r == Some(id)))
  {
    SearchFinds(H, c, name);
    var k := Slot(H(name));
    var i := Search(c.entries, c.chains[k], H(name), name);
    var (c', r) := Find(c, H(name), name, mtime, size, check, ttl);
    if i < |c.chains[k]| {
      var id := c.chains[k][i];
      if r.None? {
        UnchainLists(H, c, k, i);
        UnchainShape(H, c, k, i);
      } else {
        assert c'.chains == c.chains && c'.gone == c.gone;
      }
    }
  }

  lemma OnlyName(c: Cache, y: Id)
    requires OneName(c) && InTable(c, y)
    ensures forall x :: InTable(c, x) && c.entries[x].name == c.entries[y].name ==> x == y
  {
  }

  // The table with a new entry whose name nothing else in it has.
  lemma OneNameMore(c: Cache, c': Cache, id: Id)
    requires OneName(c) && id in c'.entries && SameNames(c, c')
    requires forall x :: InTable(c', x) <==> (InTable(c, x) && c.entries[x].name != c'.entries[id].name) || x == id
    ensures OneName(c')
  {
    forall x, y | InTable(c', x) && InTable(c', y) && c'.entries[x].name == c'.entries[y].name ensures x == y {
      assert x != id ==> InTable(c, x);
      assert y != id ==> InTable(c, y);
    }
  }

  lemma PushUnchain(H: string -> nat, c: Cache, id: Id, e: Entry, k: nat, i: nat)
    requires Lists(H, c) && id !in c.entries && e.hv == H(e.name) && !e.removed && k == Slot(e.hv)
    requires i < |c.chains[k]| && c.chains[k][i] in c.entries
    ensures var c1 := Push(c, id, e);
            && c1.chains[k][i + 1] == c.chains[k][i] && c1.chains[k][i + 1] in c1.entries
            && Lists(H, c1) && Lists(H, Unchain(c1, k, i + 1))
            && forall x :: InTable(Unchain(c1, k, i + 1), x) <==> (InTable(c, x) && x != c.chains[k][i]) || x == id
  {
    var c1 := Push(c, id, e);
    PushLists(H, c, id, e);
    assert c1.chains[k][i + 1] == c.chains[k][i];
    UnchainLists(H, c1, k, i + 1);
  }

  lemma PushUnchainShape(H: string -> nat, c: Cache, id: Id, e: Entry, k: nat, i: nat)
    requires Shape(H, c) && id !in c.entries && e.hv == H(e.name) && !e.removed && k == Slot(e.hv)
    requires i < |c.chains[k]| && InTable(c, c.chains[k][i]) && c.entries[c.chains[k][i]].name == e.name
    ensures var c1 := Push(c, id, e);
            && i + 1 < |c1.chains[k]| && c1.chains[k][i + 1] in c1.entries
            && Shape(H, Unchain(c1, k, i + 1))
            && forall x ::
                 InTable(Unchain(c1, k, i + 1), x) <==> (InTable(c, x) && c.entries[x].name != e.name) || x == id
  {
    PushUnchain(H, c, id, e, k, i);
    OnlyName(c, c.chains[k][i]);
    var c' := Unchain(Push(c, id, e), k, i + 1);
    assert SameNames(c, c');
    OneNameMore(c, c', id);
  }

  lemma PushShape(H: string -> nat, c: Cache, id: Id, e: Entry)
    requires Shape(H, c) && id !in c.entries && e.hv == H(e.name) && !e.removed
    requires forall x :: InTable(c, x) ==> c.entries[x].name != e.name
    ensures Shape(H, Push(c, id, e))
    ensures forall x :: InTable(Push(c, id, e), x) <==> (InTable(c, x) && c.entries[x].name != e.name) || x == id
  {
    PushLists(H, c, id, e);
    OneNameMore(c, Push(c, id, e), id);
  }

  lemma AddOverShape(H: string -> nat, c: Cache, id: Id, e: Entry, k: nat, i: nat)
    requires Shape(H, c) && id !in c.entries && e.hv == H(e.name) && !e.removed && k == Slot(e.hv) && i <= |c.chains[k]|
    requires if i < |c.chains[k]| then InTable(c, c.chains[k][i]) && c.entries[c.chains[k][i]].name == e.name
             else forall x :: InTable(c, x) ==> c.entries[x].name != e.name
    ensures Shape(H, AddOver(c, id, e, k, i))
    ensures forall x ::
              InTable(AddOver(c, id, e, k, i), x) <==> (InTable(c, x) && c.entries[x].name != e.name) || x == id
  {
    if i == |c.chains[k]| {
      PushShape(H, c, id, e);
    } else {
      PushUnchainShape(H, c, id, Inherit(e, c.entries[c.chains[k][i]]), k, i);
    }
  }

  // hash_add_mm keeps the lists in order, ...
  lemma AddShape(H: string -> nat, c: Cache, id: Id, e: Entry)
    requires Shape(H, c) && id !in c.entries && e.hv == H(e.name) && !e.removed
    ensures forall x :: x in c.chains[Slot(e.hv)] ==> x in c.entries
    ensures Shape(H, Add(c, id, e))
    ensures forall x :: InTable(Add(c, id, e), x) <==> (InTable(c, x) && c.entries[x].name != e.name) || x == id
  {
    SearchFinds(H, c, e.name);
    AddOverShape(H, c, id, e, Slot(e.hv), Search(c.entries, c.chains[Slot(e.hv)], e.hv, e.name));
  }

  // ... and the new entry takes the name over, and with it the count of reloads.
  lemma AddMeans(H: string -> nat, c: Cache, id: Id, e: Entry)
    requires Shape(H, c) && id !in c.entries && e.hv == H(e.name) && !e.removed
    ensures forall x :: x in c.chains[Slot(e.hv)] ==> x in c.entries
    ensures forall name: string, x: Id ::
              Holds(Add(c, id, e), name, x) <==> if name == e.name then x == id else Holds(c, name, x)
    ensures forall x: Id ::
              Holds(c, e.name, x) ==> Add(c, id, e).entries[id].reloads == e.reloads + c.entries[x].reloads
  {
    SearchFinds(H, c, e.name);
    AddShape(H, c, id, e);
    var k := Slot(e.hv);
    var i := Search(c.entries, c.chains[k], e.hv, e.name);
    if i < |c.chains[k]| {
      OnlyName(c, c.chains[k][i]);
    }
    assert Add(c, id, e).entries[id].name == e.name;
    assert SameNames(c, Add(c, id, e));
  }

  lemma DropShape(H: string -> nat, c: Cache, id: Id)
    requires Shape(H, c) && id in c.entries
    ensures Shape(H, Drop(c, id))
    ensures forall name: string, x: Id :: Holds(Drop(c, id), name, x) <==> Holds(c, name, x)
  {
    var c' := Drop(c, id);
    if c'.gone != c.gone {
      WithoutFacts(c.gone, IndexIn(c.gone, id));
    } else {
      assert c'.chains == c.chains;
      if c.entries[id].removed { assert id in c.gone; }
    }
  }

  lemma PurgeShape(H: string -> nat, c: Cache)
    requires Shape(H, c)
    ensures Shape(H, Purge(c)) && Purge(c).gone == []
    ensures forall name: string, x: Id :: Holds(Purge(c), name, x) <==> Holds(c, name, x)
  {
    var c' := Purge(c);
    assert forall x :: x in c'.entries <==> x in c.entries && !c.entries[x].removed;
  }
}
