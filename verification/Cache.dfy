// The script cache in shared memory: 512 hash chains, the list of removed entries, and the used-lists of the
// processes.  Everything one process does under the lock is one step.
module Cache {
  import opened Options

  const EA_HASH_SIZE := 512

  type Id = nat // the address of an entry

  // struct _ea_cache_entry, without the script itself
  datatype Entry = Entry(hv: nat, name: string, mtime: int, size: int, ttl: int, hits: int, reloads: int, uses: int, removed: bool)

  datatype Cache = Cache(entries: map<Id, Entry>, chains: seq<seq<Id>>, gone: seq<Id>, hashCnt: int, remCnt: int)

  // hv & EA_HASH_MAX
  function Slot(hv: nat): (k: nat)
    ensures k < EA_HASH_SIZE
  {
    hv % EA_HASH_SIZE
  }

  predicate Match(e: Entry, hv: nat, name: string) {
    e.hv == hv && e.name == name
  }

  // ----- well-formed lists -----

  predicate NoDup(s: seq<Id>) {
    forall i, j :: 0 <= i < j < |s| ==> s[i] != s[j]
  }

  function Total(chains: seq<seq<Id>>): nat {
    if chains == [] then 0 else |chains[0]| + Total(chains[1..])
  }

  // Every entry in a chain is in the chain its hash value selects, ...
  ghost predicate Chained(H: string -> nat, c: Cache)
    requires |c.chains| == EA_HASH_SIZE
  {
    forall k, id {:trigger id in c.chains[k]} :: 0 <= k < EA_HASH_SIZE && id in c.chains[k] ==> Belongs(H, c, k, id)
  }

  predicate Belongs(H: string -> nat, c: Cache, k: int, id: Id) {
    InTable(c, id) && k == Slot(c.entries[id].hv) && c.entries[id].hv == H(c.entries[id].name)
  }

  // ... every removed one is in the other list, ...
  ghost predicate Scheduled(c: Cache) {
    forall id :: id in c.gone ==> id in c.entries && c.entries[id].removed
  }

  // ... and nothing else exists.
  ghost predicate Keyed(c: Cache)
    requires |c.chains| == EA_HASH_SIZE
  {
    forall id ::
      id in c.entries ==> if c.entries[id].removed then id in c.gone else id in c.chains[Slot(c.entries[id].hv)]
  }

  ghost predicate Listed(H: string -> nat, c: Cache) {
    && |c.chains| == EA_HASH_SIZE && Chained(H, c) && Scheduled(c) && Keyed(c)
    && (forall k :: 0 <= k < EA_HASH_SIZE ==> NoDup(c.chains[k])) && NoDup(c.gone)
  }

  predicate InTable(c: Cache, id: Id) {
    id in c.entries && !c.entries[id].removed
  }

  ghost predicate OneName(c: Cache) {
    forall id, id' {:trigger InTable(c, id), InTable(c, id')} ::
      InTable(c, id) && InTable(c, id') && c.entries[id].name == c.entries[id'].name ==> id == id'
  }

  // The lists and their counters.
  ghost predicate Lists(H: string -> nat, c: Cache) {
    Listed(H, c) && c.hashCnt == Total(c.chains) && c.remCnt == |c.gone|
  }

  ghost predicate Shape(H: string -> nat, c: Cache) {
    Lists(H, c) && OneName(c)
  }

  // ----- the pieces every operation is made of -----

  function Without(s: seq<Id>, i: nat): (r: seq<Id>)
    requires i < |s|
  {
    s[..i] + s[i + 1..]
  }

  // Take entry i out of chain k: free it, or schedule it for removal while it is used.
  function Unchain(c: Cache, k: nat, i: nat): (c': Cache)
    requires k < |c.chains| && i < |c.chains[k]| && c.chains[k][i] in c.entries
    ensures |c'.chains| == |c.chains|
  {
    var id := c.chains[k][i];
    var c1 := c.(chains := c.chains[k := Without(c.chains[k], i)], hashCnt := c.hashCnt - 1);
    if c.entries[id].uses > 0 then
      c1.(entries := c.entries[id := c.entries[id].(removed := true)], gone := [id] + c.gone, remCnt := c.remCnt + 1)
    else c1.(entries := c.entries - {id})
  }

  // Take it out and free it, whatever its use count.
  function FreeAt(c: Cache, k: nat, i: nat): (c': Cache)
    requires k < |c.chains| && i < |c.chains[k]|
    ensures |c'.chains| == |c.chains|
  {
    var id := c.chains[k][i];
    c.(chains := c.chains[k := Without(c.chains[k], i)], hashCnt := c.hashCnt - 1, entries := c.entries - {id})
  }

  function Push(c: Cache, id: Id, e: Entry): (c': Cache)
    requires |c.chains| == EA_HASH_SIZE
    ensures |c'.chains| == EA_HASH_SIZE
  {
    var k := Slot(e.hv);
    c.(entries := c.entries[id := e], chains := c.chains[k := [id] + c.chains[k]], hashCnt := c.hashCnt + 1)
  }

  // The first matching entry of a chain, or its length.
  function Search(entries: map<Id, Entry>, chain: seq<Id>, hv: nat, name: string): (i: nat)
    ensures i <= |chain|
    ensures i < |chain| && chain[i] in entries ==> Match(entries[chain[i]], hv, name)
  {
    if chain == [] then 0
    else if chain[0] in entries && Match(entries[chain[0]], hv, name) then 0
    else 1 + Search(entries, chain[1..], hv, name)
  }

  // ----- the operations -----

  // Entry i of chain k matches: it is used, or given up when the file has changed.
  function FoundAt(c: Cache, k: nat, i: nat, mtime: int, size: int, check: bool, ttl: int): (r: (Cache, Option<Id>))
    requires |c.chains| == EA_HASH_SIZE && k < EA_HASH_SIZE && i < |c.chains[k]| && c.chains[k][i] in c.entries
    ensures |r.0.chains| == EA_HASH_SIZE
  {
    var id := c.chains[k][i];
    var e := c.entries[id];
    if check && (mtime != e.mtime || size != e.size) then (Unchain(c, k, i), None)
    else (c.(entries := c.entries[id := e.(hits := e.hits + 1, uses := e.uses + 1, ttl := ttl)]), Some(id))
  }

  // hash_find_mm
  function Find(c: Cache, hv: nat, name: string, mtime: int, size: int, check: bool, ttl: int): (r: (Cache, Option<Id>))
    requires |c.chains| == EA_HASH_SIZE && forall id :: id in c.chains[Slot(hv)] ==> id in c.entries
    ensures |r.0.chains| == EA_HASH_SIZE
  {
    var k := Slot(hv);
    var i := Search(c.entries, c.chains[k], hv, name);
    if i == |c.chains[k]| then (c, None) else FoundAt(c, k, i, mtime, size, check, ttl)
  }

  function Inherit(e: Entry, older: Entry): Entry {
    e.(reloads := e.reloads + older.reloads)
  }

  // The new entry goes in front of chain k, then entry i of the old chain, if there is one, goes out.
  function AddOver(c: Cache, id: Id, e: Entry, k: nat, i: nat): (c': Cache)
    requires |c.chains| == EA_HASH_SIZE && k == Slot(e.hv) && i <= |c.chains[k]|
    requires (i < |c.chains[k]| ==> c.chains[k][i] in c.entries)
    ensures |c'.chains| == EA_HASH_SIZE
  {
    if i == |c.chains[k]| then Push(c, id, e) else Unchain(Push(c, id, Inherit(e, c.entries[c.chains[k][i]])), k, i + 1)
  }

  // hash_add_mm: an older entry of the same name is replaced.
  function Add(c: Cache, id: Id, e: Entry): (c': Cache)
    requires |c.chains| == EA_HASH_SIZE && forall x :: x in c.chains[Slot(e.hv)] ==> x in c.entries
    ensures |c'.chains| == EA_HASH_SIZE
  {
    AddOver(c, id, e, Slot(e.hv), Search(c.entries, c.chains[Slot(e.hv)], e.hv, e.name))
  }

  function IndexIn(s: seq<Id>, id: Id): (i: nat)
    requires id in s
    ensures i < |s| && s[i] == id
  {
    if s[0] == id then 0 else 1 + IndexIn(s[1..], id)
  }

  // One round of the locked loop of eaccelerator_clean_request.
  function Drop(c: Cache, id: Id): Cache
    requires id in c.entries
  {
    var e := c.entries[id].(uses := c.entries[id].uses - 1);
    if e.removed && e.uses <= 0 && id in c.gone then
      c.(entries := c.entries - {id}, gone := Without(c.gone, IndexIn(c.gone, id)), remCnt := c.remCnt - 1)
    else c.(entries := c.entries[id := e])
  }

  // The loop itself: the records from the newest on.
  function DropAll(c: Cache, ids: seq<Id>): Cache
    decreases |ids|
  {
    if ids == [] || ids[0] !in c.entries then c else DropAll(Drop(c, ids[0]), ids[1..])
  }

  // eaccelerator_clear empties one chain after the other from its head.
  function ClearChain(c: Cache, k: nat): (c': Cache)
    requires k < |c.chains| && (forall id :: id in c.chains[k] ==> id in c.entries) && NoDup(c.chains[k])
    ensures |c'.chains| == |c.chains|
    decreases |c.chains[k]|
  {
    if c.chains[k] == [] then c
    else
      assert c.chains[k][0] in c.chains[k];
      assert Without(c.chains[k], 0) == c.chains[k][1..];
      ClearChain(Unchain(c, k, 0), k)
  }

  // What makes eaccelerator_prune drop an entry; `stale` are the files stat finds missing or changed.
  predicate Doomed(e: Entry, t: int, stale: set<string>) {
    (e.ttl != 0 && e.ttl < t && e.uses <= 0) || e.name in stale
  }

  function PruneChain(c: Cache, k: nat, i: nat, t: int, stale: set<string>): (c': Cache)
    requires k < |c.chains| && i <= |c.chains[k]| && (forall id :: id in c.chains[k] ==> id in c.entries)
    requires NoDup(c.chains[k])
    ensures |c'.chains| == |c.chains|
    decreases |c.chains[k]| - i
  {
    if i == |c.chains[k]| then c
    else if Doomed(c.entries[c.chains[k][i]], t, stale) then
      var chain, rest := c.chains[k], Without(c.chains[k], i);
      assert forall j :: 0 <= j < |rest| ==> rest[j] == chain[if j < i then j else j + 1];
      assert forall id :: id in rest ==> id in chain && id != chain[i];
      PruneChain(FreeAt(c, k, i), k, i, t, stale)
    else PruneChain(c, k, i + 1, t, stale)
  }

  // eaccelerator_purge
  function Purge(c: Cache): Cache {
    c.(entries := map id | id in c.entries && id !in c.gone :: c.entries[id], gone := [], remCnt := 0)
  }
}
