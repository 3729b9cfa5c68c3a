// store_string, store_zval_ptr, store_zval and store_hash_int: a value goes into memory behind a bump pointer.
module ImageStore {
  import opened Options
  import opened Image
  import opened Requests
  import S = ScriptSize

  predicate Extends(mem: Memory, mem': Memory) {
    forall a :: a in mem ==> a in mem' && mem'[a] == mem[a]
  }

  // Tables with entries have slots.
  predicate Storable(v: Value)
    decreases v
  {
    v.Arr? ==> (v.t.items != [] ==> v.t.size > 0) && forall i :: 0 <= i < |v.t.items| ==> Storable(v.t.items[i].v)
  }

  // ----- the entries that are copied -----

  // Whether check_bucket, when there is one, takes bucket i out.
  predicate Removed(check: Option<seq<bool>>, i: nat)
    requires check.Some? ==> i < |check.value|
  {
    check.Some? && check.value[i]
  }

  predicate Checks(check: Option<seq<bool>>, n: nat) {
    check.Some? ==> |check.value| == n
  }

  // What is left of the first n entries.
  function KeptOf(items: seq<Item>, check: Option<seq<bool>>, n: nat): (r: seq<Item>)
    requires n <= |items| && Checks(check, |items|)
    ensures |r| <= n
  {
    if n == 0 then [] else KeptOf(items, check, n - 1) + if Removed(check, n - 1) then [] else [items[n - 1]]
  }

  function Kept(t: Table, check: Option<seq<bool>>): Table
    requires Checks(check, |t.items|)
  {
    Table(t.size, KeptOf(t.items, check, |t.items|))
  }

  lemma KeptOneMore(items: seq<Item>, check: Option<seq<bool>>, i: nat)
    requires i < |items| && Checks(check, |items|)
    ensures |KeptOf(items, check, i + 1)| == |KeptOf(items, check, i)| + if Removed(check, i) then 0 else 1
  {
  }

  lemma {:induction false} KeptGrows(items: seq<Item>, check: Option<seq<bool>>, i: nat, n: nat)
    requires i <= n <= |items| && Checks(check, |items|)
    ensures KeptOf(items, check, i) <= KeptOf(items, check, n)
    decreases n - i
  {
    if i < n { KeptGrows(items, check, i, n - 1); }
  }

  // The copy is the entries for which the check is false, or all, in their order; they come from these positions.
  lemma {:induction false} KeptExactly(items: seq<Item>, check: Option<seq<bool>>, n: nat) returns (from: seq<nat>)
    requires n <= |items| && Checks(check, |items|)
    ensures |from| == |KeptOf(items, check, n)|
    ensures forall j :: 0 <= j < |from| ==> from[j] < n && KeptOf(items, check, n)[j] == items[from[j]]
    ensures forall j, k :: 0 <= j < k < |from| ==> from[j] < from[k]
    ensures forall i: nat :: i < n ==> (i in from <==> (check.Some? ==> !check.value[i]))
    decreases n
  {
    from := [];
    if n > 0 {
      var before := KeptExactly(items, check, n - 1);
      from := before;
      if !Removed(check, n - 1) { from := before + [n - 1]; }
    }
  }

  // The next entry that is kept is the next one of the copy.
  lemma KeptNext(t: Table, check: Option<seq<bool>>, i: nat)
    requires i < |t.items| && Checks(check, |t.items|) && (check.Some? ==> !check.value[i])
    ensures var j := |KeptOf(t.items, check, i)|; j < |Kept(t, check).items| && Kept(t, check).items[j] == t.items[i]
  {
    KeptGrows(t.items, check, i + 1, |t.items|);
  }

  lemma {:induction false} AllKeptOf(items: seq<Item>, n: nat)
    requires n <= |items|
    ensures KeptOf(items, None, n) == items[..n]
  {
    if n > 0 {
      AllKeptOf(items, n - 1);
      assert items[..n] == items[..n - 1] + [items[n - 1]];
    }
  }

  lemma AllKept(t: Table)
    ensures Kept(t, None) == t
  {
    AllKeptOf(t.items, |t.items|);
    assert t.items[..|t.items|] == t.items;
  }

  // ----- what a value asks for -----

  function SizedZval(v: Value): S.Zval
    decreases v, 1
  {
    match v
    case Scalar(_) => S.Plain
    case Str(s) => S.Text(s)
    case Arr(t) => S.List(SizedTable(t, None))
  }

  function SizedTable(t: Table, check: Option<seq<bool>>): S.Table
    requires Checks(check, |t.items|)
    decreases t, 1
  {
    S.Table(t.size, SizedItems(t.items, check, |t.items|))
  }

  function SizedItems(items: seq<Item>, check: Option<seq<bool>>, n: nat): (r: seq<S.Bucket>)
    requires n <= |items| && Checks(check, |items|)
    ensures |r| == n
    decreases items, 0, n
  {
    if n == 0 then [] else SizedItems(items, check, n - 1) + [SizedItem(items[n - 1], !Removed(check, n - 1))]
  }

  function SizedItem(item: Item, kept: bool): S.Bucket
    decreases item, 0
  {
    S.Bucket(|item.key|, kept, S.Val(SizedZval(item.v)))
  }

  // The requests for the first n entries.
  function EntryReqs(items: seq<Item>, check: Option<seq<bool>>, n: nat): seq<Req>
    requires n <= |items| && Checks(check, |items|)
  {
    S.BucketReqs(S.Store, SizedItems(items, check, n), check.Some?)
  }

  lemma EntryReqsGrow(items: seq<Item>, check: Option<seq<bool>>, n: nat)
    requires n < |items| && Checks(check, |items|)
    ensures EntryReqs(items, check, n + 1) ==
            EntryReqs(items, check, n) + if Removed(check, n) then []
              else S.BucketReq(S.Store, SizedItem(items[n], true))
  {
    var front := SizedItems(items, check, n);
    assert SizedItems(items, check, n + 1)[..n] == front;
  }

  // ----- where the cells lie -----

  // The bytes of a cell; an entry and a list node end in a name that has a cell of its own.
  function Width(cell: Cell): nat {
    match cell
    case Text(s) => |s| + 1
    case Zval(_) => SIZEOF_ZVAL
    case Hash(_, _, _, _, _) => SIZEOF_HASH
    case Slots(ps) => |ps| * SIZEOF_PTR
    case Bucket(_, key, _, _, _, _, _, _) => OFFSET_ARKEY + |key|
    case Ops(codes, _) => |codes| * SIZEOF_OP
    case OpArray(_, _, _, _) => SIZEOF_OP_ARRAY
    case Entry(_, _, _) => OFFSET_REALFILENAME
    case Function(_, _) => OFFSET_HTABKEY
  }

  // No cell reaches into another one, nor beyond `at`.
  ghost predicate Separate(mem: Memory, at: int) {
    && (forall a {:trigger Within(mem, a, at)} :: a in mem ==> Within(mem, a, at))
    && (forall a, b {:trigger Clear(mem, a, b)} :: a in mem && b in mem && a < b ==> Clear(mem, a, b))
  }

  predicate Within(mem: Memory, a: int, at: int)
    requires a in mem
  {
    a + Width(mem[a]) <= at
  }

  predicate Clear(mem: Memory, a: int, b: int)
    requires a in mem
  {
    a + Width(mem[a]) <= b
  }

  lemma SeparateMore(mem: Memory, at: int, cell: Cell, at': int)
    requires Separate(mem, at) && at + Width(cell) <= at' && forall a :: a in mem ==> a < at
    ensures Separate(mem[at := cell], at')
  {
    var mem' := mem[at := cell];
    forall a {:trigger Within(mem', a, at')} | a in mem' ensures Within(mem', a, at') {
      if a != at { assert Within(mem, a, at); }
    }
    forall a, b {:trigger Clear(mem', a, b)} | a in mem' && b in mem' && a < b ensures Clear(mem', a, b) {
      assert a in mem;
      if b == at { assert Within(mem, a, at); } else { assert Clear(mem, a, b); }
    }
  }

  lemma SeparatePut(mem: Memory, at: int, p: int, cell: Cell)
    requires Separate(mem, at) && p in mem && Width(cell) <= Width(mem[p])
    ensures Separate(mem[p := cell], at)
  {
    var mem' := mem[p := cell];
    forall a {:trigger Within(mem', a, at)} | a in mem' ensures Within(mem', a, at) { assert Within(mem, a, at); }
    forall a, b {:trigger Clear(mem', a, b)} | a in mem' && b in mem' && a < b ensures Clear(mem', a, b) {
      assert Clear(mem, a, b);
    }
  }

  // The bump pointer is behind what was asked for, if the block starts at an aligned address, and the strings are noted.
  ghost predicate Booked(base: int, at: int, strings: map<string, int>, reqs: seq<Req>) {
    && (base % ALIGN == 0 ==> at == base + Cost(reqs) && at % ALIGN == 0)
    && (forall s :: s in strings <==> s in Strings(reqs))
  }

  lemma BookAlloc(base: int, at: int, strings: map<string, int>, reqs: seq<Req>, n: nat)
    requires Booked(base, at, strings, reqs) && 0 < at
    ensures Booked(base, Align(at + n), strings, reqs + [Alloc(n)])
  {
    AskedOne(reqs, Alloc(n));
    if base % ALIGN == 0 { Aligned(at, n); }
  }

  lemma BookShare(base: int, at: int, strings: map<string, int>, reqs: seq<Req>, s: string, p: int)
    requires Booked(base, at, strings, reqs) && 0 < at
    ensures s in strings && !Long(s) ==> Booked(base, at, strings, reqs + [Share(s)])
    ensures s !in strings && !Long(s) ==> Booked(base, Align(at + |s| + 1), strings[s := p], reqs + [Share(s)])
    ensures Long(s) ==> Booked(base, Align(at + |s| + 1), strings, reqs + [Share(s)])
  {
    AskedOne(reqs, Share(s));
    if base % ALIGN == 0 { Aligned(at, |s| + 1); }
  }

  // A structure and the name behind it.
  lemma NamedParts(base: int, mem: Memory, at: int, strings: map<string, int>, offset: int, cell: Cell, name: string,
                   at': int)
    requires Separate(mem, at) && Width(cell) <= offset && 0 < offset && at + offset + |name| + 1 <= at'
    requires 0 < base <= at && (forall a :: a in mem ==> base <= a < at)
    requires forall s :: s in strings ==> strings[s] in mem && mem[strings[s]] == Text(s)
    ensures var mem', strings' := mem[at := cell][at + offset := Text(name)], if name in strings then strings
            else strings[name := at + offset];
            && Separate(mem', at') && (forall a :: a in mem' ==> base <= a < at')
            && (forall s :: s in strings' ==> strings'[s] in mem' && mem'[strings'[s]] == Text(s))
  {
    SeparateMore(mem, at, cell, at + offset);
    SeparateMore(mem[at := cell], at + offset, Text(name), at');
  }

  lemma BookKnown(base: int, at: int, strings: map<string, int>, reqs: seq<Req>, n: nat, name: string, p: int)
    requires Booked(base, at, strings, reqs) && 0 < at
    ensures Booked(base, Align(at + n), if name in strings then strings else strings[name := p],
                   reqs + [Alloc(n), Known(name)])
  {
    BookAlloc(base, at, strings, reqs, n);
    AskedOne(reqs + [Alloc(n)], Known(name));
    assert reqs + [Alloc(n), Known(name)] == reqs + [Alloc(n)] + [Known(name)];
  }

  // ----- one more entry -----

  lemma {:induction false} OldestGrows(t: Table, i: nat, n: nat, k: nat)
    requires i <= n < |t.items| && t.size > 0
    ensures Oldest(t, i, n + 1, k) == if Oldest(t, i, n, k).Some? then Oldest(t, i, n, k)
            else if SlotOf(t, n) == k then Some(n) else None
    decreases n - i
  {
    if i < n { OldestGrows(t, i + 1, n, k); }
  }

  // Entry j gets a successor in its chain exactly when it was the newest there.
  lemma NewestHasNoNext(t: Table, j: nat, n: nat, k: nat)
    requires j < n <= |t.items| && t.size > 0
    ensures Newest(t, n, k) == Some(j) <==> SlotOf(t, j) == k && Oldest(t, j + 1, n, k) == None
  {
    NewestIs(t, n, k);
    OldestIs(t, j + 1, n, k);
  }

  lemma PtrPrefix(bs: seq<int>, b: int, o: Option<nat>)
    requires o.Some? ==> o.value < |bs|
    ensures PtrAt(bs + [b], o, 0) == PtrAt(bs, o, 0)
  {
  }

  function WithLast(cell: Cell, p: int): Cell {
    if cell.Bucket? then cell.(last := p) else cell
  }

  function WithListNext(cell: Cell, p: int): Cell {
    if cell.Bucket? then cell.(listNext := p) else cell
  }

  // Entry j while a new entry, at b, is in its chain but not yet in the list.
  function Chained(t: Table, bs: seq<int>, zs: seq<int>, j: nat, b: int): Cell
    requires j < |bs| == |zs| < |t.items| && t.size > 0
  {
    var i := |bs|;
    if Newest(t, i, SlotOf(t, i)) == Some(j) then WithLast(BucketFor(t, bs, zs, i, j, 0), b)
      else BucketFor(t, bs, zs, i, j, 0)
  }

  // What entry j looks like once the new one is there too.
  lemma BucketGrows(t: Table, bs: seq<int>, zs: seq<int>, j: nat, b: int, z: int)
    requires j < |bs| == |zs| < |t.items| && t.size > 0
    ensures BucketFor(t, bs + [b], zs + [z], |bs| + 1, j, 0) ==
            if j + 1 == |bs| then WithListNext(Chained(t, bs, zs, j, b), b) else Chained(t, bs, zs, j, b)
  {
    var i, k := |bs|, SlotOf(t, j);
    OldestGrows(t, j + 1, i, k);
    NewestHasNoNext(t, j, i, SlotOf(t, i));
    PtrPrefix(bs, b, Newest(t, j, k));
    PtrPrefix(bs, b, Oldest(t, j + 1, i, k));
  }

  // The same for the slots.
  lemma SlotsGrow(t: Table, bs: seq<int>, b: int, k: nat)
    requires |bs| < |t.items| && t.size > 0
    ensures PtrAt(bs + [b], Newest(t, |bs| + 1, k), 0) == if k == SlotOf(t, |bs|) then b
            else PtrAt(bs, Newest(t, |bs|, k), 0)
  {
    PtrPrefix(bs, b, Newest(t, |bs|, k));
  }

  // ----- linking it -----

  // All these cells are different ones.
  predicate Apart(bs: seq<int>, slots: int, b: int) {
    && slots != b && (forall j :: 0 <= j < |bs| ==> bs[j] != slots && bs[j] != b && bs[j] > 0)
    && (forall i, j :: 0 <= i < j < |bs| ==> bs[i] != bs[j])
  }

  function LinkedIn(mem: Memory, b: int, cell: Cell, first: int, slots: int, ps: seq<int>): Memory {
    var mem1 := mem[b := cell];
    var mem2 := if first == 0 || first !in mem1 then mem1 else mem1[first := WithLast(mem1[first], b)];
    mem2[slots := Slots(ps)]
  }

  predicate SlotsNext(mem: Memory, t: Table, bs: seq<int>, slots: int, b: int)
    requires |bs| < |t.items| && t.size > 0
  {
    && slots in mem && mem[slots].Slots? && |mem[slots].ps| == t.size
    && forall k ::
         0 <= k < t.size ==> mem[slots].ps[k] == if k == SlotOf(t, |bs|) then b else PtrAt(bs, Newest(t, |bs|, k), 0)
  }

  predicate AllChained(mem: Memory, t: Table, bs: seq<int>, zs: seq<int>, b: int)
    requires |bs| == |zs| < |t.items| && t.size > 0
  {
    forall j {:trigger ChainedAt(mem, t, bs, zs, j, b)} :: 0 <= j < |bs| ==> ChainedAt(mem, t, bs, zs, j, b)
  }

  predicate ChainedAt(mem: Memory, t: Table, bs: seq<int>, zs: seq<int>, j: nat, b: int)
    requires j < |bs| == |zs| < |t.items| && t.size > 0
  {
    bs[j] in mem && mem[bs[j]] == Chained(t, bs, zs, j, b)
  }

  lemma ChainAt(mem: Memory, t: Table, bs: seq<int>, zs: seq<int>, j: nat, slots: int, b: int, cell: Cell, first: int,
                ps: seq<int>)
    requires j < |bs| == |zs| < |t.items| && t.size > 0 && Apart(bs, slots, b) && BucketHeld(mem, 0, t, bs, zs, |bs|, j)
    requires first == PtrAt(bs, Newest(t, |bs|, SlotOf(t, |bs|)), 0)
    ensures var mem' := LinkedIn(mem, b, cell, first, slots, ps);
            bs[j] in mem' && mem'[bs[j]] == Chained(t, bs, zs, j, b)
  {
    var n := Newest(t, |bs|, SlotOf(t, |bs|));
    if n.Some? && n.value != j {
      assert bs[n.value] != bs[j];
    }
  }

  // Linking b in front of its chain.
  lemma ChainStep(mem: Memory, t: Table, bs: seq<int>, zs: seq<int>, slots: int, b: int, cell: Cell, first: int)
    requires LinksHeld(mem, 0, t, bs, zs, slots) && |bs| < |t.items| && Apart(bs, slots, b)
    requires first == PtrAt(bs, Newest(t, |bs|, SlotOf(t, |bs|)), 0)
    ensures var mem' := LinkedIn(mem, b, cell, first, slots, mem[slots].ps[SlotOf(t, |bs|) := b]);
            SlotsNext(mem', t, bs, slots, b) && AllChained(mem', t, bs, zs, b)
  {
    var ps := mem[slots].ps[SlotOf(t, |bs|) := b];
    var mem' := LinkedIn(mem, b, cell, first, slots, ps);
    forall j: nat {:trigger ChainedAt(mem', t, bs, zs, j, b)} | j < |bs| ensures ChainedAt(mem', t, bs, zs, j, b) {
      assert BucketHeld(mem, 0, t, bs, zs, |bs|, j);
      ChainAt(mem, t, bs, zs, j, slots, b, cell, first, ps);
    }
  }

  // The bucket as it ends up.
  function Finished(t: Table, bs: seq<int>, b: int, z: int): Cell
    requires |bs| < |t.items| && t.size > 0
  {
    var i := |bs|;
    Bucket(t.items[i].h, t.items[i].key, PtrAt(bs, Newest(t, i, SlotOf(t, i)), 0), 0, b, z, Last(bs), 0)
  }

  function Last(bs: seq<int>): int {
    if bs == [] then 0 else bs[|bs| - 1]
  }

  // The first and the last of a list of buckets.
  ghost predicate EndsOf(bs: seq<int>, head: int, tail: int) {
    tail == Last(bs) && (bs != [] ==> tail > 0) && head == if bs == [] then 0 else bs[0]
  }

  lemma EndsGrow(bs: seq<int>, b: int, head: int, tail: int)
    requires EndsOf(bs, head, tail) && b > 0
    ensures EndsOf(bs + [b], if tail == 0 then b else head, b)
  {
  }

  function Appended(mem: Memory, b: int, cell: Cell, prev: int): Memory {
    var mem1 := mem[b := cell];
    if prev == 0 || prev !in mem1 then mem1 else mem1[prev := WithListNext(mem1[prev], b)]
  }

  lemma AppendedAt(mem: Memory, b: int, cell: Cell, prev: int, a: int)
    requires a in mem && a != b
    ensures a in Appended(mem, b, cell, prev)
    ensures Appended(mem, b, cell, prev)[a] == if a == prev && prev != 0 then WithListNext(mem[a], b) else mem[a]
  {
  }

  lemma ListAt(mem': Memory, t: Table, bs: seq<int>, zs: seq<int>, j: nat, b: int, z: int)
    requires j < |bs| == |zs| < |t.items| && t.size > 0 && bs[j] > 0 && bs[j] in mem'
    requires mem'[bs[j]] == if j + 1 == |bs| then WithListNext(Chained(t, bs, zs, j, b), b)
             else Chained(t, bs, zs, j, b)
    ensures BucketHeld(mem', 0, t, bs + [b], zs + [z], |bs| + 1, j)
  {
    BucketGrows(t, bs, zs, j, b, z);
  }

  lemma ListOwn(mem: Memory, t: Table, bs: seq<int>, zs: seq<int>, slots: int, b: int, z: int)
    requires |bs| == |zs| < |t.items| && t.size > 0 && Apart(bs, slots, b) && b > 0
    ensures BucketHeld(Appended(mem, b, Finished(t, bs, b, z), Last(bs)), 0, t, bs + [b], zs + [z], |bs| + 1, |bs|)
  {
    PtrPrefix(bs, b, Newest(t, |bs|, SlotOf(t, |bs|)));
  }

  lemma ListSlots(mem: Memory, t: Table, bs: seq<int>, slots: int, b: int, z: int)
    requires |bs| < |t.items| && t.size > 0 && Apart(bs, slots, b) && SlotsNext(mem, t, bs, slots, b)
    ensures SlotsHeld(Appended(mem, b, Finished(t, bs, b, z), Last(bs)), 0, t, bs + [b], |bs| + 1, slots)
  {
    var mem' := Appended(mem, b, Finished(t, bs, b, z), Last(bs));
    assert mem'[slots] == mem[slots];
    forall k | 0 <= k < t.size ensures mem'[slots].ps[k] == PtrAt(bs + [b], Newest(t, |bs| + 1, k), 0) {
      SlotsGrow(t, bs, b, k);
    }
  }

  lemma ListOther(mem: Memory, mem': Memory, t: Table, bs: seq<int>, zs: seq<int>, slots: int, b: int, z: int,
                  cell: Cell, bs': seq<int>, zs': seq<int>, j: nat)
    requires j < |bs| == |zs| < |t.items| && t.size > 0 && Apart(bs, slots, b) && bs' == bs + [b] && zs' == zs + [z]
    requires ChainedAt(mem, t, bs, zs, j, b) && mem' == Appended(mem, b, cell, Last(bs))
    ensures BucketHeld(mem', 0, t, bs', zs', |bs'|, j)
  {
    AppendedAt(mem, b, cell, Last(bs), bs[j]);
    if j + 1 < |bs| { assert bs[j] != bs[|bs| - 1]; }
    ListAt(mem', t, bs, zs, j, b, z);
  }

  lemma ListOthers(mem: Memory, mem': Memory, t: Table, bs: seq<int>, zs: seq<int>, slots: int, b: int, z: int,
                   cell: Cell, bs': seq<int>, zs': seq<int>)
    requires |bs| == |zs| < |t.items| && t.size > 0 && Apart(bs, slots, b) && bs' == bs + [b] && zs' == zs + [z]
    requires AllChained(mem, t, bs, zs, b) && mem' == Appended(mem, b, cell, Last(bs))
    ensures LinkedUpTo(mem', t, bs', zs', |bs|)
  {
    forall j: nat {:trigger BucketHeld(mem', 0, t, bs', zs', |bs'|, j)} | j < |bs|
      ensures BucketHeld(mem', 0, t, bs', zs', |bs'|, j)
    {
      assert ChainedAt(mem, t, bs, zs, j, b);
      ListOther(mem, mem', t, bs, zs, slots, b, z, cell, bs', zs', j);
    }
  }

  predicate LinkedUpTo(mem: Memory, t: Table, bs: seq<int>, zs: seq<int>, n: nat) {
    && n <= |bs| == |zs| <= |t.items| && t.size > 0
    && forall j: nat {:trigger BucketHeld(mem, 0, t, bs, zs, |bs|, j)} ::
         j < n ==> BucketHeld(mem, 0, t, bs, zs, |bs|, j)
  }

  lemma LinksFrom(mem: Memory, t: Table, bs: seq<int>, zs: seq<int>, slots: int)
    requires 0 < |bs| && LinkedUpTo(mem, t, bs, zs, |bs| - 1) && SlotsHeld(mem, 0, t, bs, |bs|, slots)
    requires BucketHeld(mem, 0, t, bs, zs, |bs|, |bs| - 1)
    ensures LinksHeld(mem, 0, t, bs, zs, slots)
  {
  }

  // Appending b to the list, with its data at z.
  lemma ListStep(mem: Memory, mem': Memory, t: Table, bs: seq<int>, zs: seq<int>, slots: int, b: int, z: int,
                 bs': seq<int>, zs': seq<int>)
    requires |bs| == |zs| < |t.items| && t.size > 0 && Apart(bs, slots, b) && b > 0 && bs' == bs + [b]
    requires zs' == zs + [z]
    requires SlotsNext(mem, t, bs, slots, b) && AllChained(mem, t, bs, zs, b)
    requires mem' == Appended(mem, b, Finished(t, bs, b, z), Last(bs))
    ensures LinksHeld(mem', 0, t, bs', zs', slots)
  {
    ListSlots(mem, t, bs, slots, b, z);
    ListOwn(mem, t, bs, zs, slots, b, z);
    ListOthers(mem, mem', t, bs, zs, slots, b, z, Finished(t, bs, b, z), bs', zs');
    LinksFrom(mem', t, bs', zs', slots);
  }

  // ----- the data already there -----

  // Slots, bucket headers and what is beyond `at` are not data.
  predicate NotData(zs: seq<int>, ends: seq<int>, a: int)
    requires |zs| == |ends|
  {
    forall j :: 0 <= j < |zs| ==> !(zs[j] <= a < ends[j])
  }

  lemma HeadersAreNotData(bs: seq<int>, zs: seq<int>, ends: seq<int>, subs: seq<Lay>, slots: int, at: int)
    requires Placed(bs, zs, ends, subs, slots, at)
    ensures NotData(zs, ends, slots) && (forall a :: a >= at ==> NotData(zs, ends, a))
    ensures forall n :: 0 <= n < |bs| ==> NotData(zs, ends, bs[n])
  {
    PlacedFacts(bs, zs, ends, subs, slots, at);
  }

  // Cells at xs change; none of them is a text or data.
  lemma ChangedAt(mem: Memory, mem': Memory, zs: seq<int>, ends: seq<int>, xs: set<int>)
    requires |zs| == |ends| && forall a :: a in mem && a !in xs ==> a in mem' && mem'[a] == mem[a]
    requires forall a :: a in xs && a in mem ==> !mem[a].Text? && NotData(zs, ends, a)
    ensures SameData(mem, mem', zs, ends)
  {
  }

  lemma PlacedApart(bs: seq<int>, zs: seq<int>, ends: seq<int>, subs: seq<Lay>, slots: int, at: int, b: int)
    requires Placed(bs, zs, ends, subs, slots, at) && at <= b && 0 < slots
    ensures Apart(bs, slots, b)
  {
    PlacedFacts(bs, zs, ends, subs, slots, at);
    forall i, j | 0 <= i < j < |bs| ensures bs[i] != bs[j] { assert ends[i] <= bs[j]; }
  }

  lemma DataOneMore(mem: Memory, items: seq<Item>, zs: seq<int>, subs: seq<Lay>, z: int, sub: Lay)
    requires DataHeld(mem, 0, items, zs, subs) && |subs| < |items|
    requires z in mem && z > 0 && mem[z].Zval? && Holds(mem, 0, mem[z].c, items[|subs|].v, sub)
    ensures DataHeld(mem, 0, items, zs + [z], subs + [sub])
  {
    var n, zs', subs' := |subs|, zs + [z], subs + [sub];
    DataPrefix(mem, items, items[..n], zs, subs);
    assert zs'[..n] == zs && subs'[..n] == subs && zs'[n] == z && subs'[n] == sub;
    assert DataHeld(mem, 0, items[..n], zs'[..n], subs'[..n]);
  }

  lemma {:induction false} DataPrefix(mem: Memory, items: seq<Item>, items': seq<Item>, zs: seq<int>, subs: seq<Lay>)
    requires DataHeld(mem, 0, items, zs, subs) && |subs| <= |items'| && forall j ::
               0 <= j < |subs| ==> items'[j] == items[j]
    ensures DataHeld(mem, 0, items', zs, subs)
    decreases |subs|
  {
    if subs != [] {
      var n := |subs| - 1;
      DataPrefix(mem, items[..n], items'[..n], zs[..n], subs[..n]);
    }
  }

  // ----- a table with its first entries -----

  ghost predicate Partial(mem: Memory, t: Table, bs: seq<int>, zs: seq<int>, ends: seq<int>, subs: seq<Lay>, slots: int,
                          at: int) {
    && LinksHeld(mem, 0, t, bs, zs, slots) && DataHeld(mem, 0, t.items, zs, subs)
    && Placed(bs, zs, ends, subs, slots, at) && 0 < slots
  }

  // Everything below the slots stays.
  predicate SameBelow(mem: Memory, mem': Memory, slots: int) {
    forall a :: a in mem && (a < slots || mem[a].Text?) ==> a in mem' && mem'[a] == mem[a]
  }

  // The data survives each of the three stages of a round.
  lemma HeaderChange(mem: Memory, mem': Memory, t: Table, bs: seq<int>, zs: seq<int>, ends: seq<int>, subs: seq<Lay>,
                     slots: int, at: int, xs: set<int>)
    requires DataHeld(mem, 0, t.items, zs, subs) && Placed(bs, zs, ends, subs, slots, at)
    requires forall a :: a in mem && a !in xs ==> a in mem' && mem'[a] == mem[a]
    requires forall a :: a in xs && a in mem ==> !mem[a].Text? && (a == slots || a >= at || a in bs)
    ensures DataHeld(mem', 0, t.items, zs, subs) && SameBelow(mem, mem', slots)
  {
    HeadersAreNotData(bs, zs, ends, subs, slots, at);
    PlacedFacts(bs, zs, ends, subs, slots, at);
    ChangedAt(mem, mem', zs, ends, xs);
    DataElsewhere(mem, mem', 0, t.items, bs, zs, ends, subs, slots, at);
  }

  lemma StoredData(mem: Memory, mem': Memory, t: Table, bs: seq<int>, zs: seq<int>, ends: seq<int>, subs: seq<Lay>,
                   slots: int, at: int, b: int)
    requires Extends(mem, mem') && |bs| < |t.items| && t.size > 0 && Placed(bs, zs, ends, subs, slots, at)
    requires SlotsNext(mem, t, bs, slots, b) && AllChained(mem, t, bs, zs, b) && DataHeld(mem, 0, t.items, zs, subs)
    ensures SlotsNext(mem', t, bs, slots, b) && AllChained(mem', t, bs, zs, b) && DataHeld(mem', 0, t.items, zs, subs)
  {
    assert SameData(mem, mem', zs, ends);
    DataElsewhere(mem, mem', 0, t.items, bs, zs, ends, subs, slots, at);
    forall j {:trigger ChainedAt(mem', t, bs, zs, j, b)} | 0 <= j < |bs| ensures ChainedAt(mem', t, bs, zs, j, b) {
      assert ChainedAt(mem, t, bs, zs, j, b);
    }
  }

  lemma FinishBucket(mem: Memory, mem': Memory, t: Table, bs: seq<int>, zs: seq<int>, ends: seq<int>, subs: seq<Lay>,
                     slots: int, at: int,
                     b: int, z: int, end: int, sub: Lay)
    requires |bs| < |t.items| && t.size > 0 && Placed(bs, zs, ends, subs, slots, at) && 0 < slots && at <= b < z < end
    requires SlotsNext(mem, t, bs, slots, b) && AllChained(mem, t, bs, zs, b) && DataHeld(mem, 0, t.items, zs, subs)
    requires z in mem && mem[z].Zval? && Holds(mem, 0, mem[z].c, t.items[|bs|].v, sub) && Fits(sub, z + 1, end)
    requires b in mem && mem[b].Bucket? && mem' == Appended(mem, b, Finished(t, bs, b, z), Last(bs))
    ensures Partial(mem', t, bs + [b], zs + [z], ends + [end], subs + [sub], slots, end) && SameBelow(mem, mem', slots)
  {
    PlacedApart(bs, zs, ends, subs, slots, at, b);
    PlacedFacts(bs, zs, ends, subs, slots, at);
    ListStep(mem, mem', t, bs, zs, slots, b, z, bs + [b], zs + [z]);
    PlacedOneMore(bs, zs, ends, subs, slots, at, b, z, end, sub);
    FinishData(mem, mem', t, bs, zs, ends, subs, slots, at, b, z, end, sub);
  }

  lemma FinishData(mem: Memory, mem': Memory, t: Table, bs: seq<int>, zs: seq<int>, ends: seq<int>, subs: seq<Lay>,
                   slots: int, at: int,
                   b: int, z: int, end: int, sub: Lay)
    requires |bs| < |t.items| && t.size > 0 && Placed(bs, zs, ends, subs, slots, at) && 0 < slots && at <= b < z < end
    requires AllChained(mem, t, bs, zs, b) && DataHeld(mem, 0, t.items, zs, subs)
    requires z in mem && mem[z].Zval? && Holds(mem, 0, mem[z].c, t.items[|bs|].v, sub) && Fits(sub, z + 1, end)
    requires b in mem && mem[b].Bucket? && mem' == Appended(mem, b, Finished(t, bs, b, z), Last(bs))
    ensures DataHeld(mem', 0, t.items, zs + [z], subs + [sub]) && SameBelow(mem, mem', slots)
  {
    PlacedFacts(bs, zs, ends, subs, slots, at);
    LastChained(mem, t, bs, zs, b);
    HeaderChange(mem, mem', t, bs, zs, ends, subs, slots, at, if bs == [] then {b} else {b, Last(bs)});
    HoldsElsewhere(mem, mem', 0, mem[z].c, t.items[|bs|].v, sub, z + 1, end);
    DataOneMore(mem', t.items, zs, subs, z, sub);
  }

  lemma LastChained(mem: Memory, t: Table, bs: seq<int>, zs: seq<int>, b: int)
    requires |bs| == |zs| < |t.items| && t.size > 0 && AllChained(mem, t, bs, zs, b)
    ensures bs != [] ==> Last(bs) in mem && mem[Last(bs)].Bucket? && Last(bs) in bs
  {
    assert bs != [] ==> ChainedAt(mem, t, bs, zs, |bs| - 1, b);
  }

  lemma FinishTable(mem: Memory, mem': Memory, t: Table, bs: seq<int>, zs: seq<int>, ends: seq<int>, subs: seq<Lay>,
                    slots: int, at: int, tab: int)
    requires Partial(mem, t, bs, zs, ends, subs, slots, at) && 0 < |bs| == |t.items| && 0 < tab < slots && tab in mem
    requires mem[tab].Hash?
    requires mem' == mem[tab := Hash(|t.items|, t.size, slots, bs[0], Last(bs))]
    ensures TableHeld(mem', 0, t, LArr(tab, slots, bs, zs, ends, subs))
    ensures Fits(LArr(tab, slots, bs, zs, ends, subs), tab, at)
  {
    PlacedFacts(bs, zs, ends, subs, slots, at);
    LinkCells(mem, 0, t, bs, zs, slots);
    LinksElsewhere(mem, mem', 0, t, bs, zs, slots);
    DataElsewhere(mem, mem', 0, t.items, bs, zs, ends, subs, slots, at);
  }

  class Writer {
    const base: int
    var mem: Memory
    var at: int
    var strings: map<string, int>

    // What has been asked for so far.
    ghost var reqs: seq<Req>

    // Nothing lies beyond `at`, and no two cells overlap; the table of short strings is right; and as many bytes are
    // used as were asked for.
    ghost predicate Ready()
      reads this
    {
      && 0 < base <= at && (forall a :: a in mem ==> base <= a < at)
      && (forall s :: s in strings ==> strings[s] in mem && mem[strings[s]] == Text(s))
      && Separate(mem, at) && Booked(base, at, strings, reqs)
    }

    constructor (base: int)
      requires base > 0
      ensures Ready() && mem == map[] && at == base == this.base && strings == map[] && reqs == []
    {
      this.base := base;
      mem, at, strings, reqs := map[], base, map[], [];
    }

    // ALLOCATE, with what is put there
    method Allocate(len: nat, cell: Cell) returns (p: int)
      requires Ready() && len > 0 && Width(cell) <= len
      modifies this`at, this`mem, this`reqs
      ensures Ready() && p == old(at) && p < at && mem == old(mem)[p := cell] && p !in old(mem)
      ensures at == Align(old(at) + len) && Asked(old(reqs), reqs, [Alloc(len)])
    {
      p := at;
      SeparateMore(mem, at, cell, Align(at + len));
      BookAlloc(base, at, strings, reqs, len);
      at := Align(at + len);
      mem := mem[p := cell];
      reqs := reqs + [Alloc(len)];
    }

    // ALLOCATE for a structure that ends in a name, which others may share from then on
    method AllocateNamed(offset: nat, name: string, cell: Cell) returns (p: int)
      requires Ready() && offset > 0 && Width(cell) <= offset
      modifies this
      ensures Ready() && p == old(at) && p + offset < at && mem == old(mem)[p := cell][p + offset := Text(name)]
      ensures p !in old(mem) && p + offset !in old(mem)
      ensures at == Align(old(at) + offset + |name| + 1)
      ensures strings == if name in old(strings) then old(strings) else old(strings)[name := p + offset]
      ensures Asked(old(reqs), reqs, [Alloc(offset + |name| + 1), Known(name)])
    {
      p := at;
      NamedParts(base, mem, at, strings, offset, cell, name, Align(at + offset + |name| + 1));
      BookKnown(base, at, strings, reqs, offset + |name| + 1, name, p + offset);
      at := Align(at + offset + |name| + 1);
      mem := mem[p := cell][p + offset := Text(name)];
      if name !in strings { strings := strings[name := p + offset]; }
      reqs := reqs + [Alloc(offset + |name| + 1), Known(name)];
    }

    // store_string: a short string that is there already is shared, and nothing is written; any other is written at the
    // bump pointer, which moves behind it, and a short one is noted.
    method StoreString(s: string) returns (p: int)
      requires Ready()
      modifies this
      ensures Ready() && Extends(old(mem), mem) && old(at) <= at && p in mem && mem[p] == Text(s)
      ensures |s| + 1 <= MAX_DUP_STR_LEN && s in old(strings) ==>
                p == old(strings)[s] && mem == old(mem) && at == old(at) && strings == old(strings)
      ensures |s| + 1 > MAX_DUP_STR_LEN || s !in old(strings) ==>
                p == old(at) && p !in old(mem) && mem == old(mem)[p := Text(s)] && at == Align(old(at) + |s| + 1)
      ensures |s| + 1 > MAX_DUP_STR_LEN ==> strings == old(strings)
      ensures |s| + 1 <= MAX_DUP_STR_LEN && s !in old(strings) ==> strings == old(strings)[s := p]
      ensures Asked(old(reqs), reqs, [Share(s)])
    {
      BookShare(base, at, strings, reqs, s, at);
      SeparateMore(mem, at, Text(s), Align(at + |s| + 1));
      ghost var reqs0 := reqs;
      if |s| + 1 > MAX_DUP_STR_LEN {
        p := Allocate(|s| + 1, Text(s));
      } else if s in strings {
        p := strings[s];
      } else {
        p := Allocate(|s| + 1, Text(s));
        strings := strings[s := p];
      }
      reqs := reqs0 + [Share(s)];
    }

    // Overwrite the cell at a, which is no text.
    method Put(a: int, cell: Cell)
      requires Ready() && a in mem && !mem[a].Text? && !cell.Text? && Width(cell) <= Width(mem[a])
      modifies this`mem
      ensures Ready() && mem == old(mem)[a := cell]
    {
      SeparatePut(mem, at, a, cell);
      mem := mem[a := cell];
    }

    // The chain of a new bucket.
    method LinkChain(b: int, slots: int, k: nat)
      requires Ready() && b in mem && mem[b].Bucket? && slots in mem && mem[slots].Slots? && k < |mem[slots].ps|
      requires var first := mem[slots].ps[k]; first != 0 ==> first in mem && mem[first].Bucket? && first != b
      modifies this`mem
      ensures Ready()
      ensures var first := old(mem)[slots].ps[k];
              mem == LinkedIn(old(mem), b, old(mem)[b].(next := first, last := 0), first, slots,
                              old(mem)[slots].ps[k := b])
    {
      var first := mem[slots].ps[k];
      if first != 0 {
        Put(b, mem[b].(next := first));
        Put(b, mem[b].(last := 0));
        Put(first, mem[first].(last := b));
      } else {
        Put(b, mem[b].(next := 0));
        Put(b, mem[b].(last := 0));
      }
      Put(slots, Slots(mem[slots].ps[k := b]));
    }

    method PointBucket(b: int, z: int, prev: int)
      requires Ready() && b in mem && mem[b].Bucket?
      modifies this`mem
      ensures Ready() && mem == old(mem)[b := old(mem)[b].(dataPtr := z, data := b, listLast := prev, listNext := 0)]
    {
      Put(b, mem[b].(dataPtr := z));
      Put(b, mem[b].(data := b));
      Put(b, mem[b].(listLast := prev));
      Put(b, mem[b].(listNext := 0));
    }

    // Its data, and its place at the end of the list.
    method LinkList(b: int, z: int, prev: int)
      requires Ready() && b in mem && mem[b].Bucket? && b != prev && (prev != 0 ==> prev in mem && mem[prev].Bucket?)
      modifies this`mem
      ensures Ready()
      ensures mem == Appended(old(mem), b, old(mem)[b].(dataPtr := z, data := b, listLast := prev, listNext := 0), prev)
    {
      PointBucket(b, z, prev);
      if prev != 0 {
        Put(prev, mem[prev].(listNext := b));
      }
    }

    // The bucket and its chain.
    method ChainBucket(ghost t: Table, size: nat, h: nat, key: string, slots: int,
                       ghost bs: seq<int>, ghost zs: seq<int>, ghost ends: seq<int>, ghost subs: seq<Lay>, ghost i: nat) returns (b: int)
      requires Ready() && i == |bs| < |t.items| && size == t.size && h == t.items[i].h && key == t.items[i].key
      requires Partial(mem, t, bs, zs, ends, subs, slots, at)
      modifies this`mem, this`at, this`reqs
      ensures Ready() && b == old(at) < at && Apart(bs, slots, b) && b in mem
      ensures Asked(old(reqs), reqs, [Alloc(OFFSET_ARKEY + |key|)])
      ensures mem[b] == Bucket(t.items[i].h, t.items[i].key, PtrAt(bs, Newest(t, i, SlotOf(t, i)), 0), 0, 0, 0, 0, 0)
      ensures SlotsNext(mem, t, bs, slots, b) && AllChained(mem, t, bs, zs, b) && DataHeld(mem, 0, t.items, zs, subs)
      ensures SameBelow(old(mem), mem, slots)
    {
      ghost var mem0, at0 := mem, at;
      ghost var first := PtrAt(bs, Newest(t, i, SlotOf(t, i)), 0);
      LinkCells(mem, 0, t, bs, zs, slots);
      PlacedApart(bs, zs, ends, subs, slots, at, at);
      PlacedFacts(bs, zs, ends, subs, slots, at);
      b := Allocate(OFFSET_ARKEY + |key|, Bucket(h, key, 0, 0, 0, 0, 0, 0));
      LinkChain(b, slots, h % size);
      ghost var cell := Bucket(t.items[i].h, t.items[i].key, first, 0, 0, 0, 0, 0);
      assert mem == LinkedIn(mem0, b, cell, first, slots, mem0[slots].ps[SlotOf(t, i) := b]);
      ChainStep(mem0, t, bs, zs, slots, b, cell, first);
      ghost var xs := if first == 0 then {b, slots} else {b, slots, first};
      HeaderChange(mem0, mem, t, bs, zs, ends, subs, slots, at0, xs);
    }

    // store_zval_ptr
    method StoreZvalPtr(v: Value) returns (z: int, ghost sub: Lay)
      requires Ready() && Storable(v)
      modifies this
      ensures Ready() && Extends(old(mem), mem) && z == old(at) < at && z !in old(mem)
      ensures z in mem && mem[z].Zval? && Holds(mem, 0, mem[z].c, v, sub) && Fits(sub, z + 1, at)
      ensures Asked(old(reqs), reqs, [Alloc(SIZEOF_ZVAL)] + S.ZvalReqs(S.Store, SizedZval(v)))
      decreases v, 2
    {
      ghost var reqs0 := reqs;
      z := Allocate(SIZEOF_ZVAL, Zval(CScalar(0)));
      ghost var mem1, reqs1 := mem, reqs;
      var c;
      c, sub := StoreZval(v);
      AskedOn(reqs0, reqs1, reqs, [Alloc(SIZEOF_ZVAL)], S.ZvalReqs(S.Store, SizedZval(v)));
      ghost var mem2 := mem;
      Put(z, Zval(c));
      HoldsElsewhere(mem2, mem, 0, c, v, sub, z + 1, at);
    }

    // store_zval
    method StoreZval(v: Value) returns (c: Content, ghost lay: Lay)
      requires Ready() && Storable(v)
      modifies this
      ensures Ready() && Extends(old(mem), mem) && old(at) <= at
      ensures Holds(mem, 0, c, v, lay) && Fits(lay, old(at), at)
      ensures Asked(old(reqs), reqs, S.ZvalReqs(S.Store, SizedZval(v)))
      decreases v, 1
    {
      match v
      case Scalar(n) =>
        c, lay := CScalar(n), LNone;
        AskedNothing(reqs);
      case Str(s) =>
        var p := StoreString(s);
        c, lay := CStr(|s|, p), LStr(p);
      case Arr(t) =>
        var tab;
        tab, lay := StoreTable(t, None);
        AllKept(t);
        c := CArr(tab);
    }

    // One round of the loop of store_hash_int.
    method StoreBucket(ghost t: Table, size: nat, item: Item, ghost i: nat, slots: int, prev: int, ghost bs: seq<int>,
                       ghost zs: seq<int>, ghost ends: seq<int>, ghost subs: seq<Lay>)
      returns (b: int, ghost z': int, ghost sub: Lay)
      requires Ready() && i == |bs| < |t.items| && size == t.size && item == t.items[i] && Storable(item.v)
      requires Partial(mem, t, bs, zs, ends, subs, slots, at) && prev == Last(bs)
      modifies this
      ensures Ready() && old(at) < at && b > 0
      ensures Partial(mem, t, bs + [b], zs + [z'], ends + [at], subs + [sub], slots, at)
      ensures SameBelow(old(mem), mem, slots)
      ensures Asked(old(reqs), reqs, S.BucketReq(S.Store, SizedItem(item, true)))
      decreases item, 3
    {
      ghost var at0, reqs0 := at, reqs;
      b := ChainBucket(t, size, item.h, item.key, slots, bs, zs, ends, subs, i);
      ghost var mem1, reqs1 := mem, reqs;
      var z;
      z, sub := StoreZvalPtr(item.v);
      z' := z;
      AskedOn(reqs0, reqs1, reqs, [Alloc(OFFSET_ARKEY + |item.key|)],
              [Alloc(SIZEOF_ZVAL)] + S.ZvalReqs(S.Store, SizedZval(item.v)));
      ghost var mem2 := mem;
      StoredData(mem1, mem2, t, bs, zs, ends, subs, slots, at0, b);
      LastChained(mem2, t, bs, zs, b);
      LinkList(b, z, prev);
      FinishBucket(mem2, mem, t, bs, zs, ends, subs, slots, at0, b, z, at, sub);
    }

    // Bucket i of t, which check does not remove.
    method AppendBucket(ghost t: Table, check: Option<seq<bool>>, ghost i: nat, size: nat, item: Item, slots: int,
                        prev: int, ghost bs: seq<int>, ghost zs: seq<int>, ghost ends: seq<int>, ghost subs: seq<Lay>,
                        ghost reqs0: seq<Req>)
      returns (b: int, ghost bs': seq<int>, ghost zs': seq<int>, ghost ends': seq<int>, ghost subs': seq<Lay>)
      requires Ready() && Checks(check, |t.items|) && i < |t.items| && !Removed(check, i) && size == t.size
      requires item == t.items[i] && Storable(item.v) && |bs| == |KeptOf(t.items, check, i)|
      requires Partial(mem, Kept(t, check), bs, zs, ends, subs, slots, at) && prev == Last(bs)
      requires Asked(reqs0, reqs, EntryReqs(t.items, check, i))
      modifies this
      ensures Ready() && old(at) < at && b > 0 && SameBelow(old(mem), mem, slots)
      ensures Partial(mem, Kept(t, check), bs', zs', ends', subs', slots, at) && bs' == bs + [b]
      ensures |bs'| == |KeptOf(t.items, check, i + 1)|
      ensures Asked(reqs0, reqs, EntryReqs(t.items, check, i + 1))
      decreases item, 4
    {
      ghost var z, sub, reqs1;
      reqs1 := reqs;
      KeptNext(t, check, i);
      KeptOneMore(t.items, check, i);
      b, z, sub := StoreBucket(Kept(t, check), size, item, |bs|, slots, prev, bs, zs, ends, subs);
      bs', zs', ends', subs' := bs + [b], zs + [z], ends + [at], subs + [sub];
      AskedOn(reqs0, reqs1, reqs, EntryReqs(t.items, check, i), S.BucketReq(S.Store, SizedItem(item, true)));
      EntryReqsGrow(t.items, check, i);
    }

    // The first i buckets of the table are done.
    ghost predicate Filling(t: Table, check: Option<seq<bool>>, i: nat, slots: int, count: int, head: int, tail: int,
                            bs: seq<int>, zs: seq<int>, ends: seq<int>, subs: seq<Lay>, reqs0: seq<Req>)
      reads this
      requires i <= |t.items| && Checks(check, |t.items|)
    {
      && |bs| == |KeptOf(t.items, check, i)| && count == |t.items| - (i - |bs|)
      && Partial(mem, Kept(t, check), bs, zs, ends, subs, slots, at) && EndsOf(bs, head, tail)
      && Asked(reqs0, reqs, EntryReqs(t.items, check, i))
    }

    // One round of the loop.
    method StoreNext(t: Table, check: Option<seq<bool>>, i: nat, slots: int, count: int, head: int, tail: int,
                     ghost bs: seq<int>,
                     ghost zs: seq<int>, ghost ends: seq<int>, ghost subs: seq<Lay>, ghost reqs0: seq<Req>)
      returns (count': int, head': int, tail': int, ghost bs': seq<int>, ghost zs': seq<int>, ghost ends': seq<int>,
               ghost subs': seq<Lay>)
      requires Ready() && Checks(check, |t.items|) && i < |t.items| && Storable(t.items[i].v)
      requires Filling(t, check, i, slots, count, head, tail, bs, zs, ends, subs, reqs0)
      modifies this
      ensures Ready() && old(at) <= at && SameBelow(old(mem), mem, slots)
      ensures Filling(t, check, i + 1, slots, count', head', tail', bs', zs', ends', subs', reqs0)
      decreases t.items[i], 5
    {
      count', head', tail', bs', zs', ends', subs' := count, head, tail, bs, zs, ends, subs;
      if Removed(check, i) {
        KeptOneMore(t.items, check, i);
        EntryReqsGrow(t.items, check, i);
        count' := count - 1;
      } else {
        tail', bs', zs', ends', subs' := AppendBucket(t, check, i, t.size, t.items[i], slots, tail, bs, zs, ends,
                                                      subs, reqs0);
        EndsGrow(bs, tail', head, tail);
        if tail == 0 { head' := tail'; }
      }
    }

    // The loop of store_hash_int: the copy has the buckets that check does not remove.
    method StoreBuckets(t: Table, check: Option<seq<bool>>, slots: int) returns
      (count: int, head: int, tail: int, ghost bs: seq<int>, ghost zs: seq<int>, ghost ends: seq<int>,
       ghost subs: seq<Lay>)
      requires Ready() && Checks(check, |t.items|) && forall i :: 0 <= i < |t.items| ==> Storable(t.items[i].v)
      requires Partial(mem, Kept(t, check), [], [], [], [], slots, at)
      modifies this
      ensures Ready() && old(at) <= at && SameBelow(old(mem), mem, slots)
      ensures Partial(mem, Kept(t, check), bs, zs, ends, subs, slots, at)
      ensures |bs| == |Kept(t, check).items| == count && tail == Last(bs) && head == if bs == [] then 0 else bs[0]
      ensures Asked(old(reqs), reqs, EntryReqs(t.items, check, |t.items|))
      decreases t, 0
    {
      AskedNothing(reqs);
      var i := 0;
      head, tail, count := 0, 0, |t.items|;
      bs, zs, ends, subs := [], [], [], [];
      while i < |t.items|
        invariant 0 <= i <= |t.items| && Ready() && old(at) <= at && SameBelow(old(mem), mem, slots)
        invariant Filling(t, check, i, slots, count, head, tail, bs, zs, ends, subs, old(reqs))
      {
        count, head, tail, bs, zs, ends, subs := StoreNext(t, check, i, slots, count, head, tail, bs, zs, ends, subs,
                                                           old(reqs));
        i := i + 1;
      }
    }

    // store_hash_int for a table with entries, into the HashTable at tab.
    method FillTable(t: Table, check: Option<seq<bool>>, tab: int) returns (ghost lay: Lay)
      requires Ready() && t.items != [] && t.size > 0 && Checks(check, |t.items|)
      requires forall i :: 0 <= i < |t.items| ==> Storable(t.items[i].v)
      requires tab in mem && mem[tab] == Hash(|t.items|, t.size, 0, 0, 0)
      modifies this
      ensures Ready() && old(at) <= at && forall a :: a in old(mem) && a != tab ==> a in mem && mem[a] == old(mem)[a]
      ensures lay.LArr? && lay.tab == tab && TableHeld(mem, 0, Kept(t, check), lay) && Fits(lay, tab, at)
      ensures Asked(old(reqs), reqs, S.TableReqs(S.Store, SizedTable(t, check), check.Some?))
      decreases t, 1
    {
      lay := LArr(tab, tab, [], [], [], []);
      ghost var reqs0 := reqs;
      var slots := Allocate(t.size * SIZEOF_PTR, Slots(seq(t.size, _ => 0)));
      ghost var bs, zs, ends, subs, reqs1 := [], [], [], [], reqs;
      var count, head, tail;
      count, head, tail, bs, zs, ends, subs := StoreBuckets(t, check, slots);
      AskedOn(reqs0, reqs1, reqs, [Alloc(t.size * SIZEOF_PTR)], EntryReqs(t.items, check, |t.items|));
      ghost var mem1 := mem;
      Put(tab, Hash(count, t.size, slots, head, tail));
      if bs != [] {
        lay := LArr(tab, slots, bs, zs, ends, subs);
        FinishTable(mem1, mem, Kept(t, check), bs, zs, ends, subs, slots, at, tab);
      }
    }

    // ALLOCATE(at, sizeof(HashTable)) and store_hash_int
    method StoreTable(t: Table, check: Option<seq<bool>>) returns (tab: int, ghost lay: Lay)
      requires Ready() && (t.items != [] ==> t.size > 0) && Checks(check, |t.items|)
      requires forall i :: 0 <= i < |t.items| ==> Storable(t.items[i].v)
      modifies this
      ensures Ready() && Extends(old(mem), mem) && old(at) <= at
      ensures lay.LArr? && lay.tab == tab && TableHeld(mem, 0, Kept(t, check), lay) && Fits(lay, old(at), at)
      ensures Asked(old(reqs), reqs, [Alloc(SIZEOF_HASH)] + S.TableReqs(S.Store, SizedTable(t, check), check.Some?))
      decreases t, 2
    {
      ghost var reqs0 := reqs;
      tab := Allocate(SIZEOF_HASH, Hash(|t.items|, t.size, 0, 0, 0));
      lay := LArr(tab, tab, [], [], [], []);
      ghost var reqs1 := reqs;
      if t.items == [] {
        assert S.TableReqs(S.Store, SizedTable(t, check), check.Some?) == [];
      } else {
        lay := FillTable(t, check, tab);
        AskedOn(reqs0, reqs1, reqs, [Alloc(SIZEOF_HASH)], S.TableReqs(S.Store, SizedTable(t, check), check.Some?));
      }
    }
  }
}
