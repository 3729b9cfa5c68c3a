// fixup_zval and fixup_hash: after the image was loaded d away from where it was written.
module ImageFixup {
  import opened Options
  import opened Image

  // FIXUP
  function Fix(p: int, d: int): int {
    if p != 0 then p + d else p
  }

  // Only cells in [lo, hi) changed, and no text.
  predicate SameOut(mem: Memory, mem': Memory, lo: int, hi: int) {
    forall a :: a in mem && (!(lo <= a < hi) || mem[a].Text?) ==> a in mem' && mem'[a] == mem[a]
  }

  lemma SameOutWider(mem: Memory, mem': Memory, lo: int, hi: int, lo': int, hi': int)
    requires SameOut(mem, mem', lo, hi) && lo' <= lo && hi <= hi'
    ensures SameOut(mem, mem', lo', hi')
  {
  }

  // ----- one entry at a time -----

  ghost predicate DataAt(mem: Memory, d: int, v: Value, z: int, sub: Lay) {
    z in mem && Nonzero(z, d) && mem[z].Zval? && Holds(mem, d, mem[z].c, v, sub)
  }

  lemma {:induction false} DataEach(mem: Memory, d: int, items: seq<Item>, zs: seq<int>, subs: seq<Lay>, i: nat)
    requires DataHeld(mem, d, items, zs, subs) && i < |subs|
    ensures DataAt(mem, d, items[i].v, zs[i], subs[i])
    decreases |subs|
  {
    var n := |subs| - 1;
    if i < n { DataEach(mem, d, items[..n], zs[..n], subs[..n], i); }
  }

  lemma {:induction false} DataAll(mem: Memory, d: int, items: seq<Item>, zs: seq<int>, subs: seq<Lay>)
    requires |zs| == |subs| <= |items|
    requires forall i {:trigger DataAt(mem, d, items[i].v, zs[i], subs[i])} ::
               0 <= i < |subs| ==> DataAt(mem, d, items[i].v, zs[i], subs[i])
    ensures DataHeld(mem, d, items, zs, subs)
    decreases |subs|
  {
    if subs != [] {
      var n := |subs| - 1;
      forall i {:trigger DataAt(mem, d, items[..n][i].v, zs[..n][i], subs[..n][i])} | 0 <= i < n
        ensures DataAt(mem, d, items[..n][i].v, zs[..n][i], subs[..n][i])
      {
        assert DataAt(mem, d, items[i].v, zs[i], subs[i]);
      }
      DataAll(mem, d, items[..n], zs[..n], subs[..n]);
      assert DataAt(mem, d, items[n].v, zs[n], subs[n]);
    }
  }

  // How far entry i lags behind while the loop stands at entry j.
  function Lag(i: int, j: nat, d: int): int {
    if i < j then 0 else d
  }

  ghost predicate EntryHeld(mem: Memory, d: int, t: Table, lay: Lay, i: nat)
    requires lay.LArr? && |lay.bs| == |lay.zs| == |lay.subs| == |t.items| && t.size > 0 && i < |t.items|
  {
    BucketHeld(mem, d, t, lay.bs, lay.zs, |t.items|, i) && DataAt(mem, d, t.items[i].v, lay.zs[i], lay.subs[i])
  }

  // Entries before j are done, the others still lag behind.
  ghost predicate FixedTo(mem: Memory, d: int, t: Table, lay: Lay, j: nat) {
    && lay.LArr? && |lay.bs| == |lay.zs| == |lay.subs| == |t.items| && t.size > 0
    && forall i {:trigger EntryHeld(mem, Lag(i, j, d), t, lay, i)} ::
         0 <= i < |t.items| ==> EntryHeld(mem, Lag(i, j, d), t, lay, i)
  }

  predicate NotNull(lay: Lay, d: int)
    requires lay.LArr?
  {
    (forall i :: 0 <= i < |lay.bs| ==> Nonzero(lay.bs[i], d)) && forall i :: 0 <= i < |lay.zs| ==> Nonzero(lay.zs[i], d)
  }

  lemma StartFixing(mem: Memory, d: int, t: Table, lay: Lay, lo: int, hi: int)
    requires lay.LArr? && TableHeld(mem, d, t, lay) && t.items != [] && Fits(lay, lo, hi) && 0 < lo
    ensures FixedTo(mem, d, t, lay, 0) && NotNull(lay, d)
  {
    PlacedFacts(lay.bs, lay.zs, lay.ends, lay.subs, lay.slots, hi);
    forall i {:trigger EntryHeld(mem, Lag(i, 0, d), t, lay, i)} | 0 <= i < |t.items|
      ensures EntryHeld(mem, Lag(i, 0, d), t, lay, i)
    {
      assert BucketHeld(mem, d, t, lay.bs, lay.zs, |t.items|, i);
      DataEach(mem, d, t.items, lay.zs, lay.subs, i);
    }
    forall i | 0 <= i < |lay.bs| ensures Nonzero(lay.bs[i], d) && Nonzero(lay.zs[i], d) {
      assert BucketHeld(mem, d, t, lay.bs, lay.zs, |t.items|, i);
      DataEach(mem, d, t.items, lay.zs, lay.subs, i);
    }
  }

  lemma DoneFixing(mem: Memory, d: int, t: Table, lay: Lay)
    requires FixedTo(mem, d, t, lay, |t.items|) && SlotsHeld(mem, 0, t, lay.bs, |t.items|, lay.slots)
    requires HashHeld(mem, 0, t, lay)
    ensures TableHeld(mem, 0, t, lay)
  {
    var n := |t.items|;
    forall i {:trigger BucketHeld(mem, 0, t, lay.bs, lay.zs, |lay.bs|, i)} | 0 <= i < n
      ensures BucketHeld(mem, 0, t, lay.bs, lay.zs, |lay.bs|, i)
    {
      assert EntryHeld(mem, Lag(i, n, d), t, lay, i);
    }
    forall i {:trigger DataAt(mem, 0, t.items[i].v, lay.zs[i], lay.subs[i])} | 0 <= i < n
      ensures DataAt(mem, 0, t.items[i].v, lay.zs[i], lay.subs[i])
    {
      assert EntryHeld(mem, Lag(i, n, d), t, lay, i);
    }
    DataAll(mem, 0, t.items, lay.zs, lay.subs);
  }

  // Fixing a pointer to an entry, or NULL.
  lemma FixPtr(lay: Lay, o: Option<nat>, d: int)
    requires lay.LArr? && NotNull(lay, d) && (o.Some? ==> o.value < |lay.bs|)
    ensures Fix(PtrAt(lay.bs, o, d), d) == PtrAt(lay.bs, o, 0)
  {
  }

  function FixBucket(c: Cell, d: int): Cell
    requires c.Bucket?
  {
    Bucket(c.h, c.key, Fix(c.next, d), Fix(c.last, d), Fix(c.data, d), Fix(c.dataPtr, d), Fix(c.listLast, d),
           Fix(c.listNext, d))
  }

  lemma FixBucketIs(t: Table, lay: Lay, i: nat, d: int)
    requires lay.LArr? && NotNull(lay, d) && |lay.bs| == |lay.zs| == |t.items| && t.size > 0 && i < |t.items|
    ensures BucketFor(t, lay.bs, lay.zs, |t.items|, i, d).Bucket?
    ensures FixBucket(BucketFor(t, lay.bs, lay.zs, |t.items|, i, d), d) == BucketFor(t, lay.bs, lay.zs, |t.items|, i, 0)
  {
    FixPtr(lay, Newest(t, i, SlotOf(t, i)), d);
    FixPtr(lay, Oldest(t, i + 1, |t.items|, SlotOf(t, i)), d);
  }

  // Fixing entry j leaves the others alone.
  lemma OtherEntry(mem: Memory, mem': Memory, d: int, t: Table, lay: Lay, lo: int, hi: int, j: nat, i: nat)
    requires lay.LArr? && |lay.bs| == |lay.zs| == |lay.subs| == |lay.ends| == |t.items| && t.size > 0
    requires Fits(lay, lo, hi)
    requires i < |t.items| && j < |t.items| && i != j && EntryHeld(mem, d, t, lay, i)
    requires SameOut(mem, mem', lay.bs[j], lay.ends[j])
    ensures EntryHeld(mem', d, t, lay, i)
  {
    PlacedFacts(lay.bs, lay.zs, lay.ends, lay.subs, lay.slots, hi);
    if i < j { assert lay.ends[i] <= lay.bs[j]; } else { assert lay.ends[j] <= lay.bs[i]; }
    PlacedSub(lay.bs, lay.zs, lay.ends, lay.subs, lay.slots, hi, i);
    HoldsElsewhere(mem, mem', d, mem[lay.zs[i]].c, t.items[i].v, lay.subs[i], lay.zs[i] + 1, lay.ends[i]);
  }

  lemma {:induction false} PlacedSub(bs: seq<int>, zs: seq<int>, ends: seq<int>, subs: seq<Lay>, slots: int, at: int,
                                     i: nat)
    requires Placed(bs, zs, ends, subs, slots, at) && i < |subs|
    ensures Fits(subs[i], zs[i] + 1, ends[i])
    decreases |subs|
  {
    var n := |subs| - 1;
    if i < n { PlacedSub(bs[..n], zs[..n], ends[..n], subs[..n], slots, bs[n], i); }
  }

  lemma FixedOneMore(mem: Memory, mem': Memory, d: int, t: Table, lay: Lay, lo: int, hi: int, j: nat)
    requires FixedTo(mem, d, t, lay, j) && Fits(lay, lo, hi) && j < |t.items| == |lay.ends|
    requires SameOut(mem, mem', lay.bs[j], lay.ends[j]) && EntryHeld(mem', 0, t, lay, j)
    ensures FixedTo(mem', d, t, lay, j + 1)
  {
    forall i {:trigger EntryHeld(mem', Lag(i, j + 1, d), t, lay, i)} | 0 <= i < |t.items|
      ensures EntryHeld(mem', Lag(i, j + 1, d), t, lay, i)
    {
      if i != j {
        assert EntryHeld(mem, Lag(i, j, d), t, lay, i);
        OtherEntry(mem, mem', Lag(i, j, d), t, lay, lo, hi, j, i);
      }
    }
  }

  // Changing the table's own two cells leaves all entries alone.
  lemma OwnCells(mem: Memory, mem': Memory, d: int, t: Table, lay: Lay, lo: int, hi: int, j: nat)
    requires FixedTo(mem, d, t, lay, j) && Fits(lay, lo, hi) && t.items != []
    requires forall a :: a in mem && a != lay.tab && a != lay.slots ==> a in mem' && mem'[a] == mem[a]
    requires lay.tab in mem && !mem[lay.tab].Text? && lay.slots in mem && !mem[lay.slots].Text?
    ensures FixedTo(mem', d, t, lay, j)
  {
    PlacedFacts(lay.bs, lay.zs, lay.ends, lay.subs, lay.slots, hi);
    forall i {:trigger EntryHeld(mem', Lag(i, j, d), t, lay, i)} | 0 <= i < |t.items|
      ensures EntryHeld(mem', Lag(i, j, d), t, lay, i)
    {
      assert EntryHeld(mem, Lag(i, j, d), t, lay, i);
      PlacedSub(lay.bs, lay.zs, lay.ends, lay.subs, lay.slots, hi, i);
      HoldsElsewhere(mem, mem', Lag(i, j, d), mem[lay.zs[i]].c, t.items[i].v, lay.subs[i], lay.zs[i] + 1, lay.ends[i]);
    }
  }

  lemma FitsRange(lay: Lay, lo: int, hi: int)
    requires Fits(lay, lo, hi)
    ensures lo <= hi
  {
  }

  class Loaded {
    var mem: Memory

    constructor (mem: Memory)
      ensures this.mem == mem
    {
      this.mem := mem;
    }

    // fixup_zval on the contents of a zval, wherever it is
    method FixupContent(c: Content, d: int, ghost v: Value, ghost lay: Lay, ghost lo: int, ghost hi: int)
      returns (c': Content)
      requires Holds(mem, d, c, v, lay) && Fits(lay, lo, hi) && 0 < lo
      modifies this
      ensures Holds(mem, 0, c', v, lay) && SameOut(old(mem), mem, lo, hi)
      decreases v, 1
    {
      match c
      case CScalar(_) =>
        c' := c;
      case CStr(len, p) =>
        c' := CStr(len, Fix(p, d));
      case CArr(p) =>
        c' := CArr(Fix(p, d));
        FixupTable(Fix(p, d), d, v.t, lay, lo, hi);
    }

    // fixup_zval on the zval at z
    method FixupZval(z: int, d: int, ghost v: Value, ghost lay: Lay, ghost end: int)
      requires DataAt(mem, d, v, z, lay) && Fits(lay, z + 1, end) && 0 < z
      modifies this
      ensures DataAt(mem, 0, v, z, lay) && SameOut(old(mem), mem, z, end)
      decreases v, 2
    {
      ghost var mem0 := mem;
      FitsRange(lay, z + 1, end);
      var c := FixupContent(mem[z].c, d, v, lay, z + 1, end);
      ghost var mem1 := mem;
      mem := mem[z := Zval(c)];
      HoldsElsewhere(mem1, mem, 0, c, v, lay, z + 1, end);
    }

    method FixupSlots(slots: int, d: int)
      requires slots in mem && mem[slots].Slots?
      modifies this
      ensures slots in mem && mem[slots].Slots? && mem == old(mem)[slots := mem[slots]]
      ensures |mem[slots].ps| == |old(mem)[slots].ps|
      ensures forall k :: 0 <= k < |mem[slots].ps| ==> mem[slots].ps[k] == Fix(old(mem)[slots].ps[k], d)
    {
      var i := 0;
      while i < |mem[slots].ps|
        invariant 0 <= i && slots in mem && mem[slots].Slots? && mem == old(mem)[slots := mem[slots]]
        invariant |mem[slots].ps| == |old(mem)[slots].ps| && i <= |mem[slots].ps|
        invariant forall k ::
                    0 <= k < |mem[slots].ps| ==>
                      mem[slots].ps[k] == if k < i then Fix(old(mem)[slots].ps[k], d) else old(mem)[slots].ps[k]
      {
        mem := mem[slots := Slots(mem[slots].ps[i := Fix(mem[slots].ps[i], d)])];
        i := i + 1;
      }
    }

    // One round of the loop of fixup_hash.
    method FixupBucket(p: int, d: int, ghost t: Table, ghost lay: Lay, ghost lo: int, ghost hi: int, ghost j: nat)
      requires FixedTo(mem, d, t, lay, j) && Fits(lay, lo, hi) && j < |t.items| && p == lay.bs[j] && NotNull(lay, d)
      requires |lay.ends| == |t.items|
      modifies this
      ensures EntryHeld(mem, 0, t, lay, j) && SameOut(old(mem), mem, lay.bs[j], lay.ends[j])
      decreases t, 1
    {
      ghost var mem0, v, z, sub, end := mem, t.items[j].v, lay.zs[j], lay.subs[j], lay.ends[j];
      assert EntryHeld(mem, Lag(j, j, d), t, lay, j);
      PlacedFacts(lay.bs, lay.zs, lay.ends, lay.subs, lay.slots, hi);
      PlacedSub(lay.bs, lay.zs, lay.ends, lay.subs, lay.slots, hi, j);
      FixBucketIs(t, lay, j, d);
      mem := mem[p := FixBucket(mem[p], d)];
      ghost var mem1 := mem;
      HoldsElsewhere(mem0, mem1, d, mem0[z].c, v, sub, z + 1, end);
      FixupZval(mem[p].dataPtr, d, v, sub, end);
      ghost var mem2 := mem;
      assert mem[p] == mem1[p] && mem1[p].data == p;
      mem := mem[p := mem[p].(data := p)];
      assert mem == mem2;
    }

    // fixup_hash
    method FixupTable(tab: int, d: int, ghost t: Table, ghost lay: Lay, ghost lo: int, ghost hi: int)
      requires lay.LArr? && tab == lay.tab && TableHeld(mem, d, t, lay) && Fits(lay, lo, hi) && 0 < lo
      modifies this
      ensures TableHeld(mem, 0, t, lay) && SameOut(old(mem), mem, lo, hi)
      decreases t, 3
    {
      if mem[tab].count > 0 {
        ghost var mem0 := mem;
        StartFixing(mem, d, t, lay, lo, hi);
        FixupHeader(tab, d, t, lay, lo, hi);
        FixupEntries(mem[tab].head, d, t, lay, lo, hi);
      }
    }

    // Slots, head and tail.
    method FixupHeader(tab: int, d: int, ghost t: Table, ghost lay: Lay, ghost lo: int, ghost hi: int)
      requires lay.LArr? && tab == lay.tab && TableHeld(mem, d, t, lay) && Fits(lay, lo, hi) && t.items != []
      requires FixedTo(mem, d, t, lay, 0) && NotNull(lay, d)
      modifies this
      ensures HashHeld(mem, 0, t, lay) && SlotsHeld(mem, 0, t, lay.bs, |t.items|, lay.slots)
      ensures FixedTo(mem, d, t, lay, 0)
      ensures SameOut(old(mem), mem, lo, hi)
    {
      ghost var mem0 := mem;
      PlacedFacts(lay.bs, lay.zs, lay.ends, lay.subs, lay.slots, hi);
      var h := mem[tab];
      var slots := Fix(h.slots, d);
      mem := mem[tab := h.(slots := slots)];
      FixupSlots(slots, d);
      mem := mem[tab := mem[tab].(head := Fix(h.head, d))];
      mem := mem[tab := mem[tab].(tail := Fix(h.tail, d))];
      forall k | 0 <= k < t.size ensures mem[slots].ps[k] == PtrAt(lay.bs, Newest(t, |t.items|, k), 0) {
        FixPtr(lay, Newest(t, |t.items|, k), d);
      }
      OwnCells(mem0, mem, d, t, lay, lo, hi, 0);
    }

    // The walk along the list.
    method FixupEntries(head: int, d: int, ghost t: Table, ghost lay: Lay, ghost lo: int, ghost hi: int)
      requires lay.LArr? && Fits(lay, lo, hi) && t.items != [] && FixedTo(mem, d, t, lay, 0) && NotNull(lay, d)
      requires head == lay.bs[0]
      requires HashHeld(mem, 0, t, lay) && SlotsHeld(mem, 0, t, lay.bs, |t.items|, lay.slots)
      modifies this
      ensures TableHeld(mem, 0, t, lay) && SameOut(old(mem), mem, lo, hi)
      decreases t, 2
    {
      var p := head;
      ghost var j := 0;
      PlacedFacts(lay.bs, lay.zs, lay.ends, lay.subs, lay.slots, hi);
      while p != 0
        invariant j <= |t.items| && p == (if j < |t.items| then lay.bs[j] else 0)
        invariant FixedTo(mem, d, t, lay, j) && SameOut(old(mem), mem, lo, hi)
        invariant HashHeld(mem, 0, t, lay) && SlotsHeld(mem, 0, t, lay.bs, |t.items|, lay.slots)
        decreases |t.items| - j
      {
        ghost var mem1 := mem;
        FixupBucket(p, d, t, lay, lo, hi, j);
        FixedOneMore(mem1, mem, d, t, lay, lo, hi, j);
        SameOutWider(mem1, mem, lay.bs[j], lay.ends[j], lo, hi);
        p := mem[p].listNext;
        j := j + 1;
      }
      DoneFixing(mem, d, t, lay);
    }
  }
}
