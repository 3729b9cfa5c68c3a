// Values as trees, and values as cells in one region of memory that can be moved.
module Image {
  import opened Options

  // A zval: a scalar, a string, or an ordered hash of zvals.
  datatype Value = Scalar(n: int) | Str(s: string) | Arr(t: Table)
  datatype Table = Table(size: nat, items: seq<Item>)
  datatype Item = Item(h: nat, key: string, v: Value) // key: the bytes of arKey, with the 0 at the end; none for a number

  // ----- memory -----

  // The union inside a zval.
  datatype Content = CScalar(n: int) | CStr(len: nat, p: int) | CArr(p: int)

  // What starts at an address.
  datatype Cell =
    | Text(s: string)
    | Zval(c: Content)
    | Hash(count: nat, size: nat, slots: int, head: int, tail: int)
    | Slots(ps: seq<int>)
    | Bucket(h: nat, key: string, next: int, last: int, data: int, dataPtr: int, listLast: int, listNext: int)
    | Ops(codes: seq<nat>, args: seq<ArgCell>)
    | OpArray(name: int, file: int, opcodes: int, statics: int)
    | Entry(self: int, opArray: int, functions: int)
    | Function(nextNode: int, code: int)

  // op1 and op2 of all opcodes of an array, in turn.
  datatype ArgCell = Literal(c: Content) | Address(p: int) | Plain(n: int)

  type Memory = map<int, Cell>

  // ----- the chains of a hash table -----

  function SlotOf(t: Table, i: nat): nat
    requires i < |t.items| && t.size > 0
  {
    t.items[i].h % t.size
  }

  // The last entry before n in slot k, ...
  function Newest(t: Table, n: nat, k: nat): (r: Option<nat>)
    requires n <= |t.items| && t.size > 0
    ensures r.Some? ==> r.value < n
  {
    if n == 0 then None else if SlotOf(t, n - 1) == k then Some(n - 1) else Newest(t, n - 1, k)
  }

  // ... and the first one from i on, below n.
  function Oldest(t: Table, i: nat, n: nat, k: nat): (r: Option<nat>)
    requires i <= n <= |t.items| && t.size > 0
    ensures r.Some? ==> i <= r.value < n
    decreases n - i
  {
    if i == n then None else if SlotOf(t, i) == k then Some(i) else Oldest(t, i + 1, n, k)
  }

  lemma {:induction false} NewestIs(t: Table, n: nat, k: nat)
    requires n <= |t.items| && t.size > 0
    ensures var r := Newest(t, n, k);
            && (r.Some? ==> SlotOf(t, r.value) == k)
            && forall j :: (if r.Some? then r.value + 1 else 0) <= j < n ==> SlotOf(t, j) != k
    decreases n
  {
    if n > 0 && SlotOf(t, n - 1) != k { NewestIs(t, n - 1, k); }
  }

  lemma {:induction false} OldestIs(t: Table, i: nat, n: nat, k: nat)
    requires i <= n <= |t.items| && t.size > 0
    ensures var r := Oldest(t, i, n, k);
            && (r.Some? ==> SlotOf(t, r.value) == k)
            && forall j :: i <= j < (if r.Some? then r.value else n) ==> SlotOf(t, j) != k
    decreases n - i
  {
    if i < n && SlotOf(t, i) != k { OldestIs(t, i + 1, n, k); }
  }

  // ----- where the cells of a value are -----

  // A table's cells: bucket i at bs[i], its zval at zs[i], what that leads to in subs[i], all before ends[i].
  datatype Lay = LNone | LStr(p: int) | LArr(tab: int, slots: int, bs: seq<int>, zs: seq<int>, ends: seq<int>, subs: seq<Lay>)

  // The cells that hold pointers lie in [lo, hi).  Texts may be anywhere.
  ghost predicate Fits(lay: Lay, lo: int, hi: int)
    decreases lay, 1
  {
    match lay
    case LNone => lo <= hi
    case LStr(_) => lo <= hi
    case LArr(tab, slots, bs, zs, ends, subs) =>
      lo <= tab < hi && if subs == [] then bs == [] && zs == [] && ends == []
        else tab < slots && Placed(bs, zs, ends, subs, slots, hi)
  }

  // Each item has a stretch of its own after the slots, in order.
  ghost predicate Placed(bs: seq<int>, zs: seq<int>, ends: seq<int>, subs: seq<Lay>, slots: int, at: int)
    decreases subs, 0
  {
    && |bs| == |zs| == |ends| == |subs|
    && if subs == [] then slots < at
       else
         var n := |subs| - 1;
         && Placed(bs[..n], zs[..n], ends[..n], subs[..n], slots, bs[n])
         && bs[n] < zs[n] < ends[n] <= at && Fits(subs[n], zs[n] + 1, ends[n])
  }

  lemma {:induction false} PlacedFacts(bs: seq<int>, zs: seq<int>, ends: seq<int>, subs: seq<Lay>, slots: int, at: int)
    requires Placed(bs, zs, ends, subs, slots, at)
    ensures slots < at
    ensures forall i :: 0 <= i < |bs| ==> slots < bs[i] < zs[i] < ends[i] <= at
    ensures forall i, j :: 0 <= i < j < |bs| ==> ends[i] <= bs[j]
    decreases |subs|
  {
    if subs != [] {
      var n := |subs| - 1;
      PlacedFacts(bs[..n], zs[..n], ends[..n], subs[..n], slots, bs[n]);
      forall i | 0 <= i < n ensures slots < bs[i] < zs[i] < ends[i] <= bs[n] {
        assert bs[i] == bs[..n][i] && zs[i] == zs[..n][i] && ends[i] == ends[..n][i];
      }
      forall i, j | 0 <= i < j < |bs| ensures ends[i] <= bs[j] {
        if j < n { assert bs[j] == bs[..n][j] && ends[i] == ends[..n][i]; }
      }
    }
  }

  lemma PlacedHigher(bs: seq<int>, zs: seq<int>, ends: seq<int>, subs: seq<Lay>, slots: int, at: int, at': int)
    requires Placed(bs, zs, ends, subs, slots, at) && at <= at'
    ensures Placed(bs, zs, ends, subs, slots, at')
  {
  }

  // ----- memory that holds a value -----

  // The pointer to entry o, in memory that has moved by d since the pointers were written.
  function PtrAt(bs: seq<int>, o: Option<nat>, d: int): int
    requires o.Some? ==> o.value < |bs|
  {
    if o.None? then 0 else bs[o.value] - d
  }

  // An address that is not NULL, before and after a move by d.
  predicate Nonzero(p: int, d: int) {
    p > 0 && p > d
  }

  // Entry i of a table that has n entries so far.
  function BucketFor(t: Table, bs: seq<int>, zs: seq<int>, n: nat, i: nat, d: int): Cell
    requires i < n <= |t.items| && n <= |bs| && n <= |zs| && t.size > 0
  {
    Bucket(t.items[i].h, t.items[i].key,
           PtrAt(bs, Newest(t, i, SlotOf(t, i)), d), PtrAt(bs, Oldest(t, i + 1, n, SlotOf(t, i)), d),
           bs[i] - d, zs[i] - d,
           if i > 0 then bs[i - 1] - d else 0, if i + 1 < n then bs[i + 1] - d else 0)
  }

  predicate BucketHeld(mem: Memory, d: int, t: Table, bs: seq<int>, zs: seq<int>, n: nat, i: nat)
    requires i < n <= |t.items| && n <= |bs| && n <= |zs| && t.size > 0
  {
    bs[i] in mem && Nonzero(bs[i], d) && mem[bs[i]] == BucketFor(t, bs, zs, n, i, d)
  }

  predicate SlotsHeld(mem: Memory, d: int, t: Table, bs: seq<int>, n: nat, slots: int)
    requires n <= |t.items| && n <= |bs| && t.size > 0
  {
    && slots in mem && mem[slots].Slots? && |mem[slots].ps| == t.size
    && forall k :: 0 <= k < t.size ==> mem[slots].ps[k] == PtrAt(bs, Newest(t, n, k), d)
  }

  // The first n entries are linked: slots, chains and list.
  predicate LinksHeld(mem: Memory, d: int, t: Table, bs: seq<int>, zs: seq<int>, slots: int) {
    && t.size > 0 && |bs| == |zs| <= |t.items| && SlotsHeld(mem, d, t, bs, |bs|, slots)
    && forall i {:trigger BucketHeld(mem, d, t, bs, zs, |bs|, i)} ::
         0 <= i < |bs| ==> BucketHeld(mem, d, t, bs, zs, |bs|, i)
  }

  // An empty table keeps no buckets; its slot pointer is left over from elsewhere and never followed.
  predicate HashHeld(mem: Memory, d: int, t: Table, lay: Lay)
    requires lay.LArr? && |lay.bs| == |t.items|
  {
    && lay.tab in mem && Nonzero(lay.tab, d) && mem[lay.tab].Hash?
    && if t.items == [] then mem[lay.tab] == Hash(0, t.size, mem[lay.tab].slots, 0, 0)
       else Nonzero(lay.slots, d) && mem[lay.tab] == Hash(|t.items|, t.size, lay.slots - d, lay.bs[0] - d,
                                                          lay.bs[|lay.bs| - 1] - d)
  }

  // c, together with the cells it leads to, is v.  Pointers lag behind by d.
  ghost predicate Holds(mem: Memory, d: int, c: Content, v: Value, lay: Lay)
    decreases v, 1
  {
    match v
    case Scalar(n) => lay == LNone && c == CScalar(n)
    case Str(s) => lay.LStr? && c == CStr(|s|, lay.p - d) && Nonzero(lay.p, d) && lay.p in mem && mem[lay.p] == Text(s)
    case Arr(t) => lay.LArr? && c == CArr(lay.tab - d) && TableHeld(mem, d, t, lay)
  }

  ghost predicate TableHeld(mem: Memory, d: int, t: Table, lay: Lay)
    requires lay.LArr?
    decreases t, 0
  {
    && |lay.bs| == |lay.zs| == |lay.subs| == |t.items| && HashHeld(mem, d, t, lay)
    && (t.items != [] ==> LinksHeld(mem, d, t, lay.bs, lay.zs, lay.slots))
    && DataHeld(mem, d, t.items, lay.zs, lay.subs)
  }

  ghost predicate DataHeld(mem: Memory, d: int, items: seq<Item>, zs: seq<int>, subs: seq<Lay>)
    decreases items, 0
  {
    && |zs| == |subs| <= |items|
    && if subs == [] then true
       else
         var n := |subs| - 1;
         && DataHeld(mem, d, items[..n], zs[..n], subs[..n])
         && zs[n] in mem && Nonzero(zs[n], d) && mem[zs[n]].Zval? && Holds(mem, d, mem[zs[n]].c, items[n].v, subs[n])
  }

  // ----- cells that do not matter -----

  // mem' has what mem has in [lo, hi), and all of its texts.
  predicate SameIn(mem: Memory, mem': Memory, lo: int, hi: int) {
    forall a :: a in mem && (lo <= a < hi || mem[a].Text?) ==> a in mem' && mem'[a] == mem[a]
  }

  lemma {:induction false} HoldsElsewhere(mem: Memory, mem': Memory, d: int, c: Content, v: Value, lay: Lay, lo: int,
                                          hi: int)
    requires Holds(mem, d, c, v, lay) && Fits(lay, lo, hi) && SameIn(mem, mem', lo, hi)
    ensures Holds(mem', d, c, v, lay)
    decreases v, 1
  {
    if v.Arr? {
      TableElsewhere(mem, mem', d, v.t, lay, lo, hi);
    }
  }

  lemma LinksElsewhere(mem: Memory, mem': Memory, d: int, t: Table, bs: seq<int>, zs: seq<int>, slots: int)
    requires LinksHeld(mem, d, t, bs, zs, slots)
    requires slots in mem' && mem'[slots] == mem[slots] && forall i ::
               0 <= i < |bs| ==> bs[i] in mem && bs[i] in mem' && mem'[bs[i]] == mem[bs[i]]
    ensures LinksHeld(mem', d, t, bs, zs, slots)
  {
    forall i {:trigger BucketHeld(mem', d, t, bs, zs, |bs|, i)} | 0 <= i < |bs|
      ensures BucketHeld(mem', d, t, bs, zs, |bs|, i)
    {
      assert BucketHeld(mem, d, t, bs, zs, |bs|, i);
    }
  }

  lemma LinkCells(mem: Memory, d: int, t: Table, bs: seq<int>, zs: seq<int>, slots: int)
    requires LinksHeld(mem, d, t, bs, zs, slots)
    ensures slots in mem && forall i :: 0 <= i < |bs| ==> bs[i] in mem && mem[bs[i]].Bucket?
  {
    forall i | 0 <= i < |bs| ensures bs[i] in mem && mem[bs[i]].Bucket? {
      assert BucketHeld(mem, d, t, bs, zs, |bs|, i);
    }
  }

  lemma {:induction false} TableElsewhere(mem: Memory, mem': Memory, d: int, t: Table, lay: Lay, lo: int, hi: int)
    requires lay.LArr? && TableHeld(mem, d, t, lay) && Fits(lay, lo, hi) && SameIn(mem, mem', lo, hi)
    ensures TableHeld(mem', d, t, lay)
    decreases t, 1
  {
    if t.items != [] {
      PlacedFacts(lay.bs, lay.zs, lay.ends, lay.subs, lay.slots, hi);
      LinkCells(mem, d, t, lay.bs, lay.zs, lay.slots);
      LinksElsewhere(mem, mem', d, t, lay.bs, lay.zs, lay.slots);
      DataElsewhere(mem, mem', d, t.items, lay.bs, lay.zs, lay.ends, lay.subs, lay.slots, hi);
    }
  }

  // The cells of each item's data are as they were.
  predicate SameData(mem: Memory, mem': Memory, zs: seq<int>, ends: seq<int>)
    requires |zs| == |ends|
  {
    forall j :: 0 <= j < |zs| ==> SameIn(mem, mem', zs[j], ends[j])
  }

  lemma {:induction false} DataElsewhere(mem: Memory, mem': Memory, d: int, items: seq<Item>, bs: seq<int>,
                                         zs: seq<int>, ends: seq<int>, subs: seq<Lay>, slots: int, at: int)
    requires DataHeld(mem, d, items, zs, subs) && Placed(bs, zs, ends, subs, slots, at) && SameData(mem, mem', zs, ends)
    ensures DataHeld(mem', d, items, zs, subs)
    decreases items, 0
  {
    if subs != [] {
      var n := |subs| - 1;
      assert SameData(mem, mem', zs[..n], ends[..n]);
      DataElsewhere(mem, mem', d, items[..n], bs[..n], zs[..n], ends[..n], subs[..n], slots, bs[n]);
      assert SameIn(mem, mem', zs[n], ends[n]);
      HoldsElsewhere(mem, mem', d, mem[zs[n]].c, items[n].v, subs[n], zs[n] + 1, ends[n]);
    }
  }

  // ----- moving the region -----

  // The bytes of the image loaded d higher (lower, if d is negative).
  predicate MovedBy(mem: Memory, mem': Memory, d: int) {
    forall a :: a in mem ==> a + d > 0 && a + d in mem' && mem'[a + d] == mem[a]
  }

  function AddAll(s: seq<int>, d: int): (r: seq<int>)
    ensures |r| == |s| && forall i :: 0 <= i < |s| ==> r[i] == s[i] + d
  {
    seq(|s|, i requires 0 <= i < |s| => s[i] + d)
  }

  function Shift(lay: Lay, d: int): Lay
    decreases lay, 1
  {
    match lay
    case LNone => LNone
    case LStr(p) => LStr(p + d)
    case LArr(tab, slots, bs, zs, ends, subs) =>
      LArr(tab + d, slots + d, AddAll(bs, d), AddAll(zs, d), AddAll(ends, d), ShiftAll(subs, d))
  }

  function ShiftAll(subs: seq<Lay>, d: int): (r: seq<Lay>)
    ensures |r| == |subs|
    decreases subs, 0
  {
    if subs == [] then [] else ShiftAll(subs[..|subs| - 1], d) + [Shift(subs[|subs| - 1], d)]
  }

  lemma {:induction false} ShiftFits(lay: Lay, lo: int, hi: int, d: int)
    requires Fits(lay, lo, hi)
    ensures Fits(Shift(lay, d), lo + d, hi + d)
    decreases lay, 1
  {
    if lay.LArr? && lay.subs != [] {
      ShiftPlaced(lay.bs, lay.zs, lay.ends, lay.subs, lay.slots, hi, d);
    }
  }

  lemma AddFront(s: seq<int>, d: int)
    requires s != []
    ensures AddAll(s, d)[..|s| - 1] == AddAll(s[..|s| - 1], d)
  {
  }

  lemma PlacedOneMore(bs: seq<int>, zs: seq<int>, ends: seq<int>, subs: seq<Lay>, slots: int, at: int, b: int, z: int,
                      end: int, sub: Lay)
    requires Placed(bs, zs, ends, subs, slots, at) && at <= b < z < end && Fits(sub, z + 1, end)
    ensures Placed(bs + [b], zs + [z], ends + [end], subs + [sub], slots, end)
  {
    PlacedHigher(bs, zs, ends, subs, slots, at, b);
    assert (bs + [b])[..|subs|] == bs && (zs + [z])[..|subs|] == zs && (ends + [end])[..|subs|] == ends
           && (subs + [sub])[..|subs|] == subs;
  }

  lemma AddSplit(s: seq<int>, d: int)
    requires s != []
    ensures AddAll(s, d) == AddAll(s[..|s| - 1], d) + [s[|s| - 1] + d]
  {
  }

  lemma {:induction false} ShiftPlaced(bs: seq<int>, zs: seq<int>, ends: seq<int>, subs: seq<Lay>, slots: int, at: int,
                                       d: int)
    requires Placed(bs, zs, ends, subs, slots, at)
    ensures Placed(AddAll(bs, d), AddAll(zs, d), AddAll(ends, d), ShiftAll(subs, d), slots + d, at + d)
    decreases subs, 0
  {
    if subs != [] {
      var n := |subs| - 1;
      ShiftPlaced(bs[..n], zs[..n], ends[..n], subs[..n], slots, bs[n], d);
      ShiftFits(subs[n], zs[n] + 1, ends[n], d);
      ShiftLast(bs, zs, ends, subs, slots, at, d, n);
    }
  }

  lemma ShiftAllSplit(subs: seq<Lay>, d: int)
    requires subs != []
    ensures ShiftAll(subs, d) == ShiftAll(subs[..|subs| - 1], d) + [Shift(subs[|subs| - 1], d)]
  {
  }

  lemma PlacedAll(bs: seq<int>, zs: seq<int>, ends: seq<int>, subs: seq<Lay>, slots: int, b: int, z: int, end: int,
                  sub: Lay, at: int)
    requires Placed(bs, zs, ends, subs, slots, b) && b < z < end <= at && Fits(sub, z + 1, end)
    ensures Placed(bs + [b], zs + [z], ends + [end], subs + [sub], slots, at)
  {
    PlacedOneMore(bs, zs, ends, subs, slots, b, b, z, end, sub);
    PlacedHigher(bs + [b], zs + [z], ends + [end], subs + [sub], slots, end, at);
  }

  // All but the last and the last.
  lemma ShiftLast(bs: seq<int>, zs: seq<int>, ends: seq<int>, subs: seq<Lay>, slots: int, at: int, d: int, n: nat)
    requires |subs| == n + 1 == |bs| == |zs| == |ends| && bs[n] < zs[n] < ends[n] <= at
    requires Placed(AddAll(bs[..n], d), AddAll(zs[..n], d), AddAll(ends[..n], d), ShiftAll(subs[..n], d), slots + d,
                    bs[n] + d)
    requires Fits(Shift(subs[n], d), zs[n] + 1 + d, ends[n] + d)
    ensures Placed(AddAll(bs, d), AddAll(zs, d), AddAll(ends, d), ShiftAll(subs, d), slots + d, at + d)
  {
    AddSplit(bs, d);
    AddSplit(zs, d);
    AddSplit(ends, d);
    ShiftAllSplit(subs, d);
    PlacedAll(AddAll(bs[..n], d), AddAll(zs[..n], d), AddAll(ends[..n], d), ShiftAll(subs[..n], d), slots + d,
              bs[n] + d, zs[n] + d, ends[n] + d, Shift(subs[n], d), at + d);
  }

  // What a region holds, it still holds after the move, with pointers that lag behind.
  lemma {:induction false} HoldsMoved(mem: Memory, mem': Memory, d: int, c: Content, v: Value, lay: Lay)
    requires Holds(mem, 0, c, v, lay) && MovedBy(mem, mem', d)
    ensures Holds(mem', d, c, v, Shift(lay, d))
    decreases v, 1
  {
    if v.Arr? {
      TableMoved(mem, mem', d, v.t, lay);
    }
  }

  lemma {:induction false} TableMoved(mem: Memory, mem': Memory, d: int, t: Table, lay: Lay)
    requires lay.LArr? && TableHeld(mem, 0, t, lay) && MovedBy(mem, mem', d)
    ensures TableHeld(mem', d, t, Shift(lay, d))
    decreases t, 1
  {
    if t.items != [] {
      LinksMoved(mem, mem', d, t, lay.bs, lay.zs, lay.slots);
    }
    DataMoved(mem, mem', d, t.items, lay.zs, lay.subs);
  }

  lemma LinksMoved(mem: Memory, mem': Memory, d: int, t: Table, bs: seq<int>, zs: seq<int>, slots: int)
    requires LinksHeld(mem, 0, t, bs, zs, slots) && MovedBy(mem, mem', d)
    ensures LinksHeld(mem', d, t, AddAll(bs, d), AddAll(zs, d), slots + d)
  {
    forall i | 0 <= i < |bs| ensures BucketHeld(mem', d, t, AddAll(bs, d), AddAll(zs, d), |bs|, i) {
      assert BucketHeld(mem, 0, t, bs, zs, |bs|, i);
    }
    forall k | 0 <= k < t.size ensures mem[slots].ps[k] == PtrAt(AddAll(bs, d), Newest(t, |bs|, k), d) { }
  }

  lemma {:induction false} DataMoved(mem: Memory, mem': Memory, d: int, items: seq<Item>, zs: seq<int>, subs: seq<Lay>)
    requires DataHeld(mem, 0, items, zs, subs) && MovedBy(mem, mem', d)
    ensures DataHeld(mem', d, items, AddAll(zs, d), ShiftAll(subs, d))
    decreases items, 0
  {
    if subs != [] {
      var n := |subs| - 1;
      AddFront(zs, d);
      assert ShiftAll(subs, d)[..n] == ShiftAll(subs[..n], d);
      DataMoved(mem, mem', d, items[..n], zs[..n], subs[..n]);
      HoldsMoved(mem, mem', d, mem[zs[n]].c, items[n].v, subs[n]);
    }
  }
}
