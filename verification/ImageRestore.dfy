// restore_zval, restore_zval_ptr and restore_hash: an image that has been fixed up is copied to the request's own heap.
module ImageRestore {
  import opened Options
  import opened Image
  import opened Requests
  import opened ImageStore
  import opened ImageFixup

  // restore_zval; the empty string is a text like any other
  method RestoreZval(w: Writer, image: Memory, c: Content, ghost v: Value, ghost lay: Lay)
    returns (c': Content, ghost lay': Lay)
    requires w.Ready() && Holds(image, 0, c, v, lay)
    modifies w
    ensures w.Ready() && Extends(old(w.mem), w.mem) && old(w.at) <= w.at
    ensures Holds(w.mem, 0, c', v, lay') && Fits(lay', old(w.at), w.at)
    decreases v, 1
  {
    match c
    case CScalar(n) =>
      c', lay' := c, LNone;
    case CStr(len, p) =>
      var q := w.Allocate(len + 1, if len == 0 then Text("") else image[p]);
      c', lay' := CStr(len, q), LStr(q);
    case CArr(p) =>
      var tab;
      tab, lay' := RestoreTable(w, image, p, v.t, lay);
      c' := CArr(tab);
  }

  // restore_zval_ptr
  method RestoreZvalPtr(w: Writer, image: Memory, c: Content, ghost v: Value, ghost lay: Lay)
    returns (z: int, ghost lay': Lay)
    requires w.Ready() && Holds(image, 0, c, v, lay)
    modifies w
    ensures w.Ready() && Extends(old(w.mem), w.mem) && z == old(w.at) < w.at && z !in old(w.mem)
    ensures z in w.mem && w.mem[z].Zval? && Holds(w.mem, 0, w.mem[z].c, v, lay') && Fits(lay', z + 1, w.at)
    decreases v, 2
  {
    z := w.Allocate(SIZEOF_ZVAL, Zval(c));
    var c';
    c', lay' := RestoreZval(w, image, c, v, lay);
    ghost var mem1 := w.mem;
    w.Put(z, Zval(c'));
    HoldsElsewhere(mem1, w.mem, 0, c', v, lay', z + 1, w.at);
  }

  // One round of the loop of restore_hash: the bucket of h and key, whose data is at c.
  method RestoreBucket(w: Writer, image: Memory, size: nat, h: nat, key: string, c: Content, slots: int, prev: int,
                       ghost t: Table, ghost lay: Lay, ghost bs: seq<int>, ghost zs: seq<int>, ghost ends: seq<int>, ghost subs: seq<Lay>)
    returns (b: int, ghost z': int, ghost sub: Lay)
    requires w.Ready() && |bs| < |t.items| && size == t.size && h == t.items[|bs|].h && key == t.items[|bs|].key
    requires Partial(w.mem, t, bs, zs, ends, subs, slots, w.at) && prev == Last(bs)
    requires Holds(image, 0, c, t.items[|bs|].v, lay)
    modifies w
    ensures w.Ready() && old(w.at) < w.at && b > 0 && SameBelow(old(w.mem), w.mem, slots)
    ensures Partial(w.mem, t, bs + [b], zs + [z'], ends + [w.at], subs + [sub], slots, w.at)
    decreases t.items[|bs|], 3
  {
    ghost var at0 := w.at;
    b := w.ChainBucket(t, size, h, key, slots, bs, zs, ends, subs, |bs|);
    ghost var mem1 := w.mem;
    var z;
    z, sub := RestoreZvalPtr(w, image, c, t.items[|bs|].v, lay);
    z' := z;
    ghost var mem2 := w.mem;
    StoredData(mem1, mem2, t, bs, zs, ends, subs, slots, at0, b);
    LastChained(mem2, t, bs, zs, b);
    w.LinkList(b, z, prev);
    FinishBucket(mem2, w.mem, t, bs, zs, ends, subs, slots, at0, b, z, w.at, sub);
  }

  // The loop of restore_hash, along the list of the image.
  method RestoreBuckets(w: Writer, image: Memory, size: nat, first: int, slots: int, ghost t: Table, ghost lay: Lay)
    returns
    (head: int, tail: int, ghost bs: seq<int>, ghost zs: seq<int>, ghost ends: seq<int>, ghost subs: seq<Lay>)
    requires w.Ready() && t.items != [] && lay.LArr? && TableHeld(image, 0, t, lay) && size == t.size
    requires first == lay.bs[0]
    requires Partial(w.mem, t, [], [], [], [], slots, w.at)
    modifies w
    ensures w.Ready() && old(w.at) <= w.at && SameBelow(old(w.mem), w.mem, slots)
    ensures Partial(w.mem, t, bs, zs, ends, subs, slots, w.at) && |bs| == |t.items| && head == bs[0] && tail == Last(bs)
    decreases t, 0
  {
    var p := first;
    head, tail := 0, 0;
    bs, zs, ends, subs := [], [], [], [];
    while p != 0
      invariant w.Ready() && old(w.at) <= w.at && SameBelow(old(w.mem), w.mem, slots) && |bs| <= |t.items|
      invariant Partial(w.mem, t, bs, zs, ends, subs, slots, w.at)
      invariant p == PtrAt(lay.bs, if |bs| < |t.items| then Some(|bs|) else None, 0)
      invariant tail == Last(bs) && (bs != [] ==> tail > 0) && head == if bs == [] then 0 else bs[0]
      decreases |t.items| - |bs|
    {
      ghost var i := |bs|;
      EntryAt(image, t, lay, i);
      ghost var z, sub;
      var b;
      b, z, sub := RestoreBucket(w, image, size, image[p].h, image[p].key, image[image[p].dataPtr].c, slots, tail, t,
                                 lay.subs[i], bs, zs, ends, subs);
      if tail == 0 { head := b; }
      bs, zs, ends, subs := bs + [b], zs + [z], ends + [w.at], subs + [sub];
      tail := b;
      p := image[p].listNext;
    }
    if |bs| < |t.items| { EntryAt(image, t, lay, |bs|); }
  }

  // What the loop finds in the image at entry i.
  lemma EntryAt(image: Memory, t: Table, lay: Lay, i: nat)
    requires i < |t.items| && lay.LArr? && TableHeld(image, 0, t, lay)
    ensures lay.bs[i] in image && lay.bs[i] > 0 && image[lay.bs[i]].Bucket?
    ensures image[lay.bs[i]].h == t.items[i].h && image[lay.bs[i]].key == t.items[i].key
    ensures image[lay.bs[i]].dataPtr == lay.zs[i]
    ensures image[lay.bs[i]].listNext == if i + 1 < |t.items| then lay.bs[i + 1] else 0
    ensures lay.zs[i] in image && image[lay.zs[i]].Zval?
    ensures Holds(image, 0, image[lay.zs[i]].c, t.items[i].v, lay.subs[i])
  {
    assert BucketHeld(image, 0, t, lay.bs, lay.zs, |lay.bs|, i);
    DataEach(image, 0, t.items, lay.zs, lay.subs, i);
  }

  lemma HeadMeans(image: Memory, t: Table, lay: Lay)
    requires lay.LArr? && TableHeld(image, 0, t, lay)
    ensures image[lay.tab].head != 0 <==> t.items != []
  {
    if t.items != [] { EntryAt(image, t, lay, 0); }
  }

  // restore_hash
  method RestoreTable(w: Writer, image: Memory, from: int, ghost t: Table, ghost lay: Lay)
    returns (tab: int, ghost lay': Lay)
    requires w.Ready() && lay.LArr? && from == lay.tab && TableHeld(image, 0, t, lay)
    modifies w
    ensures w.Ready() && Extends(old(w.mem), w.mem) && old(w.at) <= w.at
    ensures lay'.LArr? && lay'.tab == tab && TableHeld(w.mem, 0, t, lay') && Fits(lay', old(w.at), w.at)
    decreases t, 1
  {
    var count, size := image[from].count, image[from].size;
    tab := w.Allocate(SIZEOF_HASH, Hash(count, size, 0, 0, 0));
    lay' := LArr(tab, tab, [], [], [], []);
    var slots := 0;
    if size > 0 { slots := w.Allocate(size * SIZEOF_PTR, Slots(seq(size, _ => 0))); }
    HeadMeans(image, t, lay);
    if image[from].head != 0 {
      ghost var bs, zs, ends, subs;
      var head, tail;
      head, tail, bs, zs, ends, subs := RestoreBuckets(w, image, size, image[from].head, slots, t, lay);
      ghost var mem1 := w.mem;
      w.Put(tab, Hash(count, size, slots, head, tail));
      lay' := LArr(tab, slots, bs, zs, ends, subs);
      FinishTable(mem1, w.mem, t, bs, zs, ends, subs, slots, w.at, tab);
    }
  }
}
