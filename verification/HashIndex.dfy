// A table in memory as an index: its chains reach exactly the entries of their slot, and finding a key along a chain
// agrees with going through the whole list.
module HashIndex {
  import opened Options
  import opened Image
  import opened ImageStore
  import opened ImageRestore

  predicate Named(t: Table, i: nat, h: nat, key: string)
    requires i < |t.items|
  {
    t.items[i].h == h && t.items[i].key == key
  }

  // The entry that going backwards from n finds, ...
  function LastNamed(t: Table, n: nat, h: nat, key: string): (r: Option<nat>)
    requires n <= |t.items|
    ensures r.Some? ==> r.value < n && Named(t, r.value, h, key)
    ensures forall i :: (if r.Some? then r.value + 1 else 0) <= i < n ==> !Named(t, i, h, key)
  {
    if n == 0 then None else if Named(t, n - 1, h, key) then Some(n - 1) else LastNamed(t, n - 1, h, key)
  }

  // ... and the one that going forwards from i finds.
  function FirstNamed(t: Table, i: nat, h: nat, key: string): (r: Option<nat>)
    requires i <= |t.items|
    ensures r.Some? ==> i <= r.value < |t.items| && Named(t, r.value, h, key)
    ensures forall j :: i <= j < (if r.Some? then r.value else |t.items|) ==> !Named(t, j, h, key)
    decreases |t.items| - i
  {
    if i == |t.items| then None else if Named(t, i, h, key) then Some(i) else FirstNamed(t, i + 1, h, key)
  }

  predicate UniqueKeys(t: Table) {
    forall i, j :: 0 <= i < j < |t.items| ==> !Named(t, i, t.items[j].h, t.items[j].key)
  }

  lemma SearchesMeet(t: Table, h: nat, key: string)
    requires UniqueKeys(t)
    ensures LastNamed(t, |t.items|, h, key) == FirstNamed(t, 0, h, key)
  {
  }

  // Both agree for every key exactly when no key occurs twice.
  lemma SearchesAgree(t: Table)
    ensures UniqueKeys(t) <==> forall h, key :: LastNamed(t, |t.items|, h, key) == FirstNamed(t, 0, h, key)
  {
    if UniqueKeys(t) {
      forall h, key ensures LastNamed(t, |t.items|, h, key) == FirstNamed(t, 0, h, key) {
        SearchesMeet(t, h, key);
      }
    }
    if i: nat, j: nat :| i < j < |t.items| && Named(t, i, t.items[j].h, t.items[j].key) {
      var h, key := t.items[j].h, t.items[j].key;
      assert Named(t, j, h, key);
      assert LastNamed(t, |t.items|, h, key) != FirstNamed(t, 0, h, key);
    }
  }

  lemma NullMeans(mem: Memory, t: Table, lay: Lay, o: Option<nat>)
    requires lay.LArr? && TableHeld(mem, 0, t, lay) && (o.Some? ==> o.value < |t.items|)
    ensures PtrAt(lay.bs, o, 0) == 0 <==> o == None
  {
    if o.Some? { assert BucketHeld(mem, 0, t, lay.bs, lay.zs, |lay.bs|, o.value); }
  }

  // Finding a key along the chain of its slot.
  method ChainFind(mem: Memory, tab: int, h: nat, key: string, ghost t: Table, ghost lay: Lay) returns (p: int)
    requires lay.LArr? && tab == lay.tab && TableHeld(mem, 0, t, lay) && t.items != []
    ensures p == PtrAt(lay.bs, LastNamed(t, |t.items|, h, key), 0)
  {
    ghost var n, k := |t.items|, h % t.size;
    p := mem[mem[tab].slots].ps[h % mem[tab].size];
    NullMeans(mem, t, lay, Newest(t, n, k));
    while p != 0
      invariant 0 <= n <= |t.items| && p == PtrAt(lay.bs, Newest(t, n, k), 0) && (p == 0 <==> Newest(t, n, k) == None)
      invariant LastNamed(t, |t.items|, h, key) == LastNamed(t, n, h, key)
      decreases n
    {
      ghost var m := Newest(t, n, k).value;
      NewestIs(t, n, k);
      assert BucketHeld(mem, 0, t, lay.bs, lay.zs, |lay.bs|, m);
      SkipOthers(t, m + 1, n, h, key);
      if mem[p].h == h && mem[p].key == key { return; }
      p := mem[p].next;
      n := m;
      NullMeans(mem, t, lay, Newest(t, n, k));
    }
    SkipOthers(t, 0, n, h, key);
  }

  // Entries from m on that are in other slots do not have the key.
  lemma {:induction false} SkipOthers(t: Table, m: nat, n: nat, h: nat, key: string)
    requires m <= n <= |t.items| && t.size > 0
    requires Newest(t, n, h % t.size) == if m == 0 then None else Some(m - 1)
    ensures LastNamed(t, n, h, key) == LastNamed(t, m, h, key)
    decreases n
  {
    if m < n { SkipOthers(t, m, n - 1, h, key); }
  }

  // Finding a key along the list.
  method ListFind(mem: Memory, tab: int, h: nat, key: string, ghost t: Table, ghost lay: Lay) returns (p: int)
    requires lay.LArr? && tab == lay.tab && TableHeld(mem, 0, t, lay) && t.items != []
    ensures p == PtrAt(lay.bs, FirstNamed(t, 0, h, key), 0)
  {
    ghost var i := 0;
    p := mem[tab].head;
    EntryAt(mem, t, lay, 0);
    while p != 0
      invariant i <= |t.items| && p == (if i < |t.items| then lay.bs[i] else 0) && (p == 0 <==> i == |t.items|)
      invariant FirstNamed(t, 0, h, key) == FirstNamed(t, i, h, key)
      decreases |t.items| - i
    {
      EntryAt(mem, t, lay, i);
      if mem[p].h == h && mem[p].key == key { return; }
      p := mem[p].listNext;
      i := i + 1;
      if i < |t.items| { EntryAt(mem, t, lay, i); }
    }
  }

  // ----- a copy without some buckets -----

  // Where entry j of the copy comes from.
  lemma {:induction false} KeptFrom(items: seq<Item>, check: Option<seq<bool>>, n: nat, j: nat) returns (i: nat)
    requires n <= |items| && Checks(check, |items|) && j < |KeptOf(items, check, n)|
    ensures i < n && !Removed(check, i) && KeptOf(items, check, n)[j] == items[i]
    ensures j == |KeptOf(items, check, i)|
    decreases n
  {
    if j < |KeptOf(items, check, n - 1)| { i := KeptFrom(items, check, n - 1, j); } else { i := n - 1; }
  }

  // A key is found in the copy exactly when some bucket with it was not taken out.
  lemma CopyFinds(t: Table, check: Option<seq<bool>>, h: nat, key: string)
    requires Checks(check, |t.items|)
    ensures LastNamed(Kept(t, check), |Kept(t, check).items|, h, key).Some?
            <==> exists i: nat {:trigger Named(t, i, h, key)} ::
                   i < |t.items| && (check.Some? ==> !check.value[i]) && Named(t, i, h, key)
  {
    var copy := Kept(t, check);
    var found := LastNamed(copy, |copy.items|, h, key);
    if found.Some? {
      var i := KeptFrom(t.items, check, |t.items|, found.value);
      assert Named(t, i, h, key);
    }
    if i: nat :| i < |t.items| && (check.Some? ==> !check.value[i]) && Named(t, i, h, key) {
      KeptNext(t, check, i);
      assert Named(copy, |KeptOf(t.items, check, i)|, h, key);
    }
  }

  // Taking buckets out brings no key back twice.
  lemma CopyUnique(t: Table, check: Option<seq<bool>>)
    requires Checks(check, |t.items|) && UniqueKeys(t)
    ensures UniqueKeys(Kept(t, check))
  {
    var copy := Kept(t, check);
    forall a: nat, b: nat | a < b < |copy.items| ensures !Named(copy, a, copy.items[b].h, copy.items[b].key) {
      var i := KeptFrom(t.items, check, |t.items|, a);
      var j := KeptFrom(t.items, check, |t.items|, b);
      if j <= i { KeptGrows(t.items, check, j, i); }
      assert !Named(t, i, t.items[j].h, t.items[j].key);
    }
  }

  // ----- the chains -----

  // Where n steps along pNext lead.
  ghost function Follow(mem: Memory, p: int, n: nat): int
    decreases n
  {
    if n == 0 then p else if p != 0 && p in mem && mem[p].Bucket? then Follow(mem, mem[p].next, n - 1) else 0
  }

  lemma {:induction false} ReachFrom(mem: Memory, t: Table, bs: seq<int>, zs: seq<int>, slots: int, n: nat, i: nat)
    returns (steps: nat)
    requires LinksHeld(mem, 0, t, bs, zs, slots) && i < n <= |bs|
    ensures Follow(mem, PtrAt(bs, Newest(t, n, SlotOf(t, i)), 0), steps) == bs[i]
    decreases n
  {
    if SlotOf(t, n - 1) != SlotOf(t, i) {
      steps := ReachFrom(mem, t, bs, zs, slots, n - 1, i);
    } else if i == n - 1 {
      steps := 0;
    } else {
      assert BucketHeld(mem, 0, t, bs, zs, |bs|, n - 1);
      var rest := ReachFrom(mem, t, bs, zs, slots, n - 1, i);
      steps := rest + 1;
    }
  }

  lemma {:induction false} StayInSlot(mem: Memory, t: Table, bs: seq<int>, zs: seq<int>, slots: int, n: nat, k: nat,
                                      steps: nat)
    requires LinksHeld(mem, 0, t, bs, zs, slots) && n <= |bs|
    ensures var p := Follow(mem, PtrAt(bs, Newest(t, n, k), 0), steps);
            p == 0 || exists i: nat :: i < |bs| && p == bs[i] && SlotOf(t, i) == k
    decreases steps
  {
    var m := Newest(t, n, k);
    NewestIs(t, n, k);
    if m.Some? {
      assert BucketHeld(mem, 0, t, bs, zs, |bs|, m.value);
      if steps > 0 { StayInSlot(mem, t, bs, zs, slots, m.value, k, steps - 1); }
    } else if steps > 0 {
      assert Follow(mem, 0, steps) == 0;
    }
  }

  // Every entry is reached from the slot of its hash, ...
  lemma EveryEntryReached(mem: Memory, t: Table, lay: Lay, i: nat) returns (steps: nat)
    requires lay.LArr? && TableHeld(mem, 0, t, lay) && i < |t.items|
    ensures Follow(mem, mem[lay.slots].ps[SlotOf(t, i)], steps) == lay.bs[i]
  {
    steps := ReachFrom(mem, t, lay.bs, lay.zs, lay.slots, |lay.bs|, i);
  }

  // ... and a chain has no entries of other slots.
  lemma NoStrangers(mem: Memory, t: Table, lay: Lay, k: nat, steps: nat)
    requires lay.LArr? && TableHeld(mem, 0, t, lay) && t.items != [] && k < t.size
    ensures var p := Follow(mem, mem[lay.slots].ps[k], steps);
            p == 0 || exists i: nat :: i < |t.items| && p == lay.bs[i] && SlotOf(t, i) == k
  {
    StayInSlot(mem, t, lay.bs, lay.zs, lay.slots, |lay.bs|, k, steps);
  }

  // The two links of a chain belong together.
  lemma Partners(t: Table, i: nat, j: nat, n: nat)
    requires i < n <= |t.items| && j < n && t.size > 0 && SlotOf(t, i) == SlotOf(t, j)
    ensures Newest(t, i, SlotOf(t, i)) == Some(j) <==> Oldest(t, j + 1, n, SlotOf(t, j)) == Some(i)
  {
    NewestIs(t, i, SlotOf(t, i));
    OldestIs(t, j + 1, n, SlotOf(t, j));
  }

  // A bucket's neighbour in its chain has it as the neighbour on the other side, and the first one is in the slot.
  lemma ChainsDoubly(mem: Memory, t: Table, lay: Lay, lo: int, hi: int, i: nat)
    requires lay.LArr? && TableHeld(mem, 0, t, lay) && Fits(lay, lo, hi) && i < |t.items|
    ensures var b := lay.bs[i]; b in mem && mem[b].Bucket?
    ensures var b := lay.bs[i]; mem[b].next != 0 ==> mem[b].next in mem && mem[mem[b].next].Bucket? && mem[mem[b].next].last == b
    ensures var b := lay.bs[i]; mem[b].last != 0 ==> mem[b].last in mem && mem[mem[b].last].Bucket? && mem[mem[b].last].next == b
    ensures var b := lay.bs[i]; mem[b].last == 0 <==> mem[lay.slots].ps[SlotOf(t, i)] == b
  {
    var n, k := |t.items|, SlotOf(t, i);
    assert BucketHeld(mem, 0, t, lay.bs, lay.zs, |lay.bs|, i);
    var older, newer := Newest(t, i, k), Oldest(t, i + 1, n, k);
    NewestIs(t, i, k);
    OldestIs(t, i + 1, n, k);
    if older.Some? {
      assert BucketHeld(mem, 0, t, lay.bs, lay.zs, |lay.bs|, older.value);
      Partners(t, i, older.value, n);
    }
    if newer.Some? {
      assert BucketHeld(mem, 0, t, lay.bs, lay.zs, |lay.bs|, newer.value);
      Partners(t, newer.value, i, n);
    }
    NewestHasNoNext(t, i, n, k);
    SlotFront(mem, t, lay, lo, hi, i);
  }

  // ... as buckets are at different places.
  lemma SlotFront(mem: Memory, t: Table, lay: Lay, lo: int, hi: int, i: nat)
    requires lay.LArr? && TableHeld(mem, 0, t, lay) && Fits(lay, lo, hi) && i < |t.items|
    ensures mem[lay.slots].ps[SlotOf(t, i)] == lay.bs[i] <==> Newest(t, |t.items|, SlotOf(t, i)) == Some(i)
  {
    PlacedFacts(lay.bs, lay.zs, lay.ends, lay.subs, lay.slots, hi);
    NullMeans(mem, t, lay, Some(i));
  }
}
