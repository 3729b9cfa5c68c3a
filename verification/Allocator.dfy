// mm_init, mm_malloc_nolock, mm_free_nolock and mm_maxsize on a memory of words.
module Allocator {
  import opened Arena
  import opened FreeList

  const SIZEOF_MM := 48   // struct mm_core
  const SIZEOF_LOCK := 4  // mm_mutex of the spinlock

  // ----- the search -----

  function Prev(fl: seq<Tile>, k: nat): nat {
    if 0 < k < |fl| then fl[k - 1].addr else 0
  }

  // No smaller bucket is large enough, and no earlier one is as small.
  predicate Chosen(fl: seq<Tile>, r: nat, k: nat)
    requires k < |fl|
  {
    && fl[k].size >= r
    && forall j :: 0 <= j < |fl| && fl[j].size >= r ==> fl[k].size < fl[j].size || (fl[k].size == fl[j].size && k <= j)
  }

  // After n buckets: none fits exactly, and (k, p, prev) is the best larger one.
  predicate SoFar(fl: seq<Tile>, r: nat, n: nat, k: nat, p: nat, prev: nat) {
    && n <= |fl|
    && (forall j :: 0 <= j < n ==> fl[j].size != r)
    && (p == 0 ==> prev == 0 && forall j :: 0 <= j < n ==> fl[j].size < r)
    && (p != 0 ==>
          && k < n && p == fl[k].addr && fl[k].size > r && prev == Prev(fl, k)
          && forall j ::
               0 <= j < n && fl[j].size > r ==> fl[k].size < fl[j].size || (fl[k].size == fl[j].size && k <= j))
  }

  lemma NoneInList(tiles: seq<Tile>, r: nat)
    requires forall j :: 0 <= j < |Frees(tiles)| ==> Frees(tiles)[j].size < r
    ensures NoneFits(tiles, r)
  {
    FreesAreFree(tiles);
  }

  lemma ChosenIsBest(tiles: seq<Tile>, r: nat, k: nat)
    requires Spaced(Frees(tiles)) && k < |Frees(tiles)| && Chosen(Frees(tiles), r, k)
    ensures Best(tiles, r, Frees(tiles)[k]) && !NoneFits(tiles, r)
  {
    FreesAreFree(tiles);
    var fl := Frees(tiles);
    assert fl[k] in fl;
    forall u | u in tiles && Fits(u, r) ensures fl[k].size < u.size || (fl[k].size == u.size && fl[k].addr <= u.addr) {
      assert u in fl;
    }
  }

  // A request above `available` fits nowhere.
  lemma {:induction false} TooBig(tiles: seq<Tile>, r: nat)
    requires r > Sum(Frees(tiles))
    ensures NoneFits(tiles, r)
    decreases |tiles|
  {
    if tiles != [] {
      TooBig(tiles[1..], r);
      assert forall t :: t in tiles ==> t == tiles[0] || t in tiles[1..];
    }
  }

  // ----- what an operation does to memory -----

  // The parts of Valid.
  ghost predicate Laid(mem: seq<nat>, head: nat, tiles: seq<Tile>, lo: nat, hi: nat) {
    && 0 < lo < hi <= |mem| && Wf(tiles, lo, hi) && Linked(mem, head, Frees(tiles)) && Headed(mem, tiles)
  }

  // Memory outside [a, b) is as it was, except perhaps for one word.
  predicate SameBut(mem: seq<nat>, mem': seq<nat>, a: nat, b: nat, x: nat) {
    |mem'| == |mem| && forall i :: 0 <= i < |mem| && !(a <= i < b) && i != x ==> mem'[i] == mem[i]
  }

  // Bucket t after prev, followed by next, gives up its first r bytes.
  predicate Carved(mem: seq<nat>, head: nat, t: Tile, prev: nat, next: nat, r: nat, mem': seq<nat>, head': nat)
    requires r <= t.size
  {
    && SameBut(mem, mem', t.addr, t.addr + t.size, if prev == 0 then t.addr else prev + HEAD)
    && (if t.size - r < BUCKET then t.addr < |mem'| && mem'[t.addr] == t.size
        else t.addr + r + HEAD < |mem'| && mem'[t.addr] == r && mem'[t.addr + r] == t.size - r && mem'[t.addr + r + HEAD] == next)
    && var to := if t.size - r < BUCKET then next else t.addr + r;
       if prev == 0 then head' == to else head' == head && prev + HEAD < |mem'| && mem'[prev + HEAD] == to
  }

  // The blocks handed out, but for the given ones, hold what they held.
  ghost predicate Spared(mem: seq<nat>, mem': seq<nat>, tiles: seq<Tile>, but: set<Tile>) {
    && |mem'| == |mem|
    && forall u: Tile, x: int {:trigger InBlock(u, x), mem'[x]} ::
         u in tiles && u !in but && InBlock(u, x) && 0 <= x < |mem| ==> mem'[x] == mem[x]
  }

  predicate InBlock(u: Tile, x: int) {
    !u.free && u.addr <= x < u.addr + u.size
  }

  // Memory changes only inside tile i, and in the words of another bucket.
  lemma SparedElsewhere(mem: seq<nat>, mem': seq<nat>, tiles: seq<Tile>, i: nat, m: nat, prev: nat)
    requires Spaced(tiles) && i < |tiles| && (prev != 0 ==> m < |tiles| && tiles[m].free && tiles[m].addr == prev)
    requires |mem'| == |mem|
    requires forall x :: 0 <= x < |mem| && !(tiles[i].addr <= x < tiles[i].addr + tiles[i].size) && !(prev != 0 && prev <= x <= prev + HEAD) ==> mem'[x] == mem[x]
    ensures Spared(mem, mem', tiles, {tiles[i]})
  {
    forall u: Tile, x: int {:trigger InBlock(u, x), mem'[x]} | u in tiles && u !in {tiles[i]} && InBlock(u, x)
      && 0 <= x < |mem|
      ensures mem'[x] == mem[x]
    {
      var j :| 0 <= j < |tiles| && tiles[j] == u;
    }
  }

  lemma FreeSpared(mem: seq<nat>, mem': seq<nat>, tiles: seq<Tile>, t: Tile)
    requires Spared(mem, mem', tiles, {t}) && t.free
    ensures Spared(mem, mem', tiles, {})
  {
  }

  // The words of other buckets and tiles survive.
  lemma CarvedKept(mem: seq<nat>, head: nat, fl: seq<Tile>, k: nat, r: nat, mem': seq<nat>, head': nat, j: nat)
    requires Spaced(fl) && k < |fl| && BUCKET <= r <= fl[k].size && j < |fl| && BucketAt(mem, fl, j)
    requires Carved(mem, head, fl[k], Prev(fl, k), Addr(fl, k + 1), r, mem', head')
    ensures (j != k ==> SizeKept(mem', fl, j)) && (j + 1 < k || k < j ==> NextKept(mem', fl, j))
  {
    if j < k { assert fl[j].addr + fl[j].size <= fl[k].addr; }
    if j + 1 < k { assert fl[j].addr + fl[j].size <= fl[k - 1].addr; }
  }

  lemma CarvedList(mem: seq<nat>, head: nat, fl: seq<Tile>, k: nat, r: nat, mem': seq<nat>, head': nat)
    requires Linked(mem, head, fl) && Spaced(fl) && k < |fl| && BUCKET <= r <= fl[k].size
    requires Carved(mem, head, fl[k], Prev(fl, k), Addr(fl, k + 1), r, mem', head')
    ensures Linked(mem', head', fl[..k] + Rest(fl[k], r) + fl[k + 1..])
  {
    forall j: nat {:trigger SizeKept(mem', fl, j)} | j < |fl| && j != k ensures SizeKept(mem', fl, j) {
      assert BucketAt(mem, fl, j);
      CarvedKept(mem, head, fl, k, r, mem', head', j);
    }
    forall j: nat {:trigger NextKept(mem', fl, j)} | j < |fl| && (j + 1 < k || k < j) ensures NextKept(mem', fl, j) {
      assert BucketAt(mem, fl, j);
      CarvedKept(mem, head, fl, k, r, mem', head', j);
    }
    assert BucketAt(mem, fl, k);
    assert k > 0 ==> BucketAt(mem, fl, k - 1);
    Splice(mem, head, fl, k, k + 1, Rest(fl[k], r), mem', head');
  }

  // A word inside one tile is the first word of no other.
  lemma InsideTile(tiles: seq<Tile>, i: nat, x: nat, j: nat)
    requires Spaced(tiles) && i < |tiles| && j < |tiles| && tiles[i].addr < x < tiles[i].addr + tiles[i].size
    ensures tiles[j].addr != x
  {
  }

  lemma CarvedHeads(mem: seq<nat>, head: nat, tiles: seq<Tile>, i: nat, m: nat, prev: nat, next: nat, r: nat,
                    mem': seq<nat>, head': nat)
    requires Headed(mem, tiles) && Spaced(tiles) && i < |tiles| && BUCKET <= r <= tiles[i].size
    requires prev != 0 ==> m < |tiles| && tiles[m].addr == prev
    requires Carved(mem, head, tiles[i], prev, next, r, mem', head')
    ensures Headed(mem', Take(tiles, i, r))
  {
    HeadsKept(mem, tiles, i, m, prev, mem');
    CarvedMid(mem, head, tiles[i], prev, next, r, mem', head');
    TakeIs(tiles, i, r);
    HeadedSplice(mem, tiles, i, i + 1, [Given(tiles[i], r)] + Rest(tiles[i], r), mem');
  }

  lemma TakeIs(tiles: seq<Tile>, i: nat, r: nat)
    requires i < |tiles| && r <= tiles[i].size
    ensures Take(tiles, i, r) == tiles[..i] + ([Given(tiles[i], r)] + Rest(tiles[i], r)) + tiles[i + 1..]
  {
  }

  lemma CarvedMid(mem: seq<nat>, head: nat, t: Tile, prev: nat, next: nat, r: nat, mem': seq<nat>, head': nat)
    requires BUCKET <= r <= t.size && Carved(mem, head, t, prev, next, r, mem', head')
    ensures forall u :: u in [Given(t, r)] + Rest(t, r) ==> u.addr < |mem'| && mem'[u.addr] == u.size
  {
  }

  lemma HeadsKept(mem: seq<nat>, tiles: seq<Tile>, i: nat, m: nat, prev: nat, mem': seq<nat>)
    requires Headed(mem, tiles) && Spaced(tiles) && i < |tiles| && (prev != 0 ==> m < |tiles| && tiles[m].addr == prev)
    requires SameBut(mem, mem', tiles[i].addr, tiles[i].addr + tiles[i].size,
                     if prev == 0 then tiles[i].addr else prev + HEAD)
    ensures forall j :: 0 <= j < |tiles| && j != i ==> mem'[tiles[j].addr] == tiles[j].size
  {
    forall j: nat | j < |tiles| && j != i ensures mem'[tiles[j].addr] == tiles[j].size {
      if prev != 0 { InsideTile(tiles, m, prev + HEAD, j); }
    }
  }

  ghost function PrevTile(tiles: seq<Tile>, k: nat): (m: nat)
    requires 0 < k < |Frees(tiles)|
    ensures m < |tiles| && tiles[m].free && tiles[m].addr == Prev(Frees(tiles), k)
  {
    LocateTile(tiles, k - 1)
  }

  ghost function LocateTile(tiles: seq<Tile>, k: nat): (i: nat)
    requires k < |Frees(tiles)|
    ensures i < |tiles| && tiles[i].free && tiles[i] == Frees(tiles)[k]
  {
    if tiles[0].free && k == 0 then 0 else 1 + LocateTile(tiles[1..], if tiles[0].free then k - 1 else k)
  }

  lemma TakeLaid(mem: seq<nat>, head: nat, tiles: seq<Tile>, lo: nat, hi: nat, i: nat, k: nat, r: nat, mem': seq<nat>,
                 head': nat)
    requires Laid(mem, head, tiles, lo, hi) && i < |tiles| && k < |Frees(tiles)| && tiles[i] == Frees(tiles)[k]
    requires Frees(tiles[..i]) == Frees(tiles)[..k] && Frees(tiles[i + 1..]) == Frees(tiles)[k + 1..]
    requires Fits(tiles[i], r) && r >= BUCKET && r % ALIGN == 0
    requires Carved(mem, head, tiles[i], Prev(Frees(tiles), k), Addr(Frees(tiles), k + 1), r, mem', head')
    ensures Laid(mem', head', Take(tiles, i, r), lo, hi)
    ensures Sum(Frees(Take(tiles, i, r))) == Sum(Frees(tiles)) - Given(tiles[i], r).size
  {
    TiledSpaced(tiles, lo, hi);
    FreesSpaced(tiles);
    TakeKeeps(tiles, lo, hi, i, r);
    FreesTake(tiles, i, r);
    CarvedList(mem, head, Frees(tiles), k, r, mem', head');
    var m := if k > 0 then PrevTile(tiles, k) else 0;
    CarvedHeads(mem, head, tiles, i, m, Prev(Frees(tiles), k), Addr(Frees(tiles), k + 1), r, mem', head');
    TakeSum(Frees(tiles), k, r);
  }

  // What malloc leaves, in addresses and sizes.
  lemma TakenIs(mem: seq<nat>, head: nat, tiles: seq<Tile>, lo: nat, hi: nat, i: nat, k: nat, r: nat, mem': seq<nat>,
                head': nat)
    requires Laid(mem, head, tiles, lo, hi) && i < |tiles| && k < |Frees(tiles)| && tiles[i] == Frees(tiles)[k]
    requires Fits(tiles[i], r) && r >= BUCKET && Headed(mem', Take(tiles, i, r))
    requires Carved(mem, head, tiles[i], Prev(Frees(tiles), k), Addr(Frees(tiles), k + 1), r, mem', head')
    ensures HandsOut(tiles, Take(tiles, i, r), tiles[i], r) && Spared(mem, mem', tiles, {})
    ensures tiles[i].addr < |mem'| && mem'[tiles[i].addr] == if tiles[i].size >= r + BUCKET then r else tiles[i].size
  {
    TakeHandsOut(tiles, lo, hi, i, r);
    TiledSpaced(tiles, lo, hi);
    var m := if k > 0 then PrevTile(tiles, k) else 0;
    SparedElsewhere(mem, mem', tiles, i, m, Prev(Frees(tiles), k));
    FreeSpared(mem, mem', tiles, tiles[i]);
  }

  lemma TakeSum(fl: seq<Tile>, k: nat, r: nat)
    requires k < |fl| && r <= fl[k].size
    ensures Sum(fl[..k] + Rest(fl[k], r) + fl[k + 1..]) == Sum(fl) - Given(fl[k], r).size
  {
    assert fl == fl[..k] + ([fl[k]] + fl[k + 1..]);
    SumAppend(fl[..k], [fl[k]] + fl[k + 1..]);
    SumAppend([fl[k]], fl[k + 1..]);
    SumAppend(fl[..k] + Rest(fl[k], r), fl[k + 1..]);
    SumAppend(fl[..k], Rest(fl[k], r));
    assert Sum([fl[k]]) == fl[k].size && Sum(Rest(fl[k], r)) + Given(fl[k], r).size == fl[k].size;
  }

  // ----- what free does to memory -----

  // The block at b of the given size is linked in after prev and before next, joining the one it touches.
  predicate Joined(mem: seq<nat>, head: nat, b: nat, size: nat, prev: nat, next: nat, left: bool, right: bool,
                   mem': seq<nat>, head': nat) {
    && |mem'| == |mem| && b + HEAD < |mem| && (prev != 0 ==> prev + HEAD < |mem|) && (right ==> next + HEAD < |mem|)
    && (left ==> prev != 0)
    && (forall x :: 0 <= x < |mem| && x != b && x != b + HEAD && !(left && x == prev) && !(prev != 0 && x == prev + HEAD) ==> mem'[x] == mem[x])
    && var grown := size + (if right then mem[next] else 0);
       var after := if right then mem[next + HEAD] else next;
       if left then
         && mem'[prev] == mem[prev] + grown && mem'[prev + HEAD] == (if right then after else mem[prev + HEAD])
         && head' == head
       else
         && mem'[b] == grown && mem'[b + HEAD] == after
         && (if prev == 0 then head' == b else head' == head && mem'[prev + HEAD] == b)
  }

  // With t in its place the free buckets are still apart.
  lemma PlaceSpaced(tiles: seq<Tile>, i: nat)
    requires Spaced(tiles) && i < |tiles|
    ensures Spaced(Frees(tiles[..i]) + [tiles[i].(free := true)] + Frees(tiles[i + 1..]))
  {
    var t := tiles[i].(free := true);
    var u := tiles[i := t];
    assert u == tiles[..i] + ([t] + tiles[i + 1..]);
    FreesAppend(tiles[..i], [t] + tiles[i + 1..]);
    FreesAppend([t], tiles[i + 1..]);
    assert Frees([t]) == [t];
    FreesSpaced(u);
    assert Frees(u) == Frees(tiles[..i]) + [t] + Frees(tiles[i + 1..]);
    forall j | 0 <= j < |u| ensures u[j].addr == tiles[j].addr && u[j].size == tiles[j].size { }
  }

  // The bucket that results.
  function Big(fl: seq<Tile>, k: nat, t: Tile, left: bool, right: bool): Tile
    requires k <= |fl| && (left ==> k > 0) && (right ==> k < |fl|)
  {
    Tile(if left then fl[k - 1].addr else t.addr,
         (if left then fl[k - 1].size else 0) + t.size + (if right then fl[k].size else 0), true)
  }

  // Bucket j is apart from t, and from the bucket before t.
  predicate ApartAt(fl: seq<Tile>, k: nat, t: Tile, j: nat)
    requires j < |fl| && k <= |fl|
  {
    && (if j < k then fl[j].addr + BUCKET <= t.addr else fl[j].addr >= t.addr + BUCKET)
    && (k > 0 && j != k - 1 ==> fl[j].addr + BUCKET <= fl[k - 1].addr || fl[k - 1].addr + BUCKET <= fl[j].addr)
  }

  lemma AroundPlace(fl: seq<Tile>, k: nat, t: Tile, j: nat)
    requires j < |fl| && k <= |fl| && Spaced(fl[..k] + [t] + fl[k..])
    ensures ApartAt(fl, k, t, j)
  {
    var all := fl[..k] + [t] + fl[k..];
    assert all[if j < k then j else j + 1] == fl[j] && all[k] == t;
    assert k > 0 ==> all[k - 1] == fl[k - 1];
  }

  lemma JoinedList(mem: seq<nat>, head: nat, fl: seq<Tile>, k: nat, t: Tile, left: bool, right: bool, mem': seq<nat>,
                   head': nat)
    requires Linked(mem, head, fl) && k <= |fl| && Spaced(fl[..k] + [t] + fl[k..]) && 0 < t.addr
    requires (left ==> k > 0) && (right ==> k < |fl|)
    requires Joined(mem, head, t.addr, t.size, if k == 0 then 0 else fl[k - 1].addr, Addr(fl, k), left, right, mem',
                    head')
    ensures Linked(mem', head',
                   fl[..if left then k - 1 else k] + [Big(fl, k, t, left, right)] + fl[if right then k + 1 else k..])
  {
    if left {
      JoinedLeft(mem, head, fl, k, t, right, mem', head');
    } else {
      JoinedAlone(mem, head, fl, k, t, right, mem', head');
    }
  }

  lemma JoinedLeft(mem: seq<nat>, head: nat, fl: seq<Tile>, k: nat, t: Tile, right: bool, mem': seq<nat>, head': nat)
    requires Linked(mem, head, fl) && 0 < k <= |fl| && Spaced(fl[..k] + [t] + fl[k..]) && 0 < t.addr
    requires (right ==> k < |fl|)
    requires Joined(mem, head, t.addr, t.size, fl[k - 1].addr, Addr(fl, k), true, right, mem', head')
    ensures Linked(mem', head', fl[..k - 1] + [Big(fl, k, t, true, right)] + fl[if right then k + 1 else k..])
  {
    OthersKept(mem, head, fl, k, t, true, right, mem', head');
    assert BucketAt(mem, fl, k - 1);
    assert right ==> BucketAt(mem, fl, k);
    assert k > 1 ==> BucketAt(mem, fl, k - 2) && NextKept(mem', fl, k - 2);
    Splice(mem, head, fl, k - 1, if right then k + 1 else k, [Big(fl, k, t, true, right)], mem', head');
  }

  lemma JoinedAlone(mem: seq<nat>, head: nat, fl: seq<Tile>, k: nat, t: Tile, right: bool, mem': seq<nat>, head': nat)
    requires Linked(mem, head, fl) && k <= |fl| && Spaced(fl[..k] + [t] + fl[k..]) && 0 < t.addr && (right ==> k < |fl|)
    requires Joined(mem, head, t.addr, t.size, if k == 0 then 0 else fl[k - 1].addr, Addr(fl, k), false, right, mem',
                    head')
    ensures Linked(mem', head', fl[..k] + [Big(fl, k, t, false, right)] + fl[if right then k + 1 else k..])
  {
    OthersKept(mem, head, fl, k, t, false, right, mem', head');
    assert k > 0 ==> BucketAt(mem, fl, k - 1);
    JoinedBig(mem, head, fl, k, t, right, mem', head');
    Splice(mem, head, fl, k, if right then k + 1 else k, [Big(fl, k, t, false, right)], mem', head');
  }

  // Only t's words, those of the bucket that grows, and the link before t change.
  lemma OtherKept(mem: seq<nat>, head: nat, fl: seq<Tile>, k: nat, t: Tile, left: bool, right: bool, mem': seq<nat>,
                  head': nat, j: nat)
    requires k <= |fl| && j < |fl| && BucketAt(mem, fl, j) && ApartAt(fl, k, t, j) && (left ==> k > 0)
    requires (right ==> k < |fl|)
    requires Joined(mem, head, t.addr, t.size, if k == 0 then 0 else fl[k - 1].addr, Addr(fl, k), left, right, mem',
                    head')
    ensures !(left && j == k - 1) ==> SizeKept(mem', fl, j)
    ensures j != k - 1 ==> NextKept(mem', fl, j)
  {
  }

  lemma OthersKept(mem: seq<nat>, head: nat, fl: seq<Tile>, k: nat, t: Tile, left: bool, right: bool, mem': seq<nat>,
                   head': nat)
    requires Linked(mem, head, fl) && k <= |fl| && Spaced(fl[..k] + [t] + fl[k..]) && (left ==> k > 0)
    requires (right ==> k < |fl|)
    requires Joined(mem, head, t.addr, t.size, if k == 0 then 0 else fl[k - 1].addr, Addr(fl, k), left, right, mem',
                    head')
    ensures forall j: nat {:trigger SizeKept(mem', fl, j)} ::
              j < |fl| && !(left && j == k - 1) ==> SizeKept(mem', fl, j)
    ensures forall j: nat {:trigger NextKept(mem', fl, j)} :: j < |fl| && j != k - 1 ==> NextKept(mem', fl, j)
  {
    forall j: nat {:trigger SizeKept(mem', fl, j)} | j < |fl| && !(left && j == k - 1) ensures SizeKept(mem', fl, j) {
      assert BucketAt(mem, fl, j);
      AroundPlace(fl, k, t, j);
      OtherKept(mem, head, fl, k, t, left, right, mem', head', j);
    }
    forall j: nat {:trigger NextKept(mem', fl, j)} | j < |fl| && j != k - 1 ensures NextKept(mem', fl, j) {
      assert BucketAt(mem, fl, j);
      AroundPlace(fl, k, t, j);
      OtherKept(mem, head, fl, k, t, left, right, mem', head', j);
    }
  }

  lemma JoinedBig(mem: seq<nat>, head: nat, fl: seq<Tile>, k: nat, t: Tile, right: bool, mem': seq<nat>, head': nat)
    requires Linked(mem, head, fl) && k <= |fl| && 0 < t.addr && (right ==> k < |fl|) && (k > 0 ==> fl[k - 1].addr > 0)
    requires Joined(mem, head, t.addr, t.size, if k == 0 then 0 else fl[k - 1].addr, Addr(fl, k), false, right, mem',
                    head')
    ensures var big := Big(fl, k, t, false, right);
            && big.addr == t.addr && t.addr + HEAD < |mem| && mem'[t.addr] == big.size
            && mem'[t.addr + HEAD] == Addr(fl, if right then k + 1 else k)
            && if k == 0 then head' == t.addr
               else head' == head && fl[k - 1].addr + HEAD < |mem'| && mem'[fl[k - 1].addr + HEAD] == t.addr
  {
    if right { assert BucketAt(mem, fl, k); }
  }

  lemma JoinedHeads(mem: seq<nat>, head: nat, tiles: seq<Tile>, i: nat, m: nat, prev: nat, next: nat, left: bool,
                    right: bool, mem': seq<nat>, head': nat)
    requires Headed(mem, tiles) && Spaced(tiles) && i < |tiles| && (prev != 0 ==> m < |tiles| && tiles[m].addr == prev)
    requires left == FreeAt(tiles, i - 1) && right == FreeAt(tiles, i + 1) && (left ==> prev == tiles[i - 1].addr)
    requires (right ==> next == tiles[i + 1].addr)
    requires Joined(mem, head, tiles[i].addr, tiles[i].size, prev, next, left, right, mem', head')
    requires Sum(tiles[GiveLo(tiles, i)..GiveHi(tiles, i)]) == (if left then tiles[i - 1].size else 0)
             + tiles[i].size + (if right then tiles[i + 1].size else 0)
    ensures Headed(mem', Give(tiles, i))
  {
    var a, b := GiveLo(tiles, i), GiveHi(tiles, i);
    var big := Tile(tiles[a].addr, Sum(tiles[a..b]), true);
    OtherHeads(mem, mem', tiles, i, m, prev, left);
    HeadedSplice(mem, tiles, a, b, [big], mem');
  }

  // The sizes of the tiles that are not joined are as they were.
  lemma OtherHeads(mem: seq<nat>, mem': seq<nat>, tiles: seq<Tile>, i: nat, m: nat, prev: nat, left: bool)
    requires Headed(mem, tiles) && Spaced(tiles) && i < |tiles| && (prev != 0 ==> m < |tiles| && tiles[m].addr == prev)
    requires left == FreeAt(tiles, i - 1) && (left ==> prev == tiles[i - 1].addr) && |mem'| == |mem|
    requires forall x :: 0 <= x < |mem| && x != tiles[i].addr && x != tiles[i].addr + HEAD ==>
               (left && x == prev) || (prev != 0 && x == prev + HEAD) || mem'[x] == mem[x]
    ensures forall j: nat :: j < |tiles| && (j < GiveLo(tiles, i) || GiveHi(tiles, i) <= j) ==>
              tiles[j].addr < |mem'| && mem'[tiles[j].addr] == tiles[j].size
  {
    forall j: nat | j < |tiles| && (j < GiveLo(tiles, i) || GiveHi(tiles, i) <= j)
      ensures tiles[j].addr < |mem'| && mem'[tiles[j].addr] == tiles[j].size
    {
      if prev != 0 { InsideTile(tiles, m, prev + HEAD, j); }
      InsideTile(tiles, i, tiles[i].addr + HEAD, j);
    }
  }

  lemma GiveSizes(tiles: seq<Tile>, i: nat)
    requires i < |tiles| && !tiles[i].free
    ensures Sum(tiles[GiveLo(tiles, i)..GiveHi(tiles, i)]) ==
            (if FreeAt(tiles, i - 1) then tiles[i - 1].size else 0) + tiles[i].size
              + (if FreeAt(tiles, i + 1) then tiles[i + 1].size else 0)
  {
    FreesGive(tiles, i);
    var a, b := GiveLo(tiles, i), GiveHi(tiles, i);
    assert tiles[a..i] == if a < i then [tiles[i - 1]] else [];
    assert tiles[i + 1..b] == if i + 1 < b then [tiles[i + 1]] else [];
  }

  lemma SumJoin(l: seq<Tile>, m: seq<Tile>, n: seq<Tile>, r: seq<Tile>, big: Tile, size: nat)
    requires big.size == Sum(m) + size + Sum(n)
    ensures Sum(l + [big] + r) == Sum((l + m) + (n + r)) + size
  {
    SumAppend(l + m, n + r); SumAppend(l, m); SumAppend(n, r);
    SumAppend(l + [big], r); SumAppend(l, [big]);
    assert Sum([big]) == big.size;
  }

  lemma FreesAround(tiles: seq<Tile>, i: nat)
    requires i < |tiles| && !tiles[i].free
    ensures Frees(tiles) == Frees(tiles[..i]) + Frees(tiles[i + 1..])
  {
    assert tiles == tiles[..i] + ([tiles[i]] + tiles[i + 1..]);
    FreesAppend(tiles[..i], [tiles[i]] + tiles[i + 1..]);
    FreesAppend([tiles[i]], tiles[i + 1..]);
    assert Frees([tiles[i]]) == [];
  }

  lemma GiveSum(tiles: seq<Tile>, i: nat)
    requires i < |tiles| && !tiles[i].free
    ensures Sum(Frees(Give(tiles, i))) == Sum(Frees(tiles)) + tiles[i].size
  {
    FreesGive(tiles, i);
    FreesAround(tiles, i);
    var a, b := GiveLo(tiles, i), GiveHi(tiles, i);
    SumJoin(Frees(tiles[..a]), tiles[a..i], tiles[i + 1..b], Frees(tiles[b..]),
            Tile(tiles[a].addr, Sum(tiles[a..b]), true), tiles[i].size);
  }

  lemma GiveLaid(mem: seq<nat>, head: nat, tiles: seq<Tile>, lo: nat, hi: nat, i: nat, prev: nat, next: nat,
                 mem': seq<nat>, head': nat)
    requires Laid(mem, head, tiles, lo, hi) && i < |tiles| && !tiles[i].free
    requires var fl, k := Frees(tiles), |Frees(tiles[..i])|;
             && k <= |fl| && prev == (if k == 0 then 0 else fl[k - 1].addr) && next == Addr(fl, k)
    requires Joined(mem, head, tiles[i].addr, tiles[i].size, prev, next, FreeAt(tiles, i - 1), FreeAt(tiles, i + 1),
                    mem', head')
    ensures Laid(mem', head', Give(tiles, i), lo, hi)
    ensures Sum(Frees(Give(tiles, i))) == Sum(Frees(tiles)) + tiles[i].size
  {
    GiveKeeps(tiles, lo, hi, i);
    GiveSum(tiles, i);
    GiveSizes(tiles, i);
    TiledSpaced(tiles, lo, hi);
    GiveList(mem, head, tiles, lo, hi, i, mem', head');
    FreePlace(tiles, lo, hi, i);
    var k := |Frees(tiles[..i])|;
    var m := if k > 0 then LocateTile(tiles, k - 1) else 0;
    assert prev != 0 ==> k > 0;
    JoinedHeads(mem, head, tiles, i, m, prev, next, FreeAt(tiles, i - 1), FreeAt(tiles, i + 1), mem', head');
  }

  lemma JoinedElsewhere(mem: seq<nat>, head: nat, b: nat, size: nat, prev: nat, next: nat, left: bool, right: bool,
                        mem': seq<nat>, head': nat)
    requires Joined(mem, head, b, size, prev, next, left, right, mem', head') && HEAD < size
    ensures |mem'| == |mem|
    ensures forall x ::
              0 <= x < |mem| && !(b <= x < b + size) && !(prev != 0 && prev <= x <= prev + HEAD) ==> mem'[x] == mem[x]
  {
  }

  // Where the bucket before is.
  lemma BucketBefore(tiles: seq<Tile>, k: nat, prev: nat) returns (m: nat)
    requires k <= |Frees(tiles)| && prev == (if k == 0 then 0 else Frees(tiles)[k - 1].addr)
    ensures prev != 0 ==> m < |tiles| && tiles[m].free && tiles[m].addr == prev
  {
    m := if k > 0 then LocateTile(tiles, k - 1) else 0;
  }

  lemma GivenSpares(mem: seq<nat>, head: nat, tiles: seq<Tile>, i: nat, m: nat, prev: nat, next: nat, left: bool,
                    right: bool, mem': seq<nat>, head': nat)
    requires Spaced(tiles) && i < |tiles| && HEAD < tiles[i].size
    requires prev != 0 ==> m < |tiles| && tiles[m].free && tiles[m].addr == prev
    requires Joined(mem, head, tiles[i].addr, tiles[i].size, prev, next, left, right, mem', head')
    ensures Spared(mem, mem', tiles, {tiles[i]})
  {
    JoinedElsewhere(mem, head, tiles[i].addr, tiles[i].size, prev, next, left, right, mem', head');
    SparedElsewhere(mem, mem', tiles, i, m, prev);
  }

  // What free leaves, in addresses and sizes.
  lemma GivenIs(mem: seq<nat>, head: nat, tiles: seq<Tile>, lo: nat, hi: nat, i: nat, prev: nat, next: nat,
                mem': seq<nat>, head': nat)
    requires Laid(mem, head, tiles, lo, hi) && i < |tiles| && !tiles[i].free
    requires var fl, k := Frees(tiles), |Frees(tiles[..i])|;
             && k <= |fl| && prev == (if k == 0 then 0 else fl[k - 1].addr) && next == Addr(fl, k)
    requires Joined(mem, head, tiles[i].addr, tiles[i].size, prev, next, FreeAt(tiles, i - 1), FreeAt(tiles, i + 1),
                    mem', head')
    ensures TakesBack(tiles, Give(tiles, i), tiles[i], Grown(tiles, i)) && Spared(mem, mem', tiles, {tiles[i]})
  {
    var m := BucketBefore(tiles, |Frees(tiles[..i])|, prev);
    GiveTakesBack(tiles, lo, hi, i);
    TiledSpaced(tiles, lo, hi);
    GivenSpares(mem, head, tiles, i, m, prev, next, FreeAt(tiles, i - 1), FreeAt(tiles, i + 1), mem', head');
  }

  // The arena and its memory after block i is given back.
  ghost predicate GivenBack(mem: seq<nat>, tiles: seq<Tile>, avail: nat, i: nat, mem': seq<nat>, tiles': seq<Tile>,
                            avail': nat)
    requires i < |tiles|
  {
    && tiles' == After(tiles, Free(tiles[i].addr)) && avail' == avail + tiles[i].size
    && (exists big :: TakesBack(tiles, tiles', tiles[i], big)) && Spared(mem, mem', tiles, {tiles[i]})
  }

  lemma GivenAll(mem: seq<nat>, head: nat, tiles: seq<Tile>, lo: nat, hi: nat, i: nat, prev: nat, next: nat,
                 mem': seq<nat>, head': nat)
    requires Laid(mem, head, tiles, lo, hi) && i < |tiles| && !tiles[i].free
    requires var fl, k := Frees(tiles), |Frees(tiles[..i])|;
             && k <= |fl| && prev == (if k == 0 then 0 else fl[k - 1].addr) && next == Addr(fl, k)
    requires Joined(mem, head, tiles[i].addr, tiles[i].size, prev, next, FreeAt(tiles, i - 1), FreeAt(tiles, i + 1),
                    mem', head')
    ensures var tiles' := Give(tiles, i);
            && Laid(mem', head', tiles', lo, hi)
            && GivenBack(mem, tiles, Sum(Frees(tiles)), i, mem', tiles', Sum(Frees(tiles')))
  {
    GiveLaid(mem, head, tiles, lo, hi, i, prev, next, mem', head');
    GivenIs(mem, head, tiles, lo, hi, i, prev, next, mem', head');
    FreeIsAfter(tiles, lo, hi, i);
  }

  lemma GiveList(mem: seq<nat>, head: nat, tiles: seq<Tile>, lo: nat, hi: nat, i: nat, mem': seq<nat>, head': nat)
    requires Wf(tiles, lo, hi) && 0 < lo && Linked(mem, head, Frees(tiles)) && i < |tiles| && !tiles[i].free
    requires var fl, k := Frees(tiles), |Frees(tiles[..i])|;
             && k <= |fl|
             && Joined(mem, head, tiles[i].addr, tiles[i].size, if k == 0 then 0 else fl[k - 1].addr, Addr(fl, k),
                                    FreeAt(tiles, i - 1), FreeAt(tiles, i + 1), mem', head')
    ensures Linked(mem', head', Frees(Give(tiles, i)))
  {
    var fl, k, t := Frees(tiles), |Frees(tiles[..i])|, tiles[i].(free := true);
    var left, right := FreeAt(tiles, i - 1), FreeAt(tiles, i + 1);
    FreesSplit(tiles, i);
    TiledSpaced(tiles, lo, hi);
    PlaceSpaced(tiles, i);
    GiveFrees(tiles, lo, hi, i);
    assert Big(fl, k, t, left, right) == Big(fl, k, tiles[i], left, right);
    JoinedList(mem, head, fl, k, t, left, right, mem', head');
  }

  lemma FreesSplit(tiles: seq<Tile>, i: nat)
    requires i < |tiles| && !tiles[i].free
    ensures var fl, k := Frees(tiles), |Frees(tiles[..i])|;
            k <= |fl| && fl[..k] == Frees(tiles[..i]) && fl[k..] == Frees(tiles[i + 1..])
  {
    FreesAround(tiles, i);
  }

  lemma SliceAround(fl: seq<Tile>, l: seq<Tile>, m: seq<Tile>, n: seq<Tile>, r: seq<Tile>)
    requires fl == (l + m) + (n + r)
    ensures fl[..|l|] == l && fl[|l| + |m| + |n|..] == r
  {
  }

  lemma GiveEnds(tiles: seq<Tile>, i: nat)
    requires i < |tiles| && !tiles[i].free
    ensures var fl, k, left, right := Frees(tiles), |Frees(tiles[..i])|, FreeAt(tiles, i - 1), FreeAt(tiles, i + 1);
            && k <= |fl| && (left ==> k > 0) && (right ==> k < |fl|)
            && fl[..if left then k - 1 else k] == Frees(tiles[..GiveLo(tiles, i)])
            && fl[if right then k + 1 else k..] == Frees(tiles[GiveHi(tiles, i)..])
  {
    var fl, k, left, right := Frees(tiles), |Frees(tiles[..i])|, FreeAt(tiles, i - 1), FreeAt(tiles, i + 1);
    var a, b := GiveLo(tiles, i), GiveHi(tiles, i);
    FreesAround(tiles, i);
    FreesGive(tiles, i);
    SliceAround(fl, Frees(tiles[..a]), tiles[a..i], tiles[i + 1..b], Frees(tiles[b..]));
    SliceIs(fl, k, Frees(tiles[..a]), Frees(tiles[b..]), |tiles[a..i]|, |tiles[i + 1..b]|, left, right);
  }

  lemma GiveBig(tiles: seq<Tile>, lo: nat, hi: nat, i: nat, k: nat)
    requires Wf(tiles, lo, hi) && i < |tiles| && !tiles[i].free && k == |Frees(tiles[..i])| <= |Frees(tiles)|
    requires (FreeAt(tiles, i - 1) ==> k > 0) && (FreeAt(tiles, i + 1) ==> k < |Frees(tiles)|)
    ensures var a, b := GiveLo(tiles, i), GiveHi(tiles, i);
            Tile(tiles[a].addr, Sum(tiles[a..b]), true) ==
              Big(Frees(tiles), k, tiles[i], FreeAt(tiles, i - 1), FreeAt(tiles, i + 1))
  {
    FreePlace(tiles, lo, hi, i);
    GiveSizes(tiles, i);
  }

  // The free list after a block is given back.
  lemma GiveFrees(tiles: seq<Tile>, lo: nat, hi: nat, i: nat)
    requires Wf(tiles, lo, hi) && i < |tiles| && !tiles[i].free
    ensures var fl, k, left, right := Frees(tiles), |Frees(tiles[..i])|, FreeAt(tiles, i - 1), FreeAt(tiles, i + 1);
            && k <= |fl| && (left ==> k > 0) && (right ==> k < |fl|)
            && Frees(Give(tiles, i)) == fl[..if left then k - 1 else k] + [Big(fl, k, tiles[i], left, right)]
               + fl[if right then k + 1 else k..]
  {
    GiveEnds(tiles, i);
    GiveBig(tiles, lo, hi, i, |Frees(tiles[..i])|);
    FreesGive(tiles, i);
  }

  lemma SliceIs(fl: seq<Tile>, k: nat, l: seq<Tile>, r: seq<Tile>, m: nat, n: nat, left: bool, right: bool)
    requires |l| + m == k && k + n <= |fl| && fl[..|l|] == l && fl[|l| + m + n..] == r
    requires m == (if left then 1 else 0) && n == (if right then 1 else 0)
    ensures fl[..if left then k - 1 else k] == l && fl[if right then k + 1 else k..] == r
  {
  }

  class Heap {
    const mem: array<nat>  // mem[a] is the word at address a
    const base: nat        // the mm_core
    const start: nat
    const end: nat         // base + size
    var freeList: nat
    var available: nat
    ghost var tiles: seq<Tile>

    ghost predicate Valid()
      reads this, mem
    {
      && 0 < start < end <= mem.Length && Wf(tiles, start, end)
      && Linked(mem[..], freeList, Frees(tiles)) && Headed(mem[..], tiles)
      && available == Sum(Frees(tiles))
    }

    // mm_init
    constructor (base: nat, size: nat)
      requires Align(Align(base + SIZEOF_MM) + SIZEOF_LOCK) + BUCKET <= base + size
      ensures Valid() && fresh(mem) && end == base + size && start == Align(Align(base + SIZEOF_MM) + SIZEOF_LOCK)
      ensures tiles == [Tile(start, end - start, true)]
    {
      this.base, end := base, base + size;
      start := Align(Align(base + SIZEOF_MM) + SIZEOF_LOCK);
      available := size - (Align(Align(base + SIZEOF_MM) + SIZEOF_LOCK) - base);
      mem := new nat[base + size];
      freeList := Align(Align(base + SIZEOF_MM) + SIZEOF_LOCK);
      tiles := [Tile(Align(Align(base + SIZEOF_MM) + SIZEOF_LOCK),
                     base + size - Align(Align(base + SIZEOF_MM) + SIZEOF_LOCK), true)];
      new;
      mem[freeList] := available;
      mem[freeList + HEAD] := 0;
      assert tiles[1..] == [] && Frees(tiles) == tiles && Tiled(tiles[1..], end, end);
    }

    // The search loop: bucket k at p, after prev, is the one to take; NULL if none is large enough.
    method Search(r: nat, ghost fl: seq<Tile>) returns (ghost k: nat, p: nat, prev: nat)
      requires Linked(mem[..], freeList, fl)
      ensures p == Addr(fl, k) && prev == Prev(fl, k)
      ensures if k < |fl| then Chosen(fl, r, k) else k == |fl| && forall j :: 0 <= j < |fl| ==> fl[j].size < r
    {
      var q: nat, at := 0, freeList;
      ghost var n := 0;
      k, p, prev := 0, 0, 0;
      while at != 0
        invariant n <= |fl| && at == Addr(fl, n) && q == if n == 0 then 0 else fl[n - 1].addr
        invariant SoFar(fl, r, n, k, p, prev)
        invariant n < |fl| ==> BucketAt(mem[..], fl, n)
        decreases |fl| - n
      {
        assert BucketAt(mem[..], fl, n);
        assert p != 0 ==> BucketAt(mem[..], fl, k);
        if mem[at] == r {
          k, p, prev := n, at, q;
          return;
        } else if mem[at] > r && (p == 0 || mem[p] > mem[at]) {
          k, p, prev := n, at, q;
        }
        q := at;
        at := mem[at + HEAD];
        n := n + 1;
        assert n < |fl| ==> BucketAt(mem[..], fl, n);
      }
      if p == 0 { k := |fl|; }
    }

    method Carve(p: nat, prev: nat, r: nat, ghost t: Tile, ghost next: nat) returns (used: nat)
      requires 0 < p == t.addr && p + t.size <= mem.Length && BUCKET <= r <= t.size && mem[p] == t.size
      requires mem[p + HEAD] == next
      requires prev != 0 ==> prev + BUCKET <= p
      modifies this`freeList, mem
      ensures Carved(old(mem[..]), old(freeList), t, prev, next, r, mem[..], freeList)
      ensures used == Given(t, r).size
    {
      used := mem[p];
      if mem[p] - r < BUCKET {
        if prev == 0 { freeList := mem[p + HEAD]; } else { mem[prev + HEAD] := mem[p + HEAD]; }
      } else {
        used := r;
        if prev == 0 { freeList := p + r; } else { mem[prev + HEAD] := p + r; }
        mem[p + r] := mem[p] - r;
        mem[p + r + HEAD] := mem[p + HEAD];
        mem[p] := r;
      }
    }

    // Taking bucket k of the list, at p, for a request of n bytes.
    method TakeBucket(n: nat, p: nat, prev: nat, ghost k: nat) returns (x: nat, ghost i: nat)
      requires Valid() && n > 0 && k < |Frees(tiles)| && Chosen(Frees(tiles), RealSize(n), k)
      requires p == Frees(tiles)[k].addr && prev == Prev(Frees(tiles), k)
      modifies this, mem
      ensures Valid() && i < |old(tiles)| && Best(old(tiles), RealSize(n), old(tiles[i]))
      ensures x == old(tiles[i].addr) + HEAD
      ensures tiles == After(old(tiles), Call.Malloc(n))
      ensures var t, r := old(tiles[i]), RealSize(n);
              && HandsOut(old(tiles), tiles, t, r) && t.addr < mem.Length
              && mem[t.addr] == (if t.size >= r + BUCKET then r else t.size)
              && available + mem[t.addr] == old(available)
      ensures Spared(old(mem[..]), mem[..], old(tiles), {})
    {
      var r := RealSize(n);
      ghost var fl, mem0, head0 := Frees(tiles), mem[..], freeList;
      ghost var missed := BucketsThere(mem0, head0, tiles, start, end, k);
      ChosenIsBest(tiles, r, k);
      i := Locate(tiles, k);
      var used := Carve(p, prev, r, fl[k], Addr(fl, k + 1));
      TakeLaid(mem0, head0, tiles, start, end, i, k, r, mem[..], freeList);
      TakenIs(mem0, head0, tiles, start, end, i, k, r, mem[..], freeList);
      MallocIsAfter(tiles, start, end, n, i);
      available := available - used;
      x := p + HEAD;
      tiles := Take(tiles, i, r);
    }

    // mm_malloc_nolock: the lowest of the smallest buckets that fit gives up what is asked for, rounded up, or the whole
    // of itself if no bucket would be left; NULL if none fits.  The blocks already handed out keep their contents.
    method Malloc(n: nat) returns (x: nat, ghost i: nat)
      requires Valid()
      modifies this, mem
      ensures Valid()
      ensures n == 0 || NoneFits(old(tiles), RealSize(n)) ==>
                x == 0 && tiles == old(tiles) && mem[..] == old(mem[..]) && freeList == old(freeList)
      ensures n > 0 && !NoneFits(old(tiles), RealSize(n)) ==>
                && i < |old(tiles)| && Best(old(tiles), RealSize(n), old(tiles[i])) && x == old(tiles[i].addr) + HEAD
                && var t, r := old(tiles[i]), RealSize(n);
                   && HandsOut(old(tiles), tiles, t, r) && t.addr < mem.Length
                   && mem[t.addr] == (if t.size >= r + BUCKET then r else t.size)
                   && available + mem[t.addr] == old(available) && r <= mem[t.addr] < r + BUCKET
      ensures Spared(old(mem[..]), mem[..], old(tiles), {})
      ensures tiles == After(old(tiles), Call.Malloc(n))
    {
      x, i := 0, 0;
      if n > 0 {
        var r := RealSize(n);
        if r <= available {
          ghost var k;
          var p, prev;
          k, p, prev := Search(r, Frees(tiles));
          ghost var missed := BucketsThere(mem[..], freeList, tiles, start, end, k);
          if p != 0 {
            ChosenIsBest(tiles, r, k);
            x, i := TakeBucket(n, p, prev, k);
          } else {
            NoneInList(tiles, r);
          }
        } else {
          TooBig(tiles, r);
        }
      }
    }

    // The loop of mm_free_nolock: the neighbours of b in the list.
    method Neighbours(b: nat, ghost fl: seq<Tile>, ghost k: nat) returns (prev: nat, next: nat)
      requires Linked(mem[..], freeList, fl) && k <= |fl|
      requires (forall j :: 0 <= j < k ==> fl[j].addr < b) && (forall j :: k <= j < |fl| ==> b < fl[j].addr)
      ensures prev == (if k == 0 then 0 else fl[k - 1].addr) && next == Addr(fl, k)
    {
      var q := freeList;
      ghost var n := 0;
      prev, next := 0, 0;
      while q != 0
        invariant n <= k && q == Addr(fl, n) && prev == (if n == 0 then 0 else fl[n - 1].addr) && next == 0
        invariant n < |fl| ==> BucketAt(mem[..], fl, n)
        decreases |fl| - n
      {
        assert BucketAt(mem[..], fl, n);
        if b < q {
          next := q;
          break;
        }
        prev := q;
        q := mem[q + HEAD];
        n := n + 1;
        assert n < |fl| ==> BucketAt(mem[..], fl, n);
      }
    }

    method Join(b: nat, size: nat, prev: nat, next: nat)
      requires 0 < b && b + HEAD < mem.Length && mem[b] == size
      requires prev != 0 ==> prev + BUCKET <= b
      requires next != 0 ==> b + BUCKET <= next && next + HEAD < mem.Length
      requires prev == 0 && next == 0 ==> freeList == 0
      modifies this`freeList, mem
      ensures Joined(old(mem[..]), old(freeList), b, size, prev, next, prev != 0 && prev + old(mem[prev]) == b,
                     next == b + size, mem[..], freeList)
    {
      mem[b + HEAD] := 0;
      if prev != 0 && prev + mem[prev] == b {
        if next == b + size {
          mem[prev] := mem[prev] + (size + mem[next]);
          mem[prev + HEAD] := mem[next + HEAD];
        } else {
          mem[prev] := mem[prev] + size;
        }
      } else {
        if next == b + size {
          mem[b] := mem[b] + mem[next];
          mem[b + HEAD] := mem[next + HEAD];
        } else {
          mem[b + HEAD] := next;
        }
        if prev != 0 {
          mem[prev + HEAD] := b;
        } else {
          freeList := b;
        }
      }
    }

    // Finding the place of the block at b and linking it in again.
    method LinkIn(b: nat, size: nat, ghost i: nat) returns (ghost prev: nat, ghost next: nat)
      requires Valid() && i < |tiles| && !tiles[i].free && b == tiles[i].addr && size == tiles[i].size
      modifies this`freeList, mem
      ensures var fl, k := Frees(tiles), |Frees(tiles[..i])|;
              k <= |fl| && prev == (if k == 0 then 0 else fl[k - 1].addr) && next == Addr(fl, k)
      ensures Joined(old(mem[..]), old(freeList), b, size, prev, next, FreeAt(tiles, i - 1), FreeAt(tiles, i + 1),
                     mem[..], freeList)
    {
      NeighboursThere(mem[..], freeList, tiles, start, end, i);
      var p, n := Neighbours(b, Frees(tiles), |Frees(tiles[..i])|);
      Join(b, size, p, n);
      prev, next := p, n;
    }

    method GiveBack(b: nat, size: nat, ghost i: nat)
      requires Valid() && i < |tiles| && !tiles[i].free && b == tiles[i].addr && size == tiles[i].size
      modifies this, mem
      ensures Valid() && GivenBack(old(mem[..]), old(tiles), old(available), i, mem[..], tiles, available)
    {
      ghost var mem0, head0 := mem[..], freeList;
      ghost var prev, next := LinkIn(b, size, i);
      GivenAll(mem0, head0, tiles, start, end, i, prev, next, mem[..], freeList);
      available := available + size;
      tiles := Give(tiles, i);
    }

    // mm_free_nolock.  Addresses outside the arena are ignored; inside, it must be a block malloc gave out.  It becomes
    // one with the free tiles it touches; the other blocks keep their contents.
    method Release(x: nat, ghost i: nat)
      requires Valid()
      requires start <= x < end ==> i < |tiles| && !tiles[i].free && x == tiles[i].addr + HEAD
      modifies this, mem
      ensures Valid()
      ensures tiles == if start <= x < end then After(old(tiles), Free(x - HEAD)) else old(tiles)
      ensures start <= x < end ==>
                && (exists big :: TakesBack(old(tiles), tiles, old(tiles[i]), big))
                && available == old(available) + old(tiles[i].size)
                && Spared(old(mem[..]), mem[..], old(tiles), {old(tiles[i])})
      ensures !(start <= x < end) ==>
                mem[..] == old(mem[..]) && freeList == old(freeList) && available == old(available)
    {
      if x != 0 && start <= x < end {
        var b := x - HEAD;
        var size := mem[b];
        NeighboursThere(mem[..], freeList, tiles, start, end, i);
        if b + size <= end {
          GiveBack(b, size, i);
        }
      }
    }

    // mm_maxsize
    method MaxSize() returns (m: nat)
      requires Valid()
      ensures m == Largest(Frees(tiles)) - HEAD
    {
      ghost var fl := Frees(tiles);
      var p, ret: nat := freeList, HEAD;
      ghost var n := 0;
      assert fl[..0] == [];
      while p != 0
        invariant n <= |fl| && p == Addr(fl, n) && ret == Largest(fl[..n])
        invariant n < |fl| ==> BucketAt(mem[..], fl, n)
        decreases |fl| - n
      {
        assert BucketAt(mem[..], fl, n);
        assert fl[..n + 1][..n] == fl[..n] && fl[..n + 1][n] == fl[n];
        if mem[p] > ret { ret := mem[p]; }
        p := mem[p + HEAD];
        n := n + 1;
        assert n < |fl| ==> BucketAt(mem[..], fl, n);
      }
      assert fl[..n] == fl;
      m := ret - HEAD;
    }
  }

  // What Join needs to know of the buckets around a live tile.
  lemma NeighboursThere(mem: seq<nat>, head: nat, tiles: seq<Tile>, lo: nat, hi: nat, i: nat)
    requires Laid(mem, head, tiles, lo, hi) && i < |tiles| && !tiles[i].free
    ensures var fl, k, t := Frees(tiles), |Frees(tiles[..i])|, tiles[i];
            && k <= |fl| && 0 < t.addr && t.addr + HEAD < |mem| && mem[t.addr] == t.size && t.addr + t.size <= hi
            && (forall j :: 0 <= j < k ==> fl[j].addr < t.addr) && (forall j :: k <= j < |fl| ==> t.addr < fl[j].addr)
            && (k > 0 ==> 0 < fl[k - 1].addr && fl[k - 1].addr + BUCKET <= t.addr && mem[fl[k - 1].addr] == fl[k - 1].size)
            && (k < |fl| ==> t.addr + BUCKET <= fl[k].addr && fl[k].addr + HEAD < |mem|)
            && (k == 0 && k == |fl| ==> head == 0)
            && ((k > 0 && fl[k - 1].addr + fl[k - 1].size == t.addr) <==> FreeAt(tiles, i - 1))
            && ((k < |fl| && fl[k].addr == t.addr + t.size) <==> FreeAt(tiles, i + 1))
  {
    var fl, k, t := Frees(tiles), |Frees(tiles[..i])|, tiles[i];
    FreeOrder(tiles, lo, hi, i);
    FreePlace(tiles, lo, hi, i);
    BesideTile(mem, head, tiles, lo, hi, i);
  }

  lemma BesideTile(mem: seq<nat>, head: nat, tiles: seq<Tile>, lo: nat, hi: nat, i: nat)
    requires Laid(mem, head, tiles, lo, hi) && i < |tiles| && !tiles[i].free
    ensures var fl, k, t := Frees(tiles), |Frees(tiles[..i])|, tiles[i];
            && k <= |fl| && 0 < t.addr && t.addr + HEAD < |mem| && mem[t.addr] == t.size && t.addr + t.size <= hi
            && (k > 0 ==> 0 < fl[k - 1].addr && fl[k - 1].addr + BUCKET <= t.addr && mem[fl[k - 1].addr] == fl[k - 1].size)
            && (k < |fl| ==> t.addr + BUCKET <= fl[k].addr && fl[k].addr + HEAD < |mem|)
  {
    var fl, k, t := Frees(tiles), |Frees(tiles[..i])|, tiles[i];
    TiledSpaced(tiles, lo, hi);
    FreesAround(tiles, i);
    PlaceSpaced(tiles, i);
    var all := Frees(tiles[..i]) + [t.(free := true)] + Frees(tiles[i + 1..]);
    assert all[k] == t.(free := true);
    if k > 0 { assert BucketAt(mem, fl, k - 1); assert all[k - 1] == fl[k - 1]; }
    if k < |fl| { assert BucketAt(mem, fl, k); assert all[k + 1] == fl[k]; }
  }

  // What Carve and Unlink need to know of bucket k and the one before it.
  lemma BucketsThere(mem: seq<nat>, head: nat, tiles: seq<Tile>, lo: nat, hi: nat, k: nat) returns (missed: bool)
    requires Laid(mem, head, tiles, lo, hi) && k <= |Frees(tiles)|
    ensures missed == (k == |Frees(tiles)|) && (missed <==> Addr(Frees(tiles), k) == 0) && Spaced(Frees(tiles))
    ensures !missed ==>
      var t, prev := Frees(tiles)[k], Prev(Frees(tiles), k);
      && 0 < t.addr && t.addr + t.size <= hi && t.size >= BUCKET && mem[t.addr] == t.size
      && mem[t.addr + HEAD] == Addr(Frees(tiles), k + 1)
      && (prev != 0 <==> k > 0) && (prev != 0 ==> prev + BUCKET <= t.addr)
  {
    var fl := Frees(tiles);
    missed := k == |fl|;
    TiledSpaced(tiles, lo, hi);
    FreesSpaced(tiles);
    if !missed {
      assert BucketAt(mem, fl, k);
      var i := Locate(tiles, k);
      if k > 0 {
        assert BucketAt(mem, fl, k - 1);
      }
    }
  }
}
