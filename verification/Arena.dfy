// The allocator of mm.c on values: an arena cut into tiles, some of them free.
module Arena {
  import opened Options

  const HEAD := 8    // sizeof(mm_mem_head)
  const BUCKET := 16 // sizeof(mm_free_bucket)
  const ALIGN := 8   // MM_PLATFORM_ALIGNMENT

  datatype Tile = Tile(addr: nat, size: nat, free: bool)

  // MM_ALIGN on positive numbers
  function Align(n: nat): (r: nat)
    requires n > 0
    ensures r % ALIGN == 0 && n <= r < n + ALIGN
  {
    (n - 1) / ALIGN * ALIGN + ALIGN
  }

  // What a request of n bytes takes.
  function RealSize(n: nat): (r: nat)
    requires n > 0
    ensures r >= BUCKET && r % ALIGN == 0 && n + HEAD <= r < n + HEAD + ALIGN
  {
    Align(HEAD + n)
  }

  // ----- well-formed arenas -----

  // The tiles cover lo..hi without gap or overlap.
  predicate Tiled(tiles: seq<Tile>, lo: nat, hi: nat)
    decreases |tiles|
  {
    if tiles == [] then lo == hi
    else tiles[0].addr == lo && tiles[0].size >= BUCKET && lo % ALIGN == 0 && Tiled(tiles[1..], lo + tiles[0].size, hi)
  }

  predicate Coalesced(tiles: seq<Tile>) {
    forall i :: 0 <= i < |tiles| - 1 ==> !(tiles[i].free && tiles[i + 1].free)
  }

  predicate Wf(tiles: seq<Tile>, lo: nat, hi: nat) {
    Tiled(tiles, lo, hi) && Coalesced(tiles)
  }

  function Frees(tiles: seq<Tile>): seq<Tile>
    decreases |tiles|
  {
    if tiles == [] then []
    else if tiles[0].free then [tiles[0]] + Frees(tiles[1..])
    else Frees(tiles[1..])
  }

  function Sum(tiles: seq<Tile>): nat {
    if tiles == [] then 0 else tiles[0].size + Sum(tiles[1..])
  }

  function Live(tiles: seq<Tile>): set<Tile> {
    set t | t in tiles && !t.free
  }

  // ----- the two operations -----

  // The first r bytes of tile i are given out; a rest too small for a bucket goes with them.
  function Take(tiles: seq<Tile>, i: nat, r: nat): seq<Tile>
    requires i < |tiles| && r <= tiles[i].size
  {
    var t := tiles[i];
    if t.size - r < BUCKET then tiles[..i] + [Tile(t.addr, t.size, false)] + tiles[i + 1..]
    else tiles[..i] + [Tile(t.addr, r, false), Tile(t.addr + r, t.size - r, true)] + tiles[i + 1..]
  }

  predicate FreeAt(tiles: seq<Tile>, i: int) {
    0 <= i < |tiles| && tiles[i].free
  }

  // Tile i is given back and joins its free neighbours.
  function Give(tiles: seq<Tile>, i: nat): seq<Tile>
    requires i < |tiles|
  {
    var t := tiles[i];
    var lo := if FreeAt(tiles, i - 1) then i - 1 else i;
    var hi := if FreeAt(tiles, i + 1) then i + 2 else i + 1;
    tiles[..lo] + [Tile(tiles[lo].addr, Sum(tiles[lo..hi]), true)] + tiles[hi..]
  }

  // Best fit: the lowest among the smallest free tiles that are large enough.
  predicate Fits(t: Tile, r: nat) {
    t.free && t.size >= r
  }

  ghost predicate Best(tiles: seq<Tile>, r: nat, t: Tile) {
    && t in tiles && Fits(t, r)
    && forall u :: u in tiles && Fits(u, r) ==> t.size < u.size || (t.size == u.size && t.addr <= u.addr)
  }

  ghost predicate NoneFits(tiles: seq<Tile>, r: nat) {
    forall t :: t in tiles ==> !Fits(t, r)
  }

  // ----- sequences of tiles -----

  lemma {:induction false} TiledAppend(a: seq<Tile>, b: seq<Tile>, lo: nat, mid: nat, hi: nat)
    requires Tiled(a, lo, mid) && Tiled(b, mid, hi)
    ensures Tiled(a + b, lo, hi)
    decreases |a|
  {
    if a == [] {
      assert a + b == b;
    } else {
      TiledAppend(a[1..], b, lo + a[0].size, mid, hi);
      assert (a + b)[1..] == a[1..] + b;
    }
  }

  // Where tile i of a tiling starts.
  lemma {:induction false} TiledSplit(tiles: seq<Tile>, lo: nat, hi: nat, i: nat) returns (mid: nat)
    requires Tiled(tiles, lo, hi) && i <= |tiles|
    ensures Tiled(tiles[..i], lo, mid) && Tiled(tiles[i..], mid, hi) && lo <= mid <= hi && mid == lo + Sum(tiles[..i])
    ensures i < |tiles| ==>
              tiles[i].addr == mid && tiles[i].size >= BUCKET && mid % ALIGN == 0 && mid + tiles[i].size <= hi
    decreases i
  {
    if i == 0 {
      mid := lo;
      assert tiles[..0] == [] && tiles[0..] == tiles;
      TiledSpan(tiles, lo, hi);
    } else {
      mid := TiledSplit(tiles[1..], lo + tiles[0].size, hi, i - 1);
      assert tiles[..i][1..] == tiles[1..][..i - 1] && tiles[i..] == tiles[1..][i - 1..];
    }
  }

  lemma {:induction false} TiledSpan(tiles: seq<Tile>, lo: nat, hi: nat)
    requires Tiled(tiles, lo, hi)
    ensures hi == lo + Sum(tiles)
    ensures tiles != [] ==> lo + tiles[0].size <= hi
    decreases |tiles|
  {
    if tiles != [] {
      TiledSpan(tiles[1..], lo + tiles[0].size, hi);
    }
  }

  lemma {:induction false} SumAppend(a: seq<Tile>, b: seq<Tile>)
    ensures Sum(a + b) == Sum(a) + Sum(b)
    decreases |a|
  {
    if a == [] {
      assert a + b == b;
    } else {
      SumAppend(a[1..], b);
      assert (a + b)[1..] == a[1..] + b;
    }
  }

  lemma {:induction false} FreesAppend(a: seq<Tile>, b: seq<Tile>)
    ensures Frees(a + b) == Frees(a) + Frees(b)
    decreases |a|
  {
    if a == [] {
      assert a + b == b;
    } else {
      FreesAppend(a[1..], b);
      assert (a + b)[1..] == a[1..] + b;
    }
  }

  // Later tiles start after earlier ones end.
  lemma InOrder(tiles: seq<Tile>, lo: nat, hi: nat, i: nat, j: nat)
    requires Tiled(tiles, lo, hi) && i < j < |tiles|
    ensures tiles[i].addr + tiles[i].size <= tiles[j].addr
    ensures j == i + 1 ==> tiles[i].addr + tiles[i].size == tiles[j].addr
  {
    var m := TiledSplit(tiles, lo, hi, i);
    var k := TiledSplit(tiles[i..], m, hi, j - i);
    assert tiles[i..][j - i] == tiles[j] && tiles[i..][0] == tiles[i];
    var p := TiledSplit(tiles[i..], m, hi, 1);
    assert tiles[i..][..1] == [tiles[i]];
    if j > i + 1 {
      var q := TiledSplit(tiles[i..][1..], p, hi, j - i - 1);
      assert tiles[i..][1..][j - i - 1] == tiles[j];
    }
  }

  // ----- malloc keeps the arena well formed -----

  lemma TakeKeeps(tiles: seq<Tile>, lo: nat, hi: nat, i: nat, r: nat)
    requires Wf(tiles, lo, hi) && i < |tiles| && Fits(tiles[i], r) && r >= BUCKET && r % ALIGN == 0
    ensures Wf(Take(tiles, i, r), lo, hi)
  {
    var t := tiles[i];
    var _ := TiledSplit(tiles, lo, hi, i);
    var mid := if t.size - r < BUCKET then [Tile(t.addr, t.size, false)]
      else [Tile(t.addr, r, false), Tile(t.addr + r, t.size - r, true)];
    CutTiled(t, r, mid);
    assert tiles[i..i + 1] == [t] && Sum([t]) == t.size;
    SpliceTiled(tiles, lo, hi, i, i + 1, mid);
    assert Take(tiles, i, r) == tiles[..i] + mid + tiles[i + 1..];
    TakenCoalesced(tiles, i, mid);
  }

  lemma CutTiled(t: Tile, r: nat, mid: seq<Tile>)
    requires t.addr % ALIGN == 0 && t.size >= r >= BUCKET && r % ALIGN == 0
    requires mid == if t.size - r < BUCKET then [Tile(t.addr, t.size, false)]
             else [Tile(t.addr, r, false), Tile(t.addr + r, t.size - r, true)]
    ensures Tiled(mid, t.addr, t.addr + t.size)
  {
    if t.size - r >= BUCKET { assert mid[1..] == [Tile(t.addr + r, t.size - r, true)]; }
  }

  // Tiles a..b give way to others that cover as much.
  lemma SpliceTiled(tiles: seq<Tile>, lo: nat, hi: nat, a: nat, b: nat, mid: seq<Tile>)
    requires Tiled(tiles, lo, hi) && a < b <= |tiles| && Tiled(mid, tiles[a].addr, tiles[a].addr + Sum(tiles[a..b]))
    ensures Tiled(tiles[..a] + mid + tiles[b..], lo, hi)
  {
    var m, n := tiles[a].addr, tiles[a].addr + Sum(tiles[a..b]);
    var _ := TiledSplit(tiles, lo, hi, a);
    var _ := TiledSplit(tiles[a..], m, hi, b - a);
    assert tiles[a..][..b - a] == tiles[a..b] && tiles[a..][b - a..] == tiles[b..];
    TiledAppend(tiles[..a], mid, lo, m, n);
    TiledAppend(tiles[..a] + mid, tiles[b..], lo, n, hi);
  }

  // A free tile stands between tiles that are not, so what replaces it may end in a free tile.
  lemma TakenCoalesced(tiles: seq<Tile>, i: nat, mid: seq<Tile>)
    requires Coalesced(tiles) && i < |tiles| && tiles[i].free && 1 <= |mid| <= 2 && !mid[0].free
    ensures Coalesced(tiles[..i] + mid + tiles[i + 1..])
  {
    var t', d := tiles[..i] + mid + tiles[i + 1..], |mid| - 1;
    forall j | 0 <= j < |t'| - 1 ensures !(t'[j].free && t'[j + 1].free) {
      if j < i { TakenFront(tiles, i, mid, j); } else { TakenBack(tiles, i, mid, j); }
    }
  }

  lemma TakenFront(tiles: seq<Tile>, i: nat, mid: seq<Tile>, j: nat)
    requires Coalesced(tiles) && j < i < |tiles| && tiles[i].free && 1 <= |mid| && !mid[0].free
    ensures var t' := tiles[..i] + mid + tiles[i + 1..]; j + 1 < |t'| && !(t'[j].free && t'[j + 1].free)
  {
    var t' := tiles[..i] + mid + tiles[i + 1..];
    assert t'[j] == tiles[j] && t'[j + 1] == if j + 1 < i then tiles[j + 1] else mid[0];
  }

  lemma TakenBack(tiles: seq<Tile>, i: nat, mid: seq<Tile>, j: nat)
    requires Coalesced(tiles) && i < |tiles| && tiles[i].free && 1 <= |mid| <= 2 && !mid[0].free
    requires i <= j < |tiles| + |mid| - 2
    ensures var t' := tiles[..i] + mid + tiles[i + 1..]; j + 1 < |t'| && !(t'[j].free && t'[j + 1].free)
  {
    var t', d := tiles[..i] + mid + tiles[i + 1..], |mid| - 1;
    if j > i + d {
      assert t'[j] == tiles[j - d] && t'[j + 1] == tiles[j - d + 1];
    } else if j == i + d {
      assert t'[j + 1] == tiles[i + 1] && !tiles[i + 1].free;
    } else {
      assert t'[j] == mid[0];
    }
  }

  // ----- free keeps it so -----

  function GiveLo(tiles: seq<Tile>, i: nat): (lo: nat)
    ensures lo <= i && i <= lo + 1
  {
    if FreeAt(tiles, i - 1) then i - 1 else i
  }

  function GiveHi(tiles: seq<Tile>, i: nat): (hi: nat)
    requires i < |tiles|
    ensures i < hi <= i + 2 && hi <= |tiles|
  {
    if FreeAt(tiles, i + 1) then i + 2 else i + 1
  }

  lemma SumFirst(tiles: seq<Tile>, a: nat, b: nat)
    requires a < b <= |tiles|
    ensures Sum(tiles[a..b]) >= tiles[a].size
  {
    assert tiles[a..b][0] == tiles[a];
  }

  lemma GiveKeeps(tiles: seq<Tile>, lo: nat, hi: nat, i: nat)
    requires Wf(tiles, lo, hi) && i < |tiles| && !tiles[i].free
    ensures Wf(Give(tiles, i), lo, hi)
  {
    var a, b := GiveLo(tiles, i), GiveHi(tiles, i);
    var big := Tile(tiles[a].addr, Sum(tiles[a..b]), true);
    var _ := TiledSplit(tiles, lo, hi, a);
    SumFirst(tiles, a, b);
    SpliceTiled(tiles, lo, hi, a, b, [big]);
    GiveCoalesced(tiles, i, a, b, big);
  }

  lemma GiveCoalesced(tiles: seq<Tile>, i: nat, a: nat, b: nat, big: Tile)
    requires Coalesced(tiles) && i < |tiles| && a == GiveLo(tiles, i) && b == GiveHi(tiles, i)
    ensures Coalesced(tiles[..a] + [big] + tiles[b..])
  {
    var t' := tiles[..a] + [big] + tiles[b..];
    forall j | 0 <= j < |t'| - 1 ensures !(t'[j].free && t'[j + 1].free) {
      if j + 1 < a { assert t'[j] == tiles[j] && t'[j + 1] == tiles[j + 1]; }
      else if j > a { var k := j - a - 1 + b; assert t'[j] == tiles[k] && t'[j + 1] == tiles[k + 1]; }
      else if j + 1 == a { assert t'[j] == tiles[j] && !tiles[j].free; }
      else { assert t'[j + 1] == tiles[b] && !tiles[b].free; }
    }
  }

  // ----- what the two do to each other -----

  // A free right after its malloc restores the arena, and so the free list, exactly.
  lemma GiveUndoesTake(tiles: seq<Tile>, lo: nat, hi: nat, i: nat, r: nat)
    requires Wf(tiles, lo, hi) && i < |tiles| && Fits(tiles[i], r)
    ensures i < |Take(tiles, i, r)| && Give(Take(tiles, i, r), i) == tiles
  {
    var t, t' := tiles[i], Take(tiles, i, r);
    assert t' [..i] == tiles[..i];
    if t.size - r < BUCKET {
      assert GiveLo(t', i) == i && GiveHi(t', i) == i + 1 by {
        assert i > 0 ==> t'[i - 1] == tiles[i - 1] && !tiles[i - 1].free;
        assert i + 1 < |tiles| ==> t'[i + 1] == tiles[i + 1];
      }
      assert t'[i..i + 1] == [Tile(t.addr, t.size, false)];
      assert Sum([Tile(t.addr, t.size, false)]) == t.size;
      assert t'[i + 1..] == tiles[i + 1..];
    } else {
      assert GiveLo(t', i) == i && GiveHi(t', i) == i + 2 by {
        assert i > 0 ==> t'[i - 1] == tiles[i - 1] && !tiles[i - 1].free;
      }
      assert t'[i..i + 2] == [Tile(t.addr, r, false)] + [Tile(t.addr + r, t.size - r, true)];
      SumAppend([Tile(t.addr, r, false)], [Tile(t.addr + r, t.size - r, true)]);
      assert Sum([Tile(t.addr, r, false)]) == r && Sum([Tile(t.addr + r, t.size - r, true)]) == t.size - r;
      assert t'[i + 2..] == tiles[i + 1..];
    }
    assert tiles == tiles[..i] + [t] + tiles[i + 1..];
  }

  lemma SomeLive(tiles: seq<Tile>)
    requires Coalesced(tiles) && |tiles| >= 2
    ensures Live(tiles) != {}
  {
    assert !(tiles[0].free && tiles[0 + 1].free);
    assert tiles[0] in Live(tiles) || tiles[1] in Live(tiles);
  }

  // With nothing live, the arena is one bucket.
  lemma AllFreeIsOne(tiles: seq<Tile>, lo: nat, hi: nat)
    requires Wf(tiles, lo, hi) && lo < hi && Live(tiles) == {}
    ensures tiles == [Tile(lo, hi - lo, true)]
  {
    TiledSpan(tiles, lo, hi);
    if |tiles| >= 2 {
      SomeLive(tiles);
    } else {
      assert tiles[0] !in Live(tiles);
    }
  }

  // ----- the free list and the live blocks -----

  lemma {:induction false} FreesAreFree(tiles: seq<Tile>)
    ensures forall t :: t in Frees(tiles) <==> t in tiles && t.free
    decreases |tiles|
  {
    if tiles != [] {
      FreesAreFree(tiles[1..]);
      assert forall t :: t in tiles <==> t == tiles[0] || t in tiles[1..];
    }
  }

  // Bucket k of the free list is some tile i.
  lemma {:induction false} Locate(tiles: seq<Tile>, k: nat) returns (i: nat)
    requires k < |Frees(tiles)|
    ensures i < |tiles| && tiles[i] == Frees(tiles)[k]
    ensures Frees(tiles[..i]) == Frees(tiles)[..k] && Frees(tiles[i + 1..]) == Frees(tiles)[k + 1..]
    decreases |tiles|
  {
    var rest := tiles[1..];
    if tiles[0].free && k == 0 {
      i := 0;
      assert tiles[..0] == [];
    } else if tiles[0].free {
      var j := Locate(rest, k - 1);
      i := j + 1;
      LocateNext(tiles, j);
    } else {
      var j := Locate(rest, k);
      i := j + 1;
      LocateNext(tiles, j);
    }
  }

  lemma LocateNext(tiles: seq<Tile>, j: nat)
    requires j + 1 < |tiles|
    ensures Frees(tiles[..j + 1]) ==
            (if tiles[0].free then [tiles[0]] + Frees(tiles[1..][..j]) else Frees(tiles[1..][..j]))
    ensures tiles[j + 2..] == tiles[1..][j + 1..]
  {
    assert tiles[..j + 1][1..] == tiles[1..][..j];
  }

  function Rest(t: Tile, r: nat): seq<Tile>
    requires r <= t.size
  {
    if t.size - r < BUCKET then [] else [Tile(t.addr + r, t.size - r, true)]
  }

  function Given(t: Tile, r: nat): Tile
    requires r <= t.size
  {
    Tile(t.addr, if t.size - r < BUCKET then t.size else r, false)
  }

  // malloc unlinks a bucket, or moves it up by r.
  lemma FreesTake(tiles: seq<Tile>, i: nat, r: nat)
    requires i < |tiles| && r <= tiles[i].size
    ensures Frees(Take(tiles, i, r)) == Frees(tiles[..i]) + Rest(tiles[i], r) + Frees(tiles[i + 1..])
  {
    var t := tiles[i];
    assert Take(tiles, i, r) == tiles[..i] + ([Given(t, r)] + (Rest(t, r) + tiles[i + 1..]));
    FreesAppend(tiles[..i], [Given(t, r)] + (Rest(t, r) + tiles[i + 1..]));
    FreesAppend([Given(t, r)], Rest(t, r) + tiles[i + 1..]);
    FreesAppend(Rest(t, r), tiles[i + 1..]);
    assert Frees([Given(t, r)]) == [] && Frees(Rest(t, r)) == Rest(t, r);
  }

  // free links one bucket in, or lets it grow into its neighbours.
  lemma FreesGive(tiles: seq<Tile>, i: nat)
    requires i < |tiles| && !tiles[i].free
    ensures var a, b := GiveLo(tiles, i), GiveHi(tiles, i);
            && Frees(Give(tiles, i)) == Frees(tiles[..a]) + [Tile(tiles[a].addr, Sum(tiles[a..b]), true)]
               + Frees(tiles[b..])
            && Frees(tiles[..i]) == Frees(tiles[..a]) + tiles[a..i]
            && Frees(tiles[i + 1..]) == tiles[i + 1..b] + Frees(tiles[b..])
            && Sum(tiles[a..b]) == Sum(tiles[a..i]) + tiles[i].size + Sum(tiles[i + 1..b])
  {
    var a, b := GiveLo(tiles, i), GiveHi(tiles, i);
    FreesGiven(tiles, a, b);
    FreesBefore(tiles, a, i);
    FreesBehind(tiles, i, b);
    SumAround(tiles, a, i, b);
  }

  lemma FreesBefore(tiles: seq<Tile>, a: nat, i: nat)
    requires a <= i <= a + 1 && i < |tiles| && (a < i ==> tiles[a].free)
    ensures Frees(tiles[..i]) == Frees(tiles[..a]) + tiles[a..i]
  {
    assert tiles[..i] == tiles[..a] + tiles[a..i];
    FreesAppend(tiles[..a], tiles[a..i]);
  }

  lemma FreesBehind(tiles: seq<Tile>, i: nat, b: nat)
    requires i + 1 <= b <= i + 2 && b <= |tiles| && (i + 1 < b ==> tiles[i + 1].free)
    ensures Frees(tiles[i + 1..]) == tiles[i + 1..b] + Frees(tiles[b..])
  {
    assert tiles[i + 1..] == tiles[i + 1..b] + tiles[b..];
    FreesAppend(tiles[i + 1..b], tiles[b..]);
  }

  lemma SumAround(tiles: seq<Tile>, a: nat, i: nat, b: nat)
    requires a <= i < b <= |tiles|
    ensures Sum(tiles[a..b]) == Sum(tiles[a..i]) + tiles[i].size + Sum(tiles[i + 1..b])
  {
    assert tiles[a..b] == tiles[a..i] + ([tiles[i]] + tiles[i + 1..b]);
    SumAppend(tiles[a..i], [tiles[i]] + tiles[i + 1..b]);
    SumAppend([tiles[i]], tiles[i + 1..b]);
    assert Sum([tiles[i]]) == tiles[i].size;
  }

  lemma FreesGiven(tiles: seq<Tile>, a: nat, b: nat)
    requires a < b <= |tiles|
    ensures var big := Tile(tiles[a].addr, Sum(tiles[a..b]), true);
            Frees(tiles[..a] + [big] + tiles[b..]) == Frees(tiles[..a]) + [big] + Frees(tiles[b..])
  {
    var big := Tile(tiles[a].addr, Sum(tiles[a..b]), true);
    FreesAppend(tiles[..a] + [big], tiles[b..]);
    FreesAppend(tiles[..a], [big]);
    assert Frees([big]) == [big];
  }

  lemma AddrsDiffer(tiles: seq<Tile>, lo: nat, hi: nat, i: nat, j: nat)
    requires Tiled(tiles, lo, hi) && i < |tiles| && j < |tiles| && i != j
    ensures tiles[i].addr != tiles[j].addr
  {
    var a, b := if i < j then i else j, if i < j then j else i;
    InOrder(tiles, lo, hi, a, b);
    var m := TiledSplit(tiles, lo, hi, a);
  }

  // Exactly one live block more ...
  lemma TakeLive(tiles: seq<Tile>, i: nat, r: nat)
    requires i < |tiles| && Fits(tiles[i], r)
    ensures var t := tiles[i];
            Live(Take(tiles, i, r)) == Live(tiles) + {Given(t, r)}
  {
    var t, t' := tiles[i], Take(tiles, i, r);
    var got := Given(t, r);
    assert tiles == tiles[..i] + [t] + tiles[i + 1..];
    assert t'[i] == got;
  }

  // ... and exactly one less.
  lemma GiveLive(tiles: seq<Tile>, lo: nat, hi: nat, i: nat)
    requires Tiled(tiles, lo, hi) && i < |tiles| && !tiles[i].free
    ensures Live(Give(tiles, i)) == Live(tiles) - {tiles[i]}
  {
    var a, b := GiveLo(tiles, i), GiveHi(tiles, i);
    forall j: nat | j < |tiles| && j != i ensures tiles[j] != tiles[i] {
      AddrsDiffer(tiles, lo, hi, i, j);
    }
    assert forall t :: t in tiles[..a] || t in tiles[b..] ==> t in tiles && t != tiles[i];
    forall t | t in Live(tiles) && t != tiles[i] ensures t in tiles[..a] || t in tiles[b..] {
      var j :| 0 <= j < |tiles| && tiles[j] == t;
      assert j < a ==> tiles[..a][j] == t;
      assert j >= b ==> tiles[b..][j - b] == t;
    }
  }

  // ----- the two operations in addresses and sizes -----

  // r bytes of bucket t are given out.  What is left of it stays free if it can hold a bucket, and goes with them if not.
  ghost predicate HandsOut(tiles: seq<Tile>, tiles': seq<Tile>, t: Tile, r: nat) {
    && t in tiles && t.free && t.size >= r
    && (t.size >= r + BUCKET ==>
          forall u :: u in tiles' <==>
              (u in tiles && u != t) || u == Tile(t.addr, r, false) || u == Tile(t.addr + r, t.size - r, true))
    && (t.size < r + BUCKET ==> forall u :: u in tiles' <==> (u in tiles && u != t) || u == Tile(t.addr, t.size, false))
  }

  // Block t is given back as part of bucket `big`; the free tiles it touches are gone, and nothing else.
  ghost predicate TakesBack(tiles: seq<Tile>, tiles': seq<Tile>, t: Tile, big: Tile) {
    && big.free && t in tiles && !t.free
    && (forall u ::
          u in tiles' <==> (u in tiles && u != t && !EndsAt(u, t.addr) && !StartsAt(u, t.addr + t.size)) || u == big)
    && (forall u :: u in tiles && EndsAt(u, t.addr) ==> big.addr == u.addr)
    && ((forall u :: u in tiles ==> !EndsAt(u, t.addr)) ==> big.addr == t.addr)
    && (forall u :: u in tiles && StartsAt(u, t.addr + t.size) ==> big.addr + big.size == u.addr + u.size)
    && ((forall u :: u in tiles ==> !StartsAt(u, t.addr + t.size)) ==> big.addr + big.size == t.addr + t.size)
  }

  // A bucket that ends (starts) there.
  predicate EndsAt(u: Tile, a: nat) {
    u.free && u.addr + u.size == a
  }

  predicate StartsAt(u: Tile, a: nat) {
    u.free && u.addr == a
  }

  // One tile in the place of some.
  lemma InSplice(tiles: seq<Tile>, a: nat, b: nat, mid: seq<Tile>, u: Tile)
    requires a <= b <= |tiles|
    ensures u in tiles[..a] + mid + tiles[b..] <==>
              u in mid || exists j :: 0 <= j < |tiles| && !(a <= j < b) && tiles[j] == u
  {
    if j :| 0 <= j < |tiles| && !(a <= j < b) && tiles[j] == u {
      assert j < a ==> tiles[..a][j] == u;
      assert j >= b ==> tiles[b..][j - b] == u;
    }
  }

  lemma TileElsewhere(tiles: seq<Tile>, lo: nat, hi: nat, i: nat, u: Tile)
    requires Tiled(tiles, lo, hi) && i < |tiles|
    ensures u in tiles && u != tiles[i] <==> exists j :: 0 <= j < |tiles| && j != i && tiles[j] == u
  {
    forall j: nat | j < |tiles| && j != i ensures tiles[j] != tiles[i] { AddrsDiffer(tiles, lo, hi, i, j); }
  }

  lemma TakeHandsOut(tiles: seq<Tile>, lo: nat, hi: nat, i: nat, r: nat)
    requires Tiled(tiles, lo, hi) && i < |tiles| && Fits(tiles[i], r)
    ensures HandsOut(tiles, Take(tiles, i, r), tiles[i], r)
  {
    var t := tiles[i];
    var mid := if t.size - r < BUCKET then [Tile(t.addr, t.size, false)]
      else [Tile(t.addr, r, false), Tile(t.addr + r, t.size - r, true)];
    forall u ensures u in Take(tiles, i, r) <==> (u in tiles && u != t) || u in mid {
      InSplice(tiles, i, i + 1, mid, u);
      TileElsewhere(tiles, lo, hi, i, u);
    }
  }

  // The tiles on either side of tile i, if free, are the ones that touch it.
  lemma Touching(tiles: seq<Tile>, lo: nat, hi: nat, i: nat, j: nat)
    requires Tiled(tiles, lo, hi) && i < |tiles| && j < |tiles|
    ensures EndsAt(tiles[j], tiles[i].addr) <==> tiles[j].free && j == i - 1
    ensures StartsAt(tiles[j], tiles[i].addr + tiles[i].size) <==> tiles[j].free && j == i + 1
  {
    var m := TiledSplit(tiles, lo, hi, j);
    var n := TiledSplit(tiles, lo, hi, i);
    if j < i {
      InOrder(tiles, lo, hi, j, i);
      if j + 1 < i {
        InOrder(tiles, lo, hi, j, j + 1); InOrder(tiles, lo, hi, j + 1, i); var _ := TiledSplit(tiles, lo, hi, j + 1);
      }
    } else if i < j {
      InOrder(tiles, lo, hi, i, j);
      if i + 1 < j {
        InOrder(tiles, lo, hi, i, i + 1); InOrder(tiles, lo, hi, i + 1, j); var _ := TiledSplit(tiles, lo, hi, i + 1);
      }
    }
  }

  // The bucket that a block given back becomes part of.
  function Grown(tiles: seq<Tile>, i: nat): (big: Tile)
    requires i < |tiles|
    ensures big.free
  {
    var a, b := GiveLo(tiles, i), GiveHi(tiles, i);
    Tile(tiles[a].addr, Sum(tiles[a..b]), true)
  }

  lemma GrownEnds(tiles: seq<Tile>, lo: nat, hi: nat, i: nat)
    requires Tiled(tiles, lo, hi) && i < |tiles|
    ensures Grown(tiles, i).addr == if FreeAt(tiles, i - 1) then tiles[i - 1].addr else tiles[i].addr
    ensures Grown(tiles, i).addr + Grown(tiles, i).size ==
            if FreeAt(tiles, i + 1) then tiles[i + 1].addr + tiles[i + 1].size else tiles[i].addr + tiles[i].size
  {
    var a, b := GiveLo(tiles, i), GiveHi(tiles, i);
    SumAround(tiles, a, i, b);
    if a < i { InOrder(tiles, lo, hi, a, i); assert tiles[a..i] == [tiles[a]]; } else { assert tiles[a..i] == []; }
    if i + 1 < b {
      InOrder(tiles, lo, hi, i, i + 1); assert tiles[i + 1..b] == [tiles[i + 1]];
    } else {
      assert tiles[i + 1..b] == [];
    }
    assert forall u :: Sum([u]) == u.size;
  }

  lemma GiveTiles(tiles: seq<Tile>, lo: nat, hi: nat, i: nat, u: Tile)
    requires Tiled(tiles, lo, hi) && i < |tiles|
    ensures u in Give(tiles, i) <==>
              (u in tiles && u != tiles[i] && !EndsAt(u, tiles[i].addr)
               && !StartsAt(u, tiles[i].addr + tiles[i].size)) || u == Grown(tiles, i)
  {
    var a, b := GiveLo(tiles, i), GiveHi(tiles, i);
    InSplice(tiles, a, b, [Grown(tiles, i)], u);
    TileElsewhere(tiles, lo, hi, i, u);
    forall j: nat | j < |tiles| && tiles[j] == u
      ensures EndsAt(u, tiles[i].addr) <==> u.free && j == i - 1
      ensures StartsAt(u, tiles[i].addr + tiles[i].size) <==> u.free && j == i + 1
    {
      Touching(tiles, lo, hi, i, j);
    }
  }

  // A bucket that touches tile i is the tile before it or the one behind.
  lemma Beside(tiles: seq<Tile>, lo: nat, hi: nat, i: nat, u: Tile)
    requires Tiled(tiles, lo, hi) && i < |tiles| && u in tiles
    ensures EndsAt(u, tiles[i].addr) ==> FreeAt(tiles, i - 1) && u == tiles[i - 1]
    ensures StartsAt(u, tiles[i].addr + tiles[i].size) ==> FreeAt(tiles, i + 1) && u == tiles[i + 1]
  {
    var j :| 0 <= j < |tiles| && tiles[j] == u;
    Touching(tiles, lo, hi, i, j);
  }

  // A free tile before tile i, or behind it, touches it.
  lemma FreeBeside(tiles: seq<Tile>, lo: nat, hi: nat, i: nat)
    requires Tiled(tiles, lo, hi) && i < |tiles|
    ensures FreeAt(tiles, i - 1) ==> tiles[i - 1] in tiles && EndsAt(tiles[i - 1], tiles[i].addr)
    ensures FreeAt(tiles, i + 1) ==> tiles[i + 1] in tiles && StartsAt(tiles[i + 1], tiles[i].addr + tiles[i].size)
  {
    if i > 0 { Touching(tiles, lo, hi, i, i - 1); }
    if i + 1 < |tiles| { Touching(tiles, lo, hi, i, i + 1); }
  }

  lemma GiveTakesBack(tiles: seq<Tile>, lo: nat, hi: nat, i: nat)
    requires Tiled(tiles, lo, hi) && i < |tiles| && !tiles[i].free
    ensures TakesBack(tiles, Give(tiles, i), tiles[i], Grown(tiles, i))
  {
    var t, big, after := tiles[i], Grown(tiles, i), Give(tiles, i);
    forall u
      ensures u in after <==> (u in tiles && u != t && !EndsAt(u, t.addr) && !StartsAt(u, t.addr + t.size)) || u == big
    {
      GiveTiles(tiles, lo, hi, i, u);
    }
    GrownEnds(tiles, lo, hi, i);
    GrownTouches(tiles, lo, hi, i, big);
  }

  lemma GrownTouches(tiles: seq<Tile>, lo: nat, hi: nat, i: nat, big: Tile)
    requires Tiled(tiles, lo, hi) && i < |tiles|
    requires big.addr == if FreeAt(tiles, i - 1) then tiles[i - 1].addr else tiles[i].addr
    requires big.addr + big.size == if FreeAt(tiles, i + 1) then tiles[i + 1].addr + tiles[i + 1].size
             else tiles[i].addr + tiles[i].size
    ensures var t := tiles[i];
            && (forall u :: u in tiles && EndsAt(u, t.addr) ==> big.addr == u.addr)
            && ((forall u :: u in tiles ==> !EndsAt(u, t.addr)) ==> big.addr == t.addr)
            && (forall u :: u in tiles && StartsAt(u, t.addr + t.size) ==> big.addr + big.size == u.addr + u.size)
            && ((forall u :: u in tiles ==> !StartsAt(u, t.addr + t.size)) ==> big.addr + big.size == t.addr + t.size)
  {
    FreeBeside(tiles, lo, hi, i);
    forall u | u in tiles
      ensures EndsAt(u, tiles[i].addr) ==> FreeAt(tiles, i - 1) && u == tiles[i - 1]
      ensures StartsAt(u, tiles[i].addr + tiles[i].size) ==> FreeAt(tiles, i + 1) && u == tiles[i + 1]
    {
      Beside(tiles, lo, hi, i, u);
    }
  }

  // ----- runs -----

  datatype Call = Malloc(n: nat) | Free(addr: nat)

  // The best bucket, as the search loop finds it.
  function BestOf(tiles: seq<Tile>, r: nat): (b: Option<Tile>)
    ensures b.Some? ==> b.value in tiles && Fits(b.value, r)
    ensures b.None? <==> NoneFits(tiles, r)
    decreases |tiles|
  {
    if tiles == [] then None
    else
      var last, b := tiles[|tiles| - 1], BestOf(tiles[..|tiles| - 1], r);
      if Fits(last, r) && (b.None? || b.value.size > last.size) then Some(last) else b
  }

  lemma {:induction false} BestOfIsBest(tiles: seq<Tile>, lo: nat, hi: nat, r: nat)
    requires Tiled(tiles, lo, hi) && BestOf(tiles, r).Some?
    ensures Best(tiles, r, BestOf(tiles, r).value)
    decreases |tiles|
  {
    var n := |tiles| - 1;
    var mid := TiledSplit(tiles, lo, hi, n);
    if BestOf(tiles[..n], r).Some? {
      BestOfIsBest(tiles[..n], lo, mid, r);
      var b := BestOf(tiles[..n], r).value;
      var j :| 0 <= j < n && tiles[..n][j] == b;
      InOrder(tiles, lo, hi, j, n);
    }
    forall u | u in tiles && Fits(u, r) ensures u == tiles[n] || (u in tiles[..n] && BestOf(tiles[..n], r).Some?) {
      var j :| 0 <= j < |tiles| && tiles[j] == u;
      assert j < n ==> tiles[..n][j] == u;
    }
  }

  lemma BestUnique(tiles: seq<Tile>, lo: nat, hi: nat, r: nat, t: Tile, u: Tile)
    requires Tiled(tiles, lo, hi) && Best(tiles, r, t) && Best(tiles, r, u)
    ensures t == u
  {
    var i :| 0 <= i < |tiles| && tiles[i] == t;
    var j :| 0 <= j < |tiles| && tiles[j] == u;
    if i != j { AddrsDiffer(tiles, lo, hi, i, j); }
  }

  function IndexOf(tiles: seq<Tile>, t: Tile): (i: nat)
    requires t in tiles
    ensures i < |tiles| && tiles[i] == t
  {
    if tiles[0] == t then 0 else 1 + IndexOf(tiles[1..], t)
  }

  ghost predicate IsLive(tiles: seq<Tile>, addr: nat) {
    exists t :: t in tiles && !t.free && t.addr == addr
  }

  ghost function LiveAt(tiles: seq<Tile>, addr: nat): (t: Tile)
    requires IsLive(tiles, addr)
    ensures t in tiles && !t.free && t.addr == addr
  {
    var t :| t in tiles && !t.free && t.addr == addr; t
  }

  // What one call makes of the arena.
  ghost function After(tiles: seq<Tile>, c: Call): seq<Tile> {
    match c
    case Malloc(n) =>
      if n > 0 && BestOf(tiles, RealSize(n)).Some?
      then Take(tiles, IndexOf(tiles, BestOf(tiles, RealSize(n)).value), RealSize(n)) else tiles
    case Free(addr) =>
      if IsLive(tiles, addr) then Give(tiles, IndexOf(tiles, LiveAt(tiles, addr))) else tiles
  }

  ghost function AfterAll(tiles: seq<Tile>, calls: seq<Call>): seq<Tile>
    decreases |calls|
  {
    if calls == [] then tiles else AfterAll(After(tiles, calls[0]), calls[1..])
  }

  // The bucket malloc takes is the one After takes, and a block is given back at most once.
  lemma MallocIsAfter(tiles: seq<Tile>, lo: nat, hi: nat, n: nat, i: nat)
    requires Tiled(tiles, lo, hi) && n > 0 && i < |tiles| && Best(tiles, RealSize(n), tiles[i])
    ensures Take(tiles, i, RealSize(n)) == After(tiles, Malloc(n))
  {
    BestOfIsBest(tiles, lo, hi, RealSize(n));
    BestUnique(tiles, lo, hi, RealSize(n), tiles[i], BestOf(tiles, RealSize(n)).value);
    var j := IndexOf(tiles, tiles[i]);
    if i != j { AddrsDiffer(tiles, lo, hi, i, j); }
  }

  lemma FreeIsAfter(tiles: seq<Tile>, lo: nat, hi: nat, i: nat)
    requires Tiled(tiles, lo, hi) && i < |tiles| && !tiles[i].free
    ensures Give(tiles, i) == After(tiles, Free(tiles[i].addr))
  {
    var j := IndexOf(tiles, LiveAt(tiles, tiles[i].addr));
    if i != j { AddrsDiffer(tiles, lo, hi, i, j); }
  }

  lemma AfterKeeps(tiles: seq<Tile>, lo: nat, hi: nat, c: Call)
    requires Wf(tiles, lo, hi)
    ensures Wf(After(tiles, c), lo, hi)
  {
    if c.Malloc? && c.n > 0 && BestOf(tiles, RealSize(c.n)).Some? {
      TakeKeeps(tiles, lo, hi, IndexOf(tiles, BestOf(tiles, RealSize(c.n)).value), RealSize(c.n));
    } else if c.Free? && IsLive(tiles, c.addr) {
      GiveKeeps(tiles, lo, hi, IndexOf(tiles, LiveAt(tiles, c.addr)));
    }
  }

  // In every run live and free tiles cover the arena, and no two free ones touch.
  lemma {:induction false} RunKeeps(tiles: seq<Tile>, lo: nat, hi: nat, calls: seq<Call>)
    requires Wf(tiles, lo, hi)
    ensures Wf(AfterAll(tiles, calls), lo, hi)
    decreases |calls|
  {
    if calls != [] {
      AfterKeeps(tiles, lo, hi, calls[0]);
      RunKeeps(After(tiles, calls[0]), lo, hi, calls[1..]);
    }
  }

  function FreeEach(addrs: seq<nat>): (r: seq<Call>)
    ensures |r| == |addrs|
  {
    if addrs == [] then [] else [Free(addrs[0])] + FreeEach(addrs[1..])
  }

  lemma LiveAfterFree(tiles: seq<Tile>, lo: nat, hi: nat, addr: nat)
    requires Wf(tiles, lo, hi) && IsLive(tiles, addr)
    ensures forall a: nat :: IsLive(After(tiles, Free(addr)), a) <==> IsLive(tiles, a) && a != addr
  {
    var t := LiveAt(tiles, addr);
    var i := IndexOf(tiles, t);
    var t' := Give(tiles, i);
    GiveLive(tiles, lo, hi, i);
    forall a: nat ensures IsLive(t', a) <==> IsLive(tiles, a) && a != addr {
      if IsLive(t', a) {
        var u := LiveAt(t', a);
        assert u in Live(t') && u in Live(tiles);
        var j := IndexOf(tiles, u);
        if j != i { AddrsDiffer(tiles, lo, hi, i, j); }
      }
      if IsLive(tiles, a) && a != addr {
        var u := LiveAt(tiles, a);
        assert u in Live(tiles) && u != tiles[i] && u in Live(t');
      }
    }
  }

  // Freeing all live blocks, in any order, restores the single initial bucket.
  lemma {:induction false} FreeAllRestores(tiles: seq<Tile>, lo: nat, hi: nat, addrs: seq<nat>)
    requires Wf(tiles, lo, hi) && lo < hi
    requires forall i, j :: 0 <= i < j < |addrs| ==> addrs[i] != addrs[j]
    requires forall a: nat :: a in addrs <==> IsLive(tiles, a)
    ensures AfterAll(tiles, FreeEach(addrs)) == [Tile(lo, hi - lo, true)]
    decreases |addrs|
  {
    if addrs == [] {
      forall t | t in Live(tiles) ensures false { assert IsLive(tiles, t.addr); }
      AllFreeIsOne(tiles, lo, hi);
    } else {
      var a := addrs[0];
      assert a in addrs;
      AfterKeeps(tiles, lo, hi, Free(a));
      LiveAfterFree(tiles, lo, hi, a);
      var rest := addrs[1..];
      forall b: nat ensures b in rest <==> IsLive(After(tiles, Free(a)), b) {
        assert b in addrs <==> b == a || b in rest;
      }
      FreeAllRestores(After(tiles, Free(a)), lo, hi, rest);
      assert FreeEach(addrs)[1..] == FreeEach(rest);
    }
  }

  // ----- how large a request can be -----

  // mm_maxsize plus the header: the largest free bucket.
  function Largest(fl: seq<Tile>): (m: nat)
    ensures m >= HEAD
    decreases |fl|
  {
    if fl == [] then HEAD
    else
      var m := Largest(fl[..|fl| - 1]);
      if fl[|fl| - 1].size > m then fl[|fl| - 1].size else m
  }

  lemma {:induction false} LargestIs(fl: seq<Tile>)
    ensures forall t :: t in fl ==> t.size <= Largest(fl)
    ensures Largest(fl) == HEAD || exists t :: t in fl && t.size == Largest(fl)
    decreases |fl|
  {
    if fl != [] {
      var n := |fl| - 1;
      LargestIs(fl[..n]);
      forall t | t in fl ensures t.size <= Largest(fl) {
        assert t in fl[..n] || t == fl[n];
      }
      assert fl[n] in fl;
    }
  }

  ghost predicate Succeeds(tiles: seq<Tile>, n: nat)
    requires n > 0
  {
    !NoneFits(tiles, RealSize(n))
  }

  // A larger request than mm_maxsize fails; every smaller one succeeds exactly when the largest bucket is aligned.
  lemma MaxSizeExact(tiles: seq<Tile>, lo: nat, hi: nat)
    requires Wf(tiles, lo, hi)
    ensures var m := Largest(Frees(tiles)) - HEAD;
            && (forall n: nat :: n > m ==> !Succeeds(tiles, n))
            && ((forall n: nat :: 0 < n <= m ==> Succeeds(tiles, n)) <==> Largest(Frees(tiles)) % ALIGN == 0)
  {
    var fl, M := Frees(tiles), Largest(Frees(tiles));
    var m := M - HEAD;
    LargestIs(fl);
    FreesAreFree(tiles);
    forall n: nat | n > m ensures !Succeeds(tiles, n) {
      forall t | t in tiles ensures !Fits(t, RealSize(n)) {
        assert t.free ==> t in fl;
      }
    }
    if M % ALIGN == 0 {
      forall n: nat | 0 < n <= m ensures Succeeds(tiles, n) {
        var t :| t in fl && t.size == M;
        assert RealSize(n) <= M;
        assert Fits(t, RealSize(n));
      }
    } else {
      assert m > 0;
      assert RealSize(m) > M;
      forall t | t in tiles ensures !Fits(t, RealSize(m)) {
        assert t.free ==> t in fl;
      }
      assert !Succeeds(tiles, m);
    }
  }

  // In an aligned arena every bucket is aligned.
  lemma AlignedBuckets(tiles: seq<Tile>, lo: nat, hi: nat)
    requires Tiled(tiles, lo, hi) && hi % ALIGN == 0
    ensures forall t :: t in tiles ==> t.size % ALIGN == 0
    ensures Largest(Frees(tiles)) % ALIGN == 0
  {
    forall t | t in tiles ensures t.size % ALIGN == 0 {
      var i :| 0 <= i < |tiles| && tiles[i] == t;
      var m := TiledSplit(tiles, lo, hi, i);
      var n := TiledSplit(tiles, lo, hi, i + 1);
      if i + 1 < |tiles| {
        InOrder(tiles, lo, hi, i, i + 1);
      } else {
        assert tiles[i..][1..] == [];
        assert tiles[i..][0] == t;
      }
    }
    LargestIs(Frees(tiles));
    FreesAreFree(tiles);
  }

  // What malloc hands out is aligned, inside the arena, and shares no byte with any other live block.
  lemma PayloadsApart(tiles: seq<Tile>, lo: nat, hi: nat, i: nat, j: nat, x: int)
    requires Tiled(tiles, lo, hi) && i < |tiles| && j < |tiles| && i != j
    ensures (tiles[i].addr + HEAD) % ALIGN == 0 && lo <= tiles[i].addr && tiles[i].addr + tiles[i].size <= hi
    ensures !(tiles[i].addr + HEAD <= x < tiles[i].addr + tiles[i].size
              && tiles[j].addr + HEAD <= x < tiles[j].addr + tiles[j].size)
  {
    var m := TiledSplit(tiles, lo, hi, i);
    InOrder(tiles, lo, hi, if i < j then i else j, if i < j then j else i);
  }
}
