// The free list as it lies in memory: headers and links at the start of each free tile.
module FreeList {
  import opened Arena

  // Address of bucket k, or NULL past the end.
  function Addr(fl: seq<Tile>, k: nat): nat {
    if k < |fl| then fl[k].addr else 0
  }

  // mem[a] is the size word of the bucket at a, mem[a + 8] its next pointer.
  predicate Linked(mem: seq<nat>, head: nat, fl: seq<Tile>) {
    && head == Addr(fl, 0)
    && forall k :: 0 <= k < |fl| ==> BucketAt(mem, fl, k)
  }

  predicate BucketAt(mem: seq<nat>, fl: seq<Tile>, k: nat)
    requires k < |fl|
  {
    var a := fl[k].addr;
    0 < a && a + HEAD < |mem| && mem[a] == fl[k].size && mem[a + HEAD] == Addr(fl, k + 1)
  }

  // Every tile, free or not, starts with its size.
  predicate Headed(mem: seq<nat>, tiles: seq<Tile>) {
    forall i :: 0 <= i < |tiles| ==> tiles[i].addr < |mem| && mem[tiles[i].addr] == tiles[i].size
  }

  predicate Spaced(tiles: seq<Tile>) {
    && (forall i :: 0 <= i < |tiles| ==> tiles[i].size >= BUCKET)
    && (forall i, j :: 0 <= i < j < |tiles| ==> tiles[i].addr + tiles[i].size <= tiles[j].addr)
  }

  lemma TiledSpaced(tiles: seq<Tile>, lo: nat, hi: nat)
    requires Tiled(tiles, lo, hi)
    ensures Spaced(tiles)
    ensures forall i :: 0 <= i < |tiles| ==> lo <= tiles[i].addr && tiles[i].addr + tiles[i].size <= hi
  {
    forall i | 0 <= i < |tiles|
      ensures tiles[i].size >= BUCKET && lo <= tiles[i].addr && tiles[i].addr + tiles[i].size <= hi
    {
      var m := TiledSplit(tiles, lo, hi, i);
    }
    forall i, j | 0 <= i < j < |tiles| ensures tiles[i].addr + tiles[i].size <= tiles[j].addr {
      InOrder(tiles, lo, hi, i, j);
    }
  }

  lemma {:induction false} FreesSpaced(tiles: seq<Tile>)
    requires Spaced(tiles)
    ensures Spaced(Frees(tiles))
    decreases |tiles|
  {
    if tiles != [] {
      var rest := tiles[1..];
      FreesSpaced(rest);
      forall j: nat | j < |Frees(rest)| ensures tiles[0].addr + tiles[0].size <= Frees(rest)[j].addr {
        var i := Locate(rest, j);
        assert rest[i] == tiles[i + 1];
      }
      if tiles[0].free {
        SpacedCons(tiles[0], Frees(rest));
      }
    }
  }

  lemma SpacedCons(t: Tile, tiles: seq<Tile>)
    requires Spaced(tiles) && t.size >= BUCKET && forall j :: 0 <= j < |tiles| ==> t.addr + t.size <= tiles[j].addr
    ensures Spaced([t] + tiles)
  {
  }

  // The free list is strictly sorted by address, and no two buckets touch.
  lemma FreeListSorted(tiles: seq<Tile>, lo: nat, hi: nat, k: nat)
    requires Wf(tiles, lo, hi) && k + 1 < |Frees(tiles)|
    ensures Frees(tiles)[k].addr + Frees(tiles)[k].size < Frees(tiles)[k + 1].addr
  {
    var i := Locate(tiles, k);
    var later := tiles[i + 1..];
    assert Frees(later)[0] == Frees(tiles)[k + 1];
    FreesAreFree(later);
    FreesAreFree(tiles);
    assert Frees(later)[0] in Frees(later);
    var j :| 0 <= j < |later| && later[j] == Frees(tiles)[k + 1];
    assert tiles[i] in Frees(tiles) && later[j] in Frees(later);
    InOrder(tiles, lo, hi, i, i + 1);
    if j > 0 {
      InOrder(tiles, lo, hi, i + 1, i + 1 + j);
      var m := TiledSplit(tiles, lo, hi, i + 1);
    }
  }

  // Bucket j still has its size word, and its link.
  predicate SizeKept(mem: seq<nat>, fl: seq<Tile>, j: nat)
    requires j < |fl|
  {
    fl[j].addr + HEAD < |mem| && mem[fl[j].addr] == fl[j].size
  }

  predicate NextKept(mem: seq<nat>, fl: seq<Tile>, j: nat)
    requires j < |fl|
  {
    fl[j].addr + HEAD < |mem| && mem[fl[j].addr + HEAD] == Addr(fl, j + 1)
  }

  // Buckets k..m of the list become `mid`, which is empty or one bucket.
  lemma Splice(mem: seq<nat>, head: nat, fl: seq<Tile>, k: nat, m: nat, mid: seq<Tile>, mem': seq<nat>, head': nat)
    requires Linked(mem, head, fl) && k <= m <= |fl| && |mid| <= 1 && |mem'| == |mem|
    requires forall j: nat {:trigger SizeKept(mem', fl, j)} :: j < |fl| && (j < k || m <= j) ==> SizeKept(mem', fl, j)
    requires forall j: nat {:trigger NextKept(mem', fl, j)} ::
               j < |fl| && (j + 1 < k || m <= j) ==> NextKept(mem', fl, j)
    requires var to := if mid == [] then Addr(fl, m) else mid[0].addr;
             if k == 0 then head' == to
               else head' == head && fl[k - 1].addr + HEAD < |mem'| && mem'[fl[k - 1].addr + HEAD] == to
    requires forall t ::
               t in mid ==>
                 0 < t.addr && t.addr + HEAD < |mem| && mem'[t.addr] == t.size && mem'[t.addr + HEAD] == Addr(fl, m)
    ensures Linked(mem', head', fl[..k] + mid + fl[m..])
  {
    var fl' := fl[..k] + mid + fl[m..];
    forall j: nat {:trigger BucketAt(mem', fl', j)} | j < |fl'| ensures BucketAt(mem', fl', j) {
      if j < k {
        assert BucketAt(mem, fl, j) && SizeKept(mem', fl, j);
        assert j + 1 < k ==> NextKept(mem', fl, j);
        assert fl'[j] == fl[j];
      } else if j < k + |mid| {
        assert fl'[j] == mid[0] && mid[0] in mid;
      } else {
        var i := j - k - |mid| + m;
        assert BucketAt(mem, fl, i) && SizeKept(mem', fl, i) && NextKept(mem', fl, i);
        assert fl'[j] == fl[i];
      }
    }
  }

  lemma HeadedSplice(mem: seq<nat>, tiles: seq<Tile>, i: nat, m: nat, mid: seq<Tile>, mem': seq<nat>)
    requires Headed(mem, tiles) && i <= m <= |tiles| && |mem'| == |mem|
    requires forall j :: 0 <= j < |tiles| && (j < i || m <= j) ==> mem'[tiles[j].addr] == tiles[j].size
    requires forall t :: t in mid ==> t.addr < |mem| && mem'[t.addr] == t.size
    ensures Headed(mem', tiles[..i] + mid + tiles[m..])
  {
    var t' := tiles[..i] + mid + tiles[m..];
    forall j | 0 <= j < |t'| ensures t'[j].addr < |mem'| && mem'[t'[j].addr] == t'[j].size {
      if i <= j < i + |mid| { assert t'[j] == mid[j - i] && t'[j] in mid; }
    }
  }

  // ----- where a live tile belongs in the list -----

  lemma BeforeTile(tiles: seq<Tile>, i: nat, j: nat)
    requires Spaced(tiles) && i < |tiles| && j < |Frees(tiles[..i])|
    ensures Frees(tiles[..i])[j].addr < tiles[i].addr
  {
    var x := Locate(tiles[..i], j);
    assert tiles[..i][x] == tiles[x];
  }

  lemma BehindTile(tiles: seq<Tile>, i: nat, j: nat)
    requires Spaced(tiles) && i < |tiles| && j < |Frees(tiles[i + 1..])|
    ensures Frees(tiles[i + 1..])[j].addr > tiles[i].addr
  {
    var x := Locate(tiles[i + 1..], j);
    assert tiles[i + 1..][x] == tiles[x + i + 1];
  }

  lemma FreeOrder(tiles: seq<Tile>, lo: nat, hi: nat, i: nat)
    requires Tiled(tiles, lo, hi) && i < |tiles| && !tiles[i].free
    ensures var fl, k, t := Frees(tiles), |Frees(tiles[..i])|, tiles[i];
            && fl == Frees(tiles[..i]) + Frees(tiles[i + 1..])
            && (forall j :: 0 <= j < k ==> fl[j].addr < t.addr)
            && (forall j :: k <= j < |fl| ==> fl[j].addr > t.addr)
  {
    var before, after, t := Frees(tiles[..i]), Frees(tiles[i + 1..]), tiles[i];
    assert tiles == tiles[..i] + ([t] + tiles[i + 1..]);
    FreesAppend(tiles[..i], [t] + tiles[i + 1..]);
    FreesAppend([t], tiles[i + 1..]);
    assert Frees([t]) == [];
    TiledSpaced(tiles, lo, hi);
    forall j: nat | j < |before| ensures before[j].addr < t.addr { BeforeTile(tiles, i, j); }
    forall j: nat | j < |after| ensures after[j].addr > t.addr { BehindTile(tiles, i, j); }
    Around(before, after, t.addr);
  }

  lemma Around(before: seq<Tile>, after: seq<Tile>, a: nat)
    requires (forall j: nat :: j < |before| ==> before[j].addr < a)
    requires (forall j: nat :: j < |after| ==> after[j].addr > a)
    ensures forall j :: 0 <= j < |before| ==> (before + after)[j].addr < a
    ensures forall j :: |before| <= j < |before + after| ==> (before + after)[j].addr > a
  {
  }

  lemma FreePlace(tiles: seq<Tile>, lo: nat, hi: nat, i: nat)
    requires Wf(tiles, lo, hi) && i < |tiles| && !tiles[i].free
    ensures var fl, k, t := Frees(tiles), |Frees(tiles[..i])|, tiles[i];
            && k <= |fl|
            && ((k > 0 && fl[k - 1].addr + fl[k - 1].size == t.addr) <==> FreeAt(tiles, i - 1))
            && ((k < |fl| && fl[k].addr == t.addr + t.size) <==> FreeAt(tiles, i + 1))
            && (FreeAt(tiles, i - 1) ==> fl[k - 1] == tiles[i - 1])
            && (FreeAt(tiles, i + 1) ==> fl[k] == tiles[i + 1])
  {
    FreeOrder(tiles, lo, hi, i);
    FreesGive(tiles, i);
    var before, after, t := tiles[..i], tiles[i + 1..], tiles[i];
    var fl, k := Frees(tiles), |Frees(before)|;
    if i > 0 { InOrder(tiles, lo, hi, i - 1, i); }
    if i + 1 < |tiles| { InOrder(tiles, lo, hi, i, i + 1); }
    if k > 0 && fl[k - 1].addr + fl[k - 1].size == t.addr {
      assert fl[k - 1] in Frees(before);
      TouchesBefore(tiles, lo, hi, i, fl[k - 1]);
    }
    if k < |fl| && fl[k].addr == t.addr + t.size {
      assert fl[k] == Frees(after)[0];
      TouchesAfter(tiles, lo, hi, i, fl[k]);
    }
  }

  lemma InFrees(tiles: seq<Tile>, u: Tile)
    requires u in Frees(tiles)
    ensures u in tiles && u.free
  {
    FreesAreFree(tiles);
  }

  lemma TouchesBefore(tiles: seq<Tile>, lo: nat, hi: nat, i: nat, u: Tile)
    requires Tiled(tiles, lo, hi) && i < |tiles| && u in Frees(tiles[..i]) && u.addr + u.size == tiles[i].addr
    ensures FreeAt(tiles, i - 1)
  {
    InFrees(tiles[..i], u);
    var j :| 0 <= j < i && tiles[..i][j] == u;
    TiledSpaced(tiles, lo, hi);
    assert tiles[i - 1].addr + tiles[i - 1].size <= tiles[i].addr;
  }

  lemma TouchesAfter(tiles: seq<Tile>, lo: nat, hi: nat, i: nat, u: Tile)
    requires Tiled(tiles, lo, hi) && i < |tiles| && u in Frees(tiles[i + 1..])
    requires u.addr == tiles[i].addr + tiles[i].size
    ensures FreeAt(tiles, i + 1)
  {
    InFrees(tiles[i + 1..], u);
    var j :| 0 <= j < |tiles[i + 1..]| && tiles[i + 1..][j] == u;
    TiledSpaced(tiles, lo, hi);
    assert tiles[i + 1 + j] == u;
    if j > 0 {
      assert tiles[i].addr + tiles[i].size <= tiles[i + 1].addr;
    }
  }
}
