// Deleting a dead block (del_bb plus unlinking) and merging a block into its only predecessor.
module DeleteMerge {
  import opened Options
  import opened Opcodes
  import opened Graphs
  import opened Preds
  import opened Rewrites
  import opened Ways

  // ----- del_bb -----

  function NopOut(code: seq<Op>, from: nat, to: nat): (r: seq<Op>)
    requires from <= to <= |code|
    ensures |r| == |code|
    ensures forall i :: 0 <= i < |code| ==> r[i] == if from <= i < to then SetToNop(code[i]) else code[i]
  {
    seq(|code|, i requires 0 <= i < |code| => if from <= i < to then SetToNop(code[i]) else code[i])
  }

  // del_bb(q)
  function DelBb(g: Graph, q: nat): (r: Graph)
    requires q < |g.bb|
    ensures |r.bb| == |g.bb|
  {
    var bb := RmBb(g.bb, q);
    Graph(if q + g.bb[q].len <= |g.code| then NopOut(g.code, q, q + g.bb[q].len) else g.code,
          bb[q := bb[q].(len := 0, used := false)])
  }

  // del_bb(p->next); p->next = p->next->next
  function DeleteNext(g: Graph, p: nat, q: nat): Graph
    requires p < |g.bb| && q < |g.bb|
  {
    var g1 := DelBb(g, q);
    g1.(bb := g1.bb[p := g1.bb[p].(next := g1.bb[q].next)])
  }

  ghost predicate Deleted(g: Graph, g': Graph, p: nat, q: nat) {
    && p < q < |g.bb| && |g'.bb| == |g.bb| && |g'.code| == |g.code|
    && (forall i ::
          0 <= i < |g.code| ==> g'.code[i] == if q <= i < q + g.bb[q].len then SetToNop(g.code[i]) else g.code[i])
    && Fewer(g.bb[q := g.bb[q].(len := 0)][p := g.bb[p].(next := g.bb[q].next)], g'.bb)
    && !g'.bb[q].used
    && (forall b :: 0 <= b < |g.bb| && b != q ==> g'.bb[b].used == g.bb[b].used)
  }

  ghost predicate CanDelete(g: Graph, p: nat, q: nat) {
    && p < |g.bb| && g.bb[p].start.Some? && g.bb[p].next == Some(q)
    && q < |g.bb| && (!g.bb[q].used || g.bb[q].pred == [])
  }

  lemma DeleteBlocks(g: Graph, p: nat, q: nat)
    requires InRange(g) && NoDups(g.bb) && Edged(g.bb) && CanDelete(g, p, q)
    ensures var g' := DeleteNext(g, p, q);
            Deleted(g, g', p, q) && NoDups(g'.bb) && Edged(g'.bb)
  {
    assert BlockInRange(g, p) && BlockInRange(g, q);
    var b1 := RmBb(g.bb, q);
    RmBbFacts(g.bb, q);
    RemovedKeepsEdged(g.bb, b1, q);
    var b2 := DeleteNext(g, p, q).bb;
    SameFlow(b1, b2);
  }

  // Flow edges, use and predecessors are the same.
  lemma SameFlow(b1: seq<Block>, b2: seq<Block>)
    requires NoDups(b1) && Edged(b1) && |b1| == |b2|
    requires forall b ::
               0 <= b < |b1| ==>
                 EdgesOf(b2[b]) == EdgesOf(b1[b]) && b2[b].used == b1[b].used && b2[b].pred == b1[b].pred
    ensures NoDups(b2) && Edged(b2)
  {
    forall b: nat, t: nat {:trigger HasEdge(b2[b], t)} | b < |b2| && b2[b].used && HasEdge(b2[b], t)
      ensures t < |b2| && b2[t].used && b in b2[t].pred
    {
      assert HasEdge(b1[b], t) by { assert InEdges(EdgesOf(b2[b]), t); }
    }
  }

  lemma DeletedInRange(g: Graph, g': Graph, p: nat, q: nat)
    requires InRange(g) && Deleted(g, g', p, q) && g.bb[p].next == Some(q)
    ensures InRange(g')
  {
    forall b | 0 <= b < |g'.bb| ensures BlockInRange(g', b) {
      assert BlockInRange(g, b) && BlockInRange(g, q);
      assert forall t: nat :: HasEdge(g'.bb[b], t) == HasEdge(g.bb[b], t);
    }
  }

  lemma DeletedCovered(g: Graph, g': Graph, p: nat, q: nat)
    requires Covered(g) && Deleted(g, g', p, q)
    ensures Covered(g')
  {
    forall i | 0 <= i < |g'.code| && !g'.code[i].code.Nop? ensures exists b :: Owns(g', b, i) {
      var b :| Owns(g, b, i);
      assert Owns(g', b, i);
    }
  }

  lemma DeletedNextSkips(g: Graph, g': Graph, p: nat, q: nat)
    requires NextSkips(g) && Deleted(g, g', p, q) && g.bb[q].start.Some? && g.bb[p].next == Some(q)
    ensures NextSkips(g')
  {
    forall b: nat, c: nat | b < c < |g'.bb| && g'.bb[b].start.Some? && Skipped(g'.bb[b], c)
      ensures !g'.bb[c].used && g'.bb[c].len == 0
    {
      if b == p && c > q {
        assert Skipped(g.bb[q], c);
      } else if c != q {
        assert Skipped(g.bb[b], c);
      }
    }
  }

  // The code of another block stays.
  lemma DeletedCode(g: Graph, g': Graph, p: nat, q: nat, b: nat)
    requires Disjoint(g) && Deleted(g, g', p, q) && b < |g.bb| && b != q && 0 < g.bb[b].len
    requires b + g.bb[b].len <= |g.code|
    ensures g'.code[b .. b + g.bb[b].len] == g.code[b .. b + g.bb[b].len]
    ensures g'.code[b .. b + g.bb[b].len - 1] == g.code[b .. b + g.bb[b].len - 1]
  {
    var n, m := g.bb[b].len, g.bb[q].len;
    if m > 0 {
      if b < q { assert b + n <= q; } else { assert q + m <= b; }
    }
  }

  lemma DeletedAt(g: Graph, g': Graph, p: nat, q: nat, b: nat)
    requires InRange(g') && Disjoint(g) && Deleted(g, g', p, q)
    requires b < |g.bb| && BlockInRange(g, b) && Shaped(g, b) && Placed(g, b) && BlockInRange(g', b)
    ensures Shaped(g', b) && Placed(g', b)
    ensures b != q && g.bb[b].used ==> Ops(g', b) == Ops(g, b)
  {
    if b != q {
      assert EdgesOf(g'.bb[b]) == EdgesOf(g.bb[b]) && g'.bb[b].len == g.bb[b].len && g'.bb[b].start == g.bb[b].start;
      if g.bb[b].len > 0 {
        DeletedCode(g, g', p, q, b);
      }
    }
  }

  lemma DeletedLayout(g: Graph, g': Graph, p: nat, q: nat)
    requires Layout(g) && Deleted(g, g', p, q) && g.bb[p].next == Some(q)
    ensures Layout(g')
    ensures forall b :: 0 <= b < |g.bb| && b != q && g.bb[b].used ==> Ops(g', b) == Ops(g, b)
  {
    assert BlockInRange(g, p);
    DeletedInRange(g, g', p, q);
    DeletedCovered(g, g', p, q);
    DeletedNextSkips(g, g', p, q);
    forall b | 0 <= b < |g'.bb|
      ensures BlockInRange(g', b) && Shaped(g', b) && Placed(g', b)
      ensures b != q && g.bb[b].used ==> Ops(g', b) == Ops(g, b)
    {
      assert BlockInRange(g, b) && Shaped(g, b) && Placed(g, b) && BlockInRange(g', b);
      DeletedAt(g, g', p, q, b);
    }
  }

  lemma DeletedCodeOk(g: Graph, g': Graph, p: nat, q: nat, T: nat, bools: set<nat>)
    requires CodeOk(g.code, T, bools) && Deleted(g, g', p, q)
    ensures CodeOk(g'.code, T, bools)
  {
  }

  lemma DeletedOnward(g: Graph, g': Graph, p: nat, q: nat)
    requires InRange(g) && Disjoint(g) && Deleted(g, g', p, q)
    ensures AllOnward(g, g')
  {
    forall b: nat {:trigger OnwardFrom(g, g', b)} | b < |g'.bb| && g'.bb[b].used ensures OnwardFrom(g, g', b) {
      assert BlockInRange(g, b) && b != q;
      if g.bb[b].len > 0 { DeletedCode(g, g', p, q, b); }
      SameOnward(g, g', b);
    }
  }

  // Deleting a block nobody jumps to changes nothing that can be observed.
  lemma DeleteEquivalent(w: World, g: Graph, p: nat, q: nat, T: nat, bools: set<nat>)
    requires Inv(g, T, bools) && CanDelete(g, p, q)
    ensures var g' := DeleteNext(g, p, q);
            Inv(g', T, bools) && Equivalent(w, g, g', T, bools) && Deleted(g, g', p, q)
  {
    var g' := DeleteNext(g, p, q);
    DeleteBlocks(g, p, q);
    DeletedLayout(g, g', p, q);
    DeletedCodeOk(g, g', p, q, T, bools);
    InvClosed(g, T, bools);
    DeletedOnward(g, g', p, q);
    TestsApartStill(g, g', bools);
    forall b: nat, s | b < |g'.bb| && g'.bb[b].used && StateOk(s, T, bools) ensures Hop(w, g, g', b, s) {
      ExecOpsEdges(w, Ops(g, b), g.bb[b], g'.bb[b], s);
    }
    InvClosed(g', T, bools);
    ShortcutEquivalent(w, g, g', T, bools);
  }

  // ----- merging p into x -----

  function MoveRef(bb: seq<Block>, r: Ref, p: nat, x: nat): (r': seq<Block>)
    ensures |r'| == |bb|
  {
    AddRef(DropRef(bb, r, p), r, x)
  }

  // x takes over p's code up to its last instruction, and p's edges.
  function Merge(g: Graph, x: nat, p: nat): Graph
    requires x < p < |g.bb|
  {
    var e := EdgesOf(g.bb[p]);
    var b0 := DelPred(g.bb, p, x);
    var b1 := MoveRef(MoveRef(MoveRef(MoveRef(b0, e.jmp1, p, x), e.jmp2, p, x), e.ext, p, x), e.follow, p, x);
    var b2 := b1[x := WithEdges(b1[x].(len := p + g.bb[p].len - x), e)];
    g.(bb := b2[p := b2[p].(used := false, len := 0)])
  }

  ghost predicate CanMerge(g: Graph, x: nat, p: nat) {
    && x < p < |g.bb| && g.bb[p].used && g.bb[p].pred == [x] && g.bb[x].used
    && g.bb[x].follow == Some(p) && g.bb[x].next == Some(p)
    && g.bb[x].jmp1.None? && g.bb[x].jmp2.None? && g.bb[x].ext.None?
  }

  ghost predicate Merged(g: Graph, g': Graph, x: nat, p: nat) {
    && x < p < |g.bb| && |g'.bb| == |g.bb| && g'.code == g.code
    && !g'.bb[p].used
    && Fewer(g.bb[x := WithEdges(g.bb[x].(len := p + g.bb[p].len - x), EdgesOf(g.bb[p]))][p := g.bb[p].(len := 0)],
             g'.bb)
    && (forall b :: 0 <= b < |g.bb| && b != p ==> g'.bb[b].used == g.bb[b].used)
  }

  // The predecessor lists while p's edges e move to x.
  ghost predicate Moved(bb: seq<Block>, bb': seq<Block>, e: Edges, p: nat, x: nat) {
    && NoDups(bb') && Fewer(bb, bb') && SameUsed(bb, bb')
    && forall t: nat, y: nat {:trigger y in bb'[t].pred} {:trigger y in bb[t].pred} ::
         t < |bb| ==>
           && (y in bb[t].pred && y != p ==> y in bb'[t].pred)
           && (InEdges(e, t) ==> x in bb'[t].pred)
  }

  lemma MovedOne(b0: seq<Block>, b1: seq<Block>, e: Edges, r: Ref, e': Edges, p: nat, x: nat)
    requires Moved(b0, b1, e, p, x) && p != x
    requires forall t: nat :: InEdges(e', t) ==> InEdges(e, t) || r == Some(t)
    requires r.Some? ==> r.value < |b0|
    ensures Moved(b0, MoveRef(b1, r, p, x), e', p, x)
  {
    DropRefFacts(b1, r, p);
    var b2 := DropRef(b1, r, p);
    if r.Some? { AddPredFacts(b2, r.value, x); }
    MovedStep(b0, b1, b2, MoveRef(b1, r, p, x), e, r, e', p, x);
  }

  lemma MovedStep(b0: seq<Block>, b1: seq<Block>, b2: seq<Block>, b3: seq<Block>, e: Edges, r: Ref, e': Edges, p: nat,
                  x: nat)
    requires Moved(b0, b1, e, p, x) && p != x && Dropped(b1, b2, Only(r), p)
    requires if r.Some? then r.value < |b0| && Gained(b2, b3, r.value, x) else b3 == b2
    requires forall t: nat :: InEdges(e', t) ==> InEdges(e, t) || r == Some(t)
    ensures Moved(b0, b3, e', p, x)
  {
    forall t: nat, y: nat {:trigger y in b3[t].pred} | t < |b0|
      ensures y in b0[t].pred && y != p ==> y in b3[t].pred
      ensures InEdges(e', t) ==> x in b3[t].pred
    {
      assert InEdges(e, t) ==> x in b1[t].pred;
      assert x in b1[t].pred ==> x in b2[t].pred;
      assert x in b2[t].pred ==> x in b3[t].pred;
    }
  }

  lemma MovedAll(b0: seq<Block>, e: Edges, p: nat, x: nat)
    requires NoDups(b0) && p != x && (forall t: nat :: InEdges(e, t) ==> t < |b0|)
    ensures Moved(b0, MoveRef(MoveRef(MoveRef(MoveRef(b0, e.jmp1, p, x), e.jmp2, p, x), e.ext, p, x), e.follow, p, x),
                  e, p, x)
  {
    assert Moved(b0, b0, Only(None), p, x);
    assert forall r: Ref ::
             r.Some? && (r == e.jmp1 || r == e.jmp2 || r == e.ext || r == e.follow) ==> InEdges(e, r.value);
    MovedOne(b0, b0, Only(None), e.jmp1, Only(e.jmp1), p, x);
    var b1 := MoveRef(b0, e.jmp1, p, x);
    MovedOne(b0, b1, Only(e.jmp1), e.jmp2, Edges(e.jmp1, e.jmp2, None, None), p, x);
    var b2 := MoveRef(b1, e.jmp2, p, x);
    MovedOne(b0, b2, Edges(e.jmp1, e.jmp2, None, None), e.ext, Edges(e.jmp1, e.jmp2, e.ext, None), p, x);
    var b3 := MoveRef(b2, e.ext, p, x);
    MovedOne(b0, b3, Edges(e.jmp1, e.jmp2, e.ext, None), e.follow, e, p, x);
  }

  lemma MergeBlocks(g: Graph, x: nat, p: nat)
    requires NoDups(g.bb) && Edged(g.bb) && CanMerge(g, x, p)
    ensures var g' := Merge(g, x, p);
            Merged(g, g', x, p) && NoDups(g'.bb) && Edged(g'.bb)
  {
    var e := EdgesOf(g.bb[p]);
    var b0 := DelPred(g.bb, p, x);
    DelPredFacts(g.bb, p, x);
    forall t: nat | InEdges(e, t) ensures t < |b0| {
      assert HasEdge(g.bb[p], t);
    }
    MovedAll(b0, e, p, x);
    var b1 := MoveRef(MoveRef(MoveRef(MoveRef(b0, e.jmp1, p, x), e.jmp2, p, x), e.ext, p, x), e.follow, p, x);
    MergedBy(g, b0, b1, Merge(g, x, p), x, p);
  }

  lemma MergedBy(g: Graph, b0: seq<Block>, b1: seq<Block>, g': Graph, x: nat, p: nat)
    requires Edged(g.bb) && CanMerge(g, x, p)
    requires Dropped(g.bb, b0, Only(Some(p)), x) && Moved(b0, b1, EdgesOf(g.bb[p]), p, x)
    requires var b2 := b1[x := WithEdges(b1[x].(len := p + g.bb[p].len - x), EdgesOf(g.bb[p]))];
             g' == g.(bb := b2[p := b2[p].(used := false, len := 0)])
    ensures Merged(g, g', x, p) && NoDups(g'.bb) && Edged(g'.bb)
  {
    var bb' := g'.bb;
    forall b: nat, t: nat {:trigger HasEdge(bb'[b], t)} | b < |bb'| && bb'[b].used && HasEdge(bb'[b], t)
      ensures t < |bb'| && bb'[t].used && b in bb'[t].pred
    {
      var from := if b == x then p else b;
      assert HasEdge(g.bb[from], t);
      assert from in g.bb[t].pred;
      assert t != p;
      if b == x {
        assert InEdges(EdgesOf(g.bb[p]), t);
      } else {
        assert b in b0[t].pred;
      }
    }
  }

  // Between x and p there is nothing left but NOPs.
  lemma GapIsNop(g: Graph, x: nat, p: nat, i: nat)
    requires InRange(g) && Disjoint(g) && Covered(g) && NextSkips(g) && CanMerge(g, x, p)
    requires x + g.bb[x].len <= i < p
    ensures i < |g.code| && g.code[i].code.Nop?
  {
    assert BlockInRange(g, p) && BlockInRange(g, x);
    forall b | Owns(g, b, i) ensures false {
    }
  }

  lemma MergedInRange(g: Graph, g': Graph, x: nat, p: nat)
    requires InRange(g) && Merged(g, g', x, p) && g.bb[p].used && g.bb[x].used
    ensures InRange(g')
  {
    assert BlockInRange(g, p) && BlockInRange(g, x);
    forall b | 0 <= b < |g'.bb| ensures BlockInRange(g', b) {
      assert BlockInRange(g, b);
      assert forall t: nat :: HasEdge(g'.bb[b], t) ==> HasEdge(g.bb[if b == x then p else b], t);
    }
  }

  lemma MergedDisjoint(g: Graph, g': Graph, x: nat, p: nat)
    requires InRange(g) && Disjoint(g) && NextSkips(g) && Merged(g, g', x, p) && CanMerge(g, x, p)
    ensures Disjoint(g')
  {
    assert BlockInRange(g, x) && BlockInRange(g, p);
    forall b, c | 0 <= b < c < |g'.bb| && (g'.bb[c].used || g'.bb[c].len > 0) && g'.bb[b].len > 0
      ensures b + g'.bb[b].len <= c
    {
      if b == x {
        if g.bb[p].len > 0 { assert p + g.bb[p].len <= c; }
      } else if c == x {
        assert b + g.bb[b].len <= x;
      }
    }
  }

  lemma MergedCovered(g: Graph, g': Graph, x: nat, p: nat)
    requires InRange(g) && Disjoint(g) && Covered(g) && NextSkips(g) && Merged(g, g', x, p) && CanMerge(g, x, p)
    ensures Covered(g')
  {
    assert g.bb[x].len > 0 ==> x + g.bb[x].len <= p;
    forall i | 0 <= i < |g'.code| && !g'.code[i].code.Nop? ensures exists b :: Owns(g', b, i) {
      var b :| Owns(g, b, i);
      assert Owns(g', if b == p then x else b, i);
    }
  }

  lemma MergedNextSkips(g: Graph, g': Graph, x: nat, p: nat)
    requires NextSkips(g) && Merged(g, g', x, p)
    requires g.bb[x].used && g.bb[p].used
    ensures NextSkips(g')
  {
    forall b: nat, c: nat | b < c < |g'.bb| && g'.bb[b].start.Some? && Skipped(g'.bb[b], c)
      ensures !g'.bb[c].used && g'.bb[c].len == 0
    {
      assert Skipped(g.bb[b], c);
    }
  }

  // The merged block is x's code, NOPs, p's code.
  lemma MergedOps(g: Graph, g': Graph, x: nat, p: nat) returns (gap: seq<Op>)
    requires InRange(g) && InRange(g') && Disjoint(g) && Covered(g) && NextSkips(g) && Merged(g, g', x, p)
    requires CanMerge(g, x, p)
    ensures Ops(g', x) == Ops(g, x) + gap + Ops(g, p)
    ensures forall i :: 0 <= i < |gap| ==> gap[i].code.Nop?
    ensures g.bb[x].used && g.bb[p].used && x + g.bb[x].len <= p
  {
    assert BlockInRange(g, x) && BlockInRange(g', x) && BlockInRange(g, p);
    assert g.bb[x].len > 0 ==> x + g.bb[x].len <= p;
    var m := x + g.bb[x].len;
    gap := g.code[m .. p];
    forall i | 0 <= i < |gap| ensures gap[i].code.Nop? {
      GapIsNop(g, x, p, m + i);
    }
    MergedSlices(g, g', x, p, gap);
  }

  lemma MergedSlices(g: Graph, g': Graph, x: nat, p: nat, gap: seq<Op>)
    requires Merged(g, g', x, p) && BlockInRange(g, x) && BlockInRange(g', x) && BlockInRange(g, p) && g.bb[x].used
    requires g.bb[p].used
    requires x + g.bb[x].len <= p && p <= |g.code| && gap == g.code[x + g.bb[x].len .. p]
    ensures Ops(g', x) == Ops(g, x) + gap + Ops(g, p)
  {
    assert g'.bb[x].len == p + g.bb[p].len - x && g'.bb[x].start == Some(x);
    if g.bb[p].len == 0 { assert Ops(g, p) == []; }
    if g.bb[x].len == 0 { assert Ops(g, x) == []; }
  }

  lemma StraightSum(a: seq<Op>, b: seq<Op>)
    requires Straight(a) && Straight(b)
    ensures Straight(a + b)
  {
  }

  lemma NopsAreStraight(gap: seq<Op>)
    requires forall i :: 0 <= i < |gap| ==> gap[i].code.Nop?
    ensures Straight(gap)
  {
  }

  // x had no jump at its end.
  lemma PlainIsStraight(g: Graph, x: nat)
    requires InRange(g) && x < |g.bb| && BlockInRange(g, x) && Shaped(g, x)
    requires g.bb[x].jmp1.None? && g.bb[x].jmp2.None? && g.bb[x].ext.None?
    ensures Straight(Ops(g, x))
  {
    if g.bb[x].len > 0 {
      var n := g.bb[x].len;
      assert Ops(g, x) == g.code[x .. x + n - 1] + [g.code[x + n - 1]];
    }
  }

  // Shaped in terms of the block's own instructions.
  lemma ShapedByOps(g: Graph, b: nat)
    requires b < |g.bb| && BlockInRange(g, b) && 0 < g.bb[b].len
    ensures |Ops(g, b)| == g.bb[b].len
    ensures Shaped(g, b) <==> Straight(Ops(g, b)[..g.bb[b].len - 1]) && TailShape(Ops(g, b)[g.bb[b].len - 1].code, EdgesOf(g.bb[b]))
    ensures FallsThrough(g, b) <==> FallsAfter(Ops(g, b)[g.bb[b].len - 1].code)
  {
    var n := g.bb[b].len;
    assert Ops(g, b) == g.code[b .. b + n];
    assert Ops(g, b)[..n - 1] == g.code[b .. b + n - 1];
  }

  lemma ShapedAfter(g: Graph, g': Graph, x: nat, p: nat, pre: seq<Op>)
    requires x < |g'.bb| && BlockInRange(g', x) && 0 < g'.bb[x].len
    requires p < |g.bb| && BlockInRange(g, p) && Shaped(g, p) && g.bb[p].used
    requires Straight(pre) && Ops(g', x) == pre + Ops(g, p)
    requires EdgesOf(g'.bb[x]) == EdgesOf(g.bb[p])
    ensures Shaped(g', x)
    ensures FallsThrough(g', x) ==> FallsThrough(g, p)
  {
    ShapedByOps(g', x);
    MergedTail(pre, Ops(g, p), Ops(g', x));
    if g.bb[p].len > 0 {
      ShapedByOps(g, p);
      StraightSum(pre, Ops(g, p)[..g.bb[p].len - 1]);
    } else {
      assert Ops(g, p) == [];
      assert EdgesOf(g.bb[p]).jmp1.None? && EdgesOf(g.bb[p]).jmp2.None? && EdgesOf(g.bb[p]).ext.None?;
    }
  }

  lemma MergedShaped(g: Graph, g': Graph, x: nat, p: nat)
    requires InRange(g) && InRange(g') && Disjoint(g) && Covered(g) && NextSkips(g) && Merged(g, g', x, p)
    requires CanMerge(g, x, p)
    requires BlockInRange(g, x) && Shaped(g, x) && BlockInRange(g, p) && Shaped(g, p)
    ensures BlockInRange(g', x) && Shaped(g', x) && 0 < g'.bb[x].len
    ensures FallsThrough(g', x) ==> FallsThrough(g, p)
  {
    var gap := MergedOps(g, g', x, p);
    PlainIsStraight(g, x);
    NopsAreStraight(gap);
    StraightSum(Ops(g, x), gap);
    ShapedAfter(g, g', x, p, Ops(g, x) + gap);
  }

  lemma MergedTail(pre: seq<Op>, ops: seq<Op>, all: seq<Op>)
    requires Straight(pre) && all == pre + ops && 0 < |all|
    ensures ops == [] ==>
              Straight(all[..|all| - 1]) && all[|all| - 1] == pre[|pre| - 1] && !Control(all[|all| - 1].code)
    ensures ops != [] ==> all[..|all| - 1] == pre + ops[..|ops| - 1] && all[|all| - 1] == ops[|ops| - 1]
  {
  }

  lemma MergedAtX(g: Graph, g': Graph, x: nat, p: nat)
    requires InRange(g) && InRange(g') && Disjoint(g) && Covered(g) && NextSkips(g) && Merged(g, g', x, p)
    requires CanMerge(g, x, p)
    requires BlockInRange(g, x) && Shaped(g, x) && BlockInRange(g, p) && Shaped(g, p) && Placed(g, p)
    ensures BlockInRange(g', x) && Shaped(g', x) && Placed(g', x)
  {
    MergedShaped(g, g', x, p);
    if g'.bb[x].used && FallsThrough(g', x) {
      assert NextUsed(g.bb, p, g.bb[p].follow);
      forall c | x < c < g'.bb[x].follow.value ensures !g'.bb[c].used {
        if c < p { assert Skipped(g.bb[x], c); }
      }
    }
  }

  lemma MergedElsewhere(g: Graph, g': Graph, x: nat, p: nat, b: nat)
    requires InRange(g) && InRange(g') && Merged(g, g', x, p)
    requires b < |g.bb| && b != x && BlockInRange(g, b) && Shaped(g, b) && Placed(g, b)
    ensures BlockInRange(g', b) && Shaped(g', b) && Placed(g', b)
  {
    assert BlockInRange(g', b);
    assert EdgesOf(g'.bb[b]) == EdgesOf(g.bb[b]);
  }

  lemma MergedLayout(g: Graph, g': Graph, x: nat, p: nat)
    requires Layout(g) && Merged(g, g', x, p) && CanMerge(g, x, p)
    ensures Layout(g')
  {
    MergedInRange(g, g', x, p);
    MergedDisjoint(g, g', x, p);
    MergedCovered(g, g', x, p);
    MergedNextSkips(g, g', x, p);
    forall b | 0 <= b < |g'.bb| ensures BlockInRange(g', b) && Shaped(g', b) && Placed(g', b) {
      assert BlockInRange(g, b) && Shaped(g, b) && Placed(g, b);
      if b == x {
        assert BlockInRange(g, p) && Shaped(g, p) && Placed(g, p);
        MergedAtX(g, g', x, p);
      } else {
        MergedElsewhere(g, g', x, p, b);
      }
    }
  }

  lemma ThreeParts(a: seq<Op>, b: seq<Op>, c: seq<Op>)
    ensures a + b + c == a + (b + c) && a + [] == a
  {
  }

  // Running the merged block is running x and then, unless x has stopped, p.
  lemma MergedHop(w: World, g: Graph, g': Graph, x: nat, p: nat, s: State)
    requires Layout(g) && Layout(g') && Merged(g, g', x, p) && CanMerge(g, x, p)
    ensures Hop(w, g, g', x, s)
  {
    var gap := MergedOps(g, g', x, p);
    assert BlockInRange(g, x) && Shaped(g, x);
    PlainIsStraight(g, x);
    NopsAreStraight(gap);
    StraightSum(Ops(g, x), gap);
    var blk := g'.bb[x];
    ThreeParts(Ops(g, x), gap, Ops(g, p));
    ExecStraight(w, Ops(g, x), gap + Ops(g, p), blk, s);
    ExecStraight(w, Ops(g, x), [], g.bb[x], s);
    var (h, s') := RunStraight(w, Ops(g, x), s);
    RunNops(w, gap, s');
    ExecStraight(w, gap, Ops(g, p), blk, s');
    ExecOpsEdges(w, Ops(g, p), blk, g.bb[p], s');
  }

  lemma RunNops(w: World, gap: seq<Op>, s: State)
    requires forall i :: 0 <= i < |gap| ==> gap[i].code.Nop?
    ensures RunStraight(w, gap, s) == (false, s)
  {
  }

  lemma MergedShortcut(w: World, g: Graph, g': Graph, x: nat, p: nat, T: nat, bools: set<nat>)
    requires Layout(g) && Layout(g') && Merged(g, g', x, p) && CanMerge(g, x, p)
    ensures Shortcut(w, g, g', T, bools)
  {
    forall b: nat, s | b < |g'.bb| && g'.bb[b].used && StateOk(s, T, bools) ensures Hop(w, g, g', b, s) {
      if b == x { MergedHop(w, g, g', x, p, s); } else { UnmergedHop(w, g, g', x, p, b, s); }
    }
  }

  lemma UnmergedHop(w: World, g: Graph, g': Graph, x: nat, p: nat, b: nat, s: State)
    requires Merged(g, g', x, p) && b < |g'.bb| && g'.bb[b].used && b != x
    ensures Hop(w, g, g', b, s)
  {
    assert Ops(g', b) == Ops(g, b);
    ExecOpsEdges(w, Ops(g, b), g.bb[b], g'.bb[b], s);
  }

  // No line of x in front of p is a jump.
  lemma FrontStraight(g: Graph, x: nat, p: nat, i: nat)
    requires InRange(g) && Disjoint(g) && Covered(g) && NextSkips(g) && CanMerge(g, x, p) && BlockInRange(g, x)
    requires Shaped(g, x) && x <= i < p
    ensures i < |g.code| && !Control(g.code[i].code)
  {
    assert BlockInRange(g, p);
    if i < x + g.bb[x].len {
      PlainIsStraight(g, x);
      assert Ops(g, x)[i - x] == g.code[i];
    } else {
      GapIsNop(g, x, p, i);
    }
  }

  // x leads on from where p did.
  lemma MergedOnwardAtX(g: Graph, g': Graph, x: nat, p: nat)
    requires Layout(g) && Merged(g, g', x, p) && CanMerge(g, x, p)
    ensures Onward(g, g', x, p)
  {
    assert BlockInRange(g, x) && Shaped(g, x) && BlockInRange(g, p);
    FrontStraight(g, x, p, x);
    FrontStraight(g, x, p, p - 1);
    JoinedOnward(g, g', x, p);
  }

  lemma JoinedOnward(g: Graph, g': Graph, x: nat, p: nat)
    requires Merged(g, g', x, p) && CanMerge(g, x, p) && x < |g.code| && p <= |g.code|
    requires p + g.bb[p].len <= |g.code| + 1
    requires g.bb[p].len > 0 ==> p + g.bb[p].len <= |g.code|
    requires !Control(g.code[x].code) && !Control(g.code[p - 1].code)
    ensures Onward(g, g', x, p)
  {
    assert EdgesOf(g'.bb[x]) == EdgesOf(g.bb[p]) && g'.bb[x].len == p + g.bb[p].len - x;
  }

  lemma MergedOnward(g: Graph, g': Graph, x: nat, p: nat)
    requires Layout(g) && Merged(g, g', x, p) && CanMerge(g, x, p)
    ensures AllOnward(g, g')
  {
    forall b: nat {:trigger OnwardFrom(g, g', b)} | b < |g'.bb| && g'.bb[b].used ensures OnwardFrom(g, g', b) {
      if b == x { MergedOnwardAtX(g, g', x, p); } else { SameOnward(g, g', b); }
    }
  }

  lemma MergeEquivalent(w: World, g: Graph, x: nat, p: nat, T: nat, bools: set<nat>)
    requires Inv(g, T, bools) && CanMerge(g, x, p)
    ensures var g' := Merge(g, x, p);
            Inv(g', T, bools) && Equivalent(w, g, g', T, bools) && Merged(g, g', x, p)
  {
    var g' := Merge(g, x, p);
    MergeBlocks(g, x, p);
    MergedLayout(g, g', x, p);
    InvClosed(g, T, bools);
    MergedOnward(g, g', x, p);
    TestsApartStill(g, g', bools);
    MergedShortcut(w, g, g', x, p, T, bools);
    InvClosed(g', T, bools);
    ShortcutEquivalent(w, g, g', T, bools);
  }

  // ----- predecessor lists -----

  lemma DeleteExact(g: Graph, p: nat, q: nat)
    requires NoDups(g.bb) && Exact(g.bb) && p < |g.bb| && q < |g.bb|
    ensures Exact(DeleteNext(g, p, q).bb)
  {
    var b1, b2 := RmBb(g.bb, q), DeleteNext(g, p, q).bb;
    RmBbFacts(g.bb, q);
    RemovedKeepsExact(g.bb, b1, q);
    forall t: nat, b: nat {:trigger b in b2[t].pred} | t < |b2| && b in b2[t].pred
      ensures b < |b2| && b2[b].used && HasEdge(b2[b], t)
    {
      assert b in b1[t].pred;
      assert HasEdge(b1[b], t) && b1[b].used;
    }
  }

  // Every list says what it said, with x for p.
  ghost predicate MovedBack(bb: seq<Block>, bb': seq<Block>, e: Edges, p: nat, x: nat) {
    && |bb'| == |bb|
    && forall t: nat, y: nat {:trigger y in bb'[t].pred} ::
         t < |bb| && y in bb'[t].pred ==> (y in bb[t].pred && !(InEdges(e, t) && y == p)) || (y == x && InEdges(e, t))
  }

  lemma MovedBackOne(b0: seq<Block>, b1: seq<Block>, e: Edges, r: Ref, e': Edges, p: nat, x: nat)
    requires NoDups(b1) && MovedBack(b0, b1, e, p, x) && p != x
    requires forall t: nat :: InEdges(e', t) <==> InEdges(e, t) || r == Some(t)
    requires r.Some? ==> r.value < |b0|
    ensures MovedBack(b0, MoveRef(b1, r, p, x), e', p, x) && NoDups(MoveRef(b1, r, p, x))
  {
    DropRefFacts(b1, r, p);
    var b2 := DropRef(b1, r, p);
    if r.Some? { AddPredFacts(b2, r.value, x); }
    MovedBackStep(b0, b1, b2, MoveRef(b1, r, p, x), e, r, e', p, x);
  }

  lemma MovedBackStep(b0: seq<Block>, b1: seq<Block>, b2: seq<Block>, b3: seq<Block>, e: Edges, r: Ref, e': Edges,
                      p: nat, x: nat)
    requires MovedBack(b0, b1, e, p, x) && p != x && Dropped(b1, b2, Only(r), p)
    requires if r.Some? then r.value < |b0| && Gained(b2, b3, r.value, x) else b3 == b2
    requires forall t: nat :: InEdges(e', t) <==> InEdges(e, t) || r == Some(t)
    ensures MovedBack(b0, b3, e', p, x)
  {
    forall t: nat, y: nat {:trigger y in b3[t].pred} | t < |b0| && y in b3[t].pred
      ensures (y in b0[t].pred && !(InEdges(e', t) && y == p)) || (y == x && InEdges(e', t))
    {
      if !(r == Some(t) && y == x) {
        assert y in b2[t].pred;
        assert y in b1[t].pred;
      }
    }
  }

  // All four pointers of p, one after the other.
  lemma MovedBackAll(b0: seq<Block>, e: Edges, p: nat, x: nat)
    requires NoDups(b0) && p != x && forall t: nat :: InEdges(e, t) ==> t < |b0|
    ensures MovedBack(b0, MoveRef(MoveRef(MoveRef(MoveRef(b0, e.jmp1, p, x), e.jmp2, p, x), e.ext, p, x), e.follow, p,
                                  x), e, p, x)
  {
    assert forall r: Ref ::
             r.Some? && (r == e.jmp1 || r == e.jmp2 || r == e.ext || r == e.follow) ==> InEdges(e, r.value);
    var e1, e2, e3 := Only(e.jmp1), Edges(e.jmp1, e.jmp2, None, None), Edges(e.jmp1, e.jmp2, e.ext, None);
    MovedBackOne(b0, b0, Only(None), e.jmp1, e1, p, x);
    var b1 := MoveRef(b0, e.jmp1, p, x);
    MovedBackOne(b0, b1, e1, e.jmp2, e2, p, x);
    var b2 := MoveRef(b1, e.jmp2, p, x);
    MovedBackOne(b0, b2, e2, e.ext, e3, p, x);
    var b3 := MoveRef(b2, e.ext, p, x);
    MovedBackOne(b0, b3, e3, e.follow, e, p, x);
  }

  lemma SuccessorsExist(bb: seq<Block>, b0: seq<Block>, p: nat)
    requires Edged(bb) && p < |bb| && bb[p].used && |b0| == |bb|
    ensures forall t: nat :: InEdges(EdgesOf(bb[p]), t) ==> t < |b0|
  {
    forall t: nat | InEdges(EdgesOf(bb[p]), t) ensures t < |b0| {
      assert HasEdge(bb[p], t);
    }
  }

  lemma MergeExact(g: Graph, x: nat, p: nat, T: nat, bools: set<nat>)
    requires Inv(g, T, bools) && Exact(g.bb) && CanMerge(g, x, p)
    ensures Exact(Merge(g, x, p).bb)
  {
    var e, b0 := EdgesOf(g.bb[p]), DelPred(g.bb, p, x);
    MergeBlocks(g, x, p);
    DelPredFacts(g.bb, p, x);
    SuccessorsExist(g.bb, b0, p);
    MovedBackAll(b0, e, p, x);
    MergedExact(g, b0, MoveRef(MoveRef(MoveRef(MoveRef(b0, e.jmp1, p, x), e.jmp2, p, x), e.ext, p, x), e.follow, p,
                               x), Merge(g, x, p), x, p);
  }

  lemma MergedExact(g: Graph, b0: seq<Block>, b4: seq<Block>, g': Graph, x: nat, p: nat)
    requires Exact(g.bb) && CanMerge(g, x, p) && Merged(g, g', x, p)
    requires Dropped(g.bb, b0, Only(Some(p)), x) && MovedBack(b0, b4, EdgesOf(g.bb[p]), p, x)
    requires forall t :: 0 <= t < |b4| ==> g'.bb[t].pred == b4[t].pred
    ensures Exact(g'.bb)
  {
    forall t: nat, b: nat {:trigger b in g'.bb[t].pred} | t < |g'.bb| && b in g'.bb[t].pred
      ensures b < |g'.bb| && g'.bb[b].used && HasEdge(g'.bb[b], t)
    {
      var e := EdgesOf(g.bb[p]);
      assert b in b4[t].pred;
      if b == x && InEdges(e, t) {
        assert EdgesOf(g'.bb[x]) == e;
      } else {
        assert b in b0[t].pred && b in g.bb[t].pred;
        assert HasEdge(g.bb[b], t);
        assert InEdges(EdgesOf(g.bb[b]), t);
      }
    }
  }
}
