// Predecessor lists: BB_ADD_PRED, BB_DEL_PRED, RM_BB and rm_bb of optimize.c.
module Preds {
  import opened Options
  import opened Graphs

  // The four outgoing pointers of a block.
  datatype Edges = Edges(jmp1: Ref, jmp2: Ref, ext: Ref, follow: Ref)

  function EdgesOf(blk: Block): Edges {
    Edges(blk.jmp1, blk.jmp2, blk.ext, blk.follow)
  }

  function WithEdges(blk: Block, e: Edges): Block {
    blk.(jmp1 := e.jmp1, jmp2 := e.jmp2, ext := e.ext, follow := e.follow)
  }

  predicate InEdges(e: Edges, t: nat) {
    e.jmp1 == Some(t) || e.jmp2 == Some(t) || e.ext == Some(t) || e.follow == Some(t)
  }

  ghost predicate NoDup(s: seq<nat>) {
    forall i, j :: 0 <= i < j < |s| ==> s[i] != s[j]
  }

  // Unlinks the first occurrence of x.
  function Remove(s: seq<nat>, x: nat): (r: seq<nat>)
    ensures forall y :: y in r ==> y in s
    ensures forall y :: y in s && y != x ==> y in r
    ensures NoDup(s) ==> NoDup(r) && x !in r
  {
    if s == [] then []
    else if s[0] == x then
      s[1..]
    else
      var rest := Remove(s[1..], x);
      assert NoDup(s) ==> NoDup(s[1..]) && s[0] !in s[1..] && s[0] !in rest;
      [s[0]] + rest
  }

  function DelPred(bb: seq<Block>, t: nat, f: nat): (r: seq<Block>)
    ensures |r| == |bb|
  {
    if t < |bb| then bb[t := bb[t].(pred := Remove(bb[t].pred, f))] else bb
  }

  function AddPred(bb: seq<Block>, t: nat, f: nat): (r: seq<Block>)
    ensures |r| == |bb|
  {
    if t < |bb| && f !in bb[t].pred then bb[t := bb[t].(pred := [f] + bb[t].pred)] else bb
  }

  function DropRef(bb: seq<Block>, r: Ref, f: nat): (r': seq<Block>)
    ensures |r'| == |bb|
  {
    if r.Some? then DelPred(bb, r.value, f) else bb
  }

  function AddRef(bb: seq<Block>, r: Ref, f: nat): (r': seq<Block>)
    ensures |r'| == |bb|
  {
    if r.Some? then AddPred(bb, r.value, f) else bb
  }

  function DropEdges(bb: seq<Block>, e: Edges, f: nat): (r': seq<Block>)
    ensures |r'| == |bb|
  {
    DropRef(DropRef(DropRef(DropRef(bb, e.jmp1, f), e.jmp2, f), e.ext, f), e.follow, f)
  }

  // rm_bb
  function RmBb(bb: seq<Block>, b: nat): (r': seq<Block>)
    ensures |r'| == |bb|
  {
    if b < |bb| && bb[b].used then DropEdges(bb[b := bb[b].(used := false)], EdgesOf(bb[b]), b) else bb
  }

  // RM_BB: the entry is never removed.
  function RmIfOrphan(bb: seq<Block>, b: nat): (r': seq<Block>)
    ensures |r'| == |bb|
  {
    if b < |bb| && bb[b].pred == [] && b != 0 then RmBb(bb, b) else bb
  }

  // What every jump rewrite does to the pointers of block p: forget the edge to `drop`, take the
  // edges e, and enter p among the predecessors of `add`.
  function Rewire(bb: seq<Block>, p: nat, drop: Ref, e: Edges, add: Ref): (r: seq<Block>)
    requires p < |bb|
    ensures |r| == |bb|
  {
    var b1 := Detach(bb, p, drop);
    AddRef(b1[p := WithEdges(b1[p], e)], add, p)
  }

  ghost predicate NoDups(bb: seq<Block>) {
    forall b :: 0 <= b < |bb| ==> NoDup(bb[b].pred)
  }

  // Every edge of a used block leads to a used block that lists it as a predecessor.
  ghost predicate Edged(bb: seq<Block>) {
    forall b: nat, t: nat {:trigger HasEdge(bb[b], t)} ::
      b < |bb| && bb[b].used && HasEdge(bb[b], t) ==> t < |bb| && bb[t].used && b in bb[t].pred
  }

  // Every listed predecessor is a used block with an edge.
  ghost predicate Exact(bb: seq<Block>) {
    forall t: nat, b: nat {:trigger b in bb[t].pred} ::
      t < |bb| && b in bb[t].pred ==> b < |bb| && bb[b].used && HasEdge(bb[b], t)
  }

  // bb' differs from bb in predecessor lists and in blocks that are no longer used.
  ghost predicate Fewer(bb: seq<Block>, bb': seq<Block>) {
    && |bb'| == |bb|
    && forall b :: 0 <= b < |bb| ==>
         && bb'[b] == bb[b].(pred := bb'[b].pred, used := bb'[b].used)
         && (bb'[b].used ==> bb[b].used)
  }

  ghost predicate SameUsed(bb: seq<Block>, bb': seq<Block>) {
    |bb'| == |bb| && forall b :: 0 <= b < |bb| ==> bb'[b].used == bb[b].used
  }

  // bb' is bb without f among the predecessors of the blocks that e points to.
  ghost predicate Dropped(bb: seq<Block>, bb': seq<Block>, e: Edges, f: nat) {
    && NoDups(bb') && Fewer(bb, bb') && SameUsed(bb, bb')
    && forall x: nat, y: nat {:trigger y in bb'[x].pred} {:trigger y in bb[x].pred} ::
         x < |bb| ==> (y in bb'[x].pred <==> y in bb[x].pred && !(InEdges(e, x) && y == f))
  }

  // bb' is bb with f among the predecessors of t.
  ghost predicate Gained(bb: seq<Block>, bb': seq<Block>, t: nat, f: nat) {
    && NoDups(bb') && Fewer(bb, bb') && SameUsed(bb, bb')
    && forall x: nat, y: nat {:trigger y in bb'[x].pred} {:trigger y in bb[x].pred} ::
         x < |bb| ==> (y in bb'[x].pred <==> y in bb[x].pred || (x == t && y == f))
  }

  // bb' is bb after rm_bb(b).
  ghost predicate Removed(bb: seq<Block>, bb': seq<Block>, b: nat)
    requires b < |bb|
  {
    && NoDups(bb') && Fewer(bb, bb') && !bb'[b].used
    && (forall x :: 0 <= x < |bb| && x != b ==> bb'[x].used == bb[x].used)
    && forall x: nat, y: nat {:trigger y in bb'[x].pred} {:trigger y in bb[x].pred} ::
         x < |bb| ==> (y in bb'[x].pred <==> y in bb[x].pred && !(bb[b].used && HasEdge(bb[b], x) && y == b))
  }

  function Only(t: Ref): Edges {
    Edges(t, None, None, None)
  }

  lemma DelPredFacts(bb: seq<Block>, t: nat, f: nat)
    requires NoDups(bb)
    ensures Dropped(bb, DelPred(bb, t, f), Only(Some(t)), f)
  {
  }

  lemma AddPredFacts(bb: seq<Block>, t: nat, f: nat)
    requires NoDups(bb)
    ensures Gained(bb, AddPred(bb, t, f), t, f)
  {
    if t < |bb| && f !in bb[t].pred {
      var s := [f] + bb[t].pred;
      assert forall i :: 0 < i < |s| ==> s[i] == bb[t].pred[i - 1];
      assert NoDup(s);
    }
  }

  lemma DropRefFacts(bb: seq<Block>, r: Ref, f: nat)
    requires NoDups(bb)
    ensures Dropped(bb, DropRef(bb, r, f), Only(r), f)
  {
    if r.Some? { DelPredFacts(bb, r.value, f); }
  }

  lemma DroppedTwice(b0: seq<Block>, b1: seq<Block>, b2: seq<Block>, e1: Edges, e2: Edges, e: Edges, f: nat)
    requires Dropped(b0, b1, e1, f) && Dropped(b1, b2, e2, f)
    requires forall x :: InEdges(e, x) <==> InEdges(e1, x) || InEdges(e2, x)
    ensures Dropped(b0, b2, e, f)
  {
  }

  lemma DropEdgesFacts(bb: seq<Block>, e: Edges, f: nat)
    requires NoDups(bb)
    ensures Dropped(bb, DropEdges(bb, e, f), e, f)
  {
    var b1 := DropRef(bb, e.jmp1, f);
    var b2 := DropRef(b1, e.jmp2, f);
    var b3 := DropRef(b2, e.ext, f);
    DropRefFacts(bb, e.jmp1, f);
    DropRefFacts(b1, e.jmp2, f);
    DroppedTwice(bb, b1, b2, Only(e.jmp1), Only(e.jmp2), Edges(e.jmp1, e.jmp2, None, None), f);
    DropRefFacts(b2, e.ext, f);
    DroppedTwice(bb, b2, b3, Edges(e.jmp1, e.jmp2, None, None), Only(e.ext), Edges(e.jmp1, e.jmp2, e.ext, None), f);
    DropRefFacts(b3, e.follow, f);
    DroppedTwice(bb, b3, DropEdges(bb, e, f), Edges(e.jmp1, e.jmp2, e.ext, None), Only(e.follow), e, f);
  }

  lemma RmBbFacts(bb: seq<Block>, b: nat)
    requires NoDups(bb) && b < |bb|
    ensures Removed(bb, RmBb(bb, b), b)
  {
    if bb[b].used {
      var b0 := bb[b := bb[b].(used := false)];
      assert NoDups(b0);
      DropEdgesFacts(b0, EdgesOf(bb[b]), b);
      assert forall x :: InEdges(EdgesOf(bb[b]), x) <==> HasEdge(bb[b], x);
    }
  }

  // An orphan can go: no used block has an edge to it.
  lemma RemovedKeepsEdged(bb: seq<Block>, bb': seq<Block>, b: nat)
    requires b < |bb| && Edged(bb) && Removed(bb, bb', b)
    requires !bb[b].used || bb[b].pred == []
    ensures Edged(bb')
  {
    forall a: nat, t: nat {:trigger HasEdge(bb'[a], t)} | a < |bb'| && bb'[a].used && HasEdge(bb'[a], t)
      ensures t < |bb'| && bb'[t].used && a in bb'[t].pred
    {
      assert HasEdge(bb[a], t);
    }
  }

  lemma RemovedKeepsExact(bb: seq<Block>, bb': seq<Block>, b: nat)
    requires b < |bb| && Exact(bb) && Removed(bb, bb', b)
    ensures Exact(bb')
  {
  }

  // The conditions under which a rewrite of block p keeps the predecessor lists right.  They are
  // about pointers only: new edges are old ones or `add`, and what is added is in use.
  ghost predicate CanRewire(bb: seq<Block>, p: nat, drop: Ref, e: Edges, add: Ref) {
    && p < |bb|
    && (drop.Some? ==> drop.value < |bb| && HasEdge(bb[p], drop.value))
    && (add.Some? ==>
          && add.value < |bb|
          && (bb[p].used ==> bb[add.value].used)
          && (drop == add ==> bb[add.value].used ==> HasEdge(bb[add.value], add.value)))
    && (forall x: nat :: InEdges(e, x) ==> (HasEdge(bb[p], x) && drop != Some(x)) || add == Some(x))
  }

  // What Rewire leaves: p has the edges e, and the rest only shrank.
  ghost predicate Rewired(bb: seq<Block>, bb': seq<Block>, p: nat, e: Edges) {
    && p < |bb| && NoDups(bb') && Edged(bb')
    && Fewer(bb[p := WithEdges(bb[p], e)], bb')
    && (bb[0].used ==> bb'[0].used)
  }

  // bb' is bb after `if drop: BB_DEL_PRED(drop, p); RM_BB(drop)`.
  ghost predicate Detached(bb: seq<Block>, bb': seq<Block>, p: nat, drop: Ref)
    requires 0 < |bb|
  {
    && NoDups(bb') && Fewer(bb, bb')
    && (bb[0].used ==> bb'[0].used)
    && (forall x: nat :: x < |bb| && bb[x].used && !bb'[x].used ==>
          drop == Some(x) && x != 0 && forall y :: y in bb[x].pred ==> y == p)
    && forall x: nat, y: nat {:trigger y in bb'[x].pred} {:trigger y in bb[x].pred} ::
         x < |bb| ==>
           && (y in bb'[x].pred ==> y in bb[x].pred && !(drop == Some(x) && y == p))
           && (y in bb[x].pred && !(drop == Some(x) && y == p) ==>
                 y in bb'[x].pred || (drop == Some(y) && y < |bb| && !bb'[y].used && HasEdge(bb[y], x)))
  }

  function Detach(bb: seq<Block>, p: nat, drop: Ref): (r: seq<Block>)
    ensures |r| == |bb|
  {
    if drop.Some? then RmIfOrphan(DelPred(bb, drop.value, p), drop.value) else bb
  }

  lemma DetachFacts(bb: seq<Block>, p: nat, drop: Ref)
    requires NoDups(bb) && 0 < |bb| && (drop.Some? ==> drop.value < |bb|)
    ensures Detached(bb, Detach(bb, p, drop), p, drop)
  {
    if drop.Some? {
      var t := drop.value;
      var b0 := DelPred(bb, t, p);
      DelPredFacts(bb, t, p);
      RmBbFacts(b0, t);
      DetachedBy(bb, b0, RmIfOrphan(b0, t), p, t);
    }
  }

  lemma DetachedBy(bb: seq<Block>, b0: seq<Block>, b1: seq<Block>, p: nat, t: nat)
    requires 0 < |bb| && t < |bb| && Dropped(bb, b0, Only(Some(t)), p)
    requires b1 == b0 || (Removed(b0, b1, t) && b0[t].pred == [] && t != 0)
    ensures Detached(bb, b1, p, Some(t))
  {
    forall y | b0[t].pred == [] && y in bb[t].pred ensures y == p {
      assert y !in b0[t].pred;
    }
  }

  lemma RewireFacts(bb: seq<Block>, p: nat, drop: Ref, e: Edges, add: Ref)
    requires NoDups(bb) && Edged(bb) && CanRewire(bb, p, drop, e, add)
    ensures Rewired(bb, Rewire(bb, p, drop, e, add), p, e)
  {
    DetachFacts(bb, p, drop);
    var b1 := Detach(bb, p, drop);
    var b2 := b1[p := WithEdges(b1[p], e)];
    assert NoDups(b2);
    if add.Some? { AddPredFacts(b2, add.value, p); }
    RewiredBy(bb, b1, Rewire(bb, p, drop, e, add), p, drop, e, add);
  }

  lemma RewiredBy(bb: seq<Block>, b1: seq<Block>, b3: seq<Block>, p: nat, drop: Ref, e: Edges, add: Ref)
    requires Edged(bb) && CanRewire(bb, p, drop, e, add)
    requires Detached(bb, b1, p, drop) && NoDups(b3)
    requires var b2 := b1[p := WithEdges(b1[p], e)]; if add.Some? then Gained(b2, b3, add.value, p) else b3 == b2
    ensures Rewired(bb, b3, p, e)
  {
    forall b: nat, t: nat {:trigger HasEdge(b3[b], t)} | b < |b3| && b3[b].used && HasEdge(b3[b], t)
      ensures t < |b3| && b3[t].used && b in b3[t].pred
    {
      if b == p {
        assert InEdges(e, t);
        if HasEdge(bb[p], t) && drop != Some(t) {
        } else if drop == add {
          assert HasEdge(bb[t], t);
          assert t in bb[t].pred;
        }
      } else {
        assert HasEdge(bb[b], t);
      }
    }
  }

  // No old edge is forgotten without telling its target, no new one without need.
  ghost predicate Tidy(bb: seq<Block>, p: nat, drop: Ref, e: Edges, add: Ref)
    requires p < |bb|
  {
    && (forall x: nat :: HasEdge(bb[p], x) && !InEdges(e, x) ==> drop == Some(x))
    && (add.Some? ==> InEdges(e, add.value))
  }

  // The lists stay exact unless p removes itself (it can: an unreachable block whose only predecessor
  // is its own dropped edge) and then enters itself with a new successor.
  lemma RewireExact(bb: seq<Block>, p: nat, drop: Ref, e: Edges, add: Ref)
    requires NoDups(bb) && Exact(bb) && CanRewire(bb, p, drop, e, add) && Tidy(bb, p, drop, e, add)
    ensures Exact(Rewire(bb, p, drop, e, add)) <==> add.None? || Rewire(bb, p, drop, e, add)[p].used
  {
    var b0 := if drop.Some? then DelPred(bb, drop.value, p) else bb;
    var b1 := Detach(bb, p, drop);
    if drop.Some? {
      DelPredFacts(bb, drop.value, p);
      RmBbFacts(b0, drop.value);
    }
    var b2 := b1[p := WithEdges(b1[p], e)];
    assert NoDups(b2);
    if add.Some? { AddPredFacts(b2, add.value, p); }
    ExactBy(bb, b0, b1, Rewire(bb, p, drop, e, add), p, drop, e, add);
  }

  lemma ExactBy(bb: seq<Block>, b0: seq<Block>, b1: seq<Block>, b3: seq<Block>, p: nat, drop: Ref, e: Edges, add: Ref)
    requires Exact(bb) && CanRewire(bb, p, drop, e, add) && Tidy(bb, p, drop, e, add)
    requires if drop.Some? then Dropped(bb, b0, Only(drop), p) && (b1 == b0 || Removed(b0, b1, drop.value))
             else b1 == bb
    requires |b1| == |bb|
    requires var b2 := b1[p := WithEdges(b1[p], e)]; if add.Some? then Gained(b2, b3, add.value, p) else b3 == b2
    ensures Exact(b3) <==> add.None? || b3[p].used
  {
    if add.None? || b3[p].used {
      forall t: nat, b: nat {:trigger b in b3[t].pred} | t < |b3| && b in b3[t].pred
        ensures b < |b3| && b3[b].used && HasEdge(b3[b], t)
      {
        if !(add == Some(t) && b == p) {
          assert b in b1[t].pred;
          assert b in bb[t].pred;
          assert HasEdge(bb[b], t);
        }
      }
    } else {
      assert p in b3[add.value].pred;
    }
  }

  // Nobody but p itself leads to p.
  ghost predicate Alone(bb: seq<Block>, p: nat) {
    p < |bb| && p != 0 && HasEdge(bb[p], p) && forall y :: y in bb[p].pred ==> y == p
  }
}
