// mark_used_bb: marks what the entry reaches and builds the predecessor lists.
module Marking {
  import opened Options
  import opened Graphs
  import opened Preds
  import opened Rewrites

  // The edges alone.
  function Flow(bb: seq<Block>): (f: seq<Edges>)
    ensures |f| == |bb| && forall b :: 0 <= b < |bb| ==> f[b] == EdgesOf(bb[b])
  {
    seq(|bb|, b requires 0 <= b < |bb| => EdgesOf(bb[b]))
  }

  // b is n edges away from a.
  ghost predicate Within(f: seq<Edges>, a: nat, b: nat, n: nat)
    decreases n
  {
    if n == 0 then a == b
    else a < |f| && exists c: nat :: InEdges(f[a], c) && Within(f, c, b, n - 1)
  }

  ghost predicate Reachable(f: seq<Edges>, a: nat, b: nat) {
    exists n: nat :: Within(f, a, b, n)
  }

  predicate Bounded(r: Ref, n: nat) {
    r.Some? ==> r.value < n
  }

  predicate EdgesInRange(bb: seq<Block>) {
    forall b :: 0 <= b < |bb| ==>
      Bounded(bb[b].jmp1, |bb|) && Bounded(bb[b].jmp2, |bb|) && Bounded(bb[b].ext, |bb|) && Bounded(bb[b].follow, |bb|)
  }

  ghost function Unused(bb: seq<Block>): set<nat> {
    set b: nat | b < |bb| && !bb[b].used
  }

  ghost predicate NoneUsed(bb: seq<Block>) {
    forall b :: 0 <= b < |bb| ==> !bb[b].used
  }

  // bb' is bb with more blocks in use and other predecessor lists.
  ghost predicate More(bb: seq<Block>, bb': seq<Block>) {
    && |bb'| == |bb|
    && forall b :: 0 <= b < |bb| ==>
         && bb'[b] == bb[b].(pred := bb'[b].pred, used := bb'[b].used)
         && (bb[b].used ==> bb'[b].used)
  }

  function MarkUsed(bb: seq<Block>, b: nat): (r: seq<Block>)
    requires b < |bb| && EdgesInRange(bb)
    ensures More(bb, r)
    decreases Unused(bb), 0
  {
    if bb[b].used then bb
    else
      var b0 := bb[b := bb[b].(used := true)];
      assert b in Unused(bb) && b !in Unused(b0);
      MarkTwo(MarkTwo(b0, bb[b].jmp1, bb[b].jmp2, b), bb[b].ext, bb[b].follow, b)
  }

  // Two of the four edges.
  function MarkTwo(bb: seq<Block>, r1: Ref, r2: Ref, from: nat): (bb': seq<Block>)
    requires EdgesInRange(bb) && Bounded(r1, |bb|) && Bounded(r2, |bb|)
    ensures More(bb, bb')
    decreases Unused(bb), 2
  {
    MarkRef(MarkRef(bb, r1, from), r2, from)
  }

  function MarkRef(bb: seq<Block>, r: Ref, from: nat): (bb': seq<Block>)
    requires EdgesInRange(bb) && Bounded(r, |bb|)
    ensures More(bb, bb')
    decreases Unused(bb), 1
  {
    if r.Some? then AddPred(MarkUsed(bb, r.value), r.value, from) else bb
  }

  // ----- what marking achieves -----

  const NONE := Edges(None, None, None, None)

  // From bb to bb' exactly the blocks in N became used; each of them entered itself with its
  // successors, and `from` entered itself with the targets of e.
  ghost predicate Marked(bb: seq<Block>, bb': seq<Block>, N: set<nat>, from: nat, e: Edges) {
    && More(bb, bb') && NoDups(bb')
    && (forall b: nat :: b in N ==> b < |bb| && !bb[b].used)
    && (forall b: nat :: b < |bb| ==> (bb'[b].used <==> bb[b].used || b in N))
    && (forall b: nat, t: nat {:trigger HasEdge(bb[b], t)} :: b in N && HasEdge(bb[b], t) ==> t < |bb| && bb'[t].used)
    && (forall t: nat :: InEdges(e, t) ==> t < |bb| && bb'[t].used)
    && (forall t: nat, y: nat {:trigger y in bb'[t].pred} {:trigger y in bb[t].pred} :: t < |bb| ==>
          (y in bb'[t].pred <==> y in bb[t].pred || (y in N && HasEdge(bb[y], t)) || (y == from && InEdges(e, t))))
  }

  ghost predicate AllReachable(f: seq<Edges>, b: nat, N: set<nat>) {
    forall x: nat :: x in N ==> Reachable(f, b, x)
  }

  lemma FlowSame(bb: seq<Block>, bb': seq<Block>)
    requires More(bb, bb')
    ensures Flow(bb') == Flow(bb)
  {
  }

  lemma MarkedTwice(b0: seq<Block>, b1: seq<Block>, b2: seq<Block>, N1: set<nat>, N2: set<nat>, from: nat, e1: Edges,
                    e2: Edges, e: Edges)
    requires Marked(b0, b1, N1, from, e1) && Marked(b1, b2, N2, from, e2)
    requires forall t: nat :: InEdges(e, t) <==> InEdges(e1, t) || InEdges(e2, t)
    ensures Marked(b0, b2, N1 + N2, from, e)
  {
    forall b: nat, t: nat {:trigger HasEdge(b0[b], t)} | b in N1 + N2 && HasEdge(b0[b], t)
      ensures t < |b0| && b2[t].used
    {
      if b in N2 { assert HasEdge(b1[b], t); }
    }
    forall t: nat, y: nat {:trigger y in b2[t].pred} | t < |b0|
      ensures y in b2[t].pred <==>
                y in b0[t].pred || (y in N1 + N2 && HasEdge(b0[y], t)) || (y == from && InEdges(e, t))
    {
      assert y in N2 ==> HasEdge(b1[y], t) == HasEdge(b0[y], t);
    }
  }

  lemma {:induction false} MarkRefFacts(bb: seq<Block>, r: Ref, from: nat, f: seq<Edges>) returns (N: set<nat>)
    requires EdgesInRange(bb) && NoDups(bb) && Bounded(r, |bb|) && f == Flow(bb)
    requires from < |bb| && (r.Some? ==> InEdges(f[from], r.value))
    ensures Marked(bb, MarkRef(bb, r, from), N, from, Only(r))
    ensures NoDups(MarkRef(bb, r, from)) && Flow(MarkRef(bb, r, from)) == f
    ensures AllReachable(f, from, N)
    decreases Unused(bb), 1
  {
    N := {};
    if r.Some? {
      var b1 := MarkUsed(bb, r.value);
      N := MarkUsedFacts(bb, r.value);
      AddPredFacts(b1, r.value, from);
      MarkedRef(bb, b1, AddPred(b1, r.value, from), N, r.value, from);
      ReachableStep(f, from, r.value, N);
    }
    FlowSame(bb, MarkRef(bb, r, from));
  }

  lemma MarkedRef(bb: seq<Block>, b1: seq<Block>, b2: seq<Block>, N: set<nat>, t: nat, from: nat)
    requires Marked(bb, b1, N, from, NONE) || Marked(bb, b1, N, t, NONE)
    requires Gained(b1, b2, t, from) && t < |bb| && b1[t].used
    ensures Marked(bb, b2, N, from, Only(Some(t)))
  {
  }

  lemma ReachableStep(f: seq<Edges>, b: nat, t: nat, N: set<nat>)
    requires b < |f| && InEdges(f[b], t) && AllReachable(f, t, N)
    ensures AllReachable(f, b, N)
  {
    forall x: nat | x in N ensures Reachable(f, b, x) {
      assert Reachable(f, t, x);
      var n: nat :| Within(f, t, x, n);
      assert InEdges(f[b], t) && Within(f, b, x, n + 1);
    }
  }

  lemma {:induction false} MarkUsedFacts(bb: seq<Block>, b: nat) returns (N: set<nat>)
    requires EdgesInRange(bb) && NoDups(bb) && b < |bb|
    ensures Marked(bb, MarkUsed(bb, b), N, b, NONE) && MarkUsed(bb, b)[b].used
    ensures AllReachable(Flow(bb), b, N)
    decreases Unused(bb), 0
  {
    N := {};
    if !bb[b].used {
      var b0 := bb[b := bb[b].(used := true)];
      assert b in Unused(bb) && b !in Unused(b0);
      var b4;
      b4, N := MarkEdgesFacts(b0, b, EdgesOf(bb[b]), Flow(bb));
      MarkedSelf(bb, b0, b4, N, b);
      assert Within(Flow(bb), b, b, 0);
      N := N + {b};
    }
  }

  // Two of the four edges at a time.
  lemma {:induction false} MarkPairFacts(b0: seq<Block>, b: nat, r1: Ref, r2: Ref, f: seq<Edges>)
    returns (b2: seq<Block>, N: set<nat>)
    requires b < |b0| && f == Flow(b0) && EdgesInRange(b0) && NoDups(b0)
    requires Bounded(r1, |b0|) && (r1.Some? ==> InEdges(f[b], r1.value))
    requires Bounded(r2, |b0|) && (r2.Some? ==> InEdges(f[b], r2.value))
    ensures b2 == MarkTwo(b0, r1, r2, b)
    ensures Marked(b0, b2, N, b, Edges(r1, r2, None, None)) && Flow(b2) == f && AllReachable(f, b, N)
    decreases Unused(b0), 2
  {
    var b1 := MarkRef(b0, r1, b);
    var N1 := MarkRefFacts(b0, r1, b, f);
    b2 := MarkRef(b1, r2, b);
    var N2 := MarkRefFacts(b1, r2, b, f);
    MarkedTwice(b0, b1, b2, N1, N2, b, Only(r1), Only(r2), Edges(r1, r2, None, None));
    N := N1 + N2;
  }

  lemma {:induction false} MarkEdgesFacts(b0: seq<Block>, b: nat, e: Edges, f: seq<Edges>)
    returns (b4: seq<Block>, N: set<nat>)
    requires b < |b0| && EdgesOf(b0[b]) == e && f == Flow(b0)
    requires EdgesInRange(b0) && NoDups(b0)
    ensures b4 == MarkTwo(MarkTwo(b0, e.jmp1, e.jmp2, b), e.ext, e.follow, b)
    ensures Marked(b0, b4, N, b, e) && AllReachable(f, b, N)
    decreases Unused(b0), 3
  {
    var b2, N1 := MarkPairFacts(b0, b, e.jmp1, e.jmp2, f);
    var N2;
    b4, N2 := MarkPairFacts(b2, b, e.ext, e.follow, f);
    MarkedTwice(b0, b2, b4, N1, N2, b, Edges(e.jmp1, e.jmp2, None, None), Edges(e.ext, e.follow, None, None), e);
    N := N1 + N2;
  }

  lemma MarkedSelf(bb: seq<Block>, b0: seq<Block>, b4: seq<Block>, N: set<nat>, b: nat)
    requires b < |bb| && !bb[b].used && b0 == bb[b := bb[b].(used := true)]
    requires Marked(b0, b4, N, b, EdgesOf(bb[b]))
    ensures Marked(bb, b4, N + {b}, b, NONE) && b4[b].used
  {
    forall x: nat, t: nat {:trigger HasEdge(bb[x], t)} | x in N + {b} && HasEdge(bb[x], t)
      ensures t < |bb| && b4[t].used
    {
      if x != b { assert HasEdge(b0[x], t); } else { assert InEdges(EdgesOf(bb[b]), t); }
    }
  }

  // Everything an edge path leads to from a closed set is in the set.
  lemma {:induction false} ClosedKeepsPaths(bb: seq<Block>, a: nat, b: nat, n: nat)
    requires Closed(bb) && a < |bb| && bb[a].used && Within(Flow(bb), a, b, n)
    ensures b < |bb| && bb[b].used
    decreases n
  {
    if n > 0 {
      var c: nat :| InEdges(Flow(bb)[a], c) && Within(Flow(bb), c, b, n - 1);
      assert HasEdge(bb[a], c);
      ClosedKeepsPaths(bb, c, b, n - 1);
    }
  }

  // Marking a graph in which nothing is used marks exactly what the entry reaches, and leaves every
  // edge between used blocks recorded; if no predecessors were recorded before, nothing else is.
  lemma MarkUsedTheorem(bb: seq<Block>)
    requires EdgesInRange(bb) && NoDups(bb) && 0 < |bb| && NoneUsed(bb)
    ensures var bb' := MarkUsed(bb, 0);
            && More(bb, bb') && NoDups(bb') && Edged(bb')
            && (forall b: nat :: b < |bb| ==> (bb'[b].used <==> Reachable(Flow(bb), 0, b)))
            && ((forall b :: 0 <= b < |bb| ==> bb[b].pred == []) ==> Exact(bb'))
  {
    var N := MarkUsedFacts(bb, 0);
    MarkedAll(bb, MarkUsed(bb, 0), N);
  }

  lemma MarkedAll(bb: seq<Block>, bb': seq<Block>, N: set<nat>)
    requires 0 < |bb| && NoneUsed(bb)
    requires Marked(bb, bb', N, 0, NONE) && bb'[0].used && AllReachable(Flow(bb), 0, N)
    ensures Edged(bb')
    ensures forall b: nat :: b < |bb| ==> (bb'[b].used <==> Reachable(Flow(bb), 0, b))
    ensures (forall b :: 0 <= b < |bb| ==> bb[b].pred == []) ==> Exact(bb')
  {
    forall b: nat, t: nat {:trigger HasEdge(bb'[b], t)} | b < |bb'| && bb'[b].used && HasEdge(bb'[b], t)
      ensures t < |bb'| && bb'[t].used && b in bb'[t].pred
    {
      assert HasEdge(bb[b], t);
    }
    FlowSame(bb, bb');
    forall b: nat | b < |bb| && Reachable(Flow(bb), 0, b) ensures bb'[b].used {
      var n: nat :| Within(Flow(bb), 0, b, n);
      ClosedKeepsPaths(bb', 0, b, n);
    }
    if forall b :: 0 <= b < |bb| ==> bb[b].pred == [] {
      forall t: nat, b: nat {:trigger b in bb'[t].pred} | t < |bb'| && b in bb'[t].pred
        ensures b < |bb'| && bb'[b].used && HasEdge(bb'[b], t)
      {
        assert b !in bb[t].pred;
        assert b in N && HasEdge(bb[b], t);
      }
    }
  }

  // The invariant never lets a reachable block go.
  lemma ReachableIsUsed(g: Graph, b: nat, T: nat, bools: set<nat>)
    requires Inv(g, T, bools) && Reachable(Flow(g.bb), 0, b)
    ensures b < |g.bb| && g.bb[b].used
  {
    var n: nat :| Within(Flow(g.bb), 0, b, n);
    InvClosed(g, T, bools);
    ClosedKeepsPaths(g.bb, 0, b, n);
  }
}
