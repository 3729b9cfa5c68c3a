// No jump to the very next line: where everything in use is reached, what optimize_jmp leaves at rest has none once it
// is laid out.
module IdleJumps {
  import opened Options
  import opened Opcodes
  import opened Graphs
  import opened Preds
  import opened Rewrites
  import opened Marking
  import opened JumpRules
  import opened Trails
  import opened Polish
  import opened PolishedCode

  // ----- what is reached -----

  // Everything in use is reached from the entry.
  ghost predicate NoDeadBlocks(g: Graph) {
    forall b: nat :: b < |g.bb| && g.bb[b].used ==> Reachable(Flow(g.bb), 0, b)
  }

  // A way through blocks of which only the first is known to be in use is still there.
  lemma {:induction false} WayStays(g: Graph, g': Graph, a: nat, b: nat, n: nat)
    requires SameAlive(g, g') && Closed(g'.bb) && a < |g'.bb| && g'.bb[a].used && Within(Flow(g.bb), a, b, n)
    ensures Within(Flow(g'.bb), a, b, n) && b < |g'.bb| && g'.bb[b].used
    decreases n
  {
    if n > 0 {
      var c: nat :| InEdges(Flow(g.bb)[a], c) && Within(Flow(g.bb), c, b, n - 1);
      assert AliveAt(g, g', a);
      assert HasEdge(g'.bb[a], c) && InEdges(Flow(g'.bb)[a], c);
      WayStays(g, g', c, b, n - 1);
    }
  }

  lemma StillNoDead(g: Graph, g': Graph)
    requires NoDeadBlocks(g) && SameAlive(g, g') && Closed(g'.bb) && g'.bb != [] && g'.bb[0].used
    ensures NoDeadBlocks(g') && forall b :: 0 <= b < |g.bb| ==> (g'.bb[b].used <==> g.bb[b].used)
  {
    forall b: nat | b < |g.bb| && g.bb[b].used ensures g'.bb[b].used && Reachable(Flow(g'.bb), 0, b) {
      var n: nat :| Within(Flow(g.bb), 0, b, n);
      WayStays(g, g', 0, b, n);
    }
    forall b: nat | b < |g.bb| && g'.bb[b].used ensures g.bb[b].used { assert AliveAt(g, g', b); }
  }

  lemma {:induction false} OneStepOn(f: seq<Edges>, a: nat, b: nat, n: nat, c: nat)
    requires Within(f, a, b, n) && b < |f| && InEdges(f[b], c)
    ensures Within(f, a, c, n + 1)
    decreases n
  {
    if n == 0 {
      assert Within(f, c, c, 0);
    } else {
      var d: nat :| InEdges(f[a], d) && Within(f, d, b, n - 1);
      OneStepOn(f, d, b, n - 1, c);
    }
  }

  // ----- at rest, without cycles, everything in use is reached -----

  // Every block in use but the entry is the one behind another block in use, and so somebody leads to it.
  lemma {:induction false} LedTo(g: Graph, p: nat, b: nat)
    requires Layout(g) && Rests(g) && p < b < |g.bb| && g.bb[p].used && g.bb[b].used
    ensures g.bb[b].pred != []
    decreases b - p
  {
    assert RestsHere(g, p) && BlockInRange(g, p);
    assert !Skipped(g.bb[p], b);
    var q := g.bb[p].next.value;
    if q < b { LedTo(g, q, b); }
  }

  lemma {:induction false} ReachedUp(g: Graph, rank: seq<nat>, b: nat)
    requires Layout(g) && Rests(g) && Exact(g.bb) && Uphill(g, rank) && b < |g.bb| && g.bb[b].used && g.bb[0].used
    ensures Reachable(Flow(g.bb), 0, b)
    decreases rank[b]
  {
    if b == 0 {
      assert Within(Flow(g.bb), 0, 0, 0);
    } else {
      LedTo(g, 0, b);
      var y := g.bb[b].pred[0];
      assert y in g.bb[b].pred && HasEdge(g.bb[y], b);
      ReachedUp(g, rank, y);
      var n: nat :| Within(Flow(g.bb), 0, y, n);
      OneStepOn(Flow(g.bb), 0, y, n, b);
    }
  }

  lemma RestsReached(g: Graph)
    requires Layout(g) && Rests(g) && Exact(g.bb) && NoCycle(g) && g.bb[0].used
    ensures NoDeadBlocks(g)
  {
    var rank: seq<nat> :| Uphill(g, rank);
    forall b: nat | b < |g.bb| && g.bb[b].used ensures Reachable(Flow(g.bb), 0, b) { ReachedUp(g, rank, b); }
  }

  // ----- and no jump goes where it would go anyway -----

  predicate GoesOn(op: Op, i: nat) {
    (op.code.Jmp? && op.to1 == i + 1) || (op.code.Jmpznz? && (op.to2 == i + 1 || op.ext == i + 1))
  }

  // No jump leads to the next line, unless there is an empty block.
  ghost predicate NoIdleLines(g: Graph, pos: seq<nat>, out: seq<Op>) {
    forall i: nat {:trigger out[i]} :: i < |out| && GoesOn(out[i], i) ==> EmptyAt(g, pos, i + 1)
  }

  // The same blocks are in use, each as long and with the same ways out; no jump is new.
  ghost predicate SameJumps(g: Graph, g': Graph) {
    |g'.bb| == |g.bb| && forall b: nat {:trigger JumpsAlike(g, g', b)} :: b < |g.bb| ==> JumpsAlike(g, g', b)
  }

  predicate JumpsAlike(g: Graph, g': Graph, b: nat)
    requires b < |g.bb| == |g'.bb|
  {
    && g'.bb[b].used == g.bb[b].used
    && (g'.bb[b].used ==>
          && EdgesOf(g'.bb[b]) == EdgesOf(g.bb[b]) && g'.bb[b].len == g.bb[b].len
          && (Ready(g', b) ==> Ready(g, b) && (Last(g', b).code.Jmp? ==> Last(g, b).code.Jmp?)
                               && (Last(g', b).code.Jmpznz? ==> Last(g, b).code.Jmpznz?)))
  }

  lemma SameJumpsTransitive(g: Graph, g1: Graph, g2: Graph)
    requires SameJumps(g, g1) && SameJumps(g1, g2)
    ensures SameJumps(g, g2)
  {
    forall b: nat {:trigger JumpsAlike(g, g2, b)} | b < |g.bb| ensures JumpsAlike(g, g2, b) {
      assert JumpsAlike(g, g1, b) && JumpsAlike(g1, g2, b);
    }
  }

  // A block in use that lies behind b in the order of the list is not at the line behind b, but if the next one is.
  lemma OnlyNext(g: Graph, g': Graph, pos: seq<nat>, out: seq<Op>, b: nat, t: nat, i: nat)
    requires Layout(g) && RestsNext(g, b) && SameJumps(g, g') && LinesOf(g', out, pos) && g'.bb[b].used
    requires t < |g'.bb| && g'.bb[t].used && pos[t] == i + 1 == pos[b] + g'.bb[b].len && g.bb[b].next != Some(t)
    requires g'.bb[b].len > 0
    ensures EmptyAt(g', pos, i + 1)
  {
    assert JumpsAlike(g, g', b) && JumpsAlike(g, g', t) && BlockInRange(g, b);
    assert b < t;
    assert !Skipped(g.bb[b], t);
    var q := g.bb[b].next.value;
    assert JumpsAlike(g, g', q);
    assert EmptyHere(g', pos, i + 1, q);
  }

  predicate RestsNext(g: Graph, b: nat) {
    b < |g.bb| && NextLedTo(g, b)
  }

  lemma LineGoesOn(g: Graph, g': Graph, pos: seq<nat>, out: seq<Op>, b: nat, i: nat)
    requires Layout(g) && RestsNext(g, b) && SameJumps(g, g') && LinesOf(g', out, pos) && EndsAt(g', pos, out, b, i)
    requires Polished(g, b) && GoesOn(out[i], i)
    ensures EmptyAt(g', pos, i + 1)
  {
    assert JumpsAlike(g, g', b);
    EdgesAre(g', out, pos, b, i);
    var blk, op := g'.bb[b], out[i];
    if op.code.Jmp? {
      OnlyNext(g, g', pos, out, b, blk.jmp1.value, i);
    } else if op.to2 == i + 1 {
      OnlyNext(g, g', pos, out, b, blk.jmp2.value, i);
    } else {
      OnlyNext(g, g', pos, out, b, blk.ext.value, i);
    }
  }

  // What rests, with all its blocks still there, is laid out without jumps to the next line.
  lemma RestsIdle(g: Graph, g': Graph, out: seq<Op>, pos: seq<nat>)
    requires Layout(g) && Rests(g) && SameJumps(g, g') && LinesOf(g', out, pos)
    ensures NoIdleLines(g', pos, out)
  {
    forall i: nat | i < |out| && GoesOn(out[i], i) ensures EmptyAt(g', pos, i + 1) {
      var b := LineIs(g', out, pos, i);
      assert JumpsAlike(g, g', b) && RestsHere(g, b);
      LineGoesOn(g, g', pos, out, b, i);
    }
  }

  lemma AliveJumps(g: Graph, g': Graph)
    requires InRange(g) && InRange(g') && NoDeadBlocks(g) && SameAlive(g, g') && Closed(g'.bb) && g'.bb != []
             && g'.bb[0].used
    ensures SameJumps(g, g')
  {
    StillNoDead(g, g');
    forall b: nat {:trigger JumpsAlike(g, g', b)} | b < |g.bb| ensures JumpsAlike(g, g', b) {
      if g'.bb[b].used { AliveLines(g, g', b); }
    }
  }
}
