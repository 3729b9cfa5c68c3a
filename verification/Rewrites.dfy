// The invariant of the control-flow graph, and the three kinds of change optimize_jmp makes to it:
// rewriting the last instruction of a block, deleting a block, and merging two blocks.
module Rewrites {
  import opened Options
  import opened Opcodes
  import opened Graphs
  import opened Preds
  import opened Ways

  // ----- the invariant -----

  ghost predicate InRange(g: Graph) {
    && |g.bb| == |g.code| + 1
    && forall b :: 0 <= b < |g.bb| ==> BlockInRange(g, b)
  }

  ghost predicate BlockInRange(g: Graph, b: nat)
    requires b < |g.bb|
  {
    var blk := g.bb[b];
    && (blk.start.Some? ==> blk.start.value == b)
    && (blk.used || blk.len > 0 ==> blk.start.Some?)
    && b + blk.len <= |g.code| + 1
    && (blk.len > 0 ==> b + blk.len <= |g.code|)
    && (forall t: nat :: HasEdge(blk, t) ==> t < |g.bb|)
    && (blk.next.Some? ==> b < blk.next.value < |g.bb| && g.bb[blk.next.value].start.Some?)
  }

  // Blocks that still own code do not overlap, ...
  ghost predicate Disjoint(g: Graph) {
    forall b, c :: 0 <= b < c < |g.bb| && (g.bb[c].used || g.bb[c].len > 0) && g.bb[b].len > 0 ==> b + g.bb[b].len <= c
  }

  // ... and everything outside them is a NOP.
  ghost predicate Covered(g: Graph) {
    forall i :: 0 <= i < |g.code| && !g.code[i].code.Nop? ==> exists b :: Owns(g, b, i)
  }

  ghost predicate Owns(g: Graph, b: int, i: int) {
    0 <= b < |g.bb| && b <= i < b + g.bb[b].len
  }

  // `next` skips nothing that is still alive.
  ghost predicate NextSkips(g: Graph) {
    forall b: nat, c: nat ::
      b < c < |g.bb| && g.bb[b].start.Some? && Skipped(g.bb[b], c) ==> !g.bb[c].used && g.bb[c].len == 0
  }

  predicate Skipped(blk: Block, c: nat) {
    blk.next.None? || c < blk.next.value
  }

  // Which pointers are set follows from the last instruction; what was an FE_RESET keeps its second pointer.
  predicate TailShape(c: Opcode, e: Edges) {
    if c.Jmp? then e.jmp1.Some? && e.jmp2.None? && e.ext.None? && e.follow.None?
    else if c.Jmpznz? then e.jmp1.None? && e.jmp2.Some? && e.ext.Some? && e.follow.None?
    else if TwoWay(c) then e.jmp1.None? && e.jmp2.Some? && e.ext.None? && e.follow.Some?
    else e.jmp1.None? && (c.Nop? || e.jmp2.None?) && e.ext.None?
  }

  // Control leaves a block only at its end.
  ghost predicate Straight(ops: seq<Op>) {
    forall i :: 0 <= i < |ops| ==> !Control(ops[i].code)
  }

  ghost predicate Shaped(g: Graph, b: nat)
    requires b < |g.bb| && BlockInRange(g, b)
  {
    var blk := g.bb[b];
    if blk.len > 0 then
      && Straight(g.code[b .. b + blk.len - 1])
      && TailShape(g.code[b + blk.len - 1].code, EdgesOf(blk))
    else
      blk.used ==> b < |g.code| && g.code[b].code.Nop? && blk.jmp1.None? && blk.jmp2.None? && blk.ext.None?
  }

  predicate FallsAfter(c: Opcode) {
    !c.Jmp? && !c.Jmpznz? && !Stops(c)
  }

  predicate FallsThrough(g: Graph, b: nat)
    requires b < |g.bb| && b + g.bb[b].len <= |g.code| + 1 && (g.bb[b].len > 0 ==> b + g.bb[b].len <= |g.code|)
  {
    g.bb[b].len == 0 || FallsAfter(g.code[b + g.bb[b].len - 1].code)
  }

  // f is the next used block in layout order.
  ghost predicate NextUsed(bb: seq<Block>, b: nat, f: Ref) {
    f.Some? && b < f.value < |bb| && forall c :: b < c < f.value ==> !bb[c].used
  }

  ghost predicate Placed(g: Graph, b: nat)
    requires b < |g.bb| && BlockInRange(g, b)
  {
    g.bb[b].used && FallsThrough(g, b) ==> NextUsed(g.bb, b, g.bb[b].follow)
  }

  ghost predicate Layout(g: Graph) {
    && InRange(g) && Disjoint(g) && Covered(g) && NextSkips(g)
    && (forall b :: 0 <= b < |g.bb| ==> Shaped(g, b) && Placed(g, b))
  }

  ghost predicate Inv(g: Graph, T: nat, bools: set<nat>) {
    && Layout(g)
    && NoDups(g.bb) && Edged(g.bb) && g.bb[0].used
    && CodeOk(g.code, T, bools) && TestsApart(g, bools)
  }

  lemma InvClosed(g: Graph, T: nat, bools: set<nat>)
    requires Inv(g, T, bools)
    ensures Closed(g.bb)
  {
  }

  // ----- running straight-line code -----

  function RunStraight(w: World, ops: seq<Op>, s: State): (r: (bool, State)) {
    if ops == [] then (false, s)
    else
      var (d, s') := Exec(w, ops[0], s);
      if d.Halt? then (true, s') else RunStraight(w, ops[1..], s')
  }

  lemma ExecStraight(w: World, pre: seq<Op>, rest: seq<Op>, blk: Block, s: State)
    requires Straight(pre)
    ensures var (h, s') := RunStraight(w, pre, s);
            ExecOps(w, pre + rest, blk, s) == if h then Halted(s'.tr) else ExecOps(w, rest, blk, s')
  {
    if pre == [] {
      assert pre + rest == rest;
    } else {
      assert !Control(pre[0].code);
      assert (pre + rest)[1..] == pre[1..] + rest;
      ExecStraight(w, pre[1..], rest, blk, Exec(w, pre[0], s).1);
    }
  }

  lemma RunStraightKeepsStateOk(w: World, ops: seq<Op>, s: State, T: nat, bools: set<nat>)
    requires CodeOk(ops, T, bools) && StateOk(s, T, bools)
    ensures StateOk(RunStraight(w, ops, s).1, T, bools)
  {
    if ops != [] {
      ExecKeepsStateOk(w, ops[0], s, T, bools);
      assert CodeOk(ops[1..], T, bools);
      RunStraightKeepsStateOk(w, ops[1..], Exec(w, ops[0], s).1, T, bools);
    }
  }

  // ----- rewriting the last instruction of block p -----

  // The last instruction becomes op and the pointers become e; `shrink` also takes it off the block.
  function Rewrite(g: Graph, p: nat, op: Op, shrink: bool, drop: Ref, e: Edges, add: Ref): Graph
    requires p < |g.bb| && 0 < g.bb[p].len && p + g.bb[p].len <= |g.code|
  {
    var bb := g.bb[p := g.bb[p].(len := g.bb[p].len - if shrink then 1 else 0)];
    Graph(g.code[p + g.bb[p].len - 1 := op], Rewire(bb, p, drop, e, add))
  }

  // The new instruction leads where the old one led, or further over one jump.
  ghost predicate Steers(g: Graph, p: nat, op: Op, e: Edges)
    requires p < |g.bb| && 0 < g.bb[p].len && p + g.bb[p].len <= |g.code|
  {
    var last := g.code[p + g.bb[p].len - 1];
    && (Control(op.code) ==> Control(last.code))
    && (forall u: nat {:trigger InEdges(e, u)} :: InEdges(e, u) ==> Leading(g, p, u))
    && (SelfTest(op) ==> op == last && e.follow == g.bb[p].follow && GoesOn(g, g.bb[p].jmp2, e.jmp2))
  }

  ghost predicate CanRewrite(g: Graph, p: nat, op: Op, shrink: bool, drop: Ref, e: Edges, add: Ref, T: nat,
                             bools: set<nat>) {
    && CanRewire(g.bb, p, drop, e, add)
    && 0 < g.bb[p].len && p + g.bb[p].len <= |g.code|
    && OpOk(op, T, bools) && Steers(g, p, op, e)
    && TailShape(op.code, e)
    && (shrink ==> op.code.Nop? && e.jmp2.None?)
    && (g.bb[p].used && FallsAfter(op.code) ==> NextUsed(g.bb, p, e.follow))
    && (shrink && g.bb[p].used ==> NextUsed(g.bb, p, e.follow))
  }

  lemma SameEdgesKeep(bb: seq<Block>, bb': seq<Block>, p: nat, n: nat)
    requires NoDups(bb) && Edged(bb) && p < |bb| && bb' == bb[p := bb[p].(len := n)]
    ensures NoDups(bb') && Edged(bb')
  {
    forall b: nat, t: nat {:trigger HasEdge(bb'[b], t)} | b < |bb'| && bb'[b].used && HasEdge(bb'[b], t)
      ensures t < |bb'| && bb'[t].used && b in bb'[t].pred
    {
      assert HasEdge(bb[b], t);
    }
  }

  lemma CanRewireAnyLen(bb: seq<Block>, bb': seq<Block>, p: nat, n: nat, drop: Ref, e: Edges, add: Ref)
    requires CanRewire(bb, p, drop, e, add) && bb' == bb[p := bb[p].(len := n)]
    ensures CanRewire(bb', p, drop, e, add)
  {
    assert forall t: nat :: HasEdge(bb'[p], t) == HasEdge(bb[p], t);
    if add.Some? { assert forall t: nat :: HasEdge(bb'[add.value], t) == HasEdge(bb[add.value], t); }
  }

  lemma RewriteBlocks(g: Graph, p: nat, op: Op, shrink: bool, drop: Ref, e: Edges, add: Ref)
    requires NoDups(g.bb) && Edged(g.bb) && CanRewire(g.bb, p, drop, e, add)
    requires 0 < g.bb[p].len && p + g.bb[p].len <= |g.code|
    ensures var g' := Rewrite(g, p, op, shrink, drop, e, add);
            var n := g.bb[p].len - if shrink then 1 else 0;
            Rewired(g.bb[p := g.bb[p].(len := n)], g'.bb, p, e)
  {
    var n := g.bb[p].len - if shrink then 1 else 0;
    var bb := g.bb[p := g.bb[p].(len := n)];
    SameEdgesKeep(g.bb, bb, p, n);
    CanRewireAnyLen(g.bb, bb, p, n, drop, e, add);
    RewireFacts(bb, p, drop, e, add);
  }

  // What Rewrite makes of the graph, without the predecessor lists.
  ghost predicate Rewritten(g: Graph, g': Graph, p: nat, op: Op, shrink: bool, e: Edges) {
    && p < |g.bb| == |g'.bb| && 0 < g.bb[p].len && p + g.bb[p].len <= |g.code|
    && g'.code == g.code[p + g.bb[p].len - 1 := op]
    && Fewer(g.bb[p := WithEdges(g.bb[p].(len := g.bb[p].len - if shrink then 1 else 0), e)], g'.bb)
  }

  lemma RewrittenInRange(g: Graph, g': Graph, p: nat, op: Op, shrink: bool, e: Edges)
    requires InRange(g) && Rewritten(g, g', p, op, shrink, e)
    requires forall t: nat :: InEdges(e, t) ==> t < |g.bb|
    ensures InRange(g')
  {
    forall b | 0 <= b < |g'.bb| ensures BlockInRange(g', b) {
      assert BlockInRange(g, b);
      if b == p {
        assert forall t: nat :: HasEdge(g'.bb[b], t) <==> InEdges(e, t);
      } else {
        assert forall t: nat :: HasEdge(g'.bb[b], t) <==> HasEdge(g.bb[b], t);
      }
    }
  }

  lemma RewrittenCovered(g: Graph, g': Graph, p: nat, op: Op, shrink: bool, e: Edges)
    requires Covered(g) && Rewritten(g, g', p, op, shrink, e) && (shrink ==> op.code.Nop?)
    ensures Covered(g')
  {
    forall i | 0 <= i < |g'.code| && !g'.code[i].code.Nop? ensures exists b :: Owns(g', b, i) {
      if i == p + g.bb[p].len - 1 {
        assert Owns(g', p, i);
      } else {
        var b :| Owns(g, b, i);
        assert Owns(g', b, i);
      }
    }
  }

  lemma RewrittenAtP(g: Graph, g': Graph, p: nat, op: Op, shrink: bool, e: Edges)
    requires InRange(g) && InRange(g') && Rewritten(g, g', p, op, shrink, e)
    requires BlockInRange(g, p) && Shaped(g, p)
    requires TailShape(op.code, e) && (shrink ==> op.code.Nop? && e.jmp2.None?)
    requires g.bb[p].used && (shrink || FallsAfter(op.code)) ==> NextUsed(g.bb, p, e.follow)
    ensures BlockInRange(g', p) && Shaped(g', p) && Placed(g', p)
  {
    assert BlockInRange(g', p);
    var last, n := p + g.bb[p].len - 1, g'.bb[p].len;
    assert EdgesOf(g'.bb[p]) == e;
    assert g'.code[p .. last] == g.code[p .. last];
    if shrink && n > 0 {
      assert g.code[p .. last][n - 1] == g.code[last - 1] == g'.code[last - 1];
      assert g'.code[p .. last - 1] == g.code[p .. last][..n - 1];
    }
  }

  lemma RewrittenElsewhere(g: Graph, g': Graph, p: nat, op: Op, shrink: bool, e: Edges, b: nat)
    requires InRange(g) && InRange(g') && Disjoint(g) && Rewritten(g, g', p, op, shrink, e)
    requires b < |g.bb| && b != p && BlockInRange(g, b) && Shaped(g, b) && Placed(g, b)
    ensures BlockInRange(g', b) && Shaped(g', b) && Placed(g', b)
  {
    assert BlockInRange(g', b) && BlockInRange(g, p);
    var n := g.bb[b].len;
    assert EdgesOf(g'.bb[b]) == EdgesOf(g.bb[b]) && g'.bb[b].len == n;
    if n > 0 {
      if b < p { assert b + n <= p; } else { assert p + g.bb[p].len <= b; }
      SameLines(g.code, g'.code, p + g.bb[p].len - 1, b, b + n);
    } else if g'.bb[b].used {
      assert p < b ==> p + g.bb[p].len <= b;
      assert g'.code[b] == g.code[b];
    }
  }

  // One line has changed, and these are others.
  lemma SameLines(code: seq<Op>, code': seq<Op>, i: nat, a: nat, b: nat)
    requires |code'| == |code| && i < |code| && code' == code[i := code'[i]] && a < b <= |code| && (i < a || b <= i)
    ensures code'[a .. b] == code[a .. b] && code'[a .. b - 1] == code[a .. b - 1] && code'[b - 1] == code[b - 1]
  {
  }

  lemma RewrittenLayout(g: Graph, g': Graph, p: nat, op: Op, shrink: bool, e: Edges)
    requires Layout(g) && Rewritten(g, g', p, op, shrink, e)
    requires TailShape(op.code, e) && (shrink ==> op.code.Nop? && e.jmp2.None?)
    requires g.bb[p].used && (shrink || FallsAfter(op.code)) ==> NextUsed(g.bb, p, e.follow)
    requires forall t: nat :: InEdges(e, t) ==> t < |g.bb|
    ensures Layout(g')
  {
    RewrittenInRange(g, g', p, op, shrink, e);
    RewrittenCovered(g, g', p, op, shrink, e);
    forall b | 0 <= b < |g'.bb| ensures BlockInRange(g', b) && Shaped(g', b) && Placed(g', b) {
      assert BlockInRange(g, b) && Shaped(g, b) && Placed(g, b);
      if b == p {
        RewrittenAtP(g, g', p, op, shrink, e);
      } else {
        RewrittenElsewhere(g, g', p, op, shrink, e, b);
      }
    }
  }

  lemma RewriteTargets(g: Graph, p: nat, op: Op, shrink: bool, drop: Ref, e: Edges, add: Ref, T: nat, bools: set<nat>,
                       t: nat)
    requires Inv(g, T, bools) && CanRewrite(g, p, op, shrink, drop, e, add, T, bools) && InEdges(e, t)
    ensures t < |g.bb|
  {
    assert BlockInRange(g, p);
    if add != Some(t) { assert HasEdge(g.bb[p], t); }
  }

  lemma RewriteLaysOut(g: Graph, g': Graph, p: nat, op: Op, shrink: bool, drop: Ref, e: Edges, add: Ref, T: nat,
                       bools: set<nat>)
    requires Inv(g, T, bools) && CanRewrite(g, p, op, shrink, drop, e, add, T, bools)
    requires Rewritten(g, g', p, op, shrink, e)
    ensures Layout(g') && CodeOk(g'.code, T, bools)
  {
    forall t: nat | InEdges(e, t) ensures t < |g.bb| { RewriteTargets(g, p, op, shrink, drop, e, add, T, bools, t); }
    RewrittenLayout(g, g', p, op, shrink, e);
  }

  lemma RewrittenAtPOnward(g: Graph, g': Graph, p: nat, op: Op, shrink: bool, e: Edges)
    requires Rewritten(g, g', p, op, shrink, e) && BlockInRange(g, p) && Shaped(g, p) && Steers(g, p, op, e)
    requires g.bb[p].used
    ensures Onward(g, g', p, p)
  {
    var last := p + g.bb[p].len - 1;
    assert EdgesOf(g'.bb[p]) == e;
    assert forall u: nat :: HasEdge(g'.bb[p], u) == InEdges(e, u);
    if shrink && g.bb[p].len > 1 {
      var pre := g.code[p .. last];
      assert pre[0] == g.code[p] == g'.code[p] && pre[|pre| - 1] == g.code[last - 1] == g'.code[last - 1];
    }
  }

  lemma RewrittenElseOnward(g: Graph, g': Graph, p: nat, op: Op, shrink: bool, e: Edges, b: nat)
    requires InRange(g) && Disjoint(g) && Rewritten(g, g', p, op, shrink, e) && b < |g.bb| && b != p && g.bb[b].used
    ensures OnwardFrom(g, g', b)
  {
    assert BlockInRange(g, b) && BlockInRange(g, p);
    if g.bb[b].len > 0 {
      if b < p { assert b + g.bb[b].len <= p; } else { assert p + g.bb[p].len <= b; }
    }
    SameOnward(g, g', b);
  }

  lemma RewrittenOnward(g: Graph, g': Graph, p: nat, op: Op, shrink: bool, e: Edges)
    requires Layout(g) && Rewritten(g, g', p, op, shrink, e) && Steers(g, p, op, e)
    ensures AllOnward(g, g')
  {
    forall b: nat {:trigger OnwardFrom(g, g', b)} | b < |g'.bb| && g'.bb[b].used ensures OnwardFrom(g, g', b) {
      if b == p {
        assert BlockInRange(g, p) && Shaped(g, p);
        RewrittenAtPOnward(g, g', p, op, shrink, e);
      } else {
        RewrittenElseOnward(g, g', p, op, shrink, e, b);
      }
    }
  }

  lemma RewriteKeepsInv(g: Graph, p: nat, op: Op, shrink: bool, drop: Ref, e: Edges, add: Ref, T: nat, bools: set<nat>)
    requires Inv(g, T, bools) && CanRewrite(g, p, op, shrink, drop, e, add, T, bools)
    ensures var g' := Rewrite(g, p, op, shrink, drop, e, add);
            Inv(g', T, bools) && Rewritten(g, g', p, op, shrink, e)
  {
    RewriteBlocks(g, p, op, shrink, drop, e, add);
    var g' := Rewrite(g, p, op, shrink, drop, e, add);
    RewriteLaysOut(g, g', p, op, shrink, drop, e, add, T, bools);
    RewrittenOnward(g, g', p, op, shrink, e);
    TestsApartStill(g, g', bools);
  }

  // The rewritten tail does what the old one did, or what the old one did followed by the block it went to.
  ghost predicate TailHop(w: World, g: Graph, op: Op, blk: Block, op': Op, e: Edges, s: State) {
    var a, a' := ExecOps(w, [op], blk, s), ExecOps(w, [op'], WithEdges(blk, e), s);
    a' == a || a' == Step(w, g, a)
  }

  lemma ExecOpsEdges(w: World, ops: seq<Op>, blk: Block, blk': Block, s: State)
    requires EdgesOf(blk) == EdgesOf(blk')
    ensures ExecOps(w, ops, blk, s) == ExecOps(w, ops, blk', s)
  {
  }

  // The block's instructions before and after: all but the last stay.
  lemma RewrittenOps(g: Graph, g': Graph, p: nat, op: Op, shrink: bool, e: Edges, T: nat, bools: set<nat>)
    requires p < |g.bb| == |g'.bb| && BlockInRange(g, p) && Shaped(g, p) && BlockInRange(g', p)
    requires Rewritten(g, g', p, op, shrink, e)
    requires CodeOk(g.code, T, bools) && g.bb[p].used && g'.bb[p].used
    ensures var last := p + g.bb[p].len - 1; var pre := g.code[p .. last];
            && Ops(g, p) == pre + [g.code[last]] && Ops(g', p) == pre + (if shrink then [] else [op])
            && CodeOk(pre, T, bools) && Straight(pre)
  {
    var last := p + g.bb[p].len - 1;
    assert g'.code[p .. last] == g.code[p .. last];
  }

  // On sequences of instructions: the last one is rewritten, or dropped as a NOP.
  lemma TailRewritten(w: World, g: Graph, pre: seq<Op>, last: Op, op: Op, shrink: bool, blk: Block, blk': Block,
                      e: Edges,
                      T: nat, bools: set<nat>, s: State)
    requires Straight(pre) && CodeOk(pre, T, bools) && StateOk(s, T, bools) && (shrink ==> op.code.Nop?)
    requires EdgesOf(WithEdges(blk, e)) == EdgesOf(blk')
    requires forall s' :: StateOk(s', T, bools) ==> TailHop(w, g, last, blk, op, e, s')
    ensures var a, a' := ExecOps(w, pre + [last], blk, s), ExecOps(w, pre + (if shrink then [] else [op]), blk', s);
            a' == a || a' == Step(w, g, a)
  {
    ExecStraight(w, pre, [last], blk, s);
    var (h, s') := RunStraight(w, pre, s);
    RunStraightKeepsStateOk(w, pre, s, T, bools);
    assert TailHop(w, g, last, blk, op, e, s');
    ExecOpsEdges(w, [op], WithEdges(blk, e), blk', s');
    ExecStraight(w, pre, if shrink then [] else [op], blk', s);
  }

  lemma RewrittenHop(w: World, g: Graph, g': Graph, p: nat, op: Op, shrink: bool, e: Edges, T: nat, bools: set<nat>,
                     s: State)
    requires p < |g.bb| == |g'.bb| && BlockInRange(g, p) && Shaped(g, p) && BlockInRange(g', p)
    requires Rewritten(g, g', p, op, shrink, e)
    requires shrink ==> op.code.Nop?
    requires CodeOk(g.code, T, bools) && StateOk(s, T, bools)
    requires forall s' :: StateOk(s', T, bools) ==> TailHop(w, g, g.code[p + g.bb[p].len - 1], g.bb[p], op, e, s')
    requires g.bb[p].used && g'.bb[p].used
    ensures Hop(w, g, g', p, s)
  {
    var last := p + g.bb[p].len - 1;
    RewrittenOps(g, g', p, op, shrink, e, T, bools);
    TailRewritten(w, g, g.code[p .. last], g.code[last], op, shrink, g.bb[p], g'.bb[p], e, T, bools, s);
  }

  lemma RewrittenSame(w: World, g: Graph, g': Graph, p: nat, op: Op, shrink: bool, e: Edges, b: nat, s: State)
    requires InRange(g) && InRange(g') && Disjoint(g) && Rewritten(g, g', p, op, shrink, e)
    requires b < |g.bb| && b != p && g.bb[b].used
    ensures Hop(w, g, g', b, s)
  {
    assert BlockInRange(g, b) && BlockInRange(g', b) && BlockInRange(g, p);
    if b < p && g.bb[b].len > 0 { assert b + g.bb[b].len <= p; }
    if p < b { assert p + g.bb[p].len <= b; }
    if g.bb[b].len > 0 {
      assert g'.code[b .. b + g.bb[b].len] == g.code[b .. b + g.bb[b].len];
    }
    assert Ops(g', b) == Ops(g, b);
    ExecOpsEdges(w, Ops(g, b), g.bb[b], g'.bb[b], s);
  }

  lemma RewrittenShortcut(w: World, g: Graph, g': Graph, p: nat, op: Op, shrink: bool, e: Edges, T: nat,
                          bools: set<nat>)
    requires Layout(g) && Layout(g') && CodeOk(g.code, T, bools) && Rewritten(g, g', p, op, shrink, e)
    requires shrink ==> op.code.Nop?
    requires g.bb[p].used ==>
               forall s :: StateOk(s, T, bools) ==> TailHop(w, g, g.code[p + g.bb[p].len - 1], g.bb[p], op, e, s)
    ensures Shortcut(w, g, g', T, bools)
  {
    forall b: nat, s | b < |g'.bb| && g'.bb[b].used && StateOk(s, T, bools) ensures Hop(w, g, g', b, s) {
      if b == p {
        assert BlockInRange(g, p) && Shaped(g, p) && BlockInRange(g', p);
        RewrittenHop(w, g, g', p, op, shrink, e, T, bools, s);
      } else {
        RewrittenSame(w, g, g', p, op, shrink, e, b, s);
      }
    }
  }

  // The one theorem every rule of optimize_jmp goes through.
  lemma RewriteEquivalent(w: World, g: Graph, p: nat, op: Op, shrink: bool, drop: Ref, e: Edges, add: Ref, T: nat,
                          bools: set<nat>)
    requires Inv(g, T, bools) && CanRewrite(g, p, op, shrink, drop, e, add, T, bools)
    requires shrink ==> op.code.Nop?
    requires g.bb[p].used ==>
               forall s :: StateOk(s, T, bools) ==> TailHop(w, g, g.code[p + g.bb[p].len - 1], g.bb[p], op, e, s)
    ensures var g' := Rewrite(g, p, op, shrink, drop, e, add);
            Inv(g', T, bools) && Equivalent(w, g, g', T, bools)
  {
    RewriteKeepsInv(g, p, op, shrink, drop, e, add, T, bools);
    var g' := Rewrite(g, p, op, shrink, drop, e, add);
    RewrittenShortcut(w, g, g', p, op, shrink, e, T, bools);
    InvClosed(g', T, bools);
    ShortcutEquivalent(w, g, g', T, bools);
  }
}
