// eaccelerator_optimize without the peephole pass: build, mark and rewrite twice, mark, sweep, emit.
module Optimize {
  import opened Opcodes
  import opened Graphs
  import opened Preds
  import opened Rewrites
  import opened Ways
  import opened Marking
  import opened Flat
  import opened BuildCfg
  import opened EmitCfg
  import opened Options
  import opened Trails
  import opened Polish
  import opened PolishedCode
  import opened IdleJumps
  import opened Settling
  import opened JmpOptimizer

  lemma FewerBlock(g: Graph, bb': seq<Block>, b: nat)
    requires Layout(g) && Fewer(g.bb, bb') && b < |bb'|
    ensures var g' := Graph(g.code, bb'); BlockInRange(g', b) && Shaped(g', b) && Placed(g', b)
  {
    assert BlockInRange(g, b) && Shaped(g, b) && Placed(g, b);
    assert EdgesOf(bb'[b]) == EdgesOf(g.bb[b]);
    assert forall t: nat :: HasEdge(bb'[b], t) == HasEdge(g.bb[b], t);
  }

  // Fewer used blocks, the same everything else.
  lemma FewerKeepsLayout(g: Graph, bb': seq<Block>)
    requires Layout(g) && Fewer(g.bb, bb')
    ensures Layout(Graph(g.code, bb'))
  {
    var g' := Graph(g.code, bb');
    forall b | 0 <= b < |bb'| ensures BlockInRange(g', b) && Shaped(g', b) && Placed(g', b) { FewerBlock(g, bb', b); }
    forall i | 0 <= i < |g.code| && !g.code[i].code.Nop? ensures exists b :: Owns(g', b, i) {
      var b :| Owns(g, b, i);
      assert Owns(g', b, i);
    }
    forall b: nat, c: nat | b < c < |bb'| && bb'[b].start.Some? && Skipped(bb'[b], c)
      ensures !bb'[c].used && bb'[c].len == 0
    {
      assert Skipped(g.bb[b], c);
    }
  }

  lemma FewerAlive(g: Graph, bb': seq<Block>)
    requires Fewer(g.bb, bb')
    ensures SameAlive(g, Graph(g.code, bb'))
  {
    forall b: nat {:trigger AliveAt(g, Graph(g.code, bb'), b)} | b < |g.bb| ensures AliveAt(g, Graph(g.code, bb'), b) {
    }
  }

  // Marking again from nothing keeps what the entry reaches, and so keeps the behaviour.
  lemma RemarkKeeps(g: Graph, bb1: seq<Block>, T: nat, bools: set<nat>)
    requires Inv(g, T, bools) && Fewer(g.bb, bb1) && NoneUsed(bb1) && NoDups(bb1)
    ensures EdgesInRange(bb1)
    ensures var g' := Graph(g.code, MarkUsed(bb1, 0));
            Inv(g', T, bools) && SameBehaviour(g, g', T, bools)
            && (forall b: nat :: b < |g.bb| ==> (g'.bb[b].used <==> Reachable(Flow(g.bb), 0, b)))
            && (Unlisted(bb1) ==> Exact(g'.bb)) && SameAlive(g, g') && Fewer(g.bb, g'.bb)
  {
    LayoutInRange(g, bb1);
    var bb2 := MarkUsed(bb1, 0);
    MarkUsedTheorem(bb1);
    assert Flow(bb1) == Flow(g.bb);
    forall b: nat | b < |g.bb| && bb2[b].used ensures g.bb[b].used {
      ReachableIsUsed(g, b, T, bools);
    }
    FewerKeepsLayout(g, bb2);
    var g' := Graph(g.code, bb2);
    InvClosed(g, T, bools);
    FewerOnward(g, bb2);
    TestsApartStill(g, g', bools);
    assert Within(Flow(bb1), 0, 0, 0);
    SameStepsBehave(g, g', T, bools);
    FewerAlive(g, bb2);
  }

  lemma LayoutInRange(g: Graph, bb': seq<Block>)
    requires InRange(g) && Fewer(g.bb, bb')
    ensures EdgesInRange(bb')
  {
    forall b | 0 <= b < |bb'|
      ensures Bounded(bb'[b].jmp1, |bb'|) && Bounded(bb'[b].jmp2, |bb'|) && Bounded(bb'[b].ext, |bb'|)
      ensures Bounded(bb'[b].follow, |bb'|)
    {
      assert BlockInRange(g, b);
      assert forall r: Ref :: r.Some? && (r == g.bb[b].jmp1 || r == g.bb[b].jmp2 || r == g.bb[b].ext || r == g.bb[b].follow) ==> HasEdge(g.bb[b], r.value);
    }
  }

  lemma SameStepsBehave(g: Graph, g': Graph, T: nat, bools: set<nat>)
    requires Inv(g', T, bools) && g'.code == g.code && Fewer(g.bb, g'.bb)
    ensures SameBehaviour(g, g', T, bools)
  {
    InvClosed(g', T, bools);
    forall w: World ensures Equivalent(w, g, g', T, bools) {
      forall b: nat, s | b < |g'.bb| && g'.bb[b].used && StateOk(s, T, bools) ensures Hop(w, g, g', b, s) {
        assert Ops(g', b) == Ops(g, b);
        ExecOpsEdges(w, Ops(g, b), g.bb[b], g'.bb[b], s);
      }
      ShortcutEquivalent(w, g, g', T, bools);
    }
  }

  // rm_bb on the blocks of a list, from p on.
  function RemovedFrom(list: seq<Block>, bb: seq<Block>, p: nat): (r: seq<Block>)
    ensures |r| == |bb|
    decreases |list| - p
  {
    if p >= |list| then bb
    else RemovedFrom(list, RmBb(bb, p),
                     if list[p].next.Some? && p < list[p].next.value then list[p].next.value else |list|)
  }

  // What rm_bb on every block and mark_used_bb make of g.
  ghost predicate Remarked(g: Graph, g': Graph) {
    var bb := RemovedFrom(g.bb, g.bb, 0);
    EdgesInRange(bb) && 0 < |bb| && g' == Graph(g.code, MarkUsed(bb, 0))
  }

  // Mark All Basic Blocks as Unused. Free Predecessors Links.
  method RemoveAll(g: Graph) returns (bb: seq<Block>)
    requires Layout(g) && NoDups(g.bb) && g.bb[0].used
    ensures bb == RemovedFrom(g.bb, g.bb, 0)
    ensures Fewer(g.bb, bb) && NoneUsed(bb) && NoDups(bb) && (Exact(g.bb) ==> Unlisted(bb))
  {
    bb := g.bb;
    var p := 0;
    assert BlockInRange(g, 0);
    while p < |g.bb|
      invariant p <= |g.bb| && Fewer(g.bb, bb) && NoDups(bb) && (Exact(g.bb) ==> Exact(bb))
      invariant (p < |g.bb| ==> g.bb[p].start.Some?)
      invariant forall b :: 0 <= b < |g.bb| && b < p ==> !bb[b].used
      invariant RemovedFrom(g.bb, bb, p) == RemovedFrom(g.bb, g.bb, 0)
      decreases |g.bb| - p
    {
      assert BlockInRange(g, p);
      var q := if g.bb[p].next.Some? then g.bb[p].next.value else |g.bb|;
      forall c | p < c < q ensures !g.bb[c].used {
        assert Skipped(g.bb[p], c);
      }
      RmBbFacts(bb, p);
      if Exact(g.bb) { RemovedKeepsExact(bb, RmBb(bb, p), p); }
      bb := RmBb(bb, p);
      p := q;
    }
    if Exact(g.bb) { ExactUnused(bb); }
  }

  ghost predicate Unlisted(bb: seq<Block>) {
    forall b :: 0 <= b < |bb| ==> bb[b].pred == []
  }

  // Exact lists of a graph in which nothing is in use are empty.
  lemma ExactUnused(bb: seq<Block>)
    requires Exact(bb) && NoneUsed(bb)
    ensures Unlisted(bb)
  {
    forall b | 0 <= b < |bb| ensures bb[b].pred == [] {
      FirstIsMember(bb[b].pred);
    }
  }

  // rm_bb on every block, then mark_used_bb from the entry.
  method Remark(o: Optimizer, ghost T: nat, ghost bools: set<nat>)
    requires Inv(o.G(), T, bools)
    modifies o
    ensures Inv(o.G(), T, bools) && SameBehaviour(old(o.G()), o.G(), T, bools)
    ensures |o.bb| == old(|o.bb|)
    ensures forall b: nat :: b < |o.bb| ==> (o.bb[b].used <==> Reachable(Flow(old(o.bb)), 0, b))
    ensures Remarked(old(o.G()), o.G()) && o.code == old(o.code) && Fewer(old(o.bb), o.bb)
    ensures (Exact(old(o.bb)) ==> Exact(o.bb)) && SameAlive(old(o.G()), o.G()) && NoDeadBlocks(o.G())
  {
    ghost var g := o.G();
    var bb1 := RemoveAll(o.G());
    RemarkKeeps(g, bb1, T, bools);
    o.bb := MarkUsed(bb1, 0);
    assert Flow(o.bb) == Flow(g.bb);
  }

  // One call of optimize_jmp (or of the last loop): the graph it got, its steps, the graph it left.
  datatype Call = Call(from: Graph, ms: seq<Move>, to: Graph)

  // The first call gets the graph built from the code and marked, each later one what marking again makes of the last.
  ghost predicate Passes(code: seq<Op>, calls: seq<Call>) {
    && (calls != [] ==> FromCode(code, calls[0].from))
    && (forall i :: 0 <= i < |calls| ==> Trail(calls[i].from, None, calls[i].ms, calls[i].to))
    && (forall i :: 0 < i < |calls| ==> Remarked(calls[i - 1].to, calls[i].from))
  }

  ghost predicate FromCode(code: seq<Op>, g: Graph) {
    exists bb: seq<Block> {:trigger Built(code, bb)} ::
        Built(code, bb) && OnlyLeaders(code, bb, |code|) && EdgesInRange(bb) && g == Graph(code, MarkUsed(bb, 0))
  }

  // No step of any call enters a block that is out of use.
  ghost predicate NothingLostIn(calls: seq<Call>) {
    forall i :: 0 <= i < |calls| ==> !LosesOnTheWay(calls[i].from, None, calls[i].ms)
  }

  // Every jump leads forward.
  predicate Forwards(code: seq<Op>) {
    forall i: nat, j: nat {:trigger JumpsTo(code, i, j)} :: i < |code| && JumpsTo(code, i, j) ==> i < j
  }

  // Code without backward jumps has no cycles: every way leads to a later block.
  lemma ForwardsNoCycle(code: seq<Op>, g: Graph)
    requires FromCode(code, g) && Forwards(code)
    ensures NoCycle(g) && Uphill(g, Identity(|g.bb|)) && |g.bb| == |code| + 1
  {
    var bb: seq<Block> :| Built(code, bb) && OnlyLeaders(code, bb, |code|) && EdgesInRange(bb)
      && g == Graph(code, MarkUsed(bb, 0));
    var rank := Identity(|bb|);
    forall b: nat, t: nat {:trigger HasEdge(g.bb[b], t)} | b < |g.bb| && g.bb[b].used && HasEdge(g.bb[b], t)
      ensures t < |g.bb| && b < t
    {
      BlockForwards(code, bb, g.bb, b, t);
    }
    assert Uphill(g, rank);
  }

  lemma BlockForwards(code: seq<Op>, bb: seq<Block>, bb': seq<Block>, b: nat, t: nat)
    requires Built(code, bb) && EdgesInRange(bb) && bb' == MarkUsed(bb, 0) && Forwards(code) && b < |bb'|
    requires HasEdge(bb'[b], t)
    ensures b < t < |bb'|
  {
    assert HasEdge(bb[b], t);
    assert BuiltBlock(code, bb, b);
    BuiltEdges(code, bb, b);
    assert Started(bb, t);
    if bb[b].start.Some? {
      BuiltFacts(code, bb, b);
      var i := b + bb[b].len - 1;
      if Control(code[i].code) { assert JumpsTo(code, i, t); }
    }
  }

  // The graph after the calls so far.
  ghost predicate Reached(code: seq<Op>, calls: seq<Call>, g: Graph) {
    Passes(code, calls) && if calls == [] then FromCode(code, g) else Remarked(calls[|calls| - 1].to, g)
  }

  lemma PassesGrow(code: seq<Op>, calls: seq<Call>, call: Call)
    requires Reached(code, calls, call.from) && Trail(call.from, None, call.ms, call.to)
    ensures Passes(code, calls + [call])
    ensures NothingLostIn(calls + [call]) <==> NothingLostIn(calls) && !LosesOnTheWay(call.from, None, call.ms)
  {
    var all := calls + [call];
    forall i | 0 <= i < |all|
      ensures Trail(all[i].from, None, all[i].ms, all[i].to) { if i < |calls|
    {
      assert all[i] == calls[i]; }
    }
    forall i | 0 < i < |all| ensures Remarked(all[i - 1].to, all[i].from) { assert all[i - 1] == calls[i - 1]; }
    assert forall i :: 0 <= i < |calls| ==> all[i] == calls[i];
    assert all[|calls|] == call;
  }

  // A call of optimize_jmp that stopped by itself left a graph at rest; any other has used up its budget.
  ghost predicate Stopped(call: Call, done: bool, budget: nat) {
    && (done ==> Rests(call.to) && JustUnmarked(call.to, call.ms))
    && (!done ==> budget <= Spent(|call.ms|, |call.to.bb|))
  }

  // optimize_jmp, and marking again.
  method JumpRound(o: Optimizer, budget: nat, ghost T: nat, ghost bools: set<nat>)
    returns (done: bool, ghost call: Call)
    requires Inv(o.G(), T, bools)
    modifies o
    ensures Inv(o.G(), T, bools) && SameBehaviour(old(o.G()), o.G(), T, bools)
    ensures call.from == old(o.G()) && Trail(call.from, None, call.ms, call.to) && Remarked(call.to, o.G())
    ensures Exact(old(o.bb)) && !LosesOnTheWay(call.from, None, call.ms) ==> Exact(o.bb)
    ensures NoCycle(call.from) ==> !LosesOnTheWay(call.from, None, call.ms) && NoCycle(o.G())
    ensures Stopped(call, done, budget) && Inv(call.to, T, bools) && SameAlive(call.to, o.G()) && NoDeadBlocks(o.G())
    ensures FewSteps(call.from, |call.ms|) && SameRanks(call.from, o.G()) && |call.to.bb| == |call.from.bb|
    ensures NoCycle(call.from) && Exact(old(o.bb)) && done ==> NoDeadBlocks(call.to)
  {
    ghost var g := o.G();
    done := o.OptimizeJmp(budget, T, bools);
    call := Call(g, o.trail, o.G());
    ghost var g1 := o.G();
    Remark(o, T, bools);
    SameBehaviourTransitive(g, call.to, o.G(), T, bools);
    InvClosed(g1, T, bools);
    FewerOnward(g1, o.bb);
    OnwardRanks(g1, o.G());
    if NoCycle(g) {
      NoCycleNothingLost(g, None, call.ms, g1, T, bools);
      NoCycleOnward(g1, o.G());
      if Exact(g.bb) && done { RestsReached(g1); }
    }
  }

  // Remove Unused Basic Blocks, once more.
  method SweepAlone(o: Optimizer, ghost T: nat, ghost bools: set<nat>)
    requires Inv(o.G(), T, bools)
    modifies o
    ensures Inv(o.G(), T, bools) && SameBehaviour(old(o.G()), o.G(), T, bools) && SameAlive(old(o.G()), o.G())
    ensures Trail(old(o.G()), None, o.trail, o.G())
    ensures Exact(old(o.bb)) && !LosesOnTheWay(old(o.G()), None, o.trail) ==> Exact(o.bb)
    ensures NoCycle(old(o.G())) ==> !LosesOnTheWay(old(o.G()), None, o.trail)
    ensures NoDeadBlocks(old(o.G())) ==> NoDeadBlocks(o.G())
  {
    o.trail := [];
    ghost var g := o.G();
    var swept := o.Sweep(T, bools);
    assert o.trail[..0] == [] && o.trail[0..] == o.trail;
    if Exact(g.bb) { TrailExactly(g, o.trail, o.G(), T, bools); }
    if NoCycle(g) { NoCycleNothingLost(g, None, o.trail, o.G(), T, bools); }
    InvClosed(o.G(), T, bools);
    if NoDeadBlocks(g) { StillNoDead(g, o.G()); }
  }

  // build_cfg and the first mark_used_bb.
  method Begin(code: seq<Op>, ghost T: nat, ghost bools: set<nat>) returns (o: Optimizer, ghost pos: seq<nat>)
    requires Compiled(code) && CodeOk(code, T, bools) && SelfTestsOk(code, bools)
    ensures fresh(o) && Inv(o.G(), T, bools) && LaidOut(o.G(), code, pos) && FromCode(code, o.G()) && Exact(o.bb)
  {
    var bb := Build(code);
    BuildTheorem(code, bb, T, bools);
    pos := Identity(|bb|);
    o := new Optimizer(Graph(code, MarkUsed(bb, 0)));
  }

  // The call got a graph that goes uphill where the first one did, and took no more steps than there was room for.
  ghost predicate SoonDone(g0: Graph, from: Graph, ms: seq<Move>, to: Graph) {
    SameRanks(g0, from) && FewSteps(from, |ms|) && |to.bb| == |from.bb|
  }

  // More than any call uses up on n instructions whose jumps all lead forward.
  function Enough(n: nat): nat {
    Spent((n + 1) * (13 * (n + 1) + 15), n + 1)
  }

  lemma SpentMore(a: nat, b: nat, n: nat)
    requires a <= b
    ensures Spent(a, n) <= Spent(b, n)
  {
    assert (a + 1) * (n + 1) <= (b + 1) * (n + 1);
  }

  // With such a budget a call on such code stops by itself.
  lemma EnoughIsDone(code: seq<Op>, g0: Graph, from: Graph, ms: seq<Move>, to: Graph, done: bool, budget: nat)
    requires FromCode(code, g0) && Forwards(code) && SoonDone(g0, from, ms, to)
    requires (!done ==> budget <= Spent(|ms|, |to.bb|))
    ensures Enough(|code|) < budget ==> done
  {
    ForwardsNoCycle(code, g0);
    var n := |g0.bb|;
    var rank := Identity(n);
    assert Uphill(from, rank) && Topped(rank, n);
    assert |ms| <= Left(from, rank, n);
    LeftAtMost(from, rank, n);
    SpentMore(|ms|, n * (13 * n + 15), n);
  }

  // g is the graph after these calls, the first of which got g0; the last one was `done` or not.
  ghost predicate SoFar(code: seq<Op>, g0: Graph, calls: seq<Call>, g: Graph, done: bool, budget: nat, T: nat,
                        bools: set<nat>) {
    && Inv(g, T, bools) && SameBehaviour(g0, g, T, bools) && Reached(code, calls, g)
    && (NothingLostIn(calls) ==> Exact(g.bb)) && (NoCycle(g0) ==> NothingLostIn(calls) && NoCycle(g))
    && SameRanks(g0, g)
    && (calls != [] ==> var last := calls[|calls| - 1];
                        && Stopped(last, done, budget) && Inv(last.to, T, bools) && SameAlive(last.to, g)
                        && NoDeadBlocks(g)
                        && SoonDone(g0, last.from, last.ms, last.to)
                        && (NoCycle(g0) && done ==> NoDeadBlocks(last.to)))
  }

  lemma OneMoreRound(code: seq<Op>, g0: Graph, calls: seq<Call>, g: Graph, was: bool, budget: nat, call: Call,
                     g': Graph, done: bool,
                     T: nat, bools: set<nat>)
    requires SoFar(code, g0, calls, g, was, budget, T, bools) && Inv(g', T, bools) && SameBehaviour(g, g', T, bools)
    requires call.from == g && Trail(call.from, None, call.ms, call.to) && Remarked(call.to, g')
    requires Exact(g.bb) && !LosesOnTheWay(call.from, None, call.ms) ==> Exact(g'.bb)
    requires NoCycle(call.from) ==> !LosesOnTheWay(call.from, None, call.ms) && NoCycle(g')
    requires Stopped(call, done, budget) && Inv(call.to, T, bools) && SameAlive(call.to, g') && NoDeadBlocks(g')
    requires FewSteps(call.from, |call.ms|) && SameRanks(call.from, g') && |call.to.bb| == |call.from.bb|
    requires NoCycle(call.from) && Exact(g.bb) && done ==> NoDeadBlocks(call.to)
    ensures SoFar(code, g0, calls + [call], g', done, budget, T, bools)
  {
    SameBehaviourTransitive(g0, g, g', T, bools);
    PassesGrow(code, calls, call);
  }

  // One more turn of it.
  method NextRound(o: Optimizer, ghost code: seq<Op>, ghost g0: Graph, ghost calls: seq<Call>, ghost was: bool,
                   budget: nat,
                   ghost T: nat, ghost bools: set<nat>)
    returns (done: bool, ghost calls': seq<Call>)
    requires SoFar(code, g0, calls, o.G(), was, budget, T, bools)
    modifies o
    ensures |calls'| == |calls| + 1 && SoFar(code, g0, calls', o.G(), done, budget, T, bools)
  {
    ghost var g, call := o.G(), Call(g0, [], g0);
    done, call := JumpRound(o, budget, T, bools);
    OneMoreRound(code, g0, calls, g, was, budget, call, o.G(), done, T, bools);
    calls' := calls + [call];
  }

  // The driver's loop.
  method JumpRounds(o: Optimizer, ghost code: seq<Op>, budget: nat, ghost T: nat, ghost bools: set<nat>)
    returns (done: bool, ghost calls: seq<Call>)
    requires Inv(o.G(), T, bools) && FromCode(code, o.G()) && Exact(o.bb)
    modifies o
    ensures |calls| == 2 && SoFar(code, old(o.G()), calls, o.G(), done, budget, T, bools)
  {
    ghost var g0 := o.G();
    SameBehaviourReflexive(g0, T, bools);
    calls := [];
    done := false;
    var i := 0;
    while i < 2
      invariant 0 <= i <= 2 && |calls| == i && SoFar(code, g0, calls, o.G(), done, budget, T, bools)
    {
      done, calls := NextRound(o, code, g0, calls, done, budget, T, bools);
      i := i + 1;
    }
  }

  // After the two calls and the last loop.
  ghost predicate AllCalls(code: seq<Op>, g0: Graph, calls: seq<Call>, done: bool, budget: nat, T: nat,
                           bools: set<nat>) {
    && |calls| == 3 && Passes(code, calls) && SameBehaviour(g0, calls[2].to, T, bools)
    && Stopped(calls[1], done, budget)
    && (NothingLostIn(calls) ==> Exact(calls[2].to.bb)) && (NoCycle(g0) ==> NothingLostIn(calls))
    && Inv(calls[1].to, T, bools) && SameAlive(calls[1].to, calls[2].to) && NoDeadBlocks(calls[2].to)
    && SoonDone(g0, calls[1].from, calls[1].ms, calls[1].to) && (NoCycle(g0) && done ==> NoDeadBlocks(calls[1].to))
  }

  lemma AfterSweep(code: seq<Op>, g0: Graph, calls: seq<Call>, g: Graph, done: bool, budget: nat, call: Call, T: nat,
                   bools: set<nat>)
    requires |calls| == 2 && SoFar(code, g0, calls, g, done, budget, T, bools)
    requires SameBehaviour(g, call.to, T, bools) && SameAlive(g, call.to) && call.from == g
    requires Trail(g, None, call.ms, call.to) && (Exact(g.bb) && !LosesOnTheWay(g, None, call.ms) ==> Exact(call.to.bb))
    requires (NoCycle(g) ==> !LosesOnTheWay(g, None, call.ms)) && (NoDeadBlocks(g) ==> NoDeadBlocks(call.to))
    ensures AllCalls(code, g0, calls + [call], done, budget, T, bools)
  {
    SameBehaviourTransitive(g0, g, call.to, T, bools);
    PassesGrow(code, calls, call);
    SameAliveTransitive(calls[1].to, g, call.to);
  }

  method AllRounds(o: Optimizer, ghost code: seq<Op>, budget: nat, ghost T: nat, ghost bools: set<nat>)
    returns (done: bool, ghost calls: seq<Call>)
    requires Inv(o.G(), T, bools) && FromCode(code, o.G()) && Exact(o.bb)
    modifies o
    ensures Inv(o.G(), T, bools) && AllCalls(code, old(o.G()), calls, done, budget, T, bools) && calls[2].to == o.G()
  {
    ghost var g0 := o.G();
    done, calls := JumpRounds(o, code, budget, T, bools);
    ghost var g := o.G();
    SweepAlone(o, T, bools);
    ghost var call := Call(g, o.trail, o.G());
    AfterSweep(code, g0, calls, g, done, budget, call, T, bools);
    calls := calls + [call];
  }

  // emit_cfg, on what a graph at rest has become.
  method EmitRested(g: Graph, done: bool, ghost rested: Graph, ghost T: nat, ghost bools: set<nat>)
    returns (out: seq<Op>, ghost pos: seq<nat>)
    requires Inv(g, T, bools) && Inv(rested, T, bools) && SameAlive(rested, g) && (done ==> Rests(rested))
    ensures LinesOf(g, out, pos) && (done ==> NoConstTests(out) && Trim(g, pos, out))
    ensures done && NoDeadBlocks(rested) ==> NoIdleLines(g, pos, out)
  {
    InvClosed(g, T, bools);
    out, pos := Emit(g);
    if done {
      RestsTrim(rested, g, out, pos);
      if NoDeadBlocks(rested) {
        AliveJumps(rested, g);
        RestsIdle(rested, g, out, pos);
      }
    }
  }

  // The whole pass: the optimized op array shows exactly the traces of the original one, for every world, every initial
  // state, and however far the rewriting got.  It is the blocks in use of the graph that the calls led to, all of them
  // reached from the entry, and if they lost nothing that graph's predecessor lists are exact.  When the last call
  // stopped by itself no line of the op array decides on a constant, and its jumps spare what they can; and if all blocks
  // it left in use are reached, none leads to the next line.  With enough budget that is so for code whose jumps all lead
  // forward.
  method OptimizeCode(code: seq<Op>, budget: nat, ghost T: nat, ghost bools: set<nat>)
    returns (out: seq<Op>, done: bool, ghost pos: seq<nat>, ghost calls: seq<Call>)
    requires Compiled(code) && CodeOk(code, T, bools) && SelfTestsOk(code, bools)
    ensures SameTraces(code, out, T, bools)
    ensures |calls| == 3 && Passes(code, calls) && LinesOf(calls[2].to, out, pos) && NoDeadBlocks(calls[2].to)
    ensures Stopped(calls[1], done, budget)
    ensures done ==> NoConstTests(out) && Trim(calls[2].to, pos, out)
    ensures done && NoDeadBlocks(calls[1].to) ==> NoIdleLines(calls[2].to, pos, out)
    ensures NothingLostIn(calls) ==> Exact(calls[2].to.bb)
    ensures Forwards(code) ==> NothingLostIn(calls) && (Enough(|code|) < budget ==> done)
    ensures Forwards(code) && done ==> NoDeadBlocks(calls[1].to)
  {
    var o;
    ghost var pos0;
    o, pos0 := Begin(code, T, bools);
    ghost var g0 := o.G();
    if Forwards(code) { ForwardsNoCycle(code, g0); }
    done, calls := AllRounds(o, code, budget, T, bools);
    if Forwards(code) { EnoughIsDone(code, g0, calls[1].from, calls[1].ms, calls[1].to, done, budget); }
    out, pos := EmitRested(o.G(), done, calls[1].to, T, bools);
    SameTracesByGraphs(g0, code, pos0, o.G(), out, pos, T, bools);
  }
}
