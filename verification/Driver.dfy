// eaccelerator_optimize with all its passes but the peephole: build, twice mark, rewrite jumps and remove dead results,
// then mark, sweep, renumber and emit.
module Driver {
  import opened Options
  import opened Opcodes
  import opened Graphs
  import opened Preds
  import opened Rewrites
  import opened Marking
  import opened Flat
  import opened BuildCfg
  import opened EmitCfg
  import opened Trails
  import opened Ways
  import opened Settling
  import opened Polish
  import opened PolishedCode
  import opened IdleJumps
  import opened ConstTests
  import opened JumpRules
  import opened JmpOptimizer
  import opened Optimize
  import opened LiveVars
  import opened DeadResults
  import opened OrderlyCode
  import opened Splits
  import opened OrderlySteps
  import opened CleanedGraphs
  import opened CleanedRanges
  import opened LiveLoops
  import opened Renumber
  import opened RegisterAllocator

  // ----- renumbering keeps the layout -----

  lemma RenamedKeepsLayout(g: Graph, g': Graph)
    requires Layout(g) && g'.bb == g.bb && SameOpcodes(g.code, g'.code)
    ensures Layout(g')
  {
    CleanedInRange(g, g');
    forall b | 0 <= b < |g'.bb| ensures BlockInRange(g', b) && Shaped(g', b) && Placed(g', b) {
      assert BlockInRange(g, b) && BlockInRange(g', b) && Shaped(g, b) && Placed(g, b);
      RenamedShaped(g, g', b);
    }
    forall i | 0 <= i < |g'.code| && !g'.code[i].code.Nop? ensures exists b :: Owns(g', b, i) {
      var b :| Owns(g, b, i);
      assert Owns(g', b, i);
    }
  }

  lemma RenamedShaped(g: Graph, g': Graph, b: nat)
    requires g'.bb == g.bb && SameOpcodes(g.code, g'.code) && b < |g.bb|
    requires BlockInRange(g, b) && BlockInRange(g', b) && Shaped(g, b) && Placed(g, b)
    ensures Shaped(g', b) && Placed(g', b)
  {
    var n := g.bb[b].len;
    if n > 0 {
      forall i | b <= i < b + n - 1 ensures !Control(g'.code[i].code) {
        assert g.code[b .. b + n - 1][i - b] == g.code[i];
      }
    }
  }

  // ----- op arrays from the start of the function -----

  // Everything the first op array shows from a fresh start with T temporaries, the second shows with T'.
  ghost predicate ShowsFromStart(w: World, c1: seq<Op>, T1: nat, c2: seq<Op>, T2: nat) {
    forall n: nat :: Catches(w, c2, At(0, Fresh(T2)), Moves(w, c1, At(0, Fresh(T1)), n))
  }

  ghost predicate SameFromStart(c1: seq<Op>, T1: nat, c2: seq<Op>, T2: nat) {
    forall w: World :: ShowsFromStart(w, c1, T1, c2, T2) && ShowsFromStart(w, c2, T2, c1, T1)
  }

  // A graph from a fresh start keeps up with another one.
  ghost predicate KeepsUp(w: World, g1: Graph, T1: nat, g2: Graph, T2: nat) {
    forall n: nat :: Reaches(w, g2, Running(0, Fresh(T2)), Run(w, g1, Running(0, Fresh(T1)), n))
  }

  lemma FlatKeepsUp(w: World, g1: Graph, F1: seq<Op>, pos1: seq<nat>, T1: nat, g2: Graph, F2: seq<Op>, pos2: seq<nat>,
                    T2: nat)
    requires LaidOut(g1, F1, pos1) && LaidOut(g2, F2, pos2) && KeepsUp(w, g1, T1, g2, T2)
    ensures ShowsFromStart(w, F1, T1, F2, T2)
  {
    LaidOutInStep(w, g1, F1, pos1);
    LaidOutInStep(w, g2, F2, pos2);
    forall n: nat ensures Catches(w, F2, At(0, Fresh(T2)), Moves(w, F1, At(0, Fresh(T1)), n)) {
      var k := FlatToGraph(w, g1, F1, pos1, 0, Fresh(T1), n);
      var c1 := Run(w, g1, Running(0, Fresh(T1)), k);
      assert Reaches(w, g2, Running(0, Fresh(T2)), c1);
      var j: nat :| Leq(c1, Run(w, g2, Running(0, Fresh(T2)), j));
      var c2 := Run(w, g2, Running(0, Fresh(T2)), j);
      var m := GraphToFlat(w, g2, F2, pos2, 0, Fresh(T2), j);
      var _ := GraphToFlat(w, g1, F1, pos1, 0, Fresh(T1), k);
      assert Before(Lift(pos1, c1), Lift(pos2, c2));
      BeforeTransitive(Moves(w, F1, At(0, Fresh(T1)), n), Lift(pos1, c1), Lift(pos2, c2));
      assert Before(Moves(w, F1, At(0, Fresh(T1)), n), Moves(w, F2, At(0, Fresh(T2)), m));
    }
  }

  lemma FreshOk(T: nat, bools: set<nat>)
    ensures StateOk(Fresh(T), T, bools)
  {
  }

  // The passes on the graph, and then the renumbering.
  lemma RenumberedKeepsUp(w: World, g0: Graph, g: Graph, T: nat, g': Graph, T': nat)
    requires KeepsUp(w, g0, T, g, T) && SameTraceFromStart(g, T, g', T')
    ensures KeepsUp(w, g0, T, g', T')
  {
    var c, c' := Running(0, Fresh(T)), Running(0, Fresh(T'));
    forall n: nat ensures Reaches(w, g', c', Run(w, g0, c, n)) {
      assert Reaches(w, g, c, Run(w, g0, c, n));
      var j: nat :| Leq(Run(w, g0, c, n), Run(w, g, c, j));
      assert Leq(Run(w, g0, c, n), Run(w, g', c', j));
    }
  }

  lemma OriginalKeepsUp(w: World, g0: Graph, g: Graph, T: nat, g': Graph, T': nat)
    requires KeepsUp(w, g, T, g0, T) && SameTraceFromStart(g, T, g', T')
    ensures KeepsUp(w, g', T', g0, T)
  {
    var c, c' := Running(0, Fresh(T)), Running(0, Fresh(T'));
    forall n: nat ensures Reaches(w, g0, c, Run(w, g', c', n)) {
      assert Reaches(w, g0, c, Run(w, g, c, n));
      var j: nat :| Leq(Run(w, g, c, n), Run(w, g0, c, j));
      assert Leq(Run(w, g', c', n), Run(w, g0, c, j));
    }
  }

  lemma EquivalentKeepsUp(w: World, g0: Graph, g: Graph, T: nat, bools: set<nat>)
    requires Simulates(w, g0, g, T, bools)
    ensures KeepsUp(w, g0, T, g, T)
  {
    FreshOk(T, bools);
  }

  lemma SameFromStartByGraphs(g0: Graph, code: seq<Op>, pos: seq<nat>, g: Graph, T: nat, bools: set<nat>,
                              g': Graph, out: seq<Op>, pos': seq<nat>, T': nat)
    requires LaidOut(g0, code, pos) && LaidOut(g', out, pos') && SameBehaviour(g0, g, T, bools)
    requires SameTraceFromStart(g, T, g', T')
    ensures SameFromStart(code, T, out, T')
  {
    forall w: World ensures ShowsFromStart(w, code, T, out, T') && ShowsFromStart(w, out, T', code, T) {
      assert Equivalent(w, g0, g, T, bools);
      EquivalentKeepsUp(w, g0, g, T, bools);
      EquivalentKeepsUp(w, g, g0, T, bools);
      RenumberedKeepsUp(w, g0, g, T, g', T');
      OriginalKeepsUp(w, g0, g, T, g', T');
      FlatKeepsUp(w, g0, code, pos, T, g', out, pos', T');
      FlatKeepsUp(w, g', out, pos', T', g0, code, pos, T);
    }
  }

  // ----- what renumbering asks of the graph it is given -----

  // The marking of the last compute_live_var still says what blocks need once dead blocks are gone.
  lemma NeedsAfter(g: Graph, g1: Graph, last: Graph, global: seq<bool>, T: nat)
    requires Layout(g) && Closed(g.bb) && AllBelow(g.code, T) && TypedGraph(g)
    requires |global| == T && (forall r: nat :: r < T ==> (global[r] <==> Marks(g, r))) && Cleaned(g, g1, global)
    requires g.bb[0].next.Some? && SameAlive(g1, last)
    ensures NeedsGlobals(last, global)
  {
    MarkedIsSound(g, T, global);
    SeveralRemovable(g, global, T);
    CleanedNeedsGlobals(g, g1, global);
    forall b: nat, r: nat {:trigger r in Needs(Ops(last, b))} | b < |last.bb| && last.bb[b].used
      && r in Needs(Ops(last, b))
      ensures r < |global| && global[r]
    {
      assert AliveAt(g1, last, b);
      assert r in Needs(Ops(g1, b));
    }
  }

  lemma NeedsLeft(g: Graph, g1: Graph, last: Graph, global: seq<bool>, T: nat, bools: set<nat>)
    requires Inv(g, T, bools) && Tame(g) && Inv(last, T, bools) && Tame(last)
    requires |global| == T && (forall r: nat :: r < T ==> (global[r] <==> Marks(g, r))) && Cleaned(g, g1, global)
    requires SameAlive(g1, last)
    ensures NeedsGlobals(last, global)
  {
    TameTyped(g, T, bools);
    InvBelow(g, T, bools);
    InvClosed(g, T, bools);
    if g.bb[0].next.Some? {
      NeedsAfter(g, g1, last, global, T);
    } else {
      SingleIsAlone(g);
      var D: seq<set<nat>> :| Certified(last, D);
      forall b: nat, r: nat {:trigger r in Needs(Ops(last, b))} | b < |last.bb| && last.bb[b].used
        && r in Needs(Ops(last, b)) ensures r in D[0] {
        assert AliveAt(g1, last, b);
      }
    }
  }

  // Marking again changes nothing that matters here.
  lemma RemarkTame(g: Graph, g': Graph, T: nat, bools: set<nat>)
    requires Inv(g, T, bools) && Tame(g) && Inv(g', T, bools) && g'.code == g.code && Fewer(g.bb, g'.bb)
    ensures Tame(g')
  {
    FewerAlive(g, g'.bb);
    var D: seq<set<nat>> :| Certified(g, D);
    FewerCertified(g, g', D);
    FewerMadeFirst(g, g', T, bools);
    AliveFetches(g, g', T, bools);
    forall i | 0 <= i < |g'.code| && Flagged(g'.code[i]) ensures !Marks(g', g'.code[i].res.n) {
      if Marks(g', g'.code[i].res.n) { FewerMarks(g, g', g'.code[i].res.n); }
    }
    forall b: nat, j: nat {:trigger ReturnAt(g', b, j)} | b < |g'.bb| && g'.bb[b].used && Owns(g', b, j)
      && j < |g'.code| && Leaves(g'.code[j])
      ensures ReturnAt(g', b, j)
    {
      assert Owns(g, b, j);
      assert ReturnAt(g, b, j);
      forall i: nat {:trigger Owns(g', b, i)} | Owns(g', b, i) && j < i < |g'.code|
        ensures Idle(g'.code[i])
      {
        assert Owns(g, b, i);
      }
    }
  }

  lemma FewerMadeFirst(g: Graph, g': Graph, T: nat, bools: set<nat>)
    requires Inv(g, T, bools) && MadeFirstIn(g) && g'.code == g.code && Fewer(g.bb, g'.bb)
    ensures MadeFirstIn(g')
  {
    var K: set<(nat, nat)> :| MadeFirst(g.code, K) && AllSplit(g, K);
    InvClosed(g, T, bools);
    forall k: nat, j: nat | (k, j) in K ensures Splits.Split(g', k, j) { FewerSplit(g, g', k, j); }
  }

  lemma FewerMarks(g: Graph, g': Graph, r: nat)
    requires g'.code == g.code && Fewer(g.bb, g'.bb) && Marks(g', r)
    ensures Marks(g, r)
  {
    var b: nat :| b < |g'.bb| && Exposed(Ops(g', b), r);
    assert Ops(g', b) == Ops(g, b);
  }

  // ----- the whole of it -----

  // compute_live_var on the graph in hand.
  method RemoveResults(o: Optimizer, T: nat, ghost bools: set<nat>) returns (global: array<bool>)
    requires Inv(o.G(), T, bools)
    modifies o
    ensures fresh(global) && global.Length == T && Inv(o.G(), T, bools)
    ensures CleansTo(old(o.G()), o.G(), global[..], T)
    ensures Tame(old(o.G())) ==> Tame(o.G()) && SameBehaviour(old(o.G()), o.G(), T, bools)
  {
    ghost var g := o.G();
    InvClosed(g, T, bools);
    InvBelow(g, T, bools);
    var g1;
    g1, global := ComputeLiveVar(o.G(), T, bools);
    CleanedKeepsInv(g, g1, global[..], T, bools);
    o.code := g1.code;
    assert o.G() == g1;
    if Tame(g) {
      TameTyped(g, T, bools);
      TameHarmless(g, T, bools);
      CleanedTame(g, g1, global[..], T, bools);
    }
  }

  // g1 is g after compute_live_var, which marked `global`.
  ghost predicate CleansTo(g: Graph, g1: Graph, global: seq<bool>, T: nat) {
    && |global| == T && (forall r: nat :: r < T ==> (global[r] <==> Marks(g, r)))
    && Cleaned(g, g1, global) && CleanedAll(g, g1, global) && AllTrimmed(g, g1, global)
  }

  // One turn of the driver's loop: the graph it got, the steps of optimize_jmp, and the graph before and after
  // compute_live_var, which marked `global`.
  datatype Turn = Turn(from: Graph, ms: seq<Move>, got: Graph, left: Graph, global: seq<bool>)

  ghost predicate Took(t: Turn, T: nat) {
    Trail(t.from, None, t.ms, t.got) && CleansTo(t.got, t.left, t.global, T)
  }

  // A turn whose optimize_jmp stopped by itself left compute_live_var a graph at rest; any other has used up its budget.
  ghost predicate TurnStopped(t: Turn, done: bool, budget: nat) {
    && (done ==> Rests(t.got) && JustUnmarked(t.got, t.ms))
    && (!done ==> budget <= Spent(|t.ms|, |t.got.bb|))
  }

  // It took no more steps than there was room for, and left a graph that goes uphill where the one it got did.
  ghost predicate TookFew(t: Turn) {
    FewSteps(t.from, |t.ms|) && SameRanks(t.from, t.left) && |t.got.bb| == |t.from.bb|
  }

  // Whether a way goes uphill is said of the blocks alone.
  lemma SameBlocksSameRanks(g: Graph, g1: Graph, g2: Graph)
    requires SameRanks(g, g1) && g2.bb == g1.bb
    ensures SameRanks(g, g2)
  {
    forall rank: seq<nat> | Uphill(g, rank) ensures Uphill(g2, rank) { assert Uphill(g1, rank); }
  }

  lemma RemarkedRanks(g: Graph, g1: Graph, g2: Graph, T: nat, bools: set<nat>)
    requires SameRanks(g, g1) && Inv(g1, T, bools) && g2.code == g1.code && Fewer(g1.bb, g2.bb)
    ensures SameRanks(g, g2)
  {
    InvClosed(g1, T, bools);
    FewerOnward(g1, g2.bb);
    OnwardRanks(g1, g2);
    forall rank: seq<nat> | Uphill(g, rank) ensures Uphill(g2, rank) { assert Uphill(g1, rank); }
  }

  // The flow has no cycle and the predecessor lists are right.
  ghost predicate ClearFlow(g: Graph) {
    NoCycle(g) && Exact(g.bb)
  }

  // Of such a graph optimize_jmp makes another, in which everything in use is reached if it stops by itself.
  lemma TurnClear(t: Turn, done: bool, budget: nat, T: nat, bools: set<nat>)
    requires Inv(t.from, T, bools) && Inv(t.got, T, bools) && ClearFlow(t.from) && Took(t, T)
             && TurnStopped(t, done, budget)
    ensures ClearFlow(t.got) && (done ==> NoDeadBlocks(t.got))
  {
    NoCycleNothingLost(t.from, None, t.ms, t.got, T, bools);
    TrailExactly(t.from, t.ms, t.got, T, bools);
    if done { RestsReached(t.got); }
  }

  lemma ClearStays(g: Graph, g1: Graph, g2: Graph, T: nat, bools: set<nat>)
    requires ClearFlow(g) && g1.bb == g.bb && Inv(g1, T, bools) && g2.code == g1.code && Fewer(g1.bb, g2.bb)
    requires Exact(g1.bb) ==> Exact(g2.bb)
    ensures ClearFlow(g2)
  {
    var rank: seq<nat> :| Uphill(g, rank);
    assert Uphill(g1, rank);
    InvClosed(g1, T, bools);
    FewerOnward(g1, g2.bb);
    NoCycleOnward(g1, g2);
  }

  // optimize_jmp and compute_live_var.
  method JumpsAndResults(o: Optimizer, T: nat, budget: nat, ghost bools: set<nat>)
    returns (global: array<bool>, done: bool, ghost t: Turn)
    requires Inv(o.G(), T, bools)
    modifies o
    ensures fresh(global) && Inv(o.G(), T, bools) && Inv(t.got, T, bools) && global.Length == T
    ensures Took(t, T) && t.from == old(o.G()) && t.global == global[..] && t.left == o.G()
    ensures TurnStopped(t, done, budget)
    ensures TookFew(t)
    ensures Tame(old(o.G())) ==> Tame(t.got) && Tame(o.G()) && SameBehaviour(old(o.G()), o.G(), T, bools)
  {
    ghost var g0 := o.G();
    done := o.OptimizeJmp(budget, T, bools);
    ghost var g, ms := o.G(), o.trail;
    global := RemoveResults(o, T, bools);
    t := Turn(g0, ms, g, o.G(), global[..]);
    SameBlocksSameRanks(g0, g, o.G());
    if Tame(g0) {
      TrailTame(g0, None, ms, g, T, bools);
      SameBehaviourTransitive(g0, g, o.G(), T, bools);
    }
  }

  method Round(o: Optimizer, T: nat, budget: nat, ghost bools: set<nat>)
    returns (global: array<bool>, done: bool, ghost t: Turn)
    requires Inv(o.G(), T, bools)
    modifies o
    ensures fresh(global) && Inv(o.G(), T, bools) && Inv(t.got, T, bools) && global.Length == T
    ensures Took(t, T) && t.from == old(o.G()) && t.global == global[..] && Remarked(t.left, o.G())
    ensures SameAlive(t.left, o.G()) && Layout(t.left) && TurnStopped(t, done, budget) && o.code == t.left.code
    ensures NoDeadBlocks(o.G()) && TookFew(t) && SameRanks(old(o.G()), o.G())
    ensures ClearFlow(old(o.G())) ==> ClearFlow(o.G()) && (done ==> NoDeadBlocks(t.got))
    ensures Tame(old(o.G())) ==> Tame(t.got) && Tame(o.G()) && SameBehaviour(old(o.G()), o.G(), T, bools)
  {
    ghost var g0 := o.G();
    global, done, t := JumpsAndResults(o, T, budget, bools);
    ghost var g1 := o.G();
    Remark(o, T, bools);
    RemarkedRanks(g0, g1, o.G(), T, bools);
    if ClearFlow(g0) {
      TurnClear(t, done, budget, T, bools);
      ClearStays(t.got, g1, o.G(), T, bools);
    }
    if Tame(g0) {
      RemarkTame(g1, o.G(), T, bools);
      SameBehaviourTransitive(g0, g1, o.G(), T, bools);
    }
  }

  // No turn makes a test of a constant that keeps the outcome.
  lemma TurnMakesNone(t: Turn, T: nat, bools: set<nat>)
    requires Inv(t.from, T, bools) && Inv(t.got, T, bools) && InRange(t.left) && Took(t, T) && NoKeptConst(t.from.code)
    ensures NoKeptConst(t.got.code) && NoKeptConst(t.left.code)
  {
    TrailMakesNone(t.from, None, t.ms, t.got, T, bools);
    CleanedMakesNone(t.got, t.left, t.global);
  }

  // The registers given out and the op array made from the last graph.
  datatype Ending = Ending(subs: seq<seq<int>>, home: seq<int>, renumbered: Graph, pos: seq<nat>)

  ghost predicate Ended(g: Graph, global: seq<bool>, e: Ending, out: seq<Op>, T': nat) {
    && AllRenamed(g, e.renumbered, e.subs, T') && SameOpcodes(g.code, e.renumbered.code) && |e.home| == |global|
    && ScanGives(g, global, e.home, T')
    && LinesOf(e.renumbered, out, e.pos)
  }

  // From the graph that is left to the op array with fewer temporaries.
  method Finish(g: Graph, T: nat, global: array<bool>, ghost bools: set<nat>)
    returns (out: seq<Op>, T': nat, ghost e: Ending)
    requires Inv(g, T, bools) && global.Length == T
    ensures T' <= T && Ended(g, global[..], e, out, T')
    ensures AllRangesOk(g, global[..]) ==> Frugal(g, global[..], e.home, T')
    ensures AllRangesOk(g, global[..]) && NeedsGlobals(g, global[..]) ==> SameTraceFromStart(g, T, e.renumbered, T')
  {
    InvBelow(g, T, bools);
    InvClosed(g, T, bools);
    ghost var gl := global[..];
    var renumbered;
    ghost var subs, home, pos;
    renumbered, T', subs, home := ReassignRegisters(g, T, global);
    RenamedKeepsLayout(g, renumbered);
    out, pos := Emit(renumbered);
    e := Ending(subs, home, renumbered, pos);
    if AllRangesOk(g, gl) && NeedsGlobals(g, gl) {
      InvTyped(g, T, bools);
      RenumberedSameTrace(g, renumbered, subs, home, gl, T');
    }
  }

  // The last loop.
  method SweepTame(o: Optimizer, ghost T: nat, ghost bools: set<nat>) returns (ghost call: Call)
    requires Inv(o.G(), T, bools)
    modifies o
    ensures Inv(o.G(), T, bools) && SameBehaviour(old(o.G()), o.G(), T, bools) && SameAlive(old(o.G()), o.G())
    ensures call.from == old(o.G()) && call.to == o.G() && Trail(call.from, None, call.ms, call.to)
    ensures NoDeadBlocks(old(o.G())) ==> NoDeadBlocks(o.G())
    ensures Tame(old(o.G())) ==> Tame(o.G())
  {
    ghost var g := o.G();
    SweepAlone(o, T, bools);
    call := Call(g, o.trail, o.G());
    if Tame(g) { TrailTame(g, None, o.trail, o.G(), T, bools); }
  }

  lemma FromCodeTame(code: seq<Op>, g: Graph)
    requires FromCode(code, g) && Orderly(code)
    ensures Tame(g)
  {
    var bb: seq<Block> :| Built(code, bb) && OnlyLeaders(code, bb, |code|) && EdgesInRange(bb)
      && g == Graph(code, MarkUsed(bb, 0));
    StartsTame(code, bb);
  }

  // The graph that reassign_registers gets is one that it renumbers right.
  lemma LastNumbered(t: Turn, g2: Graph, last: Graph, T: nat, bools: set<nat>)
    requires Inv(t.got, T, bools) && Tame(t.got) && Took(t, T) && SameAlive(t.left, g2) && SameAlive(g2, last)
    requires Inv(last, T, bools) && Tame(last)
    ensures AllRangesOk(last, t.global) && NeedsGlobals(last, t.global)
  {
    SameAliveTransitive(t.left, g2, last);
    LastRanges(t.got, t.left, last, t.global, T, bools);
    NeedsLeft(t.got, t.left, last, t.global, T, bools);
  }

  // The passes on the graph, one after the other.
  ghost predicate RanOn(code: seq<Op>, T: nat, t1: Turn, t2: Turn, sweep: Call) {
    && FromCode(code, t1.from) && Took(t1, T) && Remarked(t1.left, t2.from) && Took(t2, T)
    && Remarked(t2.left, sweep.from)
    && Trail(sweep.from, None, sweep.ms, sweep.to)
  }

  // The two turns.
  method Rounds(o: Optimizer, ghost code: seq<Op>, T: nat, budget: nat, ghost bools: set<nat>)
    returns (marking: array<bool>, done: bool, ghost t1: Turn, ghost t2: Turn)
    requires Inv(o.G(), T, bools) && FromCode(code, o.G())
    modifies o
    ensures Inv(o.G(), T, bools) && fresh(marking) && marking.Length == T && marking[..] == t2.global
    ensures FromCode(code, t1.from) && Took(t1, T) && Remarked(t1.left, t2.from) && Took(t2, T)
    ensures Remarked(t2.left, o.G())
    ensures TurnStopped(t2, done, budget) && SoonDone(old(o.G()), t2.from, t2.ms, t2.got)
    ensures Inv(t2.got, T, bools) && Layout(t2.left) && SameAlive(t2.left, o.G()) && NoDeadBlocks(o.G())
    ensures NoKeptConst(old(o.code)) ==> NoKeptConst(t2.got.code)
    ensures ClearFlow(old(o.G())) && done ==> NoDeadBlocks(t2.got)
    ensures Tame(old(o.G())) ==> Tame(t2.got) && Tame(o.G()) && SameBehaviour(old(o.G()), o.G(), T, bools)
  {
    ghost var g0 := o.G();
    marking, done, t1 := Round(o, T, budget, bools);
    ghost var g1 := o.G();
    if NoKeptConst(g0.code) { TurnMakesNone(t1, T, bools); }
    marking, done, t2 := Round(o, T, budget, bools);
    if NoKeptConst(g0.code) { TurnMakesNone(t2, T, bools); }
    if Tame(g0) { SameBehaviourTransitive(g0, g1, o.G(), T, bools); }
  }

  method GraphPasses(o: Optimizer, ghost code: seq<Op>, T: nat, budget: nat, ghost bools: set<nat>)
    returns (marking: array<bool>, done: bool, ghost t1: Turn, ghost t2: Turn, ghost sweep: Call)
    requires Inv(o.G(), T, bools) && FromCode(code, o.G())
    modifies o
    ensures Inv(o.G(), T, bools) && fresh(marking) && marking.Length == T && marking[..] == t2.global
    ensures RanOn(code, T, t1, t2, sweep) && sweep.to == o.G() && TurnStopped(t2, done, budget)
    ensures InRange(t2.got) && InRange(t2.left) && SameAlive(t2.left, o.G()) && NoDeadBlocks(o.G())
    ensures NoKeptConst(old(o.code)) ==> NoKeptConst(t2.got.code)
    ensures SoonDone(old(o.G()), t2.from, t2.ms, t2.got) && Layout(t2.got) && Layout(t2.left) && Layout(o.G())
    ensures ClearFlow(old(o.G())) && done ==> NoDeadBlocks(t2.got)
    ensures Tame(old(o.G())) ==>
              SameBehaviour(old(o.G()), o.G(), T, bools) && AllRangesOk(o.G(), t2.global)
                && NeedsGlobals(o.G(), t2.global)
  {
    ghost var g0 := o.G();
    marking, done, t1, t2 := Rounds(o, code, T, budget, bools);
    ghost var g2 := o.G();
    sweep := SweepTame(o, T, bools);
    SameAliveTransitive(t2.left, g2, o.G());
    if Tame(g0) {
      LastNumbered(t2, g2, o.G(), T, bools);
      SameBehaviourTransitive(g0, g2, o.G(), T, bools);
    }
  }

  // ----- the jumps that are left -----

  lemma CleanedJumps(g: Graph, g1: Graph, global: seq<bool>)
    requires InRange(g) && InRange(g1) && CleanedAll(g, g1, global)
    ensures SameJumps(g, g1)
  {
    forall b: nat {:trigger JumpsAlike(g, g1, b)} | b < |g.bb| ensures JumpsAlike(g, g1, b) {
      if Ready(g1, b) && g.bb[b].used { var live := CleanedLine(g, g1, global, b + g.bb[b].len - 1); }
    }
  }

  lemma RenamedJumps(g: Graph, g': Graph)
    requires g'.bb == g.bb && SameOpcodes(g.code, g'.code)
    ensures SameJumps(g, g')
  {
    forall b: nat {:trigger JumpsAlike(g, g', b)} | b < |g.bb| ensures JumpsAlike(g, g', b) {
      if Ready(g', b) && g.bb[b].used { assert g'.code[b + g.bb[b].len - 1].code == g.code[b + g.bb[b].len - 1].code; }
    }
  }

  // Where everything in use is reached, the op array has the jumps of the graph at rest.
  lemma LastJumps(t: Turn, last: Graph, e: Ending, T': nat, T: nat)
    requires Layout(t.got) && Layout(t.left) && Layout(last) && Took(t, T) && SameAlive(t.left, last) && Closed(last.bb)
    requires NoDeadBlocks(t.got) && last.bb[0].used && AllRenamed(last, e.renumbered, e.subs, T')
    requires SameOpcodes(last.code, e.renumbered.code)
    ensures SameJumps(t.got, e.renumbered)
  {
    CleanedJumps(t.got, t.left, t.global);
    assert NoDeadBlocks(t.left);
    AliveJumps(t.left, last);
    RenamedJumps(last, e.renumbered);
    SameJumpsTransitive(t.got, t.left, last);
    SameJumpsTransitive(t.got, last, e.renumbered);
  }

  // For orderly code the optimized op array, run from the start of the function with its own temporaries, shows exactly
  // the traces of the original one, in every world and however far the rewriting got.  For any code the passes are
  // carried out one after the other as they are, there are never more temporaries, and the op array is the blocks in use
  // of the last graph, all of them reached from the entry.  When the last optimize_jmp stopped by itself, it left a graph
  // at rest.  Then no line of the op array decides on a constant, unless some line did so and kept the outcome; and if all
  // blocks it left in use are reached, none jumps to the next line.  Where all jumps lead forward they are, and it does
  // stop by itself if the budget is big enough.
  method OptimizeFunction(code: seq<Op>, T: nat, budget: nat, ghost bools: set<nat>)
    returns (out: seq<Op>, T': nat, done: bool, ghost t1: Turn, ghost t2: Turn, ghost sweep: Call, ghost e: Ending)
    requires Compiled(code) && CodeOk(code, T, bools) && SelfTestsOk(code, bools)
    ensures T' <= T && RanOn(code, T, t1, t2, sweep) && Ended(sweep.to, t2.global, e, out, T')
    ensures Orderly(code) ==> SameFromStart(code, T, out, T') && Frugal(sweep.to, t2.global, e.home, T')
    ensures NoDeadBlocks(sweep.to) && TurnStopped(t2, done, budget) && (done && NoKeptConst(code) ==> NoConstTests(out))
    ensures Forwards(code) && Enough(|code|) < budget ==> done
    ensures done && NoDeadBlocks(t2.got) ==> NoIdleLines(e.renumbered, e.pos, out)
    ensures Forwards(code) && done ==> NoDeadBlocks(t2.got)
  {
    var o;
    ghost var pos0;
    o, pos0 := Begin(code, T, bools);
    ghost var g0 := o.G();
    var marking;
    marking, done, t1, t2, sweep := GraphPasses(o, code, T, budget, bools);
    ghost var last := o.G();
    out, T', e := Finish(o.G(), T, marking, bools);
    if done && NoDeadBlocks(t2.got) {
      LastJumps(t2, last, e, T', T);
      RestsIdle(t2.got, e.renumbered, out, e.pos);
    }
    if Forwards(code) {
      ForwardsNoCycle(code, g0);
      EnoughIsDone(code, g0, t2.from, t2.ms, t2.got, done, budget);
    }
    if done && NoKeptConst(code) {
      NoneInCode(t2.got, t2.left, t2.global, last, e.renumbered, e.subs, T', out, e.pos);
    }
    if Orderly(code) {
      FromCodeTame(code, g0);
      SameFromStartByGraphs(g0, code, pos0, last, T, bools, e.renumbered, out, e.pos, T');
    }
  }
}
