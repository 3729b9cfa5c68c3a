// Where the passes need a premise: the exact condition, or an op array that shows it is needed.
module Limits {
  import opened Options
  import opened Opcodes
  import opened Graphs
  import opened Preds
  import opened Rewrites
  import opened Marking
  import opened BuildCfg
  import opened JumpRules
  import opened Trails
  import opened JmpOptimizer
  import opened LiveVars
  import opened LiveLoops

  function Simple(c: Opcode, v: Operand, res: Operand): Op {
    Op(c, v, Unused, res, false, 0, 0, 0)
  }

  const LEAVE := Simple(Return, Unused, Unused)
  const END := Simple(HandleException, Unused, Unused)

  lemma ExecCons(w: World, op: Op, rest: seq<Op>, blk: Block, s: State)
    ensures ExecOps(w, [op] + rest, blk, s) ==
              var (d, t) := Exec(w, op, s); if d.Next? then ExecOps(w, rest, blk, t) else Leave(blk, d, t)
  {
    assert ([op] + rest)[1..] == rest;
  }

  lemma ExecTwo(w: World, a: Op, b: Op, blk: Block, s: State)
    requires Exec(w, a, s).0.Next?
    ensures ExecOps(w, [a, b], blk, s) == var (d, t) := Exec(w, b, Exec(w, a, s).1); Leave(blk, d, t)
  {
    var t := Exec(w, a, s).1;
    assert [a, b] == [a] + [b] && [b] == [b] + [];
    ExecCons(w, a, [b], blk, s);
    ExecCons(w, b, [], blk, t);
  }

  // What marking leaves of a block.
  lemma MarkedBlock(code: seq<Op>, bb: seq<Block>, b: nat)
    requires Built(code, bb) && b < |bb|
    ensures EdgesInRange(bb) && var bb' := MarkUsed(bb, 0); |bb'| == |bb| && bb'[b] == bb[b].(pred := bb'[b].pred, used := bb'[b].used)
  {
    BuiltInRange(code, bb);
  }

  // ----- JMPZ_EX $x, next, $x => NOP -----

  // Removing the test leaves the machine in the same place and state exactly when $x holds 0 or 1.
  lemma SelfTestExact(w: World, op: Op, blk: Block, s: State)
    requires SelfTest(op) && op.res.n < |s.tm| && blk.follow.Some? && blk.jmp2 == blk.follow
    ensures ExecOps(w, [op], blk, s) == ExecOps(w, [SetToNop(op)], blk, s) <==>
              s.tm[op.res.n] == 0 || s.tm[op.res.n] == 1
  {
    var n, v := op.res.n, s.tm[op.res.n];
    var (d, t) := Exec(w, op, s);
    assert ExecOps(w, [op], blk, s) == if d.Next? then ExecOps(w, [op][1..], blk, t) else Leave(blk, d, t);
    assert [SetToNop(op)][1..] == [] && [op][1..] == [];
    assert ExecOps(w, [SetToNop(op)], blk, s) == ExecOps(w, [SetToNop(op)][1..], blk, s);
    assert t.tm[n] == ToBool(v);
    if v == 0 || v == 1 { assert t.tm == s.tm; }
  }

  // A call's result is tested into itself and then printed.
  const CALL := Simple(Effect(7), Unused, Tmp(0))
  const SELF_TEST := Op(JmpzEx, Tmp(0), Unused, Tmp(0), false, 0, 2, 0)
  const SHOW := Simple(Effect(8), Tmp(0), Unused)
  const TESTED := [CALL, SELF_TEST, SHOW, LEAVE, END]
  const FIVE := World(_ => 5, _ => false, (_, _, _, _) => 0)
  const CALLED := Event(Effect(7), 0, 0, 0)

  function Shown(v: int): Config {
    Halted([CALLED, Event(Effect(8), v, 0, 0), Event(Return, 0, 0, 0)])
  }

  lemma TestedBlocks(bb: seq<Block>)
    requires Built(TESTED, bb) && OnlyLeaders(TESTED, bb, |TESTED|)
    ensures |bb| == 6 && bb[0] == Block(Some(0), 2, false, None, Some(2), None, Some(2), Some(2), [])
    ensures bb[2].start == Some(2) && bb[2].len == 2
  {
    assert BuiltBlock(TESTED, bb, 0) && BuiltBlock(TESTED, bb, 2);
    assert StartsFor(bb, TESTED[1], 1) && StartsFor(bb, TESTED[3], 3);
    assert !Leader(TESTED, |TESTED|, 1) && !Leader(TESTED, |TESTED|, 3);
  }

  lemma CallSteps(s: State)
    requires s == State([0], [])
    ensures Exec(FIVE, CALL, s) == (Next, State([5], [CALLED]))
    ensures Exec(FIVE, SELF_TEST, State([5], [CALLED])) == (Next, State([1], [CALLED]))
  {
    assert [0][0 := 5] == [5] && [5][0 := 1] == [1] && [] + [CALLED] == [CALLED];
  }

  lemma ShowSteps(v: int, blk: Block)
    ensures ExecOps(FIVE, [SHOW, LEAVE], blk, State([v], [CALLED])) == Shown(v)
  {
    ExecTwo(FIVE, SHOW, LEAVE, blk, State([v], [CALLED]));
    assert [CALLED] + [Event(Effect(8), v, 0, 0)] + [Event(Return, 0, 0, 0)] == Shown(v).tr;
  }

  // Two blocks that call and show end in what was shown.
  lemma ShownAfterTwo(g: Graph, v: int, m: nat)
    requires |g.bb| > 2 && Ops(g, 2) == [SHOW, LEAVE]
    requires Step(FIVE, g, Running(0, State([0], []))) == Running(2, State([v], [CALLED]))
    ensures m >= 2 ==> Run(FIVE, g, Running(0, State([0], [])), m) == Shown(v)
    ensures m < 2 ==> Run(FIVE, g, Running(0, State([0], [])), m).Running?
  {
    var c := Running(0, State([0], []));
    ShowSteps(v, g.bb[2]);
    if m >= 2 {
      assert Run(FIVE, g, c, m) == Run(FIVE, g, Step(FIVE, g, Step(FIVE, g, c)), m - 2);
      RunHalted(FIVE, g, Shown(v), m - 2);
    } else if m == 1 {
      assert Run(FIVE, g, c, 1) == Run(FIVE, g, Step(FIVE, g, c), 0);
    }
  }

  lemma ShowsDiffer(g: Graph, g': Graph)
    requires |g.bb| > 2 && Ops(g, 2) == [SHOW, LEAVE]
    requires Step(FIVE, g, Running(0, State([0], []))) == Running(2, State([1], [CALLED]))
    requires |g'.bb| > 2 && Ops(g', 2) == [SHOW, LEAVE]
    requires Step(FIVE, g', Running(0, State([0], []))) == Running(2, State([5], [CALLED]))
    ensures !SameBehaviour(g, g', 1, {})
  {
    var s := State([0], []);
    ShownAfterTwo(g, 1, 2);
    forall m: nat ensures !Leq(Run(FIVE, g, Running(0, s), 2), Run(FIVE, g', Running(0, s), m)) {
      ShownAfterTwo(g', 5, m);
      assert Shown(1).tr[1] != Shown(5).tr[1];
    }
    assert StateOk(s, 1, {}) && !Reaches(FIVE, g', Running(0, s), Run(FIVE, g, Running(0, s), 2));
    assert !Equivalent(FIVE, g, g', 1, {});
  }

  // The rule applied to this code: when the call returns 5 the original prints 1 and the rewritten code prints 5.
  lemma SelfTestNeedsBooleans(bb: seq<Block>)
    requires Built(TESTED, bb) && OnlyLeaders(TESTED, bb, |TESTED|)
    ensures EdgesInRange(bb)
    ensures var g := Graph(TESTED, MarkUsed(bb, 0));
            && Ready(g, 0) && Pick(g, 0).Some?
            && var ed := Pick(g, 0).value;
               !SameBehaviour(g, Rewrite(g, 0, ed.op, ed.shrink, ed.drop, ed.e, ed.add), 1, {})
  {
    TestedBlocks(bb);
    MarkedBlock(TESTED, bb, 0);
    MarkedBlock(TESTED, bb, 2);
    var bs := MarkUsed(bb, 0);
    assert Within(Flow(bb), 0, 0, 0);
    BuiltLayout(TESTED, bb);
    MarkUsedTheorem(bb);
    var g := Graph(TESTED, bs);
    var nop := SetToNop(SELF_TEST);
    var e := Edges(None, None, None, Some(2));
    assert Pick(g, 0) == Some(Edit(nop, true, None, e, None));
    SelfTestGone(g, Rewrite(g, 0, nop, true, None, e, None));
  }

  lemma SelfTestGone(g: Graph, g': Graph)
    requires g.code == TESTED && |g.bb| == 6
    requires g.bb[0] == Block(Some(0), 2, true, None, Some(2), None, Some(2), Some(2), g.bb[0].pred)
    requires g.bb[2].start == Some(2) && g.bb[2].len == 2
    requires g' == Rewrite(g, 0, SetToNop(SELF_TEST), true, None, Edges(None, None, None, Some(2)), None)
    ensures !SameBehaviour(g, g', 1, {})
  {
    var s := State([0], []);
    var last := 0 + g.bb[0].len - 1;
    assert g'.code == TESTED[last := SetToNop(SELF_TEST)] && last == 1;
    assert g'.bb[0].len == 1 && g'.bb[2].len == 2 && g'.bb[2].start == Some(2);
    assert Ops(g, 0) == [CALL, SELF_TEST] && Ops(g', 0) == [CALL] == [CALL] + [];
    assert Ops(g, 2) == [SHOW, LEAVE] && Ops(g', 2) == [SHOW, LEAVE];
    CallSteps(s);
    ExecTwo(FIVE, CALL, SELF_TEST, g.bb[0], s);
    ExecCons(FIVE, CALL, [], g'.bb[0], s);
    ShowsDiffer(g, g');
  }

  // It is ruled out by the condition on op arrays, whatever is taken to be a Boolean.
  lemma TestedNotOk(T: nat, bools: set<nat>)
    ensures !(CodeOk(TESTED, T, bools) && SelfTestsOk(TESTED, bools))
  {
    assert TESTED[0] == CALL && TESTED[1] == SELF_TEST;
    assert !LineApart(TESTED, 1);
    if CodeOk(TESTED, T, bools) {
      assert OpOk(TESTED[0], T, bools);
      assert 0 !in bools;
    }
  }

  // The same from the compiler's code on: build_cfg, mark_used_bb, and the step that optimize_jmp then takes.
  method RunTested() returns (g: Graph, ghost g': Graph)
    ensures Compiled(TESTED) && g.code == TESTED && Ready(g, 0) && Pick(g, 0).Some?
    ensures var ed := Pick(g, 0).value; g' == Rewrite(g, 0, ed.op, ed.shrink, ed.drop, ed.e, ed.add) && !SameBehaviour(g, g', 1, {})
  {
    var bb := Build(TESTED);
    SelfTestNeedsBooleans(bb);
    g := Graph(TESTED, MarkUsed(bb, 0));
    ghost var ed := Pick(g, 0).value;
    g' := Rewrite(g, 0, ed.op, ed.shrink, ed.drop, ed.e, ed.add);
  }

  // ----- a function that is one looping block -----

  const USE := Simple(Effect(1), Tmp(0), Unused)
  const SET := Simple(Pure(2), Const(9), Tmp(0))
  const AGAIN := Simple(Jmp, Unused, Unused)
  const LOOP_CODE := [USE, SET, AGAIN, LEAVE, END]

  lemma LoopCompiled()
    ensures Compiled(LOOP_CODE)
  {
  }

  lemma LoopBlocks(bb: seq<Block>)
    requires Built(LOOP_CODE, bb) && OnlyLeaders(LOOP_CODE, bb, |LOOP_CODE|)
    ensures |bb| == 6 && bb[0] == Block(Some(0), 3, false, Some(0), None, None, None, Some(3), [])
  {
    assert BuiltBlock(LOOP_CODE, bb, 0);
    assert StartsFor(bb, LOOP_CODE[2], 2);
    assert !Leader(LOOP_CODE, |LOOP_CODE|, 1) && !Leader(LOOP_CODE, |LOOP_CODE|, 2);
  }

  lemma {:induction false} OnlyItself(f: seq<Edges>, b: nat, n: nat)
    requires |f| > 0 && (forall t: nat :: InEdges(f[0], t) ==> t == 0) && Within(f, 0, b, n)
    ensures b == 0
    decreases n
  {
    if n > 0 {
      var c: nat :| InEdges(f[0], c) && Within(f, c, b, n - 1);
      OnlyItself(f, b, n - 1);
    }
  }

  lemma LoopReachesItself(bb: seq<Block>)
    requires Built(LOOP_CODE, bb) && OnlyLeaders(LOOP_CODE, bb, |LOOP_CODE|)
    ensures |bb| == 6 && forall b: nat :: Reachable(Flow(bb), 0, b) ==> b == 0
  {
    LoopBlocks(bb);
    assert EdgesOf(bb[0]) == Edges(Some(0), None, None, None);
    forall b: nat | Reachable(Flow(bb), 0, b) ensures b == 0 {
      var n: nat :| Within(Flow(bb), 0, b, n);
      OnlyItself(Flow(bb), b, n);
    }
  }

  lemma LoopInv(bb: seq<Block>)
    requires Built(LOOP_CODE, bb)
    ensures EdgesInRange(bb) && NoDups(bb) && NoneUsed(bb) && Inv(Graph(LOOP_CODE, MarkUsed(bb, 0)), 1, {})
  {
    assert CodeOk(LOOP_CODE, 1, {});
    BuildTheorem(LOOP_CODE, bb, 1, {});
    BuiltLayout(LOOP_CODE, bb);
  }

  // Only the loop is reached.
  lemma LoopMarked(bb: seq<Block>)
    requires Built(LOOP_CODE, bb) && OnlyLeaders(LOOP_CODE, bb, |LOOP_CODE|)
    ensures EdgesInRange(bb)
    ensures var g := Graph(LOOP_CODE, MarkUsed(bb, 0));
            && Inv(g, 1, {}) && OnlyEntry(g.bb) && g.bb[0].len == 3
            && EdgesOf(g.bb[0]) == Edges(Some(0), None, None, None)
            && Ops(g, 0) == [USE, SET, AGAIN]
  {
    LoopInv(bb);
    LoopBlocks(bb);
    LoopReachesItself(bb);
    MarkedBlock(LOOP_CODE, bb, 0);
    MarkUsedTheorem(bb);
    assert LOOP_CODE[0..3] == [USE, SET, AGAIN];
  }

  // The graph once the dead blocks behind the loop are unlinked.
  ghost predicate Loop(g: Graph) {
    && Inv(g, 1, {}) && OnlyEntry(g.bb) && g.bb[0].next.None?
    && g.bb[0].len == 3 && EdgesOf(g.bb[0]) == Edges(Some(0), None, None, None) && Ops(g, 0) == [USE, SET, AGAIN]
  }

  // No rule of optimize_jmp applies to it.
  lemma LoopSettled(g: Graph)
    requires Loop(g)
    ensures Settled(g)
  {
    assert BlockInRange(g, 0);
    assert Last(g, 0) == Ops(g, 0)[2];
    forall p: nat | p < |g.bb| && g.bb[p].used ensures SettledAt(g, p) {
      assert p == 0;
      assert !Single(g, g.bb[0].jmp1);
    }
  }

  lemma CleanCons(op: Op, rest: seq<Op>)
    ensures Clean([op] + rest, []) ==
              var (r, live) := Clean(rest, []);
              ([CleanOp(op, [], live)] + r, LiveBefore(CleanOp(op, [], live), live))
  {
    assert ([op] + rest)[1..] == rest;
  }

  lemma LoopCleaned()
    ensures Clean([USE, SET, AGAIN], []).0 == [USE, SetToNop(SET), AGAIN]
  {
    var a, b, c := USE, SET, AGAIN;
    assert [a, b, c] == [a] + ([b] + ([c] + []));
    CleanCons(c, []);
    CleanCons(b, [c] + []);
    CleanCons(a, [b] + ([c] + []));
  }

  lemma ReachingCons(op: Op, rest: seq<Op>, out: set<nat>)
    ensures Reaching([op] + rest, out) == Before1(op, Reaching(rest, out))
  {
    assert ([op] + rest)[1..] == rest;
  }

  // The first instruction of a round needs what the second made in the round before.
  lemma LoopLoses()
    ensures !RoundsKept([USE, SET, AGAIN]) && Telling([USE, SET, AGAIN])
  {
    var ops := [USE, SET, AGAIN];
    LoopCleaned();
    var a, b, c := USE, SET, AGAIN;
    assert [a, b, c] == [a] + ([b] + ([c] + []));
    ReachingCons(c, [], {});
    ReachingCons(b, [c] + [], {});
    ReachingCons(a, [b] + ([c] + []), {});
    assert Needed(ops, 1) == Reaching(ops, Needed(ops, 0)) && 0 in Needed(ops, 1);
    assert LastWrite(ops, 1, 0) && !KeepsLast(ops, 0);
  }

  // compute_live_var changes what it does.
  lemma OneBlockLoop(g: Graph, g': Graph, global: seq<bool>)
    requires Loop(g) && Cleaned(g, g', global) && |global| == 1
    requires (forall r: nat :: r < 1 ==> (global[r] <==> Marks(g, r)))
    ensures !SameBehaviour(g, g', 1, {})
  {
    InvClosed(g, 1, {});
    forall i | 0 <= i < |g.code| ensures Below(g.code[i], 1) {
      assert OpOk(g.code[i], 1, {});
    }
    LoopLoses();
    assert HasEdge(g.bb[0], 0) && ComesBack(g);
    forall b: nat | b < |g.bb| && g.bb[b].used ensures TypedOps(Ops(g, b)) && ResetsFetched(g, b) {
      assert b == 0;
    }
    RemovalExactly(g, g', global, 1, {});
  }

  // From the compiler's code on: build_cfg, mark_used_bb, the first loop of optimize_jmp, and all of it, ...
  method OptimizedLoop(budget: nat) returns (o: Optimizer)
    ensures Compiled(LOOP_CODE) && fresh(o) && Loop(o.G())
  {
    LoopCompiled();
    var bb := Build(LOOP_CODE);
    LoopMarked(bb);
    o := new Optimizer(Graph(LOOP_CODE, MarkUsed(bb, 0)));
    ghost var g0 := o.G();
    var swept := o.Sweep(1, {});
    assert AliveAt(g0, o.G(), 0);
    OnlyEntryAlive(g0, o.G());
    LoopSettled(o.G());
    var done := o.OptimizeJmp(budget, 1, {});
  }

  // ... and compute_live_var.
  method RunLoop(budget: nat) returns (ghost g: Graph, g': Graph)
    ensures Compiled(LOOP_CODE) && Loop(g) && g'.bb == g.bb && !SameBehaviour(g, g', 1, {})
  {
    var o := OptimizedLoop(budget);
    g := o.G();
    InvClosed(g, 1, {});
    assert forall i :: 0 <= i < |g.code| ==> OpOk(g.code[i], 1, {});
    var global;
    g', global := ComputeLiveVar(o.G(), 1, {});
    OneBlockLoop(g, g', global[..]);
  }
}
