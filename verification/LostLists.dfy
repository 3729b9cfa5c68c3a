// Predecessor lists do go wrong: in a compiled function without a one-instruction block that branches to itself.
module LostLists {
  import opened Options
  import opened Opcodes
  import opened Graphs
  import opened Preds
  import opened Rewrites
  import opened Marking
  import opened BuildCfg
  import opened JumpRules
  import opened Trails
  import Runs

  function Jump(c: Opcode, v: Operand, to1: nat, to2: nat, ext: nat): Op {
    Op(c, v, Unused, Unused, false, to1, to2, ext)
  }

  const LEAVE := Jump(Return, Unused, 0, 0, 0)

  // 0: skip the loop at 1; the loop's own test leaves it at once for 4, which goes on to 5.
  const CODE := [
    Jump(Jmpznz, Const(1), 0, 1, 3),
    Jump(Effect(7), Unused, 0, 0, 0),
    Jump(Jmpznz, Const(0), 0, 4, 1),
    LEAVE,
    Jump(Jmp, Unused, 5, 0, 0),
    LEAVE,
    Jump(HandleException, Unused, 0, 0, 0)
  ]

  // The pointers after n steps.
  function EdgesAt(n: nat, b: nat): Edges {
    if b == 0 then if n < 1 then Edges(None, Some(1), Some(3), None) else Edges(Some(3), None, None, None)
    else if b == 1 then if n < 2 then Edges(None, Some(4), Some(1), None)
      else if n == 2 then Edges(Some(4), None, None, None) else Edges(Some(5), None, None, None)
    else if b == 4 then Edges(Some(5), None, None, None)
    else if b == 3 || b == 5 then Edges(None, None, None, Some(6))
    else Edges(None, None, None, None)
  }

  function CodeAt(n: nat): seq<Op> {
    var code1 := if n < 1 then CODE else CODE[0 := ToJmp(CODE[0]).(ext := 0)];
    if n < 2 then code1 else code1[2 := ToJmp(CODE[2]).(ext := 0)]
  }

  function LenAt(b: nat): nat {
    if b == 1 then 2 else if b == 2 || b == 7 then 0 else 1
  }

  // The blocks after n steps, whatever their lists.
  ghost predicate BlocksAre(n: nat, bb: seq<Block>) {
    && |bb| == 8 && (forall b: nat :: b < 8 ==> EdgesOf(bb[b]) == EdgesAt(n, b) && bb[b].len == LenAt(b))
    && (forall b: nat :: b < 8 && b != 2 && b != 7 ==> bb[b].start == Some(b))
    && bb[0].next == Some(1) && bb[1].next == Some(3)
  }

  ghost predicate Stage(n: nat, g: Graph) {
    g.code == CodeAt(n) && BlocksAre(n, g.bb) && Inv(g, 0, {}) && Honest(g.bb)
  }

  ghost predicate StartsAre(bb: seq<Block>) {
    |bb| == 8 && forall b: nat :: b < 8 ==> bb[b].start == if b == 2 || b == 7 then None else Some(b)
  }

  lemma StartsBuilt(bb: seq<Block>)
    requires Built(CODE, bb) && OnlyLeaders(CODE, bb, |CODE|)
    ensures StartsAre(bb)
  {
    assert StartsFor(bb, CODE[0], 0) && StartsFor(bb, CODE[2], 2) && StartsFor(bb, CODE[3], 3)
           && StartsFor(bb, CODE[4], 4) && StartsFor(bb, CODE[5], 5);
    assert !Leader(CODE, |CODE|, 2);
    assert !Started(bb, 2);
    assert BuiltBlock(CODE, bb, 2) && BuiltBlock(CODE, bb, 6) && BuiltBlock(CODE, bb, 7);
  }

  lemma NextBuilt(bb: seq<Block>, b: nat)
    requires Built(CODE, bb) && StartsAre(bb) && b < 7 && b != 2
    ensures bb[b].next == if b == 6 then None else Some(if b == 1 then 3 else b + 1)
  {
    assert BuiltBlock(CODE, bb, b);
    if b < 6 {
      var n := if b == 1 then 3 else b + 1;
      assert bb[n].start == Some(n);
    }
  }

  lemma BlocksBuilt(bb: seq<Block>)
    requires Built(CODE, bb) && OnlyLeaders(CODE, bb, |CODE|)
    ensures BlocksAre(0, bb)
  {
    StartsBuilt(bb);
    forall b: nat | b < 8 ensures EdgesOf(bb[b]) == EdgesAt(0, b) && bb[b].len == LenAt(b) {
      assert BuiltBlock(CODE, bb, b);
      if b < 7 && b != 2 { NextBuilt(bb, b); }
    }
    NextBuilt(bb, 0);
    NextBuilt(bb, 1);
  }

  lemma Start(bb: seq<Block>)
    requires Built(CODE, bb) && OnlyLeaders(CODE, bb, |CODE|)
    ensures EdgesInRange(bb)
    ensures var g := Graph(CODE, MarkUsed(bb, 0)); Stage(0, g) && Exact(g.bb)
  {
    assert CodeOk(CODE, 0, {});
    BuildTheorem(CODE, bb, 0, {});
    BlocksBuilt(bb);
    BuiltLayout(CODE, bb);
    MarkUsedTheorem(bb);
    ExactIs(MarkUsed(bb, 0));
  }

  // No block of one instruction branches to itself.
  ghost predicate NoTightLoop(bb: seq<Block>) {
    forall b: nat :: b < |bb| && bb[b].len == 1 ==> !HasEdge(bb[b], b)
  }

  lemma StageHasNone(n: nat, g: Graph)
    requires Stage(n, g)
    ensures NoTightLoop(g.bb)
  {
    forall b: nat | b < |g.bb| && g.bb[b].len == 1 ensures !HasEdge(g.bb[b], b) {
      assert EdgesOf(g.bb[b]) == EdgesAt(n, b);
    }
  }

  // The steps: the tests at 0 and at 1 become JMPs, and the second JMP is threaded.
  function StepAt(n: nat): Move {
    if n == 0 then Rule(0, Edit(ToJmp(CODE[0]).(ext := 0), false, Some(1), Edges(Some(3), None, None, None), None))
    else if n == 1 then Rule(1, Edit(ToJmp(CODE[2]).(ext := 0), false, Some(1), Edges(Some(4), None, None, None), None))
    else Rule(1, Edit(ToJmp(CODE[2]).(ext := 0), false, Some(4), Edges(Some(5), None, None, None), Some(5)))
  }

  function Before(n: nat): Option<Move> {
    if n == 0 then None else Some(StepAt(n - 1))
  }

  lemma StepAllowed(n: nat, g: Graph)
    requires n < 3 && Stage(n, g) && (n < 2 ==> g.bb[if n == 0 then 0 else 1].used)
    ensures Allowed(g, Before(n), StepAt(n))
  {
    assert forall b: nat :: b < 8 ==> EdgesOf(g.bb[b]) == EdgesAt(n, b) && g.bb[b].len == LenAt(b);
    var p := StepAt(n).block;
    assert EdgesOf(g.bb[p]) == EdgesAt(n, p) && g.bb[4].len == 1 && EdgesOf(g.bb[4]) == EdgesAt(n, 4)
           && g.bb[4].start == Some(4);
  }

  lemma NextBlocks(n: nat, bb: seq<Block>, bb': seq<Block>)
    requires n < 3 && BlocksAre(n, bb)
    requires var p := StepAt(n).block; Fewer(bb[p := WithEdges(bb[p].(len := bb[p].len), StepAt(n).ed.e)], bb')
    ensures BlocksAre(n + 1, bb')
  {
    var p := StepAt(n).block;
    forall b: nat | b < 8 ensures EdgesOf(bb'[b]) == EdgesAt(n + 1, b) && bb'[b].len == LenAt(b) {
      assert EdgesOf(bb[b]) == EdgesAt(n, b) && bb[b].len == LenAt(b);
      if b != p { assert EdgesAt(n + 1, b) == EdgesAt(n, b); }
    }
  }

  lemma NextCode(n: nat)
    requires n < 3
    ensures |CodeAt(n)| == 7 && CodeAt(n + 1) == CodeAt(n)[if n == 0 then 0 else 2 := StepAt(n).ed.op]
  {
    if n == 2 { assert CodeAt(2)[2] == StepAt(2).ed.op; }
  }

  lemma StepStage(n: nat, g: Graph)
    requires n < 3 && Stage(n, g) && Allowed(g, Before(n), StepAt(n))
    ensures Stage(n + 1, Result(g, Before(n), StepAt(n)))
  {
    var p, ed := StepAt(n).block, StepAt(n).ed;
    ChosenSound(g, Before(n), p, ed, 0, {});
    EditKeeps(g, p, ed, 0, {});
    MoveLists(g, Before(n), StepAt(n), 0, {});
    NextCode(n);
    assert g.bb[p].len == LenAt(p);
    NextBlocks(n, g.bb, Edited(g, p, ed).bb);
  }

  // Block 1 is in use until it gives itself up.
  lemma LoopStays(g: Graph)
    requires Stage(0, g) && g.bb[0].used && Allowed(g, None, StepAt(0))
    ensures Result(g, None, StepAt(0)).bb[1].used
  {
    assert HasEdge(g.bb[0], 1) && HasEdge(g.bb[1], 1);
    assert g.bb[1].used && 1 in g.bb[1].pred;
    var bb := g.bb[0 := g.bb[0].(len := g.bb[0].len)];
    DetachFacts(bb, 0, Some(1));
  }

  lemma LoopAlone(g: Graph)
    requires Stage(1, g) && g.bb[1].used
    ensures g.bb[1].pred == [1]
  {
    forall y | y in g.bb[1].pred ensures y == 1 {
      assert HasEdge(g.bb[y], 1);
      assert EdgesOf(g.bb[y]) == EdgesAt(1, y);
    }
    assert HasEdge(g.bb[1], 1);
    OnlyOne(g.bb[1].pred, 1);
  }

  // From exact lists three steps of the source lead to lists that are not, although no block of one instruction
  // branches to itself on the way: the second takes the loop out of use, and the third enters it at 5.
  lemma ListsLost(bb: seq<Block>) returns (g: Graph, g1: Graph, g2: Graph, g3: Graph)
    requires Built(CODE, bb) && OnlyLeaders(CODE, bb, |CODE|)
    ensures EdgesInRange(bb) && g == Graph(CODE, MarkUsed(bb, 0)) && Exact(g.bb)
    ensures NoTightLoop(g.bb) && NoTightLoop(g1.bb) && NoTightLoop(g2.bb) && NoTightLoop(g3.bb)
    ensures Trail(g, None, [StepAt(0), StepAt(1), StepAt(2)], g3) && !Exact(g3.bb)
    ensures Forward(g, None, StepAt(0)) == Some(g1) && Forward(g1, Before(1), StepAt(1)) == Some(g2)
    ensures Forward(g2, Before(2), StepAt(2)) == Some(g3)
  {
    Start(bb);
    g := Graph(CODE, MarkUsed(bb, 0));
    g1, g2, g3 := ThreeSteps(g);
    Follow(g, g1, g2, g3);
    StageHasNone(0, g);
    StageHasNone(1, g1);
    StageHasNone(2, g2);
    StageHasNone(3, g3);
    ExactIs(g3.bb);
  }

  lemma ThreeSteps(g: Graph) returns (g1: Graph, g2: Graph, g3: Graph)
    requires Stage(0, g) && g.bb[0].used
    ensures Forward(g, None, StepAt(0)) == Some(g1) && Forward(g1, Before(1), StepAt(1)) == Some(g2)
    ensures Forward(g2, Before(2), StepAt(2)) == Some(g3)
    ensures Stage(1, g1) && Stage(2, g2) && Stage(3, g3) && Stale(g3.bb)
  {
    StepAllowed(0, g);
    StepStage(0, g);
    LoopStays(g);
    g1 := Result(g, Before(0), StepAt(0));
    StepAllowed(1, g1);
    StepStage(1, g1);
    LoopAlone(g1);
    g2 := Result(g1, Before(1), StepAt(1));
    ChosenSound(g1, Before(1), 1, StepAt(1).ed, 0, {});
    EditUses(g1, 1, StepAt(1).ed);
    StepAllowed(2, g2);
    StepStage(2, g2);
    g3 := Result(g2, Before(2), StepAt(2));
    LosesExactly(g2, Before(2), 1, StepAt(2).ed, 0, {});
    MoveLists(g2, Before(2), StepAt(2), 0, {});
  }

  lemma Follow(g: Graph, g1: Graph, g2: Graph, g3: Graph)
    requires Forward(g, None, StepAt(0)) == Some(g1) && Forward(g1, Before(1), StepAt(1)) == Some(g2)
    requires Forward(g2, Before(2), StepAt(2)) == Some(g3)
    ensures Trail(g, None, [StepAt(0), StepAt(1), StepAt(2)], g3)
  {
    Runs.One(Forward, g, None, StepAt(0));
    Runs.One(Forward, g1, Before(1), StepAt(1));
    Runs.One(Forward, g2, Before(2), StepAt(2));
    Runs.Join(Forward, g, None, [StepAt(0)], g1, [StepAt(1)], g2);
    assert [StepAt(0)] + [StepAt(1)] + [StepAt(2)] == [StepAt(0), StepAt(1), StepAt(2)];
    Runs.Join(Forward, g, None, [StepAt(0)] + [StepAt(1)], g2, [StepAt(2)], g3);
  }

  // The graph is one that the compiler's code leads to.
  method RunToLost() returns (g: Graph, ghost g3: Graph)
    ensures Compiled(CODE) && Exact(g.bb) && Trail(g, None, [StepAt(0), StepAt(1), StepAt(2)], g3) && !Exact(g3.bb)
  {
    var bb := Build(CODE);
    ghost var g0, g1, g2;
    g0, g1, g2, g3 := ListsLost(bb);
    g := Graph(CODE, MarkUsed(bb, 0));
  }
}
