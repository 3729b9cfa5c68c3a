// The op array itself, and when it means the same as a control-flow graph.
module Flat {
  import opened Opcodes
  import opened Graphs
  import opened Preds
  import opened Rewrites

  datatype Point = At(pc: nat, s: State) | Done(tr: seq<Event>)

  function Shown(c: Point): seq<Event> {
    if c.Done? then c.tr else c.s.tr
  }

  function Move(w: World, code: seq<Op>, c: Point): Point
  {
    if c.At? && c.pc < |code| then
      var op := code[c.pc];
      var (d, s) := Exec(w, op, c.s);
      match d
      case Next => At(c.pc + 1, s)
      case To1 => At(op.to1, s)
      case To2 => At(op.to2, s)
      case ToExt => At(op.ext, s)
      case Halt => Done(s.tr)
    else Done(Shown(c))
  }

  function Moves(w: World, code: seq<Op>, c: Point, n: nat): Point
    decreases n
  {
    if n == 0 then c else Moves(w, code, Move(w, code, c), n - 1)
  }

  predicate Before(c1: Point, c2: Point) {
    if c1.Done? then c1 == c2 else Shown(c1) <= Shown(c2)
  }

  ghost predicate Catches(w: World, code: seq<Op>, c: Point, goal: Point) {
    exists m: nat :: Before(goal, Moves(w, code, c, m))
  }

  // Everything the first op array shows from its start, the second shows too.
  ghost predicate FlatSimulates(w: World, c1: seq<Op>, c2: seq<Op>, T: nat, bools: set<nat>) {
    forall s, n: nat :: StateOk(s, T, bools) ==> Catches(w, c2, At(0, s), Moves(w, c1, At(0, s), n))
  }

  ghost predicate SameTraces(c1: seq<Op>, c2: seq<Op>, T: nat, bools: set<nat>) {
    forall w: World :: FlatSimulates(w, c1, c2, T, bools) && FlatSimulates(w, c2, c1, T, bools)
  }

  lemma MovesAdd(w: World, code: seq<Op>, c: Point, n: nat, m: nat)
    ensures Moves(w, code, c, n + m) == Moves(w, code, Moves(w, code, c, n), m)
    decreases n
  {
    if n > 0 {
      MovesAdd(w, code, Move(w, code, c), n - 1, m);
    }
  }

  lemma {:induction false} MovesShow(w: World, code: seq<Op>, c: Point, n: nat)
    ensures Shown(c) <= Shown(Moves(w, code, c, n))
    decreases n
  {
    if n > 0 {
      if c.At? && c.pc < |code| { ExecShows(w, code[c.pc], c.s); }
      MovesShow(w, code, Move(w, code, c), n - 1);
    }
  }

  lemma MovesDone(w: World, code: seq<Op>, c: Point, n: nat)
    requires c.Done?
    ensures Moves(w, code, c, n) == c
    decreases n
  {
  }

  // ----- a graph laid out in an op array -----

  // The same instruction, except for where it jumps to.
  predicate SameInstr(f: Op, o: Op) {
    && f.code == o.code && f.op1 == o.op1 && f.op2 == o.op2 && f.res == o.res
    && (o.code.DeclareInherited? ==> f.ext == o.ext)
  }

  predicate Corresponds(F: seq<Op>, p: int, code: seq<Op>, b: int, i: int) {
    0 <= p + i < |F| && 0 <= b + i < |code| && SameInstr(F[p + i], code[b + i])
  }

  predicate AimsAt(r: Ref, pos: seq<nat>, line: nat) {
    r.Some? ==> r.value < |pos| && line == pos[r.value]
  }

  ghost predicate LaidOutBlock(g: Graph, F: seq<Op>, pos: seq<nat>, b: nat)
    requires b < |g.bb| && BlockInRange(g, b) && |pos| == |g.bb|
  {
    var blk := g.bb[b];
    && pos[b] + blk.len <= |F|
    && (forall i :: 0 <= i < blk.len ==> Corresponds(F, pos[b], g.code, b, i))
    && (blk.len > 0 ==>
          var f := F[pos[b] + blk.len - 1];
          AimsAt(blk.jmp1, pos, f.to1) && AimsAt(blk.jmp2, pos, f.to2) && AimsAt(blk.ext, pos, f.ext))
    && (FallsThrough(g, b) ==>
          blk.follow.Some? && blk.follow.value < |pos| && pos[blk.follow.value] == pos[b] + blk.len)
  }

  // Block b starts at line pos[b].
  ghost predicate LaidOut(g: Graph, F: seq<Op>, pos: seq<nat>) {
    && Layout(g) && Closed(g.bb) && |pos| == |g.bb| && g.bb[0].used && pos[0] == 0
    && forall b :: 0 <= b < |g.bb| && g.bb[b].used ==> LaidOutBlock(g, F, pos, b)
  }

  function Lift(pos: seq<nat>, c: Config): Point {
    match c
    case Halted(tr) => Done(tr)
    case Running(b, s) => if b < |pos| then At(pos[b], s) else Done(s.tr)
  }

  lemma SameInstrExec(w: World, f: Op, o: Op, s: State)
    requires SameInstr(f, o)
    ensures Exec(w, f, s) == Exec(w, o, s)
  {
  }

  lemma MovesStraight(w: World, F: seq<Op>, pc: nat, ops: seq<Op>, s: State)
    requires Straight(ops) && pc + |ops| <= |F|
    requires forall i :: 0 <= i < |ops| ==> Corresponds(F, pc, ops, 0, i)
    ensures var (h, s') := RunStraight(w, ops, s);
            Moves(w, F, At(pc, s), |ops|) == if h then Done(s'.tr) else At(pc + |ops|, s')
    decreases |ops|
  {
    if ops != [] {
      assert Corresponds(F, pc, ops, 0, 0);
      MoveStraight(w, F, pc, ops[0], s);
      var (d, s') := Exec(w, ops[0], s);
      if d.Halt? {
        MovesDone(w, F, Done(s'.tr), |ops| - 1);
      } else {
        RestCorresponds(F, pc, ops, pc + 1, ops[1..]);
        MovesStraight(w, F, pc + 1, ops[1..], s');
      }
    }
  }

  lemma RestCorresponds(F: seq<Op>, pc: nat, ops: seq<Op>, pc': nat, rest: seq<Op>)
    requires ops != [] && pc' == pc + 1 && rest == ops[1..] && forall i ::
               0 <= i < |ops| ==> Corresponds(F, pc, ops, 0, i)
    ensures forall i :: 0 <= i < |rest| ==> Corresponds(F, pc', rest, 0, i)
  {
    forall i | 0 <= i < |rest| ensures Corresponds(F, pc', rest, 0, i) {
      assert Corresponds(F, pc, ops, 0, i + 1);
    }
  }

  // One instruction that does not branch.
  lemma MoveStraight(w: World, F: seq<Op>, pc: nat, op: Op, s: State)
    requires pc < |F| && SameInstr(F[pc], op) && !Control(op.code)
    ensures var (d, s') := Exec(w, op, s);
            (d.Next? || d.Halt?) && Move(w, F, At(pc, s)) == if d.Halt? then Done(s'.tr) else At(pc + 1, s')
  {
    SameInstrExec(w, F[pc], op, s);
  }

  lemma MovesOne(w: World, F: seq<Op>, c: Point)
    ensures Moves(w, F, c, 1) == Move(w, F, c)
  {
    assert Moves(w, F, Move(w, F, c), 0) == Move(w, F, c);
  }

  lemma PrefixMoves(w: World, g: Graph, F: seq<Op>, pos: seq<nat>, b: nat, s: State)
    requires b < |g.bb| && BlockInRange(g, b) && Shaped(g, b) && |pos| == |g.bb| && 0 < g.bb[b].len
    requires LaidOutBlock(g, F, pos, b)
    ensures var n := g.bb[b].len;
            var (h, s') := RunStraight(w, g.code[b .. b + n - 1], s);
            Moves(w, F, At(pos[b], s), n - 1) == if h then Done(s'.tr) else At(pos[b] + n - 1, s')
  {
    var pre := g.code[b .. b + g.bb[b].len - 1];
    forall i | 0 <= i < |pre| ensures Corresponds(F, pos[b], pre, 0, i) {
      assert Corresponds(F, pos[b], g.code, b, i);
    }
    MovesStraight(w, F, pos[b], pre, s);
  }

  // Line pc is the last instruction of blk.
  predicate LastFitsAt(F: seq<Op>, pos: seq<nat>, pc: nat, op: Op, blk: Block)
    requires pc < |F|
  {
    && SameInstr(F[pc], op) && TailShape(op.code, EdgesOf(blk))
    && AimsAt(blk.jmp1, pos, F[pc].to1) && AimsAt(blk.jmp2, pos, F[pc].to2) && AimsAt(blk.ext, pos, F[pc].ext)
    && (FallsAfter(op.code) ==> AimsAt(blk.follow, pos, pc + 1) && blk.follow.Some?)
  }

  // The last instruction of a block, and where it leads.
  lemma LastMove(w: World, F: seq<Op>, pos: seq<nat>, pc: nat, op: Op, blk: Block, s: State)
    requires pc < |F| && LastFitsAt(F, pos, pc, op, blk)
    ensures Move(w, F, At(pc, s)) == Lift(pos, ExecOps(w, [op], blk, s))
  {
    SameInstrExec(w, F[pc], op, s);
    var (d, s') := Exec(w, op, s);
    assert ExecOps(w, [op], blk, s) == Leave(blk, d, s');
  }

  // Straight code and one last instruction.
  lemma WholeMoves(w: World, F: seq<Op>, pos: seq<nat>, pc: nat, n: nat, pre: seq<Op>, last: Op, blk: Block, s: State)
    requires Straight(pre) && pc + n < |F| && LastFitsAt(F, pos, pc + n, last, blk)
    requires var (h, s') := RunStraight(w, pre, s); Moves(w, F, At(pc, s), n) == if h then Done(s'.tr) else At(pc + n, s')
    ensures Moves(w, F, At(pc, s), n + 1) == Lift(pos, ExecOps(w, pre + [last], blk, s))
  {
    MovesAdd(w, F, At(pc, s), n, 1);
    ExecStraight(w, pre, [last], blk, s);
    MovesOne(w, F, Moves(w, F, At(pc, s), n));
    var (h, s') := RunStraight(w, pre, s);
    if !h { LastMove(w, F, pos, pc + n, last, blk, s'); }
  }

  lemma LastFits(g: Graph, F: seq<Op>, pos: seq<nat>, b: nat)
    requires b < |g.bb| && BlockInRange(g, b) && Shaped(g, b) && |pos| == |g.bb| && LaidOutBlock(g, F, pos, b)
    requires 0 < g.bb[b].len
    ensures var n := g.bb[b].len - 1;
            && b + n < |g.code| && pos[b] + n < |F| && Straight(g.code[b .. b + n])
            && LastFitsAt(F, pos, pos[b] + n, g.code[b + n], g.bb[b])
  {
    assert Corresponds(F, pos[b], g.code, b, g.bb[b].len - 1);
  }

  lemma OpsSplit(g: Graph, b: nat)
    requires b < |g.bb| && BlockInRange(g, b) && g.bb[b].used
    ensures if g.bb[b].len == 0 then Ops(g, b) == []
            else b + g.bb[b].len <= |g.code| && Ops(g,
                                                    b) == g.code[b .. b + g.bb[b].len - 1]
                                                      + [g.code[b + g.bb[b].len - 1]]
  {
  }

  lemma StepIs(w: World, g: Graph, b: nat, s: State)
    requires b < |g.bb|
    ensures Step(w, g, Running(b, s)) == ExecOps(w, Ops(g, b), g.bb[b], s)
  {
  }

  lemma EmptyMoves(w: World, F: seq<Op>, pos: seq<nat>, pc: nat, blk: Block, s: State)
    requires blk.follow.Some? && AimsAt(blk.follow, pos, pc)
    ensures Moves(w, F, At(pc, s), 0) == Lift(pos, ExecOps(w, [], blk, s))
  {
  }

  // Executing a block is `len` instructions of the op array, or fewer if it stops.
  lemma BlockMoves(w: World, g: Graph, F: seq<Op>, pos: seq<nat>, b: nat, s: State)
    requires b < |g.bb| && BlockInRange(g, b) && Shaped(g, b) && |pos| == |g.bb| && g.bb[b].used
    requires LaidOutBlock(g, F, pos, b)
    ensures Moves(w, F, At(pos[b], s), g.bb[b].len) == Lift(pos, Step(w, g, Running(b, s)))
  {
    var n := g.bb[b].len;
    OpsSplit(g, b);
    StepIs(w, g, b, s);
    if n > 0 {
      LastFits(g, F, pos, b);
      PrefixMoves(w, g, F, pos, b, s);
      WholeMoves(w, F, pos, pos[b], n - 1, g.code[b .. b + n - 1], g.code[b + n - 1], g.bb[b], s);
    } else {
      EmptyMoves(w, F, pos, pos[b], g.bb[b], s);
    }
  }

  // All that running the two side by side needs to know.
  ghost predicate InStep(w: World, g: Graph, F: seq<Op>, pos: seq<nat>) {
    && |pos| == |g.bb|
    && forall b: nat, s :: b < |g.bb| && g.bb[b].used ==> BlockInStep(w, g, F, pos, b, s)
  }

  ghost predicate BlockInStep(w: World, g: Graph, F: seq<Op>, pos: seq<nat>, b: nat, s: State)
    requires b < |g.bb| == |pos|
  {
    var c := Step(w, g, Running(b, s));
    && Moves(w, F, At(pos[b], s), g.bb[b].len) == Lift(pos, c)
    && (c.Running? ==> c.b < |g.bb| && g.bb[c.b].used && (g.bb[b].len == 0 ==> b < c.b))
  }

  lemma LaidOutInStep(w: World, g: Graph, F: seq<Op>, pos: seq<nat>)
    requires LaidOut(g, F, pos)
    ensures InStep(w, g, F, pos)
  {
    forall b: nat, s | b < |g.bb| && g.bb[b].used ensures BlockInStep(w, g, F, pos, b, s) {
      assert BlockInRange(g, b) && Shaped(g, b) && Placed(g, b);
      BlockMoves(w, g, F, pos, b, s);
      if g.bb[b].len == 0 { assert Ops(g, b) == []; }
    }
  }

  lemma RunOne(w: World, g: Graph, c: Config, k: nat)
    ensures Run(w, g, c, 1 + k) == Run(w, g, Step(w, g, c), k)
  {
  }

  // m instructions of the op array are n blocks of the graph.
  ghost predicate Tracks(w: World, g: Graph, F: seq<Op>, pos: seq<nat>, b: nat, s: State, n: nat, m: nat)
    requires b < |g.bb| == |pos|
  {
    var c := Run(w, g, Running(b, s), n);
    Moves(w, F, At(pos[b], s), m) == Lift(pos, c) && (c.Running? ==> c.b < |g.bb|)
  }

  lemma GraphThrough(w: World, g: Graph, F: seq<Op>, pos: seq<nat>, b: nat, s: State, b': nat, s': State, n: nat,
                     k: nat)
    requires b < |g.bb| == |pos| && b' < |pos| && BlockInStep(w, g, F, pos, b, s)
    requires Step(w, g, Running(b, s)) == Running(b', s') && Tracks(w, g, F, pos, b', s', n, k)
    ensures Tracks(w, g, F, pos, b, s, 1 + n, g.bb[b].len + k)
  {
    MovesAdd(w, F, At(pos[b], s), g.bb[b].len, k);
    RunOne(w, g, Running(b, s), n);
  }

  lemma GraphHalts(w: World, g: Graph, F: seq<Op>, pos: seq<nat>, b: nat, s: State, tr: seq<Event>, n: nat)
    requires b < |g.bb| == |pos| && BlockInStep(w, g, F, pos, b, s) && Step(w, g, Running(b, s)) == Halted(tr)
    ensures Tracks(w, g, F, pos, b, s, 1 + n, g.bb[b].len)
  {
    RunHalted(w, g, Halted(tr), n);
    RunOne(w, g, Running(b, s), n);
  }

  lemma GraphAtOnce(w: World, g: Graph, F: seq<Op>, pos: seq<nat>, b: nat, s: State)
    requires b < |g.bb| == |pos|
    ensures Tracks(w, g, F, pos, b, s, 0, 0)
  {
  }

  // Each run of the graph is a run of the op array.
  lemma {:induction false} GraphToFlat(w: World, g: Graph, F: seq<Op>, pos: seq<nat>, b: nat, s: State, n: nat)
    returns (m: nat)
    requires InStep(w, g, F, pos) && b < |g.bb| && g.bb[b].used
    ensures Tracks(w, g, F, pos, b, s, n, m)
    decreases n
  {
    m := 0;
    if n == 0 {
      GraphAtOnce(w, g, F, pos, b, s);
    } else {
      assert BlockInStep(w, g, F, pos, b, s);
      match Step(w, g, Running(b, s))
      case Running(b', s') =>
        var k := GraphToFlat(w, g, F, pos, b', s', n - 1);
        m := g.bb[b].len + k;
        GraphThrough(w, g, F, pos, b, s, b', s', n - 1, k);
      case Halted(tr) =>
        m := g.bb[b].len;
        GraphHalts(w, g, F, pos, b, s, tr, n - 1);
    }
  }

  lemma MovesBefore(w: World, F: seq<Op>, c: Point, n: nat, m: nat)
    requires n <= m
    ensures Before(Moves(w, F, c, n), Moves(w, F, c, m))
  {
    MovesAdd(w, F, c, n, m - n);
    var mid := Moves(w, F, c, n);
    if mid.Done? { MovesDone(w, F, mid, m - n); } else { MovesShow(w, F, mid, m - n); }
  }

  // Less than a block, or a block that stops.
  lemma FlatWithinBlock(w: World, g: Graph, F: seq<Op>, pos: seq<nat>, b: nat, s: State, m: nat)
    requires b < |g.bb| == |pos| && BlockInStep(w, g, F, pos, b, s)
    requires m < g.bb[b].len || Step(w, g, Running(b, s)).Halted?
    ensures Before(Moves(w, F, At(pos[b], s), m), Lift(pos, Run(w, g, Running(b, s), 1)))
  {
    var len, c := g.bb[b].len, Step(w, g, Running(b, s));
    RunOne(w, g, Running(b, s), 0);
    if m <= len {
      MovesBefore(w, F, At(pos[b], s), m, len);
    } else {
      MovesAdd(w, F, At(pos[b], s), len, m - len);
      MovesDone(w, F, Done(c.tr), m - len);
    }
  }

  // A whole block on both sides, and the rest.
  lemma ThroughBlock(w: World, g: Graph, F: seq<Op>, pos: seq<nat>, b: nat, s: State, b': nat, s': State, m: nat)
    requires b < |g.bb| == |pos| && b' < |pos| && BlockInStep(w, g, F, pos, b, s) && g.bb[b].len <= m
    requires Step(w, g, Running(b, s)) == Running(b', s')
    ensures Moves(w, F, At(pos[b], s), m) == Moves(w, F, At(pos[b'], s'), m - g.bb[b].len)
  {
    MovesAdd(w, F, At(pos[b], s), g.bb[b].len, m - g.bb[b].len);
  }

  lemma FlatThrough(w: World, g: Graph, F: seq<Op>, pos: seq<nat>, b: nat, s: State, b': nat, s': State, m: nat, k: nat)
    requires b < |g.bb| == |pos| && b' < |pos| && BlockInStep(w, g, F, pos, b, s) && g.bb[b].len <= m
    requires Step(w, g, Running(b, s)) == Running(b', s')
    requires Before(Moves(w, F, At(pos[b'], s'), m - g.bb[b].len), Lift(pos, Run(w, g, Running(b', s'), k)))
    ensures Before(Moves(w, F, At(pos[b], s), m), Lift(pos, Run(w, g, Running(b, s), 1 + k)))
  {
    ThroughBlock(w, g, F, pos, b, s, b', s', m);
    RunOne(w, g, Running(b, s), k);
  }

  lemma FlatAtOnce(w: World, g: Graph, F: seq<Op>, pos: seq<nat>, b: nat, s: State)
    requires b < |g.bb| == |pos|
    ensures Before(Moves(w, F, At(pos[b], s), 0), Lift(pos, Run(w, g, Running(b, s), 0)))
  {
  }

  // And the graph keeps up with each run of the op array.  Empty blocks take no instruction, but they
  // only fall through to later blocks.
  lemma {:induction false} FlatToGraph(w: World, g: Graph, F: seq<Op>, pos: seq<nat>, b: nat, s: State, m: nat)
    returns (n: nat)
    requires InStep(w, g, F, pos) && b < |g.bb| && g.bb[b].used
    ensures Before(Moves(w, F, At(pos[b], s), m), Lift(pos, Run(w, g, Running(b, s), n)))
    decreases m, |g.bb| - b
  {
    assert BlockInStep(w, g, F, pos, b, s);
    var len := g.bb[b].len;
    if m == 0 {
      n := 0;
      FlatAtOnce(w, g, F, pos, b, s);
    } else {
      match Step(w, g, Running(b, s))
      case Halted(_) =>
        n := 1;
        FlatWithinBlock(w, g, F, pos, b, s, m);
      case Running(b', s') =>
        if m < len {
          n := 1;
          FlatWithinBlock(w, g, F, pos, b, s, m);
        } else {
          var k := FlatToGraph(w, g, F, pos, b', s', m - len);
          n := 1 + k;
          FlatThrough(w, g, F, pos, b, s, b', s', m, k);
        }
    }
  }

  lemma BeforeTransitive(a: Point, b: Point, c: Point)
    requires Before(a, b) && Before(b, c)
    ensures Before(a, c)
  {
  }

  lemma FlatOneWay(w: World, g1: Graph, F1: seq<Op>, pos1: seq<nat>, g2: Graph, F2: seq<Op>, pos2: seq<nat>, T: nat,
                   bools: set<nat>)
    requires InStep(w, g1, F1, pos1) && InStep(w, g2, F2, pos2) && Simulates(w, g1, g2, T, bools)
    requires 0 < |g1.bb| && g1.bb[0].used && pos1[0] == 0 && 0 < |g2.bb| && g2.bb[0].used && pos2[0] == 0
    ensures FlatSimulates(w, F1, F2, T, bools)
  {
    forall s, n: nat | StateOk(s, T, bools)
      ensures Catches(w, F2, At(0, s), Moves(w, F1, At(0, s), n))
    {
      var k := FlatToGraph(w, g1, F1, pos1, 0, s, n);
      var c1 := Run(w, g1, Running(0, s), k);
      assert Reaches(w, g2, Running(0, s), c1);
      var j: nat :| Leq(c1, Run(w, g2, Running(0, s), j));
      var c2 := Run(w, g2, Running(0, s), j);
      var m := GraphToFlat(w, g2, F2, pos2, 0, s, j);
      var _ := GraphToFlat(w, g1, F1, pos1, 0, s, k);
      assert Before(Lift(pos1, c1), Lift(pos2, c2));
      BeforeTransitive(Moves(w, F1, At(0, s), n), Lift(pos1, c1), Lift(pos2, c2));
      assert Before(Moves(w, F1, At(0, s), n), Moves(w, F2, At(0, s), m));
    }
  }

  // Op arrays of equivalent graphs show the same traces.
  lemma SameTracesByGraphs(g1: Graph, F1: seq<Op>, pos1: seq<nat>, g2: Graph, F2: seq<Op>, pos2: seq<nat>, T: nat,
                           bools: set<nat>)
    requires LaidOut(g1, F1, pos1) && LaidOut(g2, F2, pos2) && SameBehaviour(g1, g2, T, bools)
    ensures SameTraces(F1, F2, T, bools)
  {
    forall w: World ensures FlatSimulates(w, F1, F2, T, bools) && FlatSimulates(w, F2, F1, T, bools) {
      assert Equivalent(w, g1, g2, T, bools);
      LaidOutInStep(w, g1, F1, pos1);
      LaidOutInStep(w, g2, F2, pos2);
      FlatOneWay(w, g1, F1, pos1, g2, F2, pos2, T, bools);
      FlatOneWay(w, g2, F2, pos2, g1, F1, pos1, T, bools);
    }
  }
}
