// No jump of the optimized function decides on a constant.  compute_live_var makes a JMPZ of a JMPZ_EX whose result
// nobody needs, after optimize_jmp has run; no pass makes a JMPZ_EX.
module ConstTests {
  import opened Options
  import opened Opcodes
  import opened Graphs
  import opened Preds
  import opened Rewrites
  import opened Flat
  import opened DeleteMerge
  import opened JumpRules
  import opened Trails
  import opened Polish
  import opened PolishedCode
  import opened LiveVars
  import opened CleanedGraphs
  import opened Renumber
  import opened RegisterAllocator

  // A test of a constant that keeps the outcome.
  predicate KeepsConst(op: Op) {
    Ex(op.code) && op.op1.Const?
  }

  predicate NoKeptConst(code: seq<Op>) {
    forall i :: 0 <= i < |code| ==> !KeepsConst(code[i])
  }

  lemma EditMakesNone(g: Graph, p: nat, ed: Edit)
    requires Ready(g, p) && Chosen(g, p, ed) && !KeepsConst(Last(g, p))
    ensures !KeepsConst(ed.op)
  {
  }

  lemma MoveMakesNone(g: Graph, prev: Option<Move>, m: Move, T: nat, bools: set<nat>)
    requires Inv(g, T, bools) && Allowed(g, prev, m) && NoKeptConst(g.code)
    ensures NoKeptConst(Result(g, prev, m).code)
  {
    match m
    case Rule(p, ed) => EditMakesNone(g, p, ed);
    case Unlink(p, q) => DeleteBlocks(g, p, q);
    case Join(x, p) =>
  }

  lemma {:induction false} TrailMakesNone(g: Graph, prev: Option<Move>, ms: seq<Move>, g': Graph, T: nat,
                                          bools: set<nat>)
    requires Inv(g, T, bools) && Trail(g, prev, ms, g') && NoKeptConst(g.code)
    ensures NoKeptConst(g'.code)
    decreases |ms|
  {
    if ms != [] {
      var g1 := Result(g, prev, ms[0]);
      MoveKeeps(g, prev, ms[0], T, bools);
      MoveMakesNone(g, prev, ms[0], T, bools);
      TrailMakesNone(g1, Some(ms[0]), ms[1..], g', T, bools);
    }
  }

  lemma CleanedMakesNone(g: Graph, g': Graph, global: seq<bool>)
    requires InRange(g) && InRange(g') && CleanedAll(g, g', global) && NoKeptConst(g.code)
    ensures NoKeptConst(g'.code)
  {
    forall i | 0 <= i < |g'.code| ensures !KeepsConst(g'.code[i]) {
      var live := CleanedLine(g, g', global, i);
    }
  }

  // A test of a constant after the cleaning was one before, with or without a result.
  lemma CleanedTest(g: Graph, g': Graph, global: seq<bool>, b: nat)
    requires InRange(g) && InRange(g') && CleanedAll(g, g', global) && Ready(g', b)
    requires Ready(g, b) && !TestsConst(Last(g, b)) && !KeepsConst(Last(g, b))
    ensures !TestsConst(Last(g', b))
  {
    var live := CleanedLine(g, g', global, b + g.bb[b].len - 1);
  }

  lemma RenamedTest(g: Graph, g': Graph, subs: seq<seq<int>>, n: nat, b: nat)
    requires InRange(g) && AllRenamed(g, g', subs, n) && |g'.code| == |g.code| && Ready(g', b) && g.bb[b].used
    requires Ready(g, b) && !TestsConst(Last(g, b))
    ensures !TestsConst(Last(g', b))
  {
    var k := g.bb[b].len - 1;
    assert BlockInRange(g, b) && RenamedBlock(g, g'.code, subs, n, b);
    assert Ops(Graph(g'.code, g.bb), b)[k] == Last(g', b) && Ops(g, b)[k] == Last(g, b);
  }

  // From the end of a block of the graph at rest to the end of the block that is laid out.
  lemma NoneAtEnd(got: Graph, left: Graph, global: seq<bool>, last: Graph, named: Graph, subs: seq<seq<int>>, n: nat,
                  b: nat)
    requires InRange(got) && InRange(left) && InRange(last) && Rests(got) && NoKeptConst(got.code)
    requires CleanedAll(got, left, global) && SameAlive(left, last) && AllRenamed(last, named, subs, n)
    requires |named.code| == |last.code| && Ready(named, b) && named.bb[b].used
    ensures !TestsConst(Last(named, b))
  {
    AliveLines(left, last, b);
    assert RestsHere(got, b) && !TestsConst(Last(got, b));
    CleanedTest(got, left, global, b);
    RenamedTest(last, named, subs, n, b);
  }

  lemma NoneInCode(got: Graph, left: Graph, global: seq<bool>, last: Graph, named: Graph, subs: seq<seq<int>>, n: nat,
                   out: seq<Op>, pos: seq<nat>)
    requires InRange(got) && InRange(left) && InRange(last) && Rests(got) && NoKeptConst(got.code)
    requires CleanedAll(got, left, global) && SameAlive(left, last) && AllRenamed(last, named, subs, n)
    requires |named.code| == |last.code| && LinesOf(named, out, pos)
    ensures NoConstTests(out)
  {
    forall i | 0 <= i < |out| ensures !TestsConst(out[i]) {
      if Control(out[i].code) {
        var b := LineIs(named, out, pos, i);
        NoneAtEnd(got, left, global, last, named, subs, n, b);
      }
    }
  }
}
