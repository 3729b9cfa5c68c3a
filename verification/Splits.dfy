// Lines whose block always ends right behind them: the next line tests a temporary, and its two ways stay apart.
module Splits {
  import opened Options
  import opened Opcodes
  import opened Graphs
  import opened Preds
  import opened Ways
  import opened Rewrites
  import opened DeleteMerge
  import opened Marking
  import opened BuildCfg
  import opened JumpRules
  import opened Trails

  // A test of a temporary that has no other result.
  predicate Forked(op: Op) {
    op.op1.Tmp? && (op.code.Jmpz? || op.code.Jmpnz? || op.code.Jmpznz? || SelfTest(op))
  }

  function OtherEnd(op: Op, e: Edges): Ref {
    if op.code.Jmpznz? then e.ext else e.follow
  }

  predicate At(r: Ref, S: set<nat>) {
    r.Some? && r.value in S
  }

  // One end of the test is in S and the other in S'.
  predicate EndsIn(op: Op, e: Edges, S: set<nat>, S': set<nat>) {
    Forked(op) && ((At(e.jmp2, S) && At(OtherEnd(op, e), S')) || (At(e.jmp2, S') && At(OtherEnd(op, e), S)))
  }

  ghost predicate Parting(g: Graph, S: set<nat>, S': set<nat>) {
    S !! S' && WaysIn(g, S) && WaysIn(g, S')
  }

  // The block ends in a test whose ways stay apart.
  ghost predicate Parted(g: Graph, b: nat) {
    Ready(g, b) && exists S: set<nat>, S': set<nat> :: Parting(g, S, S') && EndsIn(Last(g, b), EdgesOf(g.bb[b]), S, S')
  }

  // A block in use that has line k ends at line j, in such a test; unless line k is gone.
  ghost predicate Split(g: Graph, k: nat, j: nat) {
    k < |g.code| && !g.code[k].code.Nop? ==>
      forall b: nat {:trigger Owns(g, b, k)} ::
        b < |g.bb| && g.bb[b].used && Owns(g, b, k) ==> b + g.bb[b].len == j + 1 && Parted(g, b)
  }

  ghost predicate AllSplit(g: Graph, K: set<(nat, nat)>) {
    forall k: nat, j: nat :: (k, j) in K ==> Split(g, k, j)
  }

  // ----- for the op array -----

  // Line j tests, nothing jumps in between k and it, and its ways stay apart.
  ghost predicate LineSplit(code: seq<Op>, k: nat, j: nat) {
    k < j < |code| && SelfTest(code[j]) && (forall t: nat :: k < t <= j ==> !Leader(code, |code|, t))
    && exists S: set<nat>, S': set<nat> :: LinesPart(code, S, S') && code[j].to2 in S && j + 1 in S'
  }

  ghost predicate LinesPart(code: seq<Op>, S: set<nat>, S': set<nat>) {
    S !! S' && LinesIn(code, S) && LinesIn(code, S')
  }

  // The lines that are so split from what follows, each with its test.
  ghost function SplitLines(code: seq<Op>): set<(nat, nat)> {
    set k: nat, j: nat | k < |code| && j < |code| && LineSplit(code, k, j) :: (k, j)
  }

  lemma LineParts(code: seq<Op>, bb: seq<Block>, bb': seq<Block>, b: nat, k: nat, j: nat)
    requires Built(code, bb) && More(bb, bb') && LineSplit(code, k, j) && b < |bb'| && bb[b].start.Some?
    requires bb'[b].len > 0 && b + bb'[b].len == j + 1
    ensures Parted(Graph(code, bb'), b)
  {
    var S: set<nat>, S': set<nat> :| LinesPart(code, S, S') && code[j].to2 in S && j + 1 in S';
    var g := Graph(code, bb');
    assert Last(g, b) == code[j];
    BuiltEnd(code, bb, b);
    BuiltWays(code, bb, bb', S);
    BuiltWays(code, bb, bb', S');
    assert Parting(g, S, S');
    assert EndsIn(Last(g, b), EdgesOf(g.bb[b]), S, S');
  }

  // A block goes on to where the next one starts, and stops behind a jump.
  lemma RunsOn(code: seq<Op>, bb: seq<Block>, b: nat, k: nat, j: nat)
    requires Built(code, bb) && b < |bb| && bb[b].start.Some? && Owns(Graph(code, bb), b, k) && k < j < |code|
    requires Control(code[j].code)
    requires forall t: nat :: k < t <= j ==> !Started(bb, t)
    ensures b + bb[b].len == j + 1
  {
    BuiltFacts(code, bb, b);
    assert StartsFor(bb, code[j], j);
    assert Started(bb, j + 1);
    if bb[b].next.Some? { assert Started(bb, b + bb[b].len); }
  }

  lemma LineSplits(code: seq<Op>, bb: seq<Block>, bb': seq<Block>, k: nat, j: nat)
    requires Built(code, bb) && OnlyLeaders(code, bb, |code|) && More(bb, bb') && LineSplit(code, k, j)
    requires forall b: nat :: b < |bb'| && bb'[b].used ==> bb[b].start.Some?
    ensures Split(Graph(code, bb'), k, j)
  {
    var g := Graph(code, bb');
    forall b: nat {:trigger Owns(g, b, k)} | b < |g.bb| && g.bb[b].used && Owns(g, b, k)
      ensures b + g.bb[b].len == j + 1 && Parted(g, b)
    {
      assert Owns(Graph(code, bb), b, k);
      forall t: nat | k < t <= j ensures !Started(bb, t) { assert !Leader(code, |code|, t); }
      RunsOn(code, bb, b, k, j);
      BuiltFacts(code, bb, b);
      LineParts(code, bb, bb', b, k, j);
    }
  }

  // ----- every rule keeps both ways -----

  lemma WayOver(g: Graph, S: set<nat>, t: nat, u: nat)
    requires WaysIn(g, S) && t < |g.bb| && g.bb[t].used && t in S && OneJump(g, t) && HasEdge(g.bb[t], u)
    ensures u in S
  {
  }

  // What a block in use that p leads to, and that is one jump, leads to.
  lemma OverIn(g: Graph, p: nat, t: nat, r: Ref, S: set<nat>, T: nat, bools: set<nat>)
    requires Inv(g, T, bools) && WaysIn(g, S) && p < |g.bb| && g.bb[p].used && HasEdge(g.bb[p], t) && t in S
    requires g.bb[t].len == 1 && Control(First(g, t).code) && r.Some? && HasEdge(g.bb[t], r.value)
    ensures At(r, S)
  {
    PointsTo(g, p, t, T, bools);
    WayOver(g, S, t, r.value);
  }

  ghost predicate Stands(g: Graph, p: nat, S: set<nat>, S': set<nat>, T: nat, bools: set<nat>) {
    Inv(g, T, bools) && Ready(g, p) && g.bb[p].used && Parting(g, S, S') && EndsIn(Last(g, p), EdgesOf(g.bb[p]), S, S')
  }

  lemma JumpOver(g: Graph, p: nat, r: Ref, S: set<nat>, T: nat, bools: set<nat>)
    requires Inv(g, T, bools) && WaysIn(g, S) && p < |g.bb| && g.bb[p].used && IsJump(g, r) && HasEdge(g.bb[p], r.value)
    requires At(r, S)
    ensures At(g.bb[r.value].jmp1, S)
  {
    PointsTo(g, p, r.value, T, bools);
    JumpTarget(g, r.value);
    OverIn(g, p, r.value, g.bb[r.value].jmp1, S, T, bools);
  }

  lemma TestOver(g: Graph, p: nat, t: nat, v: bool, S: set<nat>, T: nat, bools: set<nat>)
    requires Inv(g, T, bools) && WaysIn(g, S) && p < |g.bb| && g.bb[p].used && HasEdge(g.bb[p], t) && t in S
    requires var c := First(g, t).code; c.Jmpz? || c.Jmpnz? || c.Jmpznz? || Ex(c)
    ensures t < |g.bb| && At(if v then OnTrue(g.bb[t], First(g, t).code) else OnFalse(g.bb[t], First(g, t).code), S)
  {
    PointsTo(g, p, t, T, bools);
    JumpIsWhole(g, t);
    TestTarget(g, t, v);
    OverIn(g, p, t, if v then OnTrue(g.bb[t], First(g, t).code) else OnFalse(g.bb[t], First(g, t).code), S, T, bools);
  }

  lemma ZnzThreadEnds(g: Graph, p: nat, ed: Edit, S: set<nat>, S': set<nat>, T: nat, bools: set<nat>)
    requires Stands(g, p, S, S', T, bools) && Last(g, p).code.Jmpznz? && g.bb[p].jmp2.Some? && g.bb[p].ext.Some?
    requires ZnzThread(g, p) == Some(ed)
    ensures !ed.shrink && EndsIn(ed.op, ed.e, S, S')
  {
    var t := ed.drop.value;
    TestOver(g, p, t, t != g.bb[p].jmp2.value, if t in S then S else S', T, bools);
  }

  lemma ZnzEnds(g: Graph, p: nat, ed: Edit, S: set<nat>, S': set<nat>, T: nat, bools: set<nat>)
    requires Stands(g, p, S, S', T, bools) && Last(g, p).code.Jmpznz? && ZnzRule(g, p) == Some(ed)
    ensures !ed.shrink && EndsIn(ed.op, ed.e, S, S')
  {
    var blk := g.bb[p];
    assert blk.jmp2 != blk.ext && !Last(g, p).op1.Const?;
    if blk.ext != blk.next && blk.jmp2 != blk.next { ZnzThreadEnds(g, p, ed, S, S', T, bools); }
  }

  lemma TestThreadEnds(g: Graph, p: nat, x: Operand, taken: bool, ed: Edit, S: set<nat>, S': set<nat>, T: nat,
                       bools: set<nat>)
    requires Stands(g, p, S, S', T, bools) && !Last(g, p).code.Jmpznz? && Single(g, g.bb[p].jmp2)
    requires TestThread(g, p, x, taken) == Some(ed)
    ensures !ed.shrink && EndsIn(ed.op, ed.e, S, S')
  {
    var t := g.bb[p].jmp2.value;
    TestOver(g, p, t, taken, if t in S then S else S', T, bools);
  }

  lemma TestEnds(g: Graph, p: nat, taken: bool, ed: Edit, S: set<nat>, S': set<nat>, T: nat, bools: set<nat>)
    requires Stands(g, p, S, S', T, bools) && TestRule(g, p, taken) == Some(ed)
    requires if taken then Last(g, p).code.Jmpnz? else Last(g, p).code.Jmpz?
    ensures !ed.shrink && EndsIn(ed.op, ed.e, S, S')
  {
    var r := g.bb[p].follow;
    if IsJump(g, r) {
      JumpOver(g, p, r, if r.value in S then S else S', T, bools);
    } else {
      TestThreadEnds(g, p, Last(g, p).op1, taken, ed, S, S', T, bools);
    }
  }

  lemma ExEnds(g: Graph, p: nat, taken: bool, ed: Edit, S: set<nat>, S': set<nat>, T: nat, bools: set<nat>)
    requires Stands(g, p, S, S', T, bools) && Ex(Last(g, p).code) && ExRule(g, p, taken) == Some(ed)
    ensures !ed.shrink && EndsIn(ed.op, ed.e, S, S')
  {
    TestThreadEnds(g, p, Last(g, p).res, taken, ed, S, S', T, bools);
  }

  lemma FollowEnds(g: Graph, p: nat, ed: Edit, S: set<nat>, S': set<nat>, T: nat, bools: set<nat>)
    requires Stands(g, p, S, S', T, bools)
    requires ThreadJmp2(g, p, Other(g, p)) == Some(ed) || (Last(g, p).code.Jmpznz? && ThreadExt(g, p) == Some(ed))
    ensures !ed.shrink && EndsIn(ed.op, ed.e, S, S')
  {
    if ThreadJmp2(g, p, Other(g, p)) == Some(ed) {
      var r := g.bb[p].jmp2;
      JumpOver(g, p, r, if r.value in S then S else S', T, bools);
    } else {
      var r := g.bb[p].ext;
      JumpOver(g, p, r, if r.value in S then S else S', T, bools);
    }
  }

  lemma ChosenEnds(g: Graph, p: nat, ed: Edit, S: set<nat>, S': set<nat>, T: nat, bools: set<nat>)
    requires Stands(g, p, S, S', T, bools) && Chosen(g, p, ed)
    ensures !ed.shrink && EndsIn(ed.op, ed.e, S, S')
  {
    var c := Last(g, p).code;
    if Pick(g, p) == Some(ed) {
      if c.Jmpznz? { ZnzEnds(g, p, ed, S, S', T, bools); }
      else if Ex(c) { ExEnds(g, p, c.JmpnzEx?, ed, S, S', T, bools); }
      else { TestEnds(g, p, c.Jmpnz?, ed, S, S', T, bools); }
    } else {
      FollowEnds(g, p, ed, S, S', T, bools);
    }
  }

  // ----- every change of the graph keeps splits -----

  // Blocks that keep their lines and pointers, and a test at the end if they have one.
  lemma SameParted(g: Graph, g': Graph, b: nat, c: nat)
    requires AllOnward(g, g') && Closed(g.bb) && Parted(g, c) && b < |g'.bb| && Ready(g', b)
    requires EdgesOf(g'.bb[b]) == EdgesOf(g.bb[c])
    requires Forked(Last(g, c)) ==> Forked(Last(g', b)) && (Last(g', b).code.Jmpznz? <==> Last(g, c).code.Jmpznz?)
    ensures Parted(g', b)
  {
    var S: set<nat>, S': set<nat> :| Parting(g, S, S') && EndsIn(Last(g, c), EdgesOf(g.bb[c]), S, S');
    WaysStayIn(g, g', S);
    WaysStayIn(g, g', S');
    assert Parting(g', S, S') && EndsIn(Last(g', b), EdgesOf(g'.bb[b]), S, S');
  }

  lemma RuleParted(g: Graph, g': Graph, p: nat, ed: Edit, T: nat, bools: set<nat>)
    requires Inv(g, T, bools) && Ready(g, p) && g.bb[p].used && Chosen(g, p, ed) && Parted(g, p)
    requires AllOnward(g, g') && Rewritten(g, g', p, ed.op, ed.shrink, ed.e)
    ensures !ed.shrink && Parted(g', p)
  {
    var S: set<nat>, S': set<nat> :| Parting(g, S, S') && EndsIn(Last(g, p), EdgesOf(g.bb[p]), S, S');
    ChosenEnds(g, p, ed, S, S', T, bools);
    InvClosed(g, T, bools);
    WaysStayIn(g, g', S);
    WaysStayIn(g, g', S');
    assert Parting(g', S, S') && EndsIn(Last(g', p), EdgesOf(g'.bb[p]), S, S');
  }

  // The other blocks are as they were.
  lemma RuleOther(g: Graph, g': Graph, p: nat, ed: Edit, T: nat, bools: set<nat>, b: nat)
    requires Inv(g, T, bools) && Ready(g, p) && AllOnward(g, g') && Rewritten(g, g', p, ed.op, ed.shrink, ed.e)
    requires b < |g.bb| && b != p && Parted(g, b)
    ensures g'.bb[b].len == g.bb[b].len && Parted(g', b)
  {
    assert BlockInRange(g, b) && BlockInRange(g, p);
    if b < p { assert b + g.bb[b].len <= p; } else { assert p + g.bb[p].len <= b; }
    assert EdgesOf(g'.bb[b]) == EdgesOf(g.bb[b]) && Last(g', b) == Last(g, b);
    InvClosed(g, T, bools);
    SameParted(g, g', b, b);
  }

  // A rule changes no NOP.
  lemma RuleLine(g: Graph, p: nat, ed: Edit, k: nat)
    requires Ready(g, p) && Chosen(g, p, ed) && k < |g.code| && !Edited(g, p, ed).code[k].code.Nop?
    ensures !g.code[k].code.Nop?
  {
    var c := Last(g, p).code;
    assert !c.Nop?;
  }

  lemma RuleSplit(g: Graph, prev: Option<Move>, p: nat, ed: Edit, T: nat, bools: set<nat>, k: nat, j: nat)
    requires Inv(g, T, bools) && Allowed(g, prev, Rule(p, ed)) && Split(g, k, j)
    ensures Split(Edited(g, p, ed), k, j)
  {
    var g' := Edited(g, p, ed);
    RuleOnward(g, prev, p, ed, T, bools);
    if k < |g'.code| && !g'.code[k].code.Nop? {
      RuleLine(g, p, ed, k);
      forall b: nat {:trigger Owns(g', b, k)} | b < |g'.bb| && g'.bb[b].used && Owns(g', b, k)
        ensures b + g'.bb[b].len == j + 1 && Parted(g', b)
      {
        assert Owns(g, b, k);
        if b == p { RuleParted(g, g', p, ed, T, bools); } else { RuleOther(g, g', p, ed, T, bools, b); }
      }
    }
  }

  lemma UnlinkSplit(g: Graph, p: nat, q: nat, T: nat, bools: set<nat>, k: nat, j: nat)
    requires Inv(g, T, bools) && CanDelete(g, p, q) && Split(g, k, j)
    ensures Split(DeleteNext(g, p, q), k, j)
  {
    var g' := DeleteNext(g, p, q);
    DeleteBlocks(g, p, q);
    DeletedOnward(g, g', p, q);
    InvClosed(g, T, bools);
    if k < |g'.code| && !g'.code[k].code.Nop? {
      forall b: nat {:trigger Owns(g', b, k)} | b < |g'.bb| && g'.bb[b].used && Owns(g', b, k)
        ensures b + g'.bb[b].len == j + 1 && Parted(g', b)
      {
        UnlinkedSplit(g, g', p, q, b, k, j);
      }
    }
  }

  lemma UnlinkedSplit(g: Graph, g': Graph, p: nat, q: nat, b: nat, k: nat, j: nat)
    requires InRange(g) && Disjoint(g) && Deleted(g, g', p, q) && Split(g, k, j) && AllOnward(g, g') && Closed(g.bb)
    requires k < |g.code| && !g'.code[k].code.Nop?
    requires b < |g'.bb| && g'.bb[b].used && Owns(g', b, k)
    ensures b + g'.bb[b].len == j + 1 && Parted(g', b)
  {
    assert BlockInRange(g, b) && b != q && EdgesOf(g'.bb[b]) == EdgesOf(g.bb[b]) && g'.bb[b].len == g.bb[b].len;
    assert Owns(g, b, k) && !g.code[k].code.Nop?;
    DeletedCode(g, g', p, q, b);
    assert Last(g', b) == Last(g, b);
    SameParted(g, g', b, b);
  }

  // A block that is merged into ends in no such test.
  lemma NotParted(g: Graph, x: nat, p: nat)
    requires CanMerge(g, x, p)
    ensures !Parted(g, x)
  {
  }

  lemma JoinSplit(g: Graph, x: nat, p: nat, T: nat, bools: set<nat>, k: nat, j: nat)
    requires Inv(g, T, bools) && CanMerge(g, x, p) && Split(g, k, j)
    ensures Split(Merge(g, x, p), k, j)
  {
    var g' := Merge(g, x, p);
    MergeBlocks(g, x, p);
    MergedOnward(g, g', x, p);
    InvClosed(g, T, bools);
    if k < |g.code| && !g.code[k].code.Nop? {
      forall b: nat {:trigger Owns(g', b, k)} | b < |g'.bb| && g'.bb[b].used && Owns(g', b, k)
        ensures b + g'.bb[b].len == j + 1 && Parted(g', b)
      {
        if b == x {
          JoinedLine(g, g', x, p, T, bools, k);
          JoinedSplit(g, g', x, p, k, j);
        } else {
          UnjoinedSplit(g, g', x, p, b, k, j);
        }
      }
    }
  }

  lemma JoinedLine(g: Graph, g': Graph, x: nat, p: nat, T: nat, bools: set<nat>, k: nat)
    requires Inv(g, T, bools) && Merged(g, g', x, p) && CanMerge(g, x, p) && Owns(g', x, k) && k < |g.code|
    requires !g.code[k].code.Nop?
    ensures Owns(g, x, k) || Owns(g, p, k)
  {
    if x + g.bb[x].len <= k < p { GapIsNop(g, x, p, k); }
  }

  lemma UnjoinedSplit(g: Graph, g': Graph, x: nat, p: nat, b: nat, k: nat, j: nat)
    requires Merged(g, g', x, p) && Split(g, k, j) && AllOnward(g, g') && Closed(g.bb) && k < |g.code|
    requires !g.code[k].code.Nop?
    requires b < |g'.bb| && b != x && g'.bb[b].used && Owns(g', b, k)
    ensures b + g'.bb[b].len == j + 1 && Parted(g', b)
  {
    assert b != p && EdgesOf(g'.bb[b]) == EdgesOf(g.bb[b]) && g'.bb[b].len == g.bb[b].len;
    assert Owns(g, b, k);
    SameParted(g, g', b, b);
  }

  lemma JoinedSplit(g: Graph, g': Graph, x: nat, p: nat, k: nat, j: nat)
    requires Merged(g, g', x, p) && CanMerge(g, x, p) && Split(g, k, j) && AllOnward(g, g') && Closed(g.bb)
    requires k < |g.code| && !g.code[k].code.Nop?
    requires Owns(g, x, k) || Owns(g, p, k)
    ensures x + g'.bb[x].len == j + 1 && Parted(g', x)
  {
    NotParted(g, x, p);
    assert EdgesOf(g'.bb[x]) == EdgesOf(g.bb[p]) && g'.bb[x].len == p + g.bb[p].len - x;
    SameParted(g, g', x, p);
  }

  // Fewer blocks in use, the same everything else.
  lemma FewerSplit(g: Graph, g': Graph, k: nat, j: nat)
    requires Fewer(g.bb, g'.bb) && g'.code == g.code && Closed(g.bb) && Split(g, k, j)
    ensures Split(g', k, j)
  {
    FewerOnward(g, g'.bb);
    if k < |g'.code| && !g'.code[k].code.Nop? {
      forall b: nat {:trigger Owns(g', b, k)} | b < |g'.bb| && g'.bb[b].used && Owns(g', b, k)
        ensures b + g'.bb[b].len == j + 1 && Parted(g', b)
      {
        assert Owns(g, b, k) && EdgesOf(g'.bb[b]) == EdgesOf(g.bb[b]);
        SameParted(g, g', b, b);
      }
    }
  }

  lemma MoveSplit(g: Graph, prev: Option<Move>, m: Move, T: nat, bools: set<nat>, K: set<(nat, nat)>)
    requires Inv(g, T, bools) && Allowed(g, prev, m) && AllSplit(g, K)
    ensures AllSplit(Result(g, prev, m), K)
  {
    forall k: nat, j: nat | (k, j) in K ensures Split(Result(g, prev, m), k, j) {
      match m
      case Rule(p, ed) => RuleSplit(g, prev, p, ed, T, bools, k, j);
      case Unlink(p, q) => UnlinkSplit(g, p, q, T, bools, k, j);
      case Join(x, p) => JoinSplit(g, x, p, T, bools, k, j);
    }
  }
}
