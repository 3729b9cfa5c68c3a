// optimize_jmp: the loops that apply the rules until nothing changes.
//
// The source follows chains of one-JMP blocks without looking for cycles, so it need not terminate (see Settling);
// every loop here takes its steps from a budget, and all claims hold whenever it runs out.
module JmpOptimizer {
  import opened Options
  import opened Opcodes
  import opened Graphs
  import opened Preds
  import opened Rewrites
  import opened DeleteMerge
  import opened JumpRules
  import opened Trails
  import opened Polish
  import opened Settling
  import Runs

  predicate Mergeable(bb: seq<Block>, p: nat) {
    p < |bb| && bb[p].used && |bb[p].pred| == 1 && bb[p].pred[0] < |bb|
    && var x := bb[p].pred[0];
       && bb[x].used && bb[x].follow == Some(p) && bb[x].next == Some(p) && bb[x].jmp1.None? && bb[x].jmp2.None?
       && bb[x].ext.None?
  }

  // Nothing for optimize_jmp to do.
  predicate Settled(g: Graph) {
    |g.bb| > 0 && g.bb[0].used && forall p: nat {:trigger SettledAt(g, p)} :: p < |g.bb| && g.bb[p].used ==>
        SettledAt(g, p)
  }

  predicate SettledAt(g: Graph, p: nat)
    requires p < |g.bb|
  {
    RestsAt(g, p) && (g.bb[p].len > 0 ==> ReturnRule(g, p).None?)
  }

  // All there is to do at p is to copy a RETURN or EXIT.
  predicate RestsAt(g: Graph, p: nat)
    requires p < |g.bb|
  {
    && (g.bb[p].next.Some? ==>
          g.bb[p].next.value < |g.bb| && g.bb[g.bb[p].next.value].used && g.bb[g.bb[p].next.value].pred != [])
    && (g.bb[p].len > 0 ==> Polished(g, p))
    && !Mergeable(g.bb, p)
  }

  ghost predicate RestsUpTo(g: Graph, n: nat) {
    forall p: nat {:trigger RestsAt(g, p)} :: p < |g.bb| && p < n && g.bb[p].used ==> RestsAt(g, p)
  }

  // The step that takes the mark of a `break` off the JMP at the end of p.
  function Unmarking(g: Graph, p: nat): Move
    requires Ready(g, p)
  {
    Rule(p, Edit(Last(g, p), false, None, EdgesOf(g.bb[p]), None))
  }

  // The JMPs of the first n blocks to a RETURN or EXIT are those that have lost their mark among the steps ms.
  ghost predicate OnlyUnmarked(g: Graph, ms: seq<Move>, n: nat) {
    forall p: nat {:trigger ReturnRule(g, p)} ::
      p < n && Ready(g, p) && g.bb[p].used && ReturnRule(g, p).Some? ==>
      Last(g, p).ext == 0 && Unmarking(g, p) in ms
  }

  // Nothing to do but for JMPs that have just lost their mark: taking it off does not make the source go round again.
  ghost predicate Rested(g: Graph, ms: seq<Move>) {
    RestsUpTo(g, |g.bb|) && OnlyUnmarked(g, ms, |g.bb|)
  }

  // Only marks of JMPs are gone.
  ghost predicate SameButMarks(g: Graph, g': Graph) {
    g'.bb == g.bb && |g'.code| == |g.code| && forall i :: 0 <= i < |g.code| ==>
        g'.code[i] == g.code[i] || LostMark(g.code[i], g'.code[i])
  }

  predicate LostMark(op: Op, op': Op) {
    op.code.Jmp? && op' == op.(ext := 0)
  }

  lemma LastMark(g: Graph, g': Graph, p: nat)
    requires SameButMarks(g, g') && Ready(g, p)
    ensures Ready(g', p) && (Last(g', p) == Last(g, p) || LostMark(Last(g, p), Last(g', p)))
  {
  }

  lemma FirstMark(g: Graph, g': Graph, t: nat)
    requires SameButMarks(g, g')
    ensures First(g', t) == First(g, t) || LostMark(First(g, t), First(g', t))
  {
  }

  lemma PolishedMarks(g: Graph, g': Graph, p: nat)
    requires SameButMarks(g, g') && Polished(g, p)
    ensures Polished(g', p)
  {
    LastMark(g, g', p);
    forall r: Ref ensures LoneJmp(g', r) <==> LoneJmp(g, r) {
    }
    forall r: Ref, x: Operand
      ensures LoneTest(g', r, x) == LoneTest(g, r, x) && LoneKeep(g', r, x) == LoneKeep(g, r, x)
    {
    }
  }

  lemma RestsMarks(g: Graph, g': Graph, n: nat)
    requires SameButMarks(g, g') && RestsUpTo(g, n)
    ensures RestsUpTo(g', n)
  {
    forall p: nat {:trigger RestsAt(g', p)} | p < |g'.bb| && p < n && g'.bb[p].used ensures RestsAt(g', p) {
      assert RestsAt(g, p);
      if g.bb[p].len > 0 { PolishedMarks(g, g', p); }
    }
  }

  // ----- the same on code and pointers -----

  lemma RestsExactly(g: Graph, p: nat, T: nat, bools: set<nat>)
    requires Inv(g, T, bools) && p < |g.bb| && g.bb[p].used
    ensures RestsAt(g, p) <==> RestsHere(g, p)
  {
    assert Mergeable(g.bb, p) ==> g.bb[p].pred == [g.bb[p].pred[0]];
  }

  // The JMPs to a RETURN or EXIT that are left have no mark, and have lost it among the steps ms.
  ghost predicate JustUnmarked(g: Graph, ms: seq<Move>) {
    forall p: nat {:trigger JumpsToReturn(g, p)} :: p < |g.bb| && g.bb[p].used && JumpsToReturn(g, p) ==>
      var op := g.code[p + g.bb[p].len - 1];
      op.ext == 0 && Rule(p, Edit(op, false, None, EdgesOf(g.bb[p]), None)) in ms
  }

  ghost predicate NoneToReturn(g: Graph) {
    forall p: nat {:trigger JumpsToReturn(g, p)} :: p < |g.bb| && g.bb[p].used ==> !JumpsToReturn(g, p)
  }

  lemma RestedIs(g: Graph, ms: seq<Move>, T: nat, bools: set<nat>)
    requires Inv(g, T, bools) && Rested(g, ms)
    ensures Rests(g) && JustUnmarked(g, ms)
  {
    forall p: nat {:trigger RestsHere(g, p)} | p < |g.bb| && g.bb[p].used ensures RestsHere(g, p) {
      assert RestsAt(g, p);
      RestsExactly(g, p, T, bools);
    }
    forall p: nat {:trigger JumpsToReturn(g, p)} | p < |g.bb| && g.bb[p].used && JumpsToReturn(g, p)
      ensures Last(g, p).ext == 0 && Unmarking(g, p) in ms
    {
      ReturnApplies(g, p, T, bools);
    }
  }

  lemma SettledIs(g: Graph, T: nat, bools: set<nat>)
    requires Inv(g, T, bools) && Rests(g) && NoneToReturn(g)
    ensures Settled(g)
  {
    forall p: nat {:trigger SettledAt(g, p)} | p < |g.bb| && g.bb[p].used ensures SettledAt(g, p) {
      assert RestsHere(g, p) && !JumpsToReturn(g, p);
      RestsExactly(g, p, T, bools);
      assert BlockInRange(g, p);
      if g.bb[p].len > 0 { ReturnApplies(g, p, T, bools); }
    }
  }

  predicate Marked(op: Op) {
    op.code.Jmp? && (op.ext == ZEND_BRK || op.ext == ZEND_CONT)
  }

  function Unmark(g: Graph, p: nat): Edit
    requires Ready(g, p)
  {
    Edit(Last(g, p).(ext := 0), false, None, EdgesOf(g.bb[p]), None)
  }

  lemma UnmarkIs(g: Graph, p: nat)
    requires Ready(g, p) && Last(g, p).code.Jmp?
    ensures var g' := Edited(g, p, Unmark(g, p));
            && g' == Graph(g.code[p + g.bb[p].len - 1 := Last(g, p).(ext := 0)], g.bb) && SameButMarks(g, g')
            && Unmarking(g', p) == Rule(p, Unmark(g, p))
  {
    var bb := g.bb[p := g.bb[p].(len := g.bb[p].len)];
    assert bb == g.bb && bb[p := WithEdges(bb[p], EdgesOf(g.bb[p]))] == g.bb;
  }

  // Taking a mark off leaves the JMP to RETURN or EXIT for another round, and asks for none.
  lemma MarkLeft(g: Graph, p: nat)
    requires Ready(g, p) && ReturnRule(g, p).Some? && Marked(Last(g, p))
    ensures ReturnRule(g, p) == Some(Unmark(g, p)) && ReturnRule(Edited(g, p, Unmark(g, p)), p).Some?
    ensures p < |g.bb| && g.bb[p].used ==> !Settled(Edited(g, p, Unmark(g, p)))
  {
    UnmarkIs(g, p);
    var g' := Edited(g, p, Unmark(g, p));
    FirstMark(g, g', g.bb[p].jmp1.value);
    if g.bb[p].used && Settled(g') { assert SettledAt(g', p); }
  }

  lemma UnmarkedBefore(g: Graph, p: nat, ms: seq<Move>, b: nat, T: nat, bools: set<nat>)
    requires Inv(g, T, bools) && Ready(g, p) && Last(g, p).code.Jmp? && OnlyUnmarked(g, ms, p) && b < p
    requires var g' := Edited(g, p, Unmark(g, p)); Ready(g', b) && g'.bb[b].used && ReturnRule(g', b).Some?
    ensures var g' := Edited(g, p, Unmark(g, p)); Last(g', b).ext == 0 && Unmarking(g', b) in ms
  {
    UnmarkIs(g, p);
    var g' := Edited(g, p, Unmark(g, p));
    assert b + g.bb[b].len <= p;
    FirstMark(g, g', g.bb[b].jmp1.value);
    assert Last(g', b) == Last(g, b) && ReturnRule(g, b).Some?;
  }

  // One more block, with its mark taken off.
  lemma UnmarkedUpTo(g: Graph, p: nat, ms: seq<Move>, T: nat, bools: set<nat>)
    requires Inv(g, T, bools) && Ready(g, p) && Last(g, p).code.Jmp? && OnlyUnmarked(g, ms, p)
    ensures OnlyUnmarked(Edited(g, p, Unmark(g, p)), ms + [Rule(p, Unmark(g, p))], p + 1)
  {
    UnmarkIs(g, p);
    var g' := Edited(g, p, Unmark(g, p));
    forall b: nat {:trigger ReturnRule(g', b)} | b < p + 1 && Ready(g', b) && g'.bb[b].used && ReturnRule(g', b).Some?
      ensures Last(g', b).ext == 0 && Unmarking(g', b) in ms + [Rule(p, Unmark(g, p))]
    {
      if b < p { UnmarkedBefore(g, p, ms, b, T, bools); }
    }
  }

  lemma Unmarked(g: Graph, p: nat, ms: seq<Move>, ed: Edit, T: nat, bools: set<nat>)
    requires Inv(g, T, bools) && Ready(g, p) && ReturnRule(g, p) == Some(ed) && ed.op.code.Jmp?
    ensures SameButMarks(g, Edited(g, p, ed))
    ensures OnlyUnmarked(g, ms, p) ==> OnlyUnmarked(Edited(g, p, ed), ms + [Rule(p, ed)], p + 1)
  {
    assert ed == Unmark(g, p);
    UnmarkIs(g, p);
    if OnlyUnmarked(g, ms, p) { UnmarkedUpTo(g, p, ms, T, bools); }
  }

  // The block after p on the list, if there is one.
  predicate OnList(bb: seq<Block>, p: nat, next: Ref) {
    p < |bb| && bb[p].next == next && (next.Some? ==> p < next.value < |bb| && bb[next.value].start.Some?)
  }

  function Beyond(bb: seq<Block>, next: Ref): nat {
    if next.Some? then next.value else |bb|
  }

  lemma SameButMarksTransitive(g: Graph, g1: Graph, g2: Graph)
    requires SameButMarks(g, g1) && SameButMarks(g1, g2)
    ensures SameButMarks(g, g2)
  {
  }

  // Blocks that `next` skips are not in use.
  lemma UpToNext(g: Graph, p: nat, T: nat, bools: set<nat>)
    requires Inv(g, T, bools) && p < |g.bb| && g.bb[p].start.Some?
    ensures forall c: nat ::
              p < c < (if g.bb[p].next.Some? then g.bb[p].next.value else |g.bb|) && c < |g.bb| ==> !g.bb[c].used
  {
    forall c: nat | p < c < (if g.bb[p].next.Some? then g.bb[p].next.value else |g.bb|) && c < |g.bb|
      ensures !g.bb[c].used
    {
      assert Skipped(g.bb[p], c);
    }
  }

  ghost predicate OnlyEntry(bb: seq<Block>) {
    forall b: nat :: 0 < b < |bb| ==> !bb[b].used
  }

  lemma OnlyEntryAlive(g: Graph, g': Graph)
    requires SameAlive(g, g') && OnlyEntry(g.bb)
    ensures OnlyEntry(g'.bb)
  {
    forall b: nat | 0 < b < |g'.bb| ensures !g'.bb[b].used {
      assert AliveAt(g, g', b);
    }
  }

  lemma NextInRange(g: Graph, b: nat, T: nat, bools: set<nat>)
    requires Inv(g, T, bools) && b < |g.bb| && g.bb[b].start.Some?
    ensures g.bb[b].next.Some? ==> b < g.bb[b].next.value < |g.bb| && g.bb[g.bb[b].next.value].start.Some?
  {
    assert BlockInRange(g, b);
  }

  // ----- runs -----

  // A graph, and the steps taken so far.
  type Stage = (Graph, seq<Move>)

  // From s on some steps were taken, which lead to s'.
  ghost predicate Went(s: Stage, s': Stage) {
    |s.1| <= |s'.1| && s'.1[..|s.1|] == s.1 && Trail(s.0, Runs.Newest(None, s.1), s'.1[|s.1|..], s'.0)
  }

  lemma Slices(a: seq<Move>, b: seq<Move>, c: seq<Move>)
    requires |a| <= |b| <= |c| && b[..|a|] == a && c[..|b|] == b
    ensures c[..|a|] == a && c[|a|..] == b[|a|..] + c[|b|..]
    ensures Runs.Newest(Runs.Newest(None, a), b[|a|..]) == Runs.Newest(None, b)
  {
    assert c[..|a|] == c[..|b|][..|a|];
    assert b[|a|..] == c[..|b|][|a|..];
  }

  lemma WentOn(s: Stage, s1: Stage, s2: Stage)
    requires Went(s, s1) && Went(s1, s2)
    ensures Went(s, s2)
  {
    var prev, ms, ms' := Runs.Newest(None, s.1), s1.1[|s.1|..], s2.1[|s1.1|..];
    Slices(s.1, s1.1, s2.1);
    Runs.Join(Forward, s.0, prev, ms, s1.0, ms', s2.0);
  }

  // One more step.
  lemma WentOne(s: Stage, m: Move, g': Graph)
    requires Allowed(s.0, Runs.Newest(None, s.1), m) && g' == Result(s.0, Runs.Newest(None, s.1), m)
    ensures Went(s, (g', s.1 + [m]))
  {
    assert (s.1 + [m])[..|s.1|] == s.1 && (s.1 + [m])[|s.1|..] == [m];
    Runs.One(Forward, s.0, Runs.Newest(None, s.1), m);
  }

  // Steps of optimize_jmp lead from s to s', and keep the invariant and the behaviour.
  ghost predicate Kept(s: Stage, s': Stage, T: nat, bools: set<nat>) {
    Inv(s'.0, T, bools) && SameBehaviour(s.0, s'.0, T, bools) && Went(s, s')
  }

  lemma KeptReflexive(s: Stage, T: nat, bools: set<nat>)
    requires Inv(s.0, T, bools)
    ensures Kept(s, s, T, bools)
  {
    SameBehaviourReflexive(s.0, T, bools);
    assert s.1[..|s.1|] == s.1 && s.1[|s.1|..] == [];
  }

  lemma KeptTransitive(s: Stage, s1: Stage, s2: Stage, T: nat, bools: set<nat>)
    requires Kept(s, s1, T, bools) && Kept(s1, s2, T, bools)
    ensures Kept(s, s2, T, bools)
  {
    SameBehaviourTransitive(s.0, s1.0, s2.0, T, bools);
    WentOn(s, s1, s2);
  }

  // A block that ends in a test does not lead into itself as a lone JMP.
  lemma NotItself(g: Graph, p: nat, r: Ref)
    requires InRange(g) && Ready(g, p) && !Last(g, p).code.Jmp? && IsJump(g, r)
    ensures r != Some(p)
  {
    assert BlockInRange(g, p);
  }

  // After a rule the switch goes on with the new instruction, if it is a jump.
  lemma GoesOn(g: Graph, p: nat, ed: Edit, T: nat, bools: set<nat>)
    requires Inv(g, T, bools) && Ready(g, p) && Pick(g, p) == Some(ed)
    requires (g.bb[p].used || Last(g, p).code.Jmp? || Stuck(g, p))
    ensures var g' := Edited(g, p, ed);
            p < |g'.bb| && (Control(ed.op.code) && !g'.bb[p].used ==> ed.op.code.Jmp? || Stuck(g', p))
  {
    if g.bb[p].used {
      AfterRemoval(g, p, ed, T, bools);
    } else if !Last(g, p).code.Jmp? {
      StuckStays(g, p);
    }
  }

  // What a run of so many steps over so many blocks uses up at most before it stops by itself: each round looks at
  // every block once, and each but the last takes a step.
  function Spent(steps: nat, blocks: nat): nat {
    steps + (steps + 1) * (blocks + 1)
  }

  // So many rounds over all blocks.
  function Looks(rounds: nat, blocks: nat): nat {
    if rounds == 0 then 0 else Looks(rounds - 1, blocks) + blocks + 1
  }

  lemma {:induction false} LooksIs(rounds: nat, blocks: nat)
    ensures Looks(rounds, blocks) == rounds * (blocks + 1)
    decreases rounds
  {
    if rounds > 0 {
      LooksIs(rounds - 1, blocks);
      assert (rounds - 1 + 1) * (blocks + 1) == (rounds - 1) * (blocks + 1) + blocks + 1;
    }
  }

  // A run that ends because nothing of the budget is left.
  lemma GoneSpends(s0: Stage, s: Stage, budget: nat, rounds: nat)
    requires Going(s0, s, budget, 0, rounds, false) && s0.1 == []
    ensures budget <= Spent(|s.1|, |s.0.bb|)
  {
    SpentIs(rounds, |s.1|, |s.0.bb|);
  }

  lemma {:induction false} SpentIs(rounds: nat, steps: nat, blocks: nat)
    requires rounds <= steps + 1
    ensures steps + Looks(rounds, blocks) <= Spent(steps, blocks)
    decreases steps + 1 - rounds
  {
    if rounds == steps + 1 {
      LooksIs(rounds, blocks);
    } else {
      SpentIs(rounds + 1, steps, blocks);
    }
  }

  // What a run does to exact predecessor lists.
  lemma TrailLists(g: Graph, ms: seq<Move>, g': Graph, T: nat, bools: set<nat>)
    requires Inv(g, T, bools) && Trail(g, None, ms, g')
    ensures Exact(g.bb) ==> Honest(g'.bb) && (Exact(g'.bb) <==> !LosesOnTheWay(g, None, ms))
  {
    if Exact(g.bb) {
      TrailExactly(g, ms, g', T, bools);
      ExactIs(g.bb);
      TrailKeeps(g, None, ms, g', T, bools);
    }
  }

  // What is left of the budget: every step takes one, and `extra` went into looking.
  ghost predicate Paid(s: Stage, s': Stage, budget: nat, left: nat, changed: bool, extra: nat) {
    left <= budget <= left + (|s'.1| - |s.1|) + extra && if changed then |s'.1| > |s.1| else s' == s
  }

  // One round of the switch.
  lemma PaidOne(s0: Stage, s: Stage, s': Stage, budget: nat, left: nat, left': nat, changed: bool, c: bool, again: bool)
    requires Paid(s0, s, budget, left, changed, 0) && left > 0 && Paid(s, s', left - 1, left', c, 0)
    requires again ==> left' == left - 1 && |s'.1| == |s.1| + 1
    ensures Paid(s0, s', budget, left', changed || c, if again then 0 else 1)
  {
  }

  // So many rounds over all blocks.
  ghost predicate Going(s0: Stage, s: Stage, budget: nat, left: nat, rounds: nat, done: bool) {
    && |s0.1| <= |s.1| && rounds <= |s.1| - |s0.1| + 1 && (!done && left > 0 ==> rounds <= |s.1| - |s0.1|)
    && left + (|s.1| - |s0.1|) + Looks(rounds, |s.0.bb|) >= budget
  }

  lemma GoingOn(s0: Stage, s: Stage, s': Stage, budget: nat, left: nat, left': nat, rounds: nat, c: bool)
    requires Going(s0, s, budget, left, rounds, false) && left > 0 && |s'.0.bb| == |s.0.bb|
    requires |s'.1| >= |s.1| && left' <= left - 1 <= left' + (|s'.1| - |s.1|) + |s.0.bb| && (c ==> |s'.1| > |s.1|)
    ensures Going(s0, s', budget, left', rounds + 1, !c && left' > 0)
  {
  }

  // The budget was used up on some number of rounds.
  ghost predicate RanOut(s0: Stage, s: Stage, budget: nat) {
    exists rounds: nat :: Going(s0, s, budget, 0, rounds, false)
  }

  lemma GoingFirst(s: Stage, budget: nat)
    ensures Going(s, s, budget, budget, 0, false)
  {
  }

  lemma GoneOut(s0: Stage, s: Stage, budget: nat, rounds: nat)
    requires Going(s0, s, budget, 0, rounds, false)
    ensures RanOut(s0, s, budget)
  {
  }

  class Optimizer {
    var code: seq<Op>
    var bb: seq<Block>
    ghost var trail: seq<Move>

    function G(): Graph
      reads this
    {
      Graph(code, bb)
    }

    ghost function S(): Stage
      reads this
    {
      (G(), trail)
    }

    constructor (g: Graph)
      ensures G() == g && trail == []
    {
      code, bb, trail := g.code, g.bb, [];
    }

    // The statements of one rewrite, in the source's order.
    method Perform(p: nat, ed: Edit)
      requires Ready(G(), p)
      modifies this
      ensures trail == old(trail)
      ensures G() == Rewrite(old(G()), p, ed.op, ed.shrink, ed.drop, ed.e, ed.add)
    {
      code := code[p + bb[p].len - 1 := ed.op];
      bb := bb[p := bb[p].(len := bb[p].len - if ed.shrink then 1 else 0)];
      Rewiring(p, ed.drop, ed.e, ed.add);
    }

    method Rewiring(p: nat, drop: Ref, e: Edges, add: Ref)
      requires p < |bb|
      modifies this`bb
      ensures bb == Rewire(old(bb), p, drop, e, add)
    {
      if drop.Some? {
        bb := DelPred(bb, drop.value, p);
        bb := RmIfOrphan(bb, drop.value);
      }
      bb := bb[p := WithEdges(bb[p], e)];
      if add.Some? {
        bb := AddPred(bb, add.value, p);
      }
    }

    method Apply(p: nat, ed: Edit, ghost T: nat, ghost bools: set<nat>)
      requires Inv(G(), T, bools) && Here(p) && Chosen(G(), p, ed)
      modifies this
      ensures G() == Edited(old(G()), p, ed) && trail == old(trail) + [Rule(p, ed)]
      ensures Kept(old(S()), S(), T, bools) && SameList(old(G()), G())
      ensures !ed.shrink ==> Ready(G(), p) && Last(G(), p) == ed.op
      ensures EdgesOf(bb[p]) == ed.e
      ensures Exact(old(bb)) ==> (Exact(bb) <==> ed.add.None? || bb[p].used)
      ensures !bb[p].used <==> !old(bb[p].used) || (ed.drop == Some(p) && p != 0 && old(bb[p].pred) == [p])
    {
      ghost var g, s := G(), S();
      ChosenSound(g, Runs.Newest(None, trail), p, ed, T, bools);
      EditKeeps(g, p, ed, T, bools);
      EditUses(g, p, ed);
      if Exact(g.bb) { EditExact(g, Edited(g, p, ed), p, ed); }
      Perform(p, ed);
      trail := trail + [Rule(p, ed)];
      WentOne(s, Rule(p, ed), G());
    }

    // The switch may look at p.
    ghost predicate Here(p: nat)
      reads this
    {
      Standing(G(), Runs.Newest(None, trail), p)
    }

    // p ends in a JMP that the switch may look at.
    ghost predicate HereJmp(p: nat)
      reads this
    {
      && Ready(G(), p) && Last(G(), p).code.Jmp?
      && (bb[p].used || (trail != [] && trail[|trail| - 1].Rule? && trail[|trail| - 1].block == p))
    }

    method FollowOne(p: nat, ghost T: nat, ghost bools: set<nat>)
      requires Inv(G(), T, bools) && HereJmp(p) && ThreadJmp1(G(), p).Some?
      modifies this
      ensures Kept(old(S()), S(), T, bools) && HereJmp(p) && SameList(old(G()), G()) && |trail| == |old(trail)| + 1
    {
      Apply(p, ThreadJmp1(G(), p).value, T, bools);
    }

    method FollowJmp1(p: nat, budget: nat, ghost T: nat, ghost bools: set<nat>) returns (left: nat, changed: bool)
      requires Inv(G(), T, bools) && HereJmp(p)
      modifies this
      ensures Kept(old(S()), S(), T, bools) && SameList(old(G()), G())
      ensures left <= budget
      ensures ThreadJmp1(old(G()), p).None? ==> G() == old(G()) && !changed && trail == old(trail)
      ensures !changed ==> S() == old(S())
      ensures !changed && left > 0 ==> ThreadJmp1(G(), p).None?
      ensures left + |trail| >= budget + |old(trail)|
      ensures changed ==> |trail| > |old(trail)|
    {
      left, changed := budget, false;
      KeptReflexive(S(), T, bools);
      while left > 0
        invariant Kept(old(S()), S(), T, bools) && HereJmp(p) && left <= budget && SameList(old(G()), G())
        invariant ThreadJmp1(old(G()), p).None? ==> G() == old(G()) && !changed && trail == old(trail)
        invariant !changed ==> S() == old(S())
        invariant left + |trail| >= budget + |old(trail)|
        invariant changed ==> |trail| > |old(trail)|
        decreases left
      {
        if ThreadJmp1(G(), p).None? { break; }
        ghost var s := S();
        FollowOne(p, T, bools);
        KeptTransitive(old(S()), s, S(), T, bools);
        left, changed := left - 1, true;
      }
    }

    method FollowJmp2(p: nat, budget: nat, ghost T: nat, ghost bools: set<nat>) returns (left: nat, changed: bool)
      requires Inv(G(), T, bools) && Ready(G(), p) && bb[p].used && FollowsJmp2(Last(G(), p).code)
      modifies this
      ensures Kept(old(S()), S(), T, bools) && SameList(old(G()), G())
      ensures left <= budget && Ready(G(), p) && Last(G(), p) == old(Last(G(), p)) && bb[p].used
      ensures ThreadJmp2(old(G()), p, Other(old(G()), p)).None? ==> G() == old(G()) && !changed && trail == old(trail)
      ensures !changed ==> S() == old(S())
      ensures !changed && left > 0 ==> ThreadJmp2(G(), p, Other(G(), p)).None?
      ensures left + |trail| >= budget + |old(trail)|
      ensures changed ==> |trail| > |old(trail)|
    {
      left, changed := budget, false;
      KeptReflexive(S(), T, bools);
      while left > 0
        invariant Kept(old(S()), S(), T, bools) && Ready(G(), p) && Last(G(), p) == old(Last(G(), p)) && bb[p].used
        invariant left <= budget && SameList(old(G()), G())
        invariant ThreadJmp2(old(G()), p, Other(old(G()), p)).None? ==>
                    G() == old(G()) && !changed && trail == old(trail)
        invariant !changed ==> S() == old(S())
        invariant left + |trail| >= budget + |old(trail)|
        invariant changed ==> |trail| > |old(trail)|
        decreases left
      {
        var other := Other(G(), p);
        var r := ThreadJmp2(G(), p, other);
        if r.None? { break; }
        ghost var g, s := G(), S();
        NotItself(g, p, bb[p].jmp2);
        Apply(p, r.value, T, bools);
        KeptTransitive(old(S()), s, S(), T, bools);
        left, changed := left - 1, true;
      }
    }

    method FollowExt(p: nat, budget: nat, ghost T: nat, ghost bools: set<nat>) returns (left: nat, changed: bool)
      requires Inv(G(), T, bools) && Ready(G(), p) && bb[p].used && Last(G(), p).code.Jmpznz?
      modifies this
      ensures Kept(old(S()), S(), T, bools) && SameList(old(G()), G())
      ensures left <= budget
      ensures ThreadExt(old(G()), p).None? ==> G() == old(G()) && !changed && trail == old(trail)
      ensures !changed ==> S() == old(S())
      ensures !changed && left > 0 ==> ThreadExt(G(), p).None?
      ensures left + |trail| >= budget + |old(trail)|
      ensures changed ==> |trail| > |old(trail)|
    {
      left, changed := budget, false;
      KeptReflexive(S(), T, bools);
      while left > 0
        invariant Kept(old(S()), S(), T, bools) && Ready(G(), p) && Last(G(), p).code.Jmpznz? && bb[p].used
        invariant left <= budget && SameList(old(G()), G())
        invariant ThreadExt(old(G()), p).None? ==> G() == old(G()) && !changed && trail == old(trail)
        invariant !changed ==> S() == old(S())
        invariant left + |trail| >= budget + |old(trail)|
        invariant changed ==> |trail| > |old(trail)|
        decreases left
      {
        var r := ThreadExt(G(), p);
        if r.None? { break; }
        ghost var g, s := G(), S();
        NotItself(g, p, bb[p].ext);
        Apply(p, r.value, T, bools);
        KeptTransitive(old(S()), s, S(), T, bools);
        left, changed := left - 1, true;
      }
    }

    // The case of p's last instruction.
    method PickRule(p: nat) returns (r: Option<Edit>)
      requires Ready(G(), p)
      ensures r == Pick(G(), p) && (r.Some? && Control(r.value.op.code) ==> !r.value.shrink)
    {
      var op, g := Last(G(), p), G();
      r := None;
      if op.code.Jmp? {
        r := JmpRule(g, p);
      } else if op.code.Jmpznz? {
        r := ZnzRule(g, p);
      } else if op.code.Jmpz? || op.code.Jmpnz? {
        r := TestRule(g, p, op.code.Jmpnz?);
      } else if Ex(op.code) {
        r := ExRule(g, p, op.code.JmpnzEx?);
      }
    }

    // The switch.  Every `goto` of the source lands on the label of the opcode just written, so going
    // round again is the goto, whether or not the block is still in use.
    method OptimizeTail(p: nat, budget: nat, ghost T: nat, ghost bools: set<nat>) returns (left: nat, changed: bool)
      requires Inv(G(), T, bools) && Ready(G(), p) && bb[p].used
      modifies this
      ensures Kept(old(S()), S(), T, bools) && SameList(old(G()), G())
      ensures Polished(old(G()), p) ==> S() == old(S()) && !changed
      ensures !changed && left > 0 ==> Polished(G(), p)
      ensures Paid(old(S()), S(), budget, left, changed, 1)
    {
      StillExactly(G(), p, T, bools);
      left, changed := Switch(p, budget, T, bools);
    }

    method Switch(p: nat, budget: nat, ghost T: nat, ghost bools: set<nat>) returns (left: nat, changed: bool)
      requires Inv(G(), T, bools) && Ready(G(), p) && bb[p].used
      modifies this
      ensures Kept(old(S()), S(), T, bools) && SameList(old(G()), G())
      ensures Still(old(G()), p) ==> S() == old(S()) && !changed
      ensures !changed && left > 0 ==> Still(G(), p)
      ensures Paid(old(S()), S(), budget, left, changed, 1)
    {
      var again, c := true, false;
      left, changed := budget, false;
      KeptReflexive(S(), T, bools);
      while again && left > 0
        invariant Kept(old(S()), S(), T, bools) && (again ==> Here(p)) && SameList(old(G()), G())
        invariant Still(old(G()), p) ==> S() == old(S()) && !changed
        invariant !changed && !again && left > 0 ==> Still(G(), p)
        invariant Paid(old(S()), S(), budget, left, changed, if again then 0 else 1)
        decreases left
      {
        ghost var s, left0, c0 := S(), left, changed;
        again, left, c := OneRule(p, left - 1, T, bools);
        changed := changed || c;
        KeptTransitive(old(S()), s, S(), T, bools);
        PaidOne(old(S()), s, S(), budget, left0, left, c0, c, again);
      }
    }

    // One `case`: a rule and then the `goto`, or the loops that follow JMPs and the `break`.
    method OneRule(p: nat, budget: nat, ghost T: nat, ghost bools: set<nat>)
      returns (again: bool, left: nat, changed: bool)
      requires Inv(G(), T, bools) && Here(p)
      modifies this
      ensures Kept(old(S()), S(), T, bools) && (again ==> Here(p)) && SameList(old(G()), G())
      ensures Still(old(G()), p) ==> S() == old(S()) && !changed && !again
      ensures !changed && left > 0 ==> Still(G(), p)
      ensures Paid(old(S()), S(), budget, left, changed, 0)
      ensures (again ==> left == budget && |trail| == |old(trail)| + 1 && changed)
    {
      var r := PickRule(p);
      if r.Some? {
        again := UseRule(p, r.value, T, bools);
        left, changed := budget, true;
      } else {
        again := false;
        left, changed := FollowChains(p, budget, T, bools);
      }
    }

    method UseRule(p: nat, ed: Edit, ghost T: nat, ghost bools: set<nat>) returns (again: bool)
      requires Inv(G(), T, bools) && Here(p) && Pick(G(), p) == Some(ed) && (Control(ed.op.code) ==> !ed.shrink)
      modifies this
      ensures Kept(old(S()), S(), T, bools) && (again ==> Here(p)) && SameList(old(G()), G())
      ensures |trail| == |old(trail)| + 1
    {
      ghost var g := G();
      Apply(p, ed, T, bools);
      GoesOn(g, p, ed, T, bools);
      again := Control(ed.op.code);
    }

    // No rule applied: follow JMPs from where the block goes.
    method FollowChains(p: nat, budget: nat, ghost T: nat, ghost bools: set<nat>) returns (left: nat, changed: bool)
      requires Inv(G(), T, bools) && Here(p) && Pick(G(), p).None?
      modifies this
      ensures Kept(old(S()), S(), T, bools) && SameList(old(G()), G())
      ensures left <= budget
      ensures Still(old(G()), p) ==> G() == old(G()) && !changed && trail == old(trail)
      ensures !changed ==> S() == old(S())
      ensures !changed && left > 0 ==> Still(G(), p)
      ensures left + |trail| >= budget + |old(trail)|
      ensures changed ==> |trail| > |old(trail)|
    {
      var op := Last(G(), p);
      if op.code.Jmp? {
        left, changed := FollowJmp1(p, budget, T, bools);
      } else if FollowsJmp2(op.code) {
        left, changed := FollowBoth(p, budget, T, bools);
      } else {
        left, changed := budget, false;
        KeptReflexive(S(), T, bools);
      }
    }

    // JMPs from the second target and, for JMPZNZ, the third.
    method FollowBoth(p: nat, budget: nat, ghost T: nat, ghost bools: set<nat>) returns (left: nat, changed: bool)
      requires Inv(G(), T, bools) && Ready(G(), p) && bb[p].used && FollowsJmp2(Last(G(), p).code)
      modifies this
      ensures Kept(old(S()), S(), T, bools) && SameList(old(G()), G()) && left <= budget
      ensures ThreadJmp2(old(G()), p, Other(old(G()), p)).None?
              && (old(Last(G(), p)).code.Jmpznz? ==> ThreadExt(old(G()), p).None?) ==>
                S() == old(S()) && !changed
      ensures !changed ==> S() == old(S())
      ensures !changed && left > 0 ==>
                ThreadJmp2(G(), p, Other(G(), p)).None? && (Last(G(), p).code.Jmpznz? ==> ThreadExt(G(), p).None?)
      ensures left + |trail| >= budget + |old(trail)|
      ensures changed ==> |trail| > |old(trail)|
    {
      left, changed := FollowJmp2(p, budget, T, bools);
      if Last(G(), p).code.Jmpznz? {
        ghost var s := S();
        var c;
        left, c := FollowExt(p, left, T, bools);
        KeptTransitive(old(S()), s, S(), T, bools);
        changed := changed || c;
      }
    }

    // del_bb and the unlinking of one dead block.
    method DeleteOne(p: nat, q: nat, ghost T: nat, ghost bools: set<nat>)
      requires Inv(G(), T, bools) && CanDelete(G(), p, q)
      modifies this
      ensures Kept(old(S()), S(), T, bools) && SameStarts(old(G()), G())
      ensures bb[p].next == old(bb)[q].next
      ensures SameAlive(old(G()), G())
      ensures |trail| == |old(trail)| + 1
    {
      ghost var g, s := G(), S();
      DeleteKeeps(g, p, q, T, bools);
      var g1 := DelBb(G(), q);
      code, bb := g1.code, g1.bb;
      bb := bb[p := bb[p].(next := bb[q].next)];
      assert G() == DeleteNext(g, p, q);
      trail := trail + [Unlink(p, q)];
      WentOne(s, Unlink(p, q), G());
    }

    // Unlinks the dead blocks right after p.
    method DeleteDeadAfter(p: nat, ghost T: nat, ghost bools: set<nat>) returns (changed: bool)
      requires Inv(G(), T, bools) && p < |bb| && bb[p].start.Some?
      modifies this
      ensures Kept(old(S()), S(), T, bools) && SameStarts(old(G()), G())
      ensures bb[p].next.Some? ==>
                bb[p].next.value < |bb| && bb[bb[p].next.value].used && bb[bb[p].next.value].pred != []
      ensures SameAlive(old(G()), G())
      ensures old(bb[p].used) && Settled(old(G())) ==> G() == old(G()) && !changed && trail == old(trail)
      ensures !changed ==> S() == old(S())
      ensures changed ==> |trail| > |old(trail)|
    {
      changed := false;
      KeptReflexive(S(), T, bools);
      SameAliveReflexive(G());
      NextInRange(G(), p, T, bools);
      ghost var g0, s0 := G(), S();
      if g0.bb[p].used && Settled(g0) { assert SettledAt(g0, p); }
      while bb[p].next.Some? && (!bb[bb[p].next.value].used || bb[bb[p].next.value].pred == [])
        invariant Kept(old(S()), S(), T, bools) && SameStarts(old(G()), G())
        invariant bb[p].next.Some? ==> p < bb[p].next.value < |bb| && bb[bb[p].next.value].start.Some?
        invariant SameAlive(old(G()), G())
        invariant old(bb[p].used) && Settled(old(G())) ==> G() == old(G()) && !changed && trail == old(trail)
        invariant !changed ==> S() == old(S())
        invariant changed ==> |trail| > |old(trail)|
        decreases if bb[p].next.Some? then |bb| - bb[p].next.value else 0
      {
        ghost var g, s := G(), S();
        NextInRange(g, bb[p].next.value, T, bools);
        DeleteOne(p, bb[p].next.value, T, bools);
        KeptTransitive(old(S()), s, S(), T, bools);
        SameAliveTransitive(old(G()), g, G());
        changed := true;
      }
    }

    // Remove Unused Basic Blocks
    method Sweep(ghost T: nat, ghost bools: set<nat>) returns (changed: bool)
      requires Inv(G(), T, bools)
      modifies this
      ensures Kept(old(S()), S(), T, bools) && |bb| == old(|bb|)
      ensures SameAlive(old(G()), G())
      ensures OnlyEntry(old(bb)) ==> bb[0].next.None?
      ensures Settled(old(G())) ==> G() == old(G()) && !changed && trail == old(trail)
      ensures changed ==> |trail| > |old(trail)|
    {
      var p, c := 0, false;
      changed := false;
      KeptReflexive(S(), T, bools);
      SameAliveReflexive(G());
      assert BlockInRange(G(), 0);
      while true
        invariant Kept(old(S()), S(), T, bools) && |bb| == old(|bb|)
        invariant p < |bb| && bb[p].start.Some?
        invariant SameAlive(old(G()), G())
        invariant OnlyEntry(old(bb)) ==> p == 0
        invariant Settled(old(G())) ==> G() == old(G()) && !changed && trail == old(trail) && bb[p].used
        invariant changed ==> |trail| > |old(trail)|
        decreases |bb| - p
      {
        ghost var g, s := G(), S();
        c := DeleteDeadAfter(p, T, bools);
        KeptTransitive(old(S()), s, S(), T, bools);
        SameAliveTransitive(old(G()), g, G());
        changed := changed || c;
        NextInRange(G(), p, T, bools);
        if OnlyEntry(old(bb)) { OnlyEntryAlive(old(G()), G()); }
        if g == old(G()) && g.bb[p].used && Settled(g) { assert SettledAt(g, p); }
        if bb[p].next.None? { break; }
        p := bb[p].next.value;
      }
    }

    // Merging Basic Blocks
    method MergeIntoPred(p: nat, ghost T: nat, ghost bools: set<nat>) returns (changed: bool)
      requires Inv(G(), T, bools) && p < |bb|
      modifies this
      ensures Kept(old(S()), S(), T, bools) && SameList(old(G()), G())
      ensures !Mergeable(old(bb), p) ==> G() == old(G()) && !changed && trail == old(trail)
      ensures !changed ==> S() == old(S()) && !Mergeable(bb, p)
      ensures changed ==> |trail| > |old(trail)|
    {
      changed := false;
      KeptReflexive(S(), T, bools);
      if Mergeable(bb, p) {
        var x := bb[p].pred[0];
        ghost var g, s := G(), S();
        assert BlockInRange(g, x);
        MergeKeeps(g, x, p, T, bools);
        bb := Merge(G(), x, p).bb;
        trail, changed := trail + [Join(x, p)], true;
        WentOne(s, Join(x, p), G());
      }
    }

    // The jump at the end of p, if p is in use and has code.
    method OptimizeEnd(p: nat, budget: nat, ghost T: nat, ghost bools: set<nat>) returns (left: nat, changed: bool)
      requires Inv(G(), T, bools) && p < |bb|
      modifies this
      ensures Kept(old(S()), S(), T, bools) && SameList(old(G()), G()) && left <= budget
      ensures (old(bb[p].used && bb[p].len > 0) ==> Polished(old(G()), p)) ==> S() == old(S()) && !changed
      ensures !changed && left > 0 && bb[p].used && bb[p].len > 0 ==> Polished(G(), p)
      ensures Paid(old(S()), S(), budget, left, changed, 1)
    {
      left, changed := budget, false;
      KeptReflexive(S(), T, bools);
      if bb[p].used && bb[p].len > 0 {
        assert BlockInRange(G(), p);
        left, changed := OptimizeTail(p, budget, T, bools);
      }
    }

    // One block of the walk: the dead blocks behind it, its jump, and merging it into its predecessor.
    method ScanBlock(p: nat, budget: nat, ghost T: nat, ghost bools: set<nat>) returns (left: nat, changed: bool)
      requires Inv(G(), T, bools) && p < |bb| && bb[p].start.Some?
      modifies this
      ensures Kept(old(S()), S(), T, bools) && SameStarts(old(G()), G()) && left <= budget
      ensures old(bb[p].used) && Settled(old(G())) ==> G() == old(G()) && !changed && trail == old(trail)
      ensures !changed ==> S() == old(S())
      ensures !changed && left > 0 && bb[p].used ==> RestsAt(G(), p)
      ensures left + |trail| + 1 >= budget + |old(trail)|
      ensures changed ==> |trail| > |old(trail)|
    {
      ghost var s0 := S();
      if bb[p].used && Settled(G()) { assert SettledAt(G(), p); }
      changed := DeleteDeadAfter(p, T, bools);
      var c;
      ghost var s := S();
      left, c := OptimizeEnd(p, budget, T, bools);
      KeptTransitive(s0, s, S(), T, bools);
      changed := changed || c;
      s := S();
      c := MergeIntoPred(p, T, bools);
      KeptTransitive(s0, s, S(), T, bools);
      changed := changed || c;
    }

    // ScanBlock, and what is next.
    method ScanNext(p: nat, budget: nat, ghost T: nat, ghost bools: set<nat>)
      returns (left: nat, changed: bool, next: Ref)
      requires Inv(G(), T, bools) && p < |bb| && bb[p].start.Some?
      modifies this
      ensures Kept(old(S()), S(), T, bools) && |bb| == old(|bb|) && left <= budget && OnList(bb, p, next)
      ensures old(bb[p].used) && Settled(old(G())) ==>
                S() == old(S()) && !changed && (next.Some? ==> bb[next.value].used)
      ensures !changed ==> S() == old(S())
      ensures !changed && left > 0 && RestsUpTo(G(), p) ==> RestsUpTo(G(), Beyond(bb, next))
      ensures left + |trail| + 1 >= budget + |old(trail)|
      ensures changed ==> |trail| > |old(trail)|
    {
      left, changed := ScanBlock(p, budget, T, bools);
      NextInRange(G(), p, T, bools);
      UpToNext(G(), p, T, bools);
      next := bb[p].next;
      if bb[p].used && Settled(G()) { assert SettledAt(G(), p); }
    }

    // One walk down the list: jumps, then merging.
    method Scan(budget: nat, ghost T: nat, ghost bools: set<nat>) returns (left: nat, changed: bool)
      requires Inv(G(), T, bools)
      modifies this
      ensures Kept(old(S()), S(), T, bools) && |bb| == old(|bb|) && left <= budget
      ensures Settled(old(G())) ==> G() == old(G()) && !changed && trail == old(trail)
      ensures !changed && left > 0 ==> RestsUpTo(G(), |bb|)
      ensures left + |trail| + |bb| >= budget + |old(trail)|
      ensures changed ==> |trail| > |old(trail)|
    {
      var p, c, next := 0, false, None;
      left, changed := budget, false;
      KeptReflexive(S(), T, bools);
      assert BlockInRange(G(), 0);
      while true
        invariant Kept(old(S()), S(), T, bools) && |bb| == old(|bb|) && left <= budget
        invariant p < |bb| && bb[p].start.Some?
        invariant !changed ==> S() == old(S())
        invariant !changed && left > 0 ==> RestsUpTo(G(), p)
        invariant Settled(old(G())) ==> S() == old(S()) && !changed && bb[p].used
        invariant left + |trail| + p >= budget + |old(trail)|
        invariant changed ==> |trail| > |old(trail)|
        decreases |bb| - p
      {
        ghost var s := S();
        left, c, next := ScanNext(p, left, T, bools);
        KeptTransitive(old(S()), s, S(), T, bools);
        changed := changed || c;
        if next.None? { break; }
        p := next.value;
      }
    }

    // JMP to RETURN or EXIT, for one block.
    method InlineReturn(p: nat, ghost T: nat, ghost bools: set<nat>) returns (changed: bool)
      requires Inv(G(), T, bools) && p < |bb|
      modifies this
      ensures Kept(old(S()), S(), T, bools) && SameList(old(G()), G())
      ensures old(bb[p].used) && Settled(old(G())) ==> G() == old(G()) && !changed && trail == old(trail)
      ensures !changed ==> SameButMarks(old(G()), G())
      ensures !changed && OnlyUnmarked(old(G()), old(trail), p) ==> OnlyUnmarked(G(), trail, p + 1)
      ensures changed ==> |trail| > |old(trail)|
    {
      changed := false;
      assert BlockInRange(G(), p);
      if bb[p].used && Settled(G()) { assert SettledAt(G(), p); }
      if bb[p].used && bb[p].len > 0 && ReturnRule(G(), p).Some? {
        changed := CopyReturn(p, ReturnRule(G(), p).value, T, bools);
      } else {
        KeptReflexive(S(), T, bools);
      }
    }

    // The instruction is copied, or loses the mark of a `break`.
    method CopyReturn(p: nat, ed: Edit, ghost T: nat, ghost bools: set<nat>) returns (changed: bool)
      requires Inv(G(), T, bools) && Ready(G(), p) && bb[p].used && ReturnRule(G(), p) == Some(ed)
      modifies this
      ensures Kept(old(S()), S(), T, bools) && SameList(old(G()), G())
      ensures !changed ==> SameButMarks(old(G()), G())
      ensures !changed && OnlyUnmarked(old(G()), old(trail), p) ==> OnlyUnmarked(G(), trail, p + 1)
      ensures changed ==> |trail| > |old(trail)|
    {
      ghost var g, ms := G(), trail;
      changed := !ed.op.code.Jmp?;
      ReturnRuleSound(g, p, T, bools);
      Apply(p, ed, T, bools);
      if !changed { Unmarked(g, p, ms, ed, T, bools); }
    }

    method InlineNext(p: nat, ghost T: nat, ghost bools: set<nat>) returns (changed: bool, next: Ref)
      requires Inv(G(), T, bools) && p < |bb| && bb[p].start.Some?
      modifies this
      ensures Kept(old(S()), S(), T, bools) && |bb| == old(|bb|) && OnList(bb, p, next)
      ensures old(bb[p].used) && Settled(old(G())) ==>
                S() == old(S()) && !changed && (next.Some? ==> bb[next.value].used)
      ensures !changed ==> SameButMarks(old(G()), G())
      ensures !changed && OnlyUnmarked(old(G()), old(trail), p) ==> OnlyUnmarked(G(), trail, Beyond(bb, next))
      ensures changed ==> |trail| > |old(trail)|
    {
      changed := InlineReturn(p, T, bools);
      NextInRange(G(), p, T, bools);
      UpToNext(G(), p, T, bools);
      next := bb[p].next;
      if bb[p].used && Settled(G()) { assert SettledAt(G(), p); }
    }

    // Eliminate JMP to RETURN or EXIT
    method InlineReturns(ghost T: nat, ghost bools: set<nat>) returns (changed: bool)
      requires Inv(G(), T, bools)
      modifies this
      ensures Kept(old(S()), S(), T, bools) && |bb| == old(|bb|)
      ensures Settled(old(G())) ==> G() == old(G()) && !changed && trail == old(trail)
      ensures !changed ==> SameButMarks(old(G()), G()) && OnlyUnmarked(G(), trail, |bb|)
      ensures changed ==> |trail| > |old(trail)|
    {
      var p, c, next := 0, false, None;
      changed := false;
      KeptReflexive(S(), T, bools);
      assert BlockInRange(G(), 0);
      while true
        invariant Kept(old(S()), S(), T, bools) && |bb| == old(|bb|)
        invariant p < |bb| && bb[p].start.Some?
        invariant Settled(old(G())) ==> S() == old(S()) && !changed && bb[p].used
        invariant !changed ==> SameButMarks(old(G()), G()) && OnlyUnmarked(G(), trail, p)
        invariant changed ==> |trail| > |old(trail)|
        decreases |bb| - p
      {
        ghost var g, s := G(), S();
        c, next := InlineNext(p, T, bools);
        KeptTransitive(old(S()), s, S(), T, bools);
        changed := changed || c;
        if !changed { SameButMarksTransitive(old(G()), g, G()); }
        if next.None? { break; }
        p := next.value;
      }
    }

    // optimize_jmp: however long it goes on, it takes the steps of its rules and no others, every one of which keeps
    // the traces; and exact predecessor lists are exact in the end exactly if no step entered a block out of use. A
    // graph to which no rule applies stays as it is; and when it stops by itself nothing is left to do, but for JMPs to
    // a RETURN that have just lost the mark of a `break`.
    method OptimizeJmp(budget: nat, ghost T: nat, ghost bools: set<nat>) returns (done: bool)
      requires Inv(G(), T, bools)
      modifies this
      ensures Inv(G(), T, bools) && SameBehaviour(old(G()), G(), T, bools) && |bb| == old(|bb|)
      ensures Trail(old(G()), None, trail, G())
      ensures Exact(old(bb)) ==> Honest(bb) && (Exact(bb) <==> !LosesOnTheWay(old(G()), None, trail))
      ensures Settled(old(G())) || (Rests(old(G())) && NoneToReturn(old(G()))) ==> G() == old(G())
      ensures done ==> Rests(G()) && JustUnmarked(G(), trail)
      ensures !done ==> budget <= Spent(|trail|, |bb|)
      ensures FewSteps(old(G()), |trail|) && SameRanks(old(G()), G())
    {
      ghost var g := G();
      done := FromStart(budget, T, bools);
      TrailLists(g, trail, G(), T, bools);
      TrailFew(g, trail, G(), T, bools);
      TrailRanks(g, trail, G(), T, bools);
    }

    method FromStart(budget: nat, ghost T: nat, ghost bools: set<nat>) returns (done: bool)
      requires Inv(G(), T, bools)
      modifies this
      ensures Inv(G(), T, bools) && SameBehaviour(old(G()), G(), T, bools) && |bb| == old(|bb|)
      ensures Trail(old(G()), None, trail, G())
      ensures Settled(old(G())) || (Rests(old(G())) && NoneToReturn(old(G()))) ==> G() == old(G())
      ensures done ==> Rests(G()) && JustUnmarked(G(), trail)
      ensures !done ==> budget <= Spent(|trail|, |bb|)
    {
      trail := [];
      ghost var s0 := S();
      if Rests(G()) && NoneToReturn(G()) { SettledIs(G(), T, bools); }
      done := Rounds(budget, T, bools);
      assert trail[..0] == [] && trail[0..] == trail;
      if done {
        RestedIs(G(), trail, T, bools);
      } else {
        ghost var n: nat :| Going(s0, S(), budget, 0, n, false);
        GoneSpends(s0, S(), budget, n);
      }
    }

    method Rounds(budget: nat, ghost T: nat, ghost bools: set<nat>) returns (done: bool)
      requires Inv(G(), T, bools)
      modifies this
      ensures Kept(old(S()), S(), T, bools) && |bb| == old(|bb|)
      ensures Settled(old(G())) ==> G() == old(G())
      ensures done ==> Rested(G(), trail)
      ensures !done ==> RanOut(old(S()), S(), budget)
    {
      var left := budget;
      ghost var rounds := 0;
      done := false;
      KeptReflexive(S(), T, bools);
      GoingFirst(S(), budget);
      while !done && left > 0
        invariant Kept(old(S()), S(), T, bools) && |bb| == old(|bb|)
        invariant Settled(old(G())) ==> G() == old(G())
        invariant done ==> Rested(G(), trail)
        invariant Going(old(S()), S(), budget, left, rounds, done)
        decreases left
      {
        left, done := NextRound(budget, left, old(S()), rounds, T, bools);
        rounds := rounds + 1;
      }
      if !done { GoneOut(old(S()), S(), budget, rounds); }
    }

    // One round more, after so many.
    method NextRound(ghost budget: nat, left: nat, ghost s0: Stage, ghost rounds: nat, ghost T: nat,
                     ghost bools: set<nat>)
      returns (left': nat, done: bool)
      requires Inv(G(), T, bools) && Kept(s0, S(), T, bools) && left > 0 && Going(s0, S(), budget, left, rounds, false)
      modifies this
      ensures Kept(s0, S(), T, bools) && |bb| == old(|bb|) && left' < left
      ensures Settled(old(G())) ==> G() == old(G())
      ensures done ==> Rested(G(), trail)
      ensures Going(s0, S(), budget, left', rounds + 1, done)
    {
      ghost var s := S();
      var c;
      left', c := OneRound(left - 1, T, bools);
      KeptTransitive(s0, s, S(), T, bools);
      GoingOn(s0, s, S(), budget, left, left', rounds, c);
      done := !c && left' > 0;
    }

    // One round of the outer loop.
    method OneRound(budget: nat, ghost T: nat, ghost bools: set<nat>) returns (left: nat, changed: bool)
      requires Inv(G(), T, bools)
      modifies this
      ensures Kept(old(S()), S(), T, bools) && |bb| == old(|bb|) && left <= budget
      ensures Settled(old(G())) ==> G() == old(G()) && !changed
      ensures !changed && left > 0 ==> Rested(G(), trail)
      ensures left + |trail| + |bb| >= budget + |old(trail)|
      ensures changed ==> |trail| > |old(trail)|
    {
      var c;
      changed := Sweep(T, bools);
      ghost var s := S();
      left, c := Scan(budget, T, bools);
      KeptTransitive(old(S()), s, S(), T, bools);
      changed := changed || c;
      if !changed {
        s := S();
        changed := InlineReturns(T, bools);
        KeptTransitive(old(S()), s, S(), T, bools);
        if !changed && left > 0 { RestsMarks(s.0, G(), |bb|); }
      }
    }
  }
}
