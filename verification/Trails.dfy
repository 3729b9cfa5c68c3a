// Runs of steps, each of which may depend on the one before it.
module Runs {
  import opened Options

  ghost predicate Leads<S, M>(next: (S, Option<M>, M) -> Option<S>, s: S, prev: Option<M>, ms: seq<M>, s': S)
    decreases |ms|
  {
    if ms == [] then s' == s
    else next(s, prev, ms[0]).Some? && Leads(next, next(s, prev, ms[0]).value, Some(ms[0]), ms[1..], s')
  }

  function Newest<M>(prev: Option<M>, ms: seq<M>): Option<M> {
    if ms == [] then prev else Some(ms[|ms| - 1])
  }

  lemma {:induction false} Join<S, M>(next: (S, Option<M>, M) -> Option<S>, s: S, prev: Option<M>, ms: seq<M>, s1: S,
                                      ms': seq<M>, s': S)
    requires Leads(next, s, prev, ms, s1) && Leads(next, s1, Newest(prev, ms), ms', s')
    ensures Leads(next, s, prev, ms + ms', s')
    decreases |ms|
  {
    if ms == [] {
      assert ms + ms' == ms';
    } else {
      assert (ms + ms')[1..] == ms[1..] + ms';
      Join(next, next(s, prev, ms[0]).value, Some(ms[0]), ms[1..], s1, ms', s');
    }
  }

  lemma One<S, M>(next: (S, Option<M>, M) -> Option<S>, s: S, prev: Option<M>, m: M)
    requires next(s, prev, m).Some?
    ensures Leads(next, s, prev, [m], next(s, prev, m).value)
  {
    assert [m][1..] == [];
  }
}

// The steps of optimize_jmp one at a time, whole runs of them, and what a run does to the predecessor lists.
module Trails {
  import opened Options
  import opened Opcodes
  import opened Graphs
  import opened Preds
  import opened Rewrites
  import opened Ways
  import opened DeleteMerge
  import opened JumpRules
  import Runs

  // ----- what the switch chooses -----

  // The rule that the case of p's last instruction picks.
  function Pick(g: Graph, p: nat): Option<Edit>
    requires Ready(g, p)
  {
    var op := Last(g, p);
    if op.code.Jmp? then JmpRule(g, p)
    else if op.code.Jmpznz? then ZnzRule(g, p)
    else if op.code.Jmpz? || op.code.Jmpnz? then TestRule(g, p, op.code.Jmpnz?)
    else if Ex(op.code) then ExRule(g, p, op.code.JmpnzEx?)
    else None
  }

  // The other way out of p, which a thread of jmp_2 leaves alone.
  function Other(g: Graph, p: nat): Ref
    requires Ready(g, p)
  {
    if Last(g, p).code.Jmpznz? then g.bb[p].ext else g.bb[p].follow
  }

  // FE_RESET is not among the cases.
  predicate FollowsJmp2(c: Opcode) {
    (TwoWay(c) && !c.FeReset?) || c.Jmpznz?
  }

  // The rewrites of p that the source may carry out.
  predicate Chosen(g: Graph, p: nat, ed: Edit)
    requires Ready(g, p)
  {
    var c := Last(g, p).code;
    || Pick(g, p) == Some(ed)
    || (c.Jmp? && ThreadJmp1(g, p) == Some(ed))
    || (FollowsJmp2(c) && ThreadJmp2(g, p, Other(g, p)) == Some(ed))
    || (c.Jmpznz? && ThreadExt(g, p) == Some(ed))
    || (g.bb[p].used && ReturnRule(g, p) == Some(ed))
  }

  // p has removed itself as its own last predecessor, and the rule that did it applies again and changes nothing.
  predicate Stuck(g: Graph, p: nat) {
    && Ready(g, p) && !g.bb[p].used && p != 0 && HasEdge(g.bb[p], p) && g.bb[p].pred == [p]
    && Pick(g, p) == Some(Edit(Last(g, p), false, Some(p), EdgesOf(g.bb[p]), Some(p)))
  }

  // ----- steps -----

  datatype Move = Rule(block: nat, ed: Edit) | Unlink(before: nat, dead: nat) | Join(into: nat, from: nat)

  // The switch is entered at a block in use; after a `goto` the block may have gone out of use.
  predicate Standing(g: Graph, prev: Option<Move>, p: nat) {
    && Ready(g, p)
    && (g.bb[p].used || (prev.Some? && prev.value.Rule? && prev.value.block == p
                         && (Last(g, p).code.Jmp? || Stuck(g, p))))
  }

  ghost predicate Allowed(g: Graph, prev: Option<Move>, m: Move) {
    match m
    case Rule(p, ed) => Standing(g, prev, p) && Chosen(g, p, ed)
    case Unlink(p, q) => CanDelete(g, p, q)
    case Join(x, p) => CanMerge(g, x, p)
  }

  function Edited(g: Graph, p: nat, ed: Edit): Graph
    requires Ready(g, p)
  {
    Rewrite(g, p, ed.op, ed.shrink, ed.drop, ed.e, ed.add)
  }

  ghost function Result(g: Graph, prev: Option<Move>, m: Move): Graph
    requires Allowed(g, prev, m)
  {
    match m
    case Rule(p, ed) => Edited(g, p, ed)
    case Unlink(p, q) => DeleteNext(g, p, q)
    case Join(x, p) => Merge(g, x, p)
  }

  ghost function Forward(g: Graph, prev: Option<Move>, m: Move): Option<Graph> {
    if Allowed(g, prev, m) then Some(Result(g, prev, m)) else None
  }

  // The steps ms lead from g to g'; prev is the step before them.
  ghost predicate Trail(g: Graph, prev: Option<Move>, ms: seq<Move>, g': Graph) {
    Runs.Leads(Forward, g, prev, ms, g')
  }

  // ----- every step is sound -----

  lemma StuckSound(g: Graph, p: nat, T: nat, bools: set<nat>)
    requires Inv(g, T, bools) && Stuck(g, p)
    ensures Sound(g, p, Pick(g, p).value, T, bools)
  {
    InvLast(g, p, T, bools);
  }

  // Carrying the rule out once more changes nothing.
  lemma StuckStays(g: Graph, p: nat)
    requires Stuck(g, p)
    ensures Edited(g, p, Pick(g, p).value) == g
  {
    var bb := g.bb[p := g.bb[p].(len := g.bb[p].len)];
    assert bb == g.bb && g.code[p + g.bb[p].len - 1 := Last(g, p)] == g.code;
    var b0 := DelPred(bb, p, p);
    assert Remove([p], p) == [p][1..] == [];
    assert b0 == bb[p := bb[p].(pred := [])];
    assert RmIfOrphan(b0, p) == b0;
    assert b0[p := WithEdges(b0[p], EdgesOf(g.bb[p]))] == b0;
    assert [p] + [] == [p];
    assert AddPred(b0, p, p) == b0[p := b0[p].(pred := [p])] == bb;
  }

  lemma PickSound(g: Graph, p: nat, T: nat, bools: set<nat>)
    requires Inv(g, T, bools) && Ready(g, p) && (g.bb[p].used || Last(g, p).code.Jmp? || Stuck(g, p))
    requires Pick(g, p).Some?
    ensures Sound(g, p, Pick(g, p).value, T, bools)
  {
    var op := Last(g, p);
    if op.code.Jmp? {
      JmpRuleSound(g, p, T, bools);
    } else if !g.bb[p].used {
      StuckSound(g, p, T, bools);
    } else if op.code.Jmpznz? {
      ZnzRuleSound(g, p, T, bools);
    } else if op.code.Jmpz? || op.code.Jmpnz? {
      TestRuleSound(g, p, op.code.Jmpnz?, T, bools);
    } else {
      ExRuleSound(g, p, op.code.JmpnzEx?, T, bools);
    }
  }

  lemma ChosenSound(g: Graph, prev: Option<Move>, p: nat, ed: Edit, T: nat, bools: set<nat>)
    requires Inv(g, T, bools) && Standing(g, prev, p) && Chosen(g, p, ed)
    ensures Sound(g, p, ed, T, bools)
  {
    var c := Last(g, p).code;
    if Pick(g, p) == Some(ed) {
      PickSound(g, p, T, bools);
    } else if c.Jmp? && ThreadJmp1(g, p) == Some(ed) {
      ThreadJmp1Sound(g, p, T, bools);
    } else if FollowsJmp2(c) && ThreadJmp2(g, p, Other(g, p)) == Some(ed) {
      ThreadJmp2Sound(g, p, Other(g, p), T, bools);
    } else if c.Jmpznz? && ThreadExt(g, p) == Some(ed) {
      ThreadExtSound(g, p, T, bools);
    } else {
      ReturnRuleSound(g, p, T, bools);
    }
  }

  // The block list of g is still the list of g'.
  ghost predicate SameList(g: Graph, g': Graph) {
    && |g'.bb| == |g.bb| && |g'.code| == |g.code|
    && forall b :: 0 <= b < |g.bb| ==> g'.bb[b].next == g.bb[b].next && g'.bb[b].start == g.bb[b].start
  }

  // A sound edit, carried out.
  lemma EditKeeps(g: Graph, p: nat, ed: Edit, T: nat, bools: set<nat>)
    requires Inv(g, T, bools) && Ready(g, p) && Sound(g, p, ed, T, bools)
    ensures var g' := Edited(g, p, ed);
            && Inv(g', T, bools) && SameBehaviour(g, g', T, bools) && SameList(g, g')
            && Rewritten(g, g', p, ed.op, ed.shrink, ed.e)
  {
    RewriteKeepsInv(g, p, ed.op, ed.shrink, ed.drop, ed.e, ed.add, T, bools);
    EditSame(g, p, ed, T, bools);
  }

  lemma EditSame(g: Graph, p: nat, ed: Edit, T: nat, bools: set<nat>)
    requires Inv(g, T, bools) && Ready(g, p) && Sound(g, p, ed, T, bools)
    ensures SameBehaviour(g, Edited(g, p, ed), T, bools)
  {
    forall w: World
      ensures Equivalent(w, g, Edited(g, p, ed), T, bools)
    {
      EditEquivalent(w, g, p, ed, T, bools);
    }
  }

  lemma EditEquivalent(w: World, g: Graph, p: nat, ed: Edit, T: nat, bools: set<nat>)
    requires Inv(g, T, bools) && Ready(g, p) && Sound(g, p, ed, T, bools)
    ensures Equivalent(w, g, Edited(g, p, ed), T, bools)
  {
    SoundHop(w, g, p, ed, T, bools);
    RewriteEquivalent(w, g, p, ed.op, ed.shrink, ed.drop, ed.e, ed.add, T, bools);
  }

  lemma SoundHop(w: World, g: Graph, p: nat, ed: Edit, T: nat, bools: set<nat>)
    requires Ready(g, p) && Sound(g, p, ed, T, bools)
    ensures g.bb[p].used ==> forall s ::
              StateOk(s, T, bools) ==> TailHop(w, g, g.code[p + g.bb[p].len - 1], g.bb[p], ed.op, ed.e, s)
  {
    if g.bb[p].used {
      forall s | StateOk(s, T, bools) ensures TailHop(w, g, Last(g, p), g.bb[p], ed.op, ed.e, s) {
      }
    }
  }

  // Blocks start where they did.
  ghost predicate SameStarts(g: Graph, g': Graph) {
    |g'.bb| == |g.bb| && forall b :: 0 <= b < |g.bb| ==> g'.bb[b].start == g.bb[b].start
  }

  // The blocks in use are among the old ones, and are as they were.
  ghost predicate SameAlive(g: Graph, g': Graph) {
    |g'.bb| == |g.bb| && forall b: nat {:trigger AliveAt(g, g', b)} :: b < |g.bb| ==> AliveAt(g, g', b)
  }

  ghost predicate AliveAt(g: Graph, g': Graph, b: nat)
    requires b < |g.bb| == |g'.bb|
  {
    g'.bb[b].used ==> g.bb[b].used && Ops(g', b) == Ops(g, b) && EdgesOf(g'.bb[b]) == EdgesOf(g.bb[b]) && g'.bb[b].len == g.bb[b].len
  }

  lemma SameAliveReflexive(g: Graph)
    ensures SameAlive(g, g)
  {
  }

  lemma SameAliveTransitive(g: Graph, g1: Graph, g2: Graph)
    requires SameAlive(g, g1) && SameAlive(g1, g2)
    ensures SameAlive(g, g2)
  {
    forall b: nat | b < |g.bb| ensures AliveAt(g, g2, b) {
      assert AliveAt(g, g1, b) && AliveAt(g1, g2, b);
    }
  }

  lemma DeleteKeeps(g: Graph, p: nat, q: nat, T: nat, bools: set<nat>)
    requires Inv(g, T, bools) && CanDelete(g, p, q)
    ensures var g' := DeleteNext(g, p, q);
            && Inv(g', T, bools) && SameBehaviour(g, g', T, bools) && SameStarts(g, g') && g'.bb[p].next == g.bb[q].next
            && SameAlive(g, g')
  {
    DeleteBlocks(g, p, q);
    DeletedLayout(g, DeleteNext(g, p, q), p, q);
    DeleteEquivalent(World(_ => 0, _ => false, (_, _, _, _) => 0), g, p, q, T, bools);
    forall w: World ensures Equivalent(w, g, DeleteNext(g, p, q), T, bools) {
      DeleteEquivalent(w, g, p, q, T, bools);
    }
  }

  lemma MergedList(g: Graph, x: nat, p: nat, T: nat, bools: set<nat>)
    requires Inv(g, T, bools) && CanMerge(g, x, p)
    ensures SameList(g, Merge(g, x, p)) && Merge(g, x, p).code == g.code
  {
    MergeBlocks(g, x, p);
  }

  lemma MergeKeeps(g: Graph, x: nat, p: nat, T: nat, bools: set<nat>)
    requires Inv(g, T, bools) && CanMerge(g, x, p)
    ensures var g' := Merge(g, x, p);
            && Inv(g', T, bools) && SameBehaviour(g, g', T, bools) && SameList(g, g') && g'.code == g.code
  {
    MergedList(g, x, p, T, bools);
    MergeEquivalent(World(_ => 0, _ => false, (_, _, _, _) => 0), g, x, p, T, bools);
    forall w: World ensures Equivalent(w, g, Merge(g, x, p), T, bools) {
      MergeEquivalent(w, g, x, p, T, bools);
    }
  }

  lemma MoveKeeps(g: Graph, prev: Option<Move>, m: Move, T: nat, bools: set<nat>)
    requires Inv(g, T, bools) && Allowed(g, prev, m)
    ensures var g' := Result(g, prev, m); Inv(g', T, bools) && SameBehaviour(g, g', T, bools) && SameStarts(g, g')
  {
    match m
    case Rule(p, ed) =>
      ChosenSound(g, prev, p, ed, T, bools);
      EditKeeps(g, p, ed, T, bools);
    case Unlink(p, q) => DeleteKeeps(g, p, q, T, bools);
    case Join(x, p) => MergeKeeps(g, x, p, T, bools);
  }

  lemma RuleOnward(g: Graph, prev: Option<Move>, p: nat, ed: Edit, T: nat, bools: set<nat>)
    requires Inv(g, T, bools) && Allowed(g, prev, Rule(p, ed))
    ensures var g' := Edited(g, p, ed); Rewritten(g, g', p, ed.op, ed.shrink, ed.e) && AllOnward(g, g')
  {
    ChosenSound(g, prev, p, ed, T, bools);
    EditKeeps(g, p, ed, T, bools);
    RewrittenOnward(g, Edited(g, p, ed), p, ed.op, ed.shrink, ed.e);
  }

  lemma MoveOnward(g: Graph, prev: Option<Move>, m: Move, T: nat, bools: set<nat>)
    requires Inv(g, T, bools) && Allowed(g, prev, m)
    ensures AllOnward(g, Result(g, prev, m))
  {
    match m
    case Rule(p, ed) => RuleOnward(g, prev, p, ed, T, bools);
    case Unlink(p, q) =>
      DeleteBlocks(g, p, q);
      DeletedOnward(g, DeleteNext(g, p, q), p, q);
    case Join(x, p) =>
      MergeBlocks(g, x, p);
      MergedOnward(g, Merge(g, x, p), x, p);
  }

  // ----- predecessor lists: what is listed has the edge -----

  // Every listed predecessor has an edge.  With Edged this leaves one doubt: whether it is still in use.
  ghost predicate Honest(bb: seq<Block>) {
    forall t: nat, b: nat {:trigger b in bb[t].pred} :: t < |bb| && b in bb[t].pred ==> b < |bb| && HasEdge(bb[b], t)
  }

  // Some list has a block that is no longer in use.
  ghost predicate Stale(bb: seq<Block>) {
    exists t: nat, b: nat {:trigger b in bb[t].pred} :: t < |bb| && b in bb[t].pred && b < |bb| && !bb[b].used
  }

  lemma ExactIs(bb: seq<Block>)
    ensures Exact(bb) <==> Honest(bb) && !Stale(bb)
  {
    if Honest(bb) && !Stale(bb) {
      forall t: nat, b: nat {:trigger b in bb[t].pred} | t < |bb| && b in bb[t].pred
        ensures b < |bb| && bb[b].used && HasEdge(bb[b], t)
      {
      }
    }
  }

  // The step enters a block that is out of use among the predecessors of another.
  ghost predicate Loses(g: Graph, prev: Option<Move>, m: Move)
    requires Allowed(g, prev, m)
  {
    m.Rule? && m.ed.add.Some? && m.block < |Result(g, prev, m).bb| && !Result(g, prev, m).bb[m.block].used
  }

  // The steps of a rewiring, as relations.
  ghost predicate RewiringIs(bb: seq<Block>, b0: seq<Block>, b1: seq<Block>, b3: seq<Block>, p: nat, drop: Ref,
                             e: Edges, add: Ref) {
    && p < |bb| == |b1|
    && (if drop.Some? then drop.value < |bb| && Dropped(bb, b0, Only(drop),
                                                        p) && (b1 == b0 || Removed(b0, b1,
                                                              drop.value)) else b0 == bb && b1 == bb)
    && var b2 := b1[p := WithEdges(b1[p], e)]; if add.Some? then Gained(b2, b3, add.value, p) else b3 == b2
  }

  lemma RewireSteps(bb: seq<Block>, p: nat, drop: Ref, e: Edges, add: Ref) returns (b0: seq<Block>)
    requires NoDups(bb) && CanRewire(bb, p, drop, e, add)
    ensures RewiringIs(bb, b0, Detach(bb, p, drop), Rewire(bb, p, drop, e, add), p, drop, e, add)
  {
    b0 := if drop.Some? then DelPred(bb, drop.value, p) else bb;
    var b1 := Detach(bb, p, drop);
    if drop.Some? {
      DelPredFacts(bb, drop.value, p);
      RmBbFacts(b0, drop.value);
    }
    var b2 := b1[p := WithEdges(b1[p], e)];
    assert NoDups(b2);
    if add.Some? { AddPredFacts(b2, add.value, p); }
  }

  lemma RewiredHonest(bb: seq<Block>, b0: seq<Block>, b1: seq<Block>, b3: seq<Block>, p: nat, drop: Ref, e: Edges,
                      add: Ref)
    requires RewiringIs(bb, b0, b1, b3, p, drop, e, add) && Honest(bb) && Tidy(bb, p, drop, e, add)
    ensures Honest(b3)
  {
    forall t: nat, b: nat {:trigger b in b3[t].pred} | t < |b3| && b in b3[t].pred
      ensures b < |b3| && HasEdge(b3[b], t)
    {
      if !(add == Some(t) && b == p) {
        assert b in b1[t].pred;
        assert b in bb[t].pred;
        assert HasEdge(bb[b], t);
      }
    }
  }

  // A list that had a block out of use still has one, ...
  lemma RewiredStale(bb: seq<Block>, b0: seq<Block>, b1: seq<Block>, b3: seq<Block>, p: nat, drop: Ref, e: Edges,
                     add: Ref)
    requires RewiringIs(bb, b0, b1, b3, p, drop, e, add)
    requires (!bb[p].used && drop.Some? ==> add.Some? && add.value < |bb|)
    requires Stale(bb)
    ensures Stale(b3)
  {
    var t: nat, b: nat :| t < |bb| && b in bb[t].pred && b < |bb| && !bb[b].used;
    if b == p && drop == Some(t) {
      assert p in b3[add.value].pred && !b3[p].used;
    } else {
      assert b in b0[t].pred;
      assert b in b1[t].pred;
      assert b in b3[t].pred && !b3[b].used;
    }
  }

  // ... and otherwise gets one only by entering one.
  lemma RewiredFresh(bb: seq<Block>, b0: seq<Block>, b1: seq<Block>, b3: seq<Block>, p: nat, drop: Ref, e: Edges,
                     add: Ref)
    requires RewiringIs(bb, b0, b1, b3, p, drop, e, add) && Honest(bb) && !Stale(bb) && (add.None? || b3[p].used)
    ensures !Stale(b3)
  {
    forall t: nat, b: nat {:trigger b in b3[t].pred} | t < |b3| && b in b3[t].pred && b < |b3| ensures b3[b].used {
      if !(add == Some(t) && b == p) {
        assert b in b1[t].pred;
        assert b in b0[t].pred;
        assert b in bb[t].pred;
        assert HasEdge(bb[b], t) && bb[b].used;
      }
    }
  }

  // A block out of use that gives an edge up takes another one.
  lemma UnusedAdds(g: Graph, prev: Option<Move>, p: nat, ed: Edit, T: nat, bools: set<nat>)
    requires Inv(g, T, bools) && Standing(g, prev, p) && Chosen(g, p, ed) && !g.bb[p].used && ed.drop.Some?
    ensures ed.add.Some? && ed.add.value < |g.bb|
  {
    ChosenSound(g, prev, p, ed, T, bools);
    if Last(g, p).code.Jmp? && Pick(g, p) != Some(ed) {
      var t := g.bb[p].jmp1.value;
      PointsTo(g, p, t, T, bools);
      JumpTarget(g, t);
    } else if !Last(g, p).code.Jmp? && Pick(g, p) != Some(ed) {
      OtherAdds(g, p, ed, T, bools);
    }
  }

  lemma OtherAdds(g: Graph, p: nat, ed: Edit, T: nat, bools: set<nat>)
    requires Inv(g, T, bools) && Ready(g, p) && Chosen(g, p, ed) && !g.bb[p].used && !Last(g, p).code.Jmp?
    requires Pick(g, p) != Some(ed)
    ensures ed.add.Some?
  {
    InvLast(g, p, T, bools);
    if Last(g, p).code.Jmpznz? && ThreadExt(g, p) == Some(ed) {
      PointsTo(g, p, g.bb[p].ext.value, T, bools);
      JumpTarget(g, g.bb[p].ext.value);
    } else {
      PointsTo(g, p, g.bb[p].jmp2.value, T, bools);
      JumpTarget(g, g.bb[p].jmp2.value);
    }
  }

  // What a step leaves in the lists: edges, and a block out of use exactly if there was one or it entered one.
  ghost predicate ListsAfter(bb: seq<Block>, bb': seq<Block>, loses: bool) {
    Honest(bb') && (Stale(bb') <==> Stale(bb) || loses)
  }

  lemma RuleLists(g: Graph, prev: Option<Move>, p: nat, ed: Edit, T: nat, bools: set<nat>)
    requires Inv(g, T, bools) && Allowed(g, prev, Rule(p, ed)) && Honest(g.bb)
    ensures ListsAfter(g.bb, Edited(g, p, ed).bb, Loses(g, prev, Rule(p, ed)))
  {
    ChosenSound(g, prev, p, ed, T, bools);
    if !g.bb[p].used && ed.drop.Some? { UnusedAdds(g, prev, p, ed, T, bools); }
    EditLists(g.bb, p, g.bb[p].len - if ed.shrink then 1 else 0, ed, Edited(g, p, ed).bb);
  }

  lemma AnyLenLists(bb: seq<Block>, bb': seq<Block>, p: nat, n: nat, drop: Ref, e: Edges, add: Ref)
    requires p < |bb| && NoDups(bb) && Honest(bb) && Tidy(bb, p, drop, e, add) && bb' == bb[p := bb[p].(len := n)]
    ensures NoDups(bb') && Honest(bb') && (Stale(bb') <==> Stale(bb)) && Tidy(bb', p, drop, e, add)
  {
    forall t: nat, b: nat {:trigger b in bb'[t].pred} | t < |bb'| && b in bb'[t].pred
      ensures b < |bb'| && HasEdge(bb'[b], t)
    {
      assert b in bb[t].pred;
      assert HasEdge(bb[b], t);
    }
    if Stale(bb) {
      var t: nat, b: nat :| t < |bb| && b in bb[t].pred && b < |bb| && !bb[b].used;
      assert b in bb'[t].pred && !bb'[b].used;
    }
    if Stale(bb') {
      var t: nat, b: nat :| t < |bb'| && b in bb'[t].pred && b < |bb'| && !bb'[b].used;
      assert b in bb[t].pred && !bb[b].used;
    }
    assert forall x: nat :: HasEdge(bb'[p], x) == HasEdge(bb[p], x);
  }

  lemma EditLists(bb: seq<Block>, p: nat, n: nat, ed: Edit, bb': seq<Block>)
    requires NoDups(bb) && Honest(bb) && CanRewire(bb, p, ed.drop, ed.e, ed.add) && Tidy(bb, p, ed.drop, ed.e, ed.add)
    requires !bb[p].used && ed.drop.Some? ==> ed.add.Some? && ed.add.value < |bb|
    requires bb' == Rewire(bb[p := bb[p].(len := n)], p, ed.drop, ed.e, ed.add)
    ensures p < |bb'| && ListsAfter(bb, bb', ed.add.Some? && !bb'[p].used)
  {
    var bb1 := bb[p := bb[p].(len := n)];
    AnyLenLists(bb, bb1, p, n, ed.drop, ed.e, ed.add);
    CanRewireAnyLen(bb, bb1, p, n, ed.drop, ed.e, ed.add);
    var b0 := RewireSteps(bb1, p, ed.drop, ed.e, ed.add);
    var b1 := Detach(bb1, p, ed.drop);
    RewiredHonest(bb1, b0, b1, bb', p, ed.drop, ed.e, ed.add);
    if Stale(bb1) { RewiredStale(bb1, b0, b1, bb', p, ed.drop, ed.e, ed.add); }
    else if ed.add.None? || bb'[p].used { RewiredFresh(bb1, b0, b1, bb', p, ed.drop, ed.e, ed.add); }
    else { assert p in bb'[ed.add.value].pred; }
  }

  lemma UnlinkHonest(g: Graph, p: nat, q: nat)
    requires NoDups(g.bb) && Honest(g.bb) && p < |g.bb| && q < |g.bb|
    ensures Honest(DeleteNext(g, p, q).bb)
    ensures Stale(DeleteNext(g, p, q).bb) ==> Stale(g.bb)
  {
    var b1, b2 := RmBb(g.bb, q), DeleteNext(g, p, q).bb;
    RmBbFacts(g.bb, q);
    forall t: nat, b: nat {:trigger b in b2[t].pred} | t < |b2| && b in b2[t].pred
      ensures b < |b2| && HasEdge(b2[b], t) && b in g.bb[t].pred && (!b2[b].used ==> !g.bb[b].used)
    {
      assert b in b1[t].pred;
      assert b in g.bb[t].pred && HasEdge(g.bb[b], t);
    }
    if Stale(b2) {
      var t: nat, b: nat :| t < |b2| && b in b2[t].pred && b < |b2| && !b2[b].used;
      assert b in g.bb[t].pred && !g.bb[b].used;
    }
  }

  lemma UnlinkStale(g: Graph, p: nat, q: nat)
    requires NoDups(g.bb) && Stale(g.bb) && p < |g.bb| && q < |g.bb|
    ensures Stale(DeleteNext(g, p, q).bb)
  {
    var b1, b2 := RmBb(g.bb, q), DeleteNext(g, p, q).bb;
    RmBbFacts(g.bb, q);
    var t: nat, b: nat :| t < |g.bb| && b in g.bb[t].pred && b < |g.bb| && !g.bb[b].used;
    assert b in b1[t].pred;
    assert b in b2[t].pred && !b2[b].used;
  }

  lemma UnlinkLists(g: Graph, p: nat, q: nat)
    requires NoDups(g.bb) && Honest(g.bb) && p < |g.bb| && q < |g.bb|
    ensures ListsAfter(g.bb, DeleteNext(g, p, q).bb, false)
  {
    UnlinkHonest(g, p, q);
    if Stale(g.bb) { UnlinkStale(g, p, q); }
  }

  lemma JoinLists(g: Graph, x: nat, p: nat)
    requires NoDups(g.bb) && Edged(g.bb) && Honest(g.bb) && CanMerge(g, x, p)
    ensures ListsAfter(g.bb, Merge(g, x, p).bb, false)
  {
    var e, b0 := EdgesOf(g.bb[p]), DelPred(g.bb, p, x);
    MergeBlocks(g, x, p);
    DelPredFacts(g.bb, p, x);
    SuccessorsExist(g.bb, b0, p);
    MovedAll(b0, e, p, x);
    MovedBackAll(b0, e, p, x);
    var b4 := MoveRef(MoveRef(MoveRef(MoveRef(b0, e.jmp1, p, x), e.jmp2, p, x), e.ext, p, x), e.follow, p, x);
    JoinedHonest(g, b0, b4, Merge(g, x, p), x, p);
    JoinedStale(g, b0, b4, Merge(g, x, p), x, p);
  }

  lemma JoinedHonest(g: Graph, b0: seq<Block>, b4: seq<Block>, g': Graph, x: nat, p: nat)
    requires Honest(g.bb) && CanMerge(g, x, p) && Merged(g, g', x, p)
    requires Dropped(g.bb, b0, Only(Some(p)), x) && MovedBack(b0, b4, EdgesOf(g.bb[p]), p, x)
    requires forall t :: 0 <= t < |b4| ==> g'.bb[t].pred == b4[t].pred
    ensures Honest(g'.bb)
    ensures forall t: nat, b: nat {:trigger b in g'.bb[t].pred} ::
              t < |g'.bb| && b in g'.bb[t].pred && b < |g.bb| && !g'.bb[b].used ==> b in g.bb[t].pred && !g.bb[b].used
  {
    forall t: nat, b: nat {:trigger b in g'.bb[t].pred} | t < |g'.bb| && b in g'.bb[t].pred
      ensures b < |g'.bb| && HasEdge(g'.bb[b], t)
      ensures !g'.bb[b].used ==> b in g.bb[t].pred && !g.bb[b].used
    {
      var e := EdgesOf(g.bb[p]);
      assert b in b4[t].pred;
      if b == x && InEdges(e, t) {
        assert EdgesOf(g'.bb[x]) == e;
      } else {
        assert b in b0[t].pred && b in g.bb[t].pred;
        assert HasEdge(g.bb[b], t);
        assert InEdges(EdgesOf(g.bb[b]), t);
      }
    }
  }

  lemma JoinedStale(g: Graph, b0: seq<Block>, b4: seq<Block>, g': Graph, x: nat, p: nat)
    requires CanMerge(g, x, p) && Merged(g, g', x, p)
    requires Dropped(g.bb, b0, Only(Some(p)), x) && Moved(b0, b4, EdgesOf(g.bb[p]), p, x)
    requires forall t :: 0 <= t < |b4| ==> g'.bb[t].pred == b4[t].pred
    requires forall t: nat, b: nat {:trigger b in g'.bb[t].pred} ::
               t < |g'.bb| && b in g'.bb[t].pred && b < |g.bb| && !g'.bb[b].used ==> b in g.bb[t].pred && !g.bb[b].used
    ensures Stale(g'.bb) <==> Stale(g.bb)
  {
    if Stale(g.bb) {
      var t: nat, b: nat :| t < |g.bb| && b in g.bb[t].pred && b < |g.bb| && !g.bb[b].used;
      assert b in b0[t].pred;
      assert b in b4[t].pred;
      assert b in g'.bb[t].pred && !g'.bb[b].used;
    }
    if Stale(g'.bb) {
      var t: nat, b: nat :| t < |g'.bb| && b in g'.bb[t].pred && b < |g'.bb| && !g'.bb[b].used;
      assert b in g.bb[t].pred && !g.bb[b].used;
    }
  }

  lemma MoveLists(g: Graph, prev: Option<Move>, m: Move, T: nat, bools: set<nat>)
    requires Inv(g, T, bools) && Allowed(g, prev, m) && Honest(g.bb)
    ensures ListsAfter(g.bb, Result(g, prev, m).bb, Loses(g, prev, m))
  {
    match m
    case Rule(p, ed) => RuleLists(g, prev, p, ed, T, bools);
    case Unlink(p, q) => UnlinkLists(g, p, q);
    case Join(x, p) => JoinLists(g, x, p);
  }

  // ----- whole runs -----

  ghost predicate LosesOnTheWay(g: Graph, prev: Option<Move>, ms: seq<Move>)
    decreases |ms|
  {
    && ms != [] && Allowed(g, prev, ms[0])
    && (Loses(g, prev, ms[0]) || LosesOnTheWay(Result(g, prev, ms[0]), Some(ms[0]), ms[1..]))
  }

  // Every run keeps the invariant and the behaviour, and lists only blocks with an edge.  In the end a list has a block
  // that is out of use exactly if one had it before, or some step entered one.
  lemma {:induction false} TrailKeeps(g: Graph, prev: Option<Move>, ms: seq<Move>, g': Graph, T: nat, bools: set<nat>)
    requires Inv(g, T, bools) && Trail(g, prev, ms, g')
    ensures Inv(g', T, bools) && SameBehaviour(g, g', T, bools)
    ensures Honest(g.bb) ==> ListsAfter(g.bb, g'.bb, LosesOnTheWay(g, prev, ms))
    decreases |ms|
  {
    if ms == [] {
      SameBehaviourReflexive(g, T, bools);
    } else {
      MoveKeeps(g, prev, ms[0], T, bools);
      if Honest(g.bb) { MoveLists(g, prev, ms[0], T, bools); }
      var g1 := Result(g, prev, ms[0]);
      TrailKeeps(g1, Some(ms[0]), ms[1..], g', T, bools);
      SameBehaviourTransitive(g, g1, g', T, bools);
    }
  }

  // Exact lists stay exact over a run exactly if no step enters a block that is out of use.
  lemma TrailExactly(g: Graph, ms: seq<Move>, g': Graph, T: nat, bools: set<nat>)
    requires Inv(g, T, bools) && Trail(g, None, ms, g') && Exact(g.bb)
    ensures Exact(g'.bb) <==> !LosesOnTheWay(g, None, ms)
  {
    ExactIs(g.bb);
    ExactIs(g'.bb);
    TrailKeeps(g, None, ms, g', T, bools);
  }

  lemma TwoAlike(s: seq<nat>, p: nat)
    requires |s| > 1 && forall y :: y in s ==> y == p
    ensures s[0] == s[1]
  {
    assert s[0] in s && s[1] in s;
  }

  lemma OnlyOne(s: seq<nat>, p: nat)
    requires NoDup(s) && p in s && forall y :: y in s ==> y == p
    ensures s == [p]
  {
    if |s| > 1 {
      TwoAlike(s, p);
      assert false;
    }
  }

  lemma DetachAlone(bb: seq<Block>, p: nat)
    requires NoDups(bb) && p < |bb| && p != 0 && bb[p].pred == [p]
    ensures !Detach(bb, p, Some(p))[p].used
  {
    assert Remove([p], p) == [p][1..] == [];
    var b0 := DelPred(bb, p, p);
    DelPredFacts(bb, p, p);
    RmBbFacts(b0, p);
  }

  lemma DetachedUse(bb: seq<Block>, p: nat, drop: Ref, e: Edges, add: Ref)
    requires NoDups(bb) && Edged(bb) && CanRewire(bb, p, drop, e, add)
    ensures !Rewire(bb, p, drop, e, add)[p].used <==> !bb[p].used || (drop == Some(p) && p != 0 && bb[p].pred == [p])
  {
    DetachFacts(bb, p, drop);
    if drop == Some(p) && p != 0 && bb[p].pred == [p] { DetachAlone(bb, p); }
    if bb[p].used && !Detach(bb, p, drop)[p].used {
      assert HasEdge(bb[p], p);
      OnlyOne(bb[p].pred, p);
    }
  }

  // A block that goes on being rewritten is out of use exactly if it was, or has given up the only edge that led to it,
  // one of its own.
  lemma EditUses(g: Graph, p: nat, ed: Edit)
    requires NoDups(g.bb) && Edged(g.bb) && Ready(g, p) && CanRewire(g.bb, p, ed.drop, ed.e, ed.add)
    ensures p < |Edited(g, p, ed).bb|
    ensures !Edited(g, p, ed).bb[p].used <==> !g.bb[p].used || (ed.drop == Some(p) && p != 0 && g.bb[p].pred == [p])
  {
    EditUsesBy(g.bb, p, g.bb[p].len - if ed.shrink then 1 else 0, ed, Edited(g, p, ed).bb);
  }

  lemma EditUsesBy(bb: seq<Block>, p: nat, n: nat, ed: Edit, bb': seq<Block>)
    requires NoDups(bb) && Edged(bb) && CanRewire(bb, p, ed.drop, ed.e, ed.add)
    requires bb' == Rewire(bb[p := bb[p].(len := n)], p, ed.drop, ed.e, ed.add)
    ensures p < |bb'| && (!bb'[p].used <==> !bb[p].used || (ed.drop == Some(p) && p != 0 && bb[p].pred == [p]))
  {
    var bb1 := bb[p := bb[p].(len := n)];
    SameEdgesKeep(bb, bb1, p, n);
    CanRewireAnyLen(bb, bb1, p, n, ed.drop, ed.e, ed.add);
    DetachedUse(bb1, p, ed.drop, ed.e, ed.add);
  }

  // When exactly a step enters a block that is out of use.
  lemma LosesExactly(g: Graph, prev: Option<Move>, p: nat, ed: Edit, T: nat, bools: set<nat>)
    requires Inv(g, T, bools) && Allowed(g, prev, Rule(p, ed))
    ensures Loses(g, prev, Rule(p, ed)) <==>
              ed.add.Some? && (!g.bb[p].used || (ed.drop == Some(p) && p != 0 && g.bb[p].pred == [p]))
  {
    ChosenSound(g, prev, p, ed, T, bools);
    EditUses(g, p, ed);
  }

  // No block in use is led to by nobody but itself.
  ghost predicate NoneAlone(bb: seq<Block>) {
    forall p: nat :: p < |bb| && bb[p].used ==> !Alone(bb, p)
  }

  ghost predicate NoneAloneOnTheWay(g: Graph, prev: Option<Move>, ms: seq<Move>)
    decreases |ms|
  {
    && NoneAlone(g.bb)
    && (ms != [] && Allowed(g, prev, ms[0]) ==> NoneAloneOnTheWay(Result(g, prev, ms[0]), Some(ms[0]), ms[1..]))
  }

  ghost predicate InUse(g: Graph, prev: Option<Move>) {
    prev.Some? && prev.value.Rule? ==> prev.value.block < |g.bb| && g.bb[prev.value.block].used
  }

  lemma StaysInUse(g: Graph, prev: Option<Move>, m: Move, T: nat, bools: set<nat>)
    requires Inv(g, T, bools) && Allowed(g, prev, m) && NoneAlone(g.bb) && InUse(g, prev)
    ensures InUse(Result(g, prev, m), Some(m)) && !Loses(g, prev, m)
  {
    if m.Rule? {
      ChosenSound(g, prev, m.block, m.ed, T, bools);
      EditUses(g, m.block, m.ed);
      if m.ed.drop == Some(m.block) {
        assert Alone(g.bb, m.block) <==> m.block != 0 && forall y :: y in g.bb[m.block].pred ==> y == m.block;
      }
    }
  }

  // Without such blocks nothing is lost.
  lemma {:induction false} NothingLost(g: Graph, prev: Option<Move>, ms: seq<Move>, T: nat, bools: set<nat>)
    requires Inv(g, T, bools) && InUse(g, prev) && NoneAloneOnTheWay(g, prev, ms)
    ensures !LosesOnTheWay(g, prev, ms)
    decreases |ms|
  {
    if ms != [] && Allowed(g, prev, ms[0]) {
      MoveKeeps(g, prev, ms[0], T, bools);
      StaysInUse(g, prev, ms[0], T, bools);
      NothingLost(Result(g, prev, ms[0]), Some(ms[0]), ms[1..], T, bools);
    }
  }

  // ----- flow without cycles -----

  // Every way leads to a higher rank.
  ghost predicate Uphill(g: Graph, rank: seq<nat>) {
    |rank| == |g.bb|
    && forall b: nat, t: nat {:trigger HasEdge(g.bb[b], t)} ::
         b < |g.bb| && g.bb[b].used && HasEdge(g.bb[b], t) ==> t < |g.bb| && rank[b] < rank[t]
  }

  // The flow has no cycle.
  ghost predicate NoCycle(g: Graph) {
    exists rank: seq<nat> :: Uphill(g, rank)
  }

  lemma UphillOnward(g: Graph, g': Graph, rank: seq<nat>)
    requires Uphill(g, rank) && Closed(g.bb) && AllOnward(g, g')
    ensures Uphill(g', rank)
  {
    forall b: nat, u: nat {:trigger HasEdge(g'.bb[b], u)} | b < |g'.bb| && g'.bb[b].used && HasEdge(g'.bb[b], u)
      ensures u < |g'.bb| && rank[b] < rank[u]
    {
      assert OnwardFrom(g, g', b);
      var s: nat :| Onward(g, g', b, s);
      assert Leading(g, s, u);
      if !HasEdge(g.bb[s], u) {
        var t: nat :| Over(g, s, t, u);
        assert rank[s] < rank[t];
      }
    }
  }

  lemma NoCycleOnward(g: Graph, g': Graph)
    requires NoCycle(g) && Closed(g.bb) && AllOnward(g, g')
    ensures NoCycle(g')
  {
    var rank: seq<nat> :| Uphill(g, rank);
    UphillOnward(g, g', rank);
  }

  // Then no block takes itself out of use.
  lemma UphillStep(g: Graph, prev: Option<Move>, m: Move, T: nat, bools: set<nat>)
    requires Inv(g, T, bools) && Allowed(g, prev, m) && NoCycle(g) && InUse(g, prev)
    ensures InUse(Result(g, prev, m), Some(m)) && !Loses(g, prev, m)
  {
    if m.Rule? {
      ChosenSound(g, prev, m.block, m.ed, T, bools);
      EditUses(g, m.block, m.ed);
      var rank: seq<nat> :| Uphill(g, rank);
      assert !HasEdge(g.bb[m.block], m.block);
    }
  }

  // In flow without cycles nothing is lost, whatever steps are taken.
  lemma {:induction false} NoCycleNothingLost(g: Graph, prev: Option<Move>, ms: seq<Move>, g': Graph, T: nat,
                                              bools: set<nat>)
    requires Inv(g, T, bools) && NoCycle(g) && InUse(g, prev) && Trail(g, prev, ms, g')
    ensures !LosesOnTheWay(g, prev, ms) && NoCycle(g')
    decreases |ms|
  {
    if ms != [] {
      MoveKeeps(g, prev, ms[0], T, bools);
      UphillStep(g, prev, ms[0], T, bools);
      MoveOnward(g, prev, ms[0], T, bools);
      InvClosed(g, T, bools);
      NoCycleOnward(g, Result(g, prev, ms[0]));
      NoCycleNothingLost(Result(g, prev, ms[0]), Some(ms[0]), ms[1..], g', T, bools);
    }
  }

  // ----- after a `goto` -----

  lemma ZnzAlike(g: Graph, g': Graph, p: nat)
    requires g'.code == g.code && Fewer(g.bb, g'.bb) && Ready(g, p) && Ready(g', p)
    ensures ZnzRule(g', p) == ZnzRule(g, p)
  {
  }

  lemma TestAlike(g: Graph, g': Graph, p: nat, taken: bool)
    requires g'.code == g.code && Fewer(g.bb, g'.bb) && Ready(g, p) && Ready(g', p)
    ensures TestRule(g', p, taken) == TestRule(g, p, taken)
  {
  }

  lemma ExAlike(g: Graph, g': Graph, p: nat, taken: bool)
    requires g'.code == g.code && Fewer(g.bb, g'.bb) && Ready(g, p) && Ready(g', p)
    ensures ExRule(g', p, taken) == ExRule(g, p, taken)
  {
  }

  lemma JmpAlike(g: Graph, g': Graph, p: nat)
    requires g'.code == g.code && Fewer(g.bb, g'.bb) && Ready(g, p) && Ready(g', p)
    ensures JmpRule(g', p) == JmpRule(g, p)
  {
  }

  lemma PickAlike(g: Graph, g': Graph, p: nat)
    requires g'.code == g.code && Fewer(g.bb, g'.bb) && Ready(g, p)
    ensures Ready(g', p) && Pick(g', p) == Pick(g, p)
  {
    var c := Last(g, p).code;
    assert Last(g', p) == Last(g, p);
    if c.Jmp? {
      JmpAlike(g, g', p);
    } else if c.Jmpznz? {
      ZnzAlike(g, g', p);
    } else if c.Jmpz? || c.Jmpnz? {
      TestAlike(g, g', p, c.Jmpnz?);
    } else if Ex(c) {
      ExAlike(g, g', p, c.JmpnzEx?);
    }
  }

  // A test that has removed its own block becomes a JMP, no jump at all, or stays for good.
  lemma AfterRemoval(g: Graph, p: nat, ed: Edit, T: nat, bools: set<nat>)
    requires Inv(g, T, bools) && Ready(g, p) && g.bb[p].used && Pick(g, p) == Some(ed)
    ensures var g' := Edited(g, p, ed);
            p < |g'.bb| && (!g'.bb[p].used && Control(ed.op.code) ==> ed.op.code.Jmp? || Stuck(g', p))
  {
    PickSound(g, p, T, bools);
    EditUses(g, p, ed);
    var g' := Edited(g, p, ed);
    if !g'.bb[p].used && Control(ed.op.code) && !ed.op.code.Jmp? {
      RemovesItself(g, p, ed, T, bools);
      RewriteBlocks(g, p, ed.op, ed.shrink, ed.drop, ed.e, ed.add);
      StuckNow(g, g', p, ed);
    }
  }

  lemma StuckNow(g: Graph, g': Graph, p: nat, ed: Edit)
    requires NoDups(g.bb) && Ready(g, p) && Pick(g, p) == Some(ed)
    requires ed == Edit(Last(g, p), false, Some(p), EdgesOf(g.bb[p]), Some(p))
    requires p != 0 && HasEdge(g.bb[p], p) && g.bb[p].pred == [p] && g' == Edited(g, p, ed)
    requires Rewired(g.bb[p := g.bb[p].(len := g.bb[p].len)], g'.bb, p, ed.e) && !g'.bb[p].used
    ensures Stuck(g', p)
  {
    assert g'.code == g.code;
    assert g.bb[p := g.bb[p].(len := g.bb[p].len)] == g.bb;
    assert g.bb[p := WithEdges(g.bb[p], ed.e)] == g.bb;
    PickAlike(g, g', p);
    ListedAgain(g.bb, g'.bb, p);
  }

  // The edit that the loop of one instruction at p stays with.
  function SameAgain(g: Graph, p: nat): Edit
    requires Ready(g, p)
  {
    Edit(Last(g, p), false, Some(p), EdgesOf(g.bb[p]), Some(p))
  }

  lemma ZnzRemoves(g: Graph, p: nat, ed: Edit, T: nat, bools: set<nat>)
    requires Ready(g, p) && TailFacts(g, p, T, bools) && Last(g, p).code.Jmpznz? && ZnzRule(g, p) == Some(ed)
    requires (Single(g, Some(p)) || Control(First(g, p).code) ==> g.bb[p].len == 1)
    requires ed.drop == Some(p) && Control(ed.op.code) && !ed.op.code.Jmp?
    ensures ed == SameAgain(g, p)
  {
  }

  lemma TestRemoves(g: Graph, p: nat, taken: bool, ed: Edit, T: nat, bools: set<nat>)
    requires Ready(g, p) && TailFacts(g, p, T, bools) && TestRule(g, p, taken) == Some(ed)
    requires if taken then Last(g, p).code.Jmpnz? else Last(g, p).code.Jmpz?
    requires ed.drop == Some(p) && Control(ed.op.code) && !ed.op.code.Jmp?
    ensures ed == SameAgain(g, p)
  {
  }

  lemma ExRemoves(g: Graph, p: nat, taken: bool, ed: Edit, T: nat, bools: set<nat>)
    requires Ready(g, p) && TailFacts(g, p, T, bools) && ExRule(g, p, taken) == Some(ed)
    requires if taken then Last(g, p).code.JmpnzEx? else Last(g, p).code.JmpzEx?
    requires ed.drop == Some(p)
    ensures ed == SameAgain(g, p)
  {
  }

  // The rule that takes p's own edge away and does not make it a JMP gives it back.
  lemma RemovesItself(g: Graph, p: nat, ed: Edit, T: nat, bools: set<nat>)
    requires Inv(g, T, bools) && Ready(g, p) && g.bb[p].used && Pick(g, p) == Some(ed)
    requires ed.drop == Some(p) && Control(ed.op.code) && !ed.op.code.Jmp?
    ensures ed == SameAgain(g, p)
  {
    InvTail(g, p, T, bools);
    var c := Last(g, p).code;
    if c.Jmpznz? {
      assert BlockInRange(g, p) && Shaped(g, p);
      if Control(First(g, p).code) { JumpIsWhole(g, p); }
      ZnzRemoves(g, p, ed, T, bools);
    } else if c.Jmpz? || c.Jmpnz? {
      TestRemoves(g, p, c.Jmpnz?, ed, T, bools);
    } else if Ex(c) {
      ExRemoves(g, p, c.JmpnzEx?, ed, T, bools);
    }
  }

  lemma FirstIsMember(s: seq<nat>)
    ensures s == [] || exists y :: y in s
  {
    if s != [] { assert s[0] in s; }
  }

  lemma ListedAgain(bb: seq<Block>, bb': seq<Block>, p: nat)
    requires p < |bb| && NoDups(bb) && bb[p].pred == [p]
    requires bb' == Rewire(bb[p := bb[p].(len := bb[p].len)], p, Some(p), EdgesOf(bb[p]), Some(p))
    ensures bb'[p].pred == [p]
  {
    assert Remove([p], p) == [p][1..] == [];
    assert [p] + [] == [p];
    var b0 := DelPred(bb, p, p);
    DelPredFacts(bb, p, p);
    RmBbFacts(b0, p);
    assert bb[p := bb[p].(len := bb[p].len)] == bb;
    var b1 := Detach(bb, p, Some(p));
    FirstIsMember(b1[p].pred);
  }
}
