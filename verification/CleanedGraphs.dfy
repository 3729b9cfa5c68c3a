// The graph that compute_live_var leaves: it keeps the invariant, and what orderly code gives.
module CleanedGraphs {
  import opened Options
  import opened Opcodes
  import opened Graphs
  import opened Preds
  import opened Rewrites
  import opened Ways
  import opened Splits
  import opened Marking
  import opened JumpRules
  import opened Trails
  import opened LiveVars
  import opened LiveLoops
  import opened Renumber
  import opened OrderlyCode
  import opened OrderlySteps

  // ----- removing dead results keeps the invariant -----

  // What becomes of an instruction still fits where it was.
  lemma CleanedFits(op: Op, global: seq<bool>, live: set<nat>, T: nat, bools: set<nat>, e: Edges)
    requires OpOk(op, T, bools)
    ensures var op' := CleanOp(op, global, live);
            && OpOk(op', T, bools) && (Control(op'.code) ==> Control(op.code))
            && (FallsAfter(op'.code) ==> FallsAfter(op.code))
            && (op.code.Nop? ==> op'.code.Nop?) && (TailShape(op.code, e) ==> TailShape(op'.code, e))
            && (SelfTest(op') ==> SelfTest(op) && op'.res == op.res)
  {
  }

  lemma OwnedCode(g: Graph, b: nat, i: nat)
    requires b < |g.bb| && BlockInRange(g, b) && Owns(g, b, i)
    ensures i < |g.code| && i - b < |Ops(g, b)| && Ops(g, b)[i - b] == g.code[i]
  {
  }

  lemma OwnedLine(g: Graph, g': Graph, global: seq<bool>, b: nat, i: nat) returns (live: set<nat>)
    requires b < |g.bb| == |g'.bb| && BlockInRange(g, b) && BlockInRange(g', b) && Owns(g, b, i) && Owns(g', b, i)
    requires Ops(g', b) == Clean(Ops(g, b), global).0
    ensures i < |g.code| && i < |g'.code| && g'.code[i] == CleanOp(g.code[i], global, live)
  {
    OwnedCode(g, b, i);
    OwnedCode(g', b, i);
    live := CleanedAt(Ops(g, b), global, i - b);
  }

  // Line i of the cleaned code.
  lemma CleanedLine(g: Graph, g': Graph, global: seq<bool>, i: nat) returns (live: set<nat>)
    requires InRange(g) && InRange(g') && CleanedAll(g, g', global) && i < |g.code|
    ensures g'.code[i] == g.code[i] || g'.code[i] == CleanOp(g.code[i], global, live)
    ensures !Unowned(g, i) ==> g'.code[i] == CleanOp(g.code[i], global, live)
  {
    live := {};
    if !Unowned(g, i) {
      var b :| Owns(g, b, i);
      assert BlockInRange(g, b) && BlockInRange(g', b);
      live := OwnedLine(g, g', global, b, i);
    }
  }

  lemma CleanedInRange(g: Graph, g': Graph)
    requires InRange(g) && g'.bb == g.bb && |g'.code| == |g.code|
    ensures InRange(g')
  {
    forall b | 0 <= b < |g'.bb| ensures BlockInRange(g', b) {
      assert BlockInRange(g, b);
    }
  }

  lemma CleanedCodeOk(g: Graph, g': Graph, global: seq<bool>, T: nat, bools: set<nat>)
    requires InRange(g) && InRange(g') && CleanedAll(g, g', global) && CodeOk(g.code, T, bools)
    ensures CodeOk(g'.code, T, bools)
  {
    forall i | 0 <= i < |g'.code| ensures OpOk(g'.code[i], T, bools) {
      var live := CleanedLine(g, g', global, i);
      assert OpOk(g.code[i], T, bools);
      CleanedFits(g.code[i], global, live, T, bools, NONE);
    }
  }

  lemma CleanedCovered(g: Graph, g': Graph, global: seq<bool>)
    requires Covered(g) && CleanedAll(g, g', global)
    ensures Covered(g')
  {
    forall i | 0 <= i < |g'.code| && !g'.code[i].code.Nop? ensures exists b :: Owns(g', b, i) {
      assert !Unowned(g, i);
      var b :| Owns(g, b, i);
      assert Owns(g', b, i);
    }
  }

  lemma CleanedStraight(g: Graph, g': Graph, global: seq<bool>, T: nat, bools: set<nat>, b: nat)
    requires InRange(g) && InRange(g') && CleanedAll(g, g', global) && CodeOk(g.code, T, bools)
    requires b < |g.bb| && BlockInRange(g, b) && g.bb[b].len > 0 && Straight(g.code[b .. b + g.bb[b].len - 1])
    ensures Straight(g'.code[b .. b + g.bb[b].len - 1])
  {
    var n := g.bb[b].len;
    forall i | b <= i < b + n - 1 ensures !Control(g'.code[i].code) {
      assert g.code[b .. b + n - 1][i - b] == g.code[i];
      var live := CleanedLine(g, g', global, i);
      CleanedFits(g.code[i], global, live, T, bools, NONE);
    }
  }

  lemma CleanedShaped(g: Graph, g': Graph, global: seq<bool>, T: nat, bools: set<nat>, b: nat)
    requires InRange(g) && InRange(g') && Disjoint(g) && CleanedAll(g, g', global) && CodeOk(g.code, T, bools)
    requires b < |g.bb| && BlockInRange(g, b) && Shaped(g, b) && Placed(g, b) && BlockInRange(g', b)
    ensures Shaped(g', b) && Placed(g', b)
  {
    var n := g.bb[b].len;
    if n > 0 {
      CleanedStraight(g, g', global, T, bools, b);
      var last := b + n - 1;
      var live := CleanedLine(g, g', global, last);
      CleanedFits(g.code[last], global, live, T, bools, EdgesOf(g.bb[b]));
    } else if g.bb[b].used {
      var live := CleanedLine(g, g', global, b);
      CleanedFits(g.code[b], global, live, T, bools, NONE);
    }
  }

  lemma CleanedOnward(g: Graph, g': Graph, global: seq<bool>, T: nat, bools: set<nat>)
    requires InRange(g) && InRange(g') && CleanedAll(g, g', global) && CodeOk(g.code, T, bools)
    ensures AllOnward(g, g')
  {
    forall b: nat {:trigger OnwardFrom(g, g', b)} | b < |g'.bb| && g'.bb[b].used ensures OnwardFrom(g, g', b) {
      assert BlockInRange(g, b);
      if g.bb[b].len > 0 {
        var last := b + g.bb[b].len - 1;
        var live := CleanedLine(g, g', global, last);
        CleanedFits(g.code[last], global, live, T, bools, NONE);
      }
      SameOnward(g, g', b);
    }
  }

  lemma CleanedKeepsInv(g: Graph, g': Graph, global: seq<bool>, T: nat, bools: set<nat>)
    requires Inv(g, T, bools) && CleanedAll(g, g', global)
    ensures Inv(g', T, bools)
  {
    CleanedInRange(g, g');
    CleanedCovered(g, g', global);
    CleanedCodeOk(g, g', global, T, bools);
    CleanedOnward(g, g', global, T, bools);
    InvClosed(g, T, bools);
    TestsApartStill(g, g', bools);
    forall b | 0 <= b < |g'.bb| ensures BlockInRange(g', b) && Shaped(g', b) && Placed(g', b) {
      assert BlockInRange(g, b) && BlockInRange(g', b) && Shaped(g, b) && Placed(g, b);
      CleanedShaped(g, g', global, T, bools, b);
    }
  }

  // ----- and what orderly code gives -----

  lemma UnneededWeaker(op: Op)
    requires Defines(op)
    ensures Weaker(op, Unneeded(op))
  {
    if Unneeded(op) == SetToNop(op) { WeakerNop(op); }
  }

  lemma NeededWeaker(op: Op)
    requires Flagged(op)
    ensures Weaker(op, op.(resUnused := false))
  {
  }

  lemma CleanOpWeaker(op: Op, global: seq<bool>, live: set<nat>)
    ensures Weaker(op, CleanOp(op, global, live))
  {
    WeakerItself(op);
    if Defines(op) { UnneededWeaker(op); }
    if Flagged(op) { NeededWeaker(op); }
  }

  lemma CleanedMadeFirst(g: Graph, g': Graph, global: seq<bool>, K: set<(nat, nat)>)
    requires InRange(g) && InRange(g') && CleanedAll(g, g', global) && MadeFirst(g.code, K)
    ensures MadeFirst(g'.code, K)
  {
    forall i | 0 <= i < |g.code| ensures Weaker(g.code[i], g'.code[i]) {
      var live := CleanedLine(g, g', global, i);
      CleanOpWeaker(g.code[i], global, live);
    }
    WeakerKeeps(g.code, g'.code, K);
  }

  // Exposed in the cleaned block means live at its start.
  lemma {:induction false} ExposedIsLive(ops: seq<Op>, global: seq<bool>, r: nat)
    requires Exposed(Clean(ops, global).0, r)
    ensures r in Clean(ops, global).1
    decreases |ops|
  {
    var all := Clean(ops, global).0;
    var (rest, live) := Clean(ops[1..], global);
    var op := CleanOp(ops[0], global, live);
    assert all[0] == op && all[1..] == rest;
    if !NeedsBefore(op, r) {
      ExposedInRest(all, r);
      ExposedIsLive(ops[1..], global, r);
      assert !DefinesSlot(op, r);
    }
  }

  lemma ExposedInRest(ops: seq<Op>, r: nat)
    requires Exposed(ops, r) && !NeedsBefore(ops[0], r)
    ensures Exposed(ops[1..], r) && !DefinesSlot(ops[0], r)
  {
    var i :| 0 <= i < |ops| && NeedsBefore(ops[i], r) && !WrittenBefore(ops, i, r);
    assert NeedsBefore(ops[1..][i - 1], r);
    forall j | 0 <= j < i - 1 ensures !DefinesSlot(ops[1..][j], r) { assert ops[1..][j] == ops[j + 1]; }
  }

  lemma CleanedMarks(g: Graph, g': Graph, global: seq<bool>, r: nat)
    requires CleanedAll(g, g', global) && Marks(g', r)
    ensures Marks(g, r)
  {
    var b: nat :| b < |g'.bb| && Exposed(Ops(g', b), r);
    ExposedIsLive(Ops(g, b), global, r);
    LiveIsExposed(Ops(g, b), global, r);
  }

  lemma CleanOpFlags(op: Op, global: seq<bool>, live: set<nat>)
    requires Flagged(CleanOp(op, global, live))
    ensures CleanOp(op, global, live).res == op.res && (Flagged(op) || !(op.res.n < |global| && global[op.res.n]))
  {
  }

  lemma CleanedFlags(g: Graph, g': Graph, global: seq<bool>, T: nat, bools: set<nat>)
    requires Inv(g, T, bools) && InRange(g') && CleanedAll(g, g', global) && FlagsUnmarked(g)
    requires |global| == T && forall r: nat :: r < T ==> (global[r] <==> Marks(g, r))
    ensures FlagsUnmarked(g')
  {
    forall i | 0 <= i < |g'.code| && Flagged(g'.code[i]) ensures !Marks(g', g'.code[i].res.n) {
      var live := CleanedLine(g, g', global, i);
      assert OpOk(g.code[i], T, bools);
      if g'.code[i] != g.code[i] { CleanOpFlags(g.code[i], global, live); }
      assert !Marks(g, g'.code[i].res.n);
      if Marks(g', g'.code[i].res.n) { CleanedMarks(g, g', global, g'.code[i].res.n); }
    }
  }

  lemma {:induction false} CleanedLast(ops: seq<Op>, global: seq<bool>)
    requires ops != []
    ensures Clean(ops, global).0[|ops| - 1] == CleanOp(ops[|ops| - 1], global, {})
    decreases |ops|
  {
    if |ops| > 1 {
      CleanedLast(ops[1..], global);
      assert ops[1..][|ops| - 2] == ops[|ops| - 1];
    } else {
      assert ops[1..] == [];
    }
  }

  lemma OpsEnd(g: Graph, b: nat)
    requires Ready(g, b) && g.bb[b].start == Some(b)
    ensures |Ops(g, b)| == g.bb[b].len && Last(g, b) == Ops(g, b)[g.bb[b].len - 1]
  {
  }

  lemma CleanedEnds(g: Graph, g': Graph, global: seq<bool>, b: nat)
    requires CleanedAll(g, g', global) && b < |g.bb| && Ready(g, b) && g.bb[b].start == Some(b)
    ensures Ready(g', b) && Last(g', b) == CleanOp(Last(g, b), global, {})
  {
    OpsEnd(g, b);
    OpsEnd(g', b);
    CleanedLast(Ops(g, b), global);
  }

  lemma CleanedFetch(g: Graph, g': Graph, global: seq<bool>, c: nat, r: nat)
    requires CleanedAll(g, g', global) && IsFetch(g, c, r)
    ensures IsFetch(g', c, r)
  {
    CleanedEnds(g, g', global, c);
  }

  lemma CleanedFetches(g: Graph, g': Graph, global: seq<bool>)
    requires InRange(g) && CleanedAll(g, g', global) && FetchesNext(g)
    ensures FetchesNext(g')
  {
    forall b: nat | b < |g'.bb| && g'.bb[b].used ensures FetchAt(g', b) {
      assert FetchAt(g, b) && BlockInRange(g, b);
      if Ready(g', b) && Last(g', b).code.FeReset? && Defines(Last(g', b)) {
        CleanedEnds(g, g', global, b);
        CleanedFetch(g, g', global, g.bb[b].follow.value, Last(g, b).res.n);
      }
    }
  }

  lemma CleanedIdle(g: Graph, g': Graph, global: seq<bool>, T: nat, bools: set<nat>, i: nat)
    requires Inv(g, T, bools) && InRange(g') && CleanedAll(g, g', global) && i < |g.code|
    ensures Idle(g.code[i]) ==> Idle(g'.code[i])
    ensures Leaves(g'.code[i]) ==> Leaves(g.code[i])
  {
    var live := CleanedLine(g, g', global, i);
    assert OpOk(g.code[i], T, bools);
  }

  lemma CleanedReturns(g: Graph, g': Graph, global: seq<bool>, T: nat, bools: set<nat>)
    requires Inv(g, T, bools) && InRange(g') && CleanedAll(g, g', global) && ReturnsLast(g)
    ensures ReturnsLast(g')
  {
    CleanedIdle(g, g', global, T, bools, |g.code| - 1);
    forall b: nat, j: nat {:trigger ReturnAt(g', b, j)} | b < |g'.bb| && g'.bb[b].used && Owns(g', b, j)
      && j < |g'.code| && Leaves(g'.code[j])
      ensures ReturnAt(g', b, j)
    {
      CleanedIdle(g, g', global, T, bools, j);
      assert Owns(g, b, j);
      assert ReturnAt(g, b, j);
      forall i: nat {:trigger Owns(g', b, i)} | Owns(g', b, i) && j < i < |g'.code| ensures Idle(g'.code[i]) {
        assert Owns(g, b, i);
        CleanedIdle(g, g', global, T, bools, i);
      }
    }
  }

  lemma CleanOpNeeds(op: Op, global: seq<bool>, live: set<nat>, after: set<nat>, after': set<nat>)
    requires Removable(op, global) && after' <= after && after' <= live
    ensures NeedsOp(CleanOp(op, global, live), after') <= NeedsOp(op, after)
  {
  }

  // A cleaned block needs no more than it did, ...
  lemma {:induction false} CleanedNeedsLess(ops: seq<Op>, global: seq<bool>)
    requires AllRemovable(ops, global)
    ensures Needs(Clean(ops, global).0) <= Needs(ops)
    decreases |ops|
  {
    if ops != [] {
      assert AllRemovable(ops[1..], global);
      CleanedNeedsLess(ops[1..], global);
      CleanedNeeds(ops[1..], global);
      var all := Clean(ops, global).0;
      var (rest, live) := Clean(ops[1..], global);
      assert all[0] == CleanOp(ops[0], global, live) && all[1..] == rest;
      assert Removable(ops[0], global);
      CleanOpNeeds(ops[0], global, live, Needs(ops[1..]), Needs(rest));
    }
  }

  // ... and still makes every global that it made.
  lemma {:induction false} CleanedMakes(ops: seq<Op>, global: seq<bool>, r: nat)
    requires r in MadeBy(ops) && r < |global| && global[r]
    ensures r in MadeBy(Clean(ops, global).0)
    decreases |ops|
  {
    var all := Clean(ops, global).0;
    var (rest, live) := Clean(ops[1..], global);
    assert all[0] == CleanOp(ops[0], global, live) && all[1..] == rest;
    if r in MadeBy(ops[1..]) { CleanedMakes(ops[1..], global, r); }
  }

  function Marked(global: seq<bool>): set<nat> {
    set r: nat | r < |global| && global[r]
  }

  lemma SeveralCertified(g: Graph, g': Graph, global: seq<bool>, D: seq<set<nat>>)
    requires Certified(g, D) && Cleaned(g, g', global) && GlobalSound(g, global) && CodeRemovable(g, global)
    ensures ReadsWritten(g')
  {
    var D' := seq(|D|, b requires 0 <= b < |D| => D[b] * Marked(global));
    CleanedNeedsGlobals(g, g', global);
    forall b: nat | b < |g'.bb| && g'.bb[b].used
      ensures Needs(Ops(g', b)) <= D'[b]
      ensures forall t: nat {:trigger HasEdge(g'.bb[b], t)} ::
                t < |g'.bb| && HasEdge(g'.bb[b], t) ==> D'[t] <= D'[b] + MadeBy(Ops(g', b))
    {
      assert forall c :: 0 <= c < |D| ==> D'[c] == D[c] * Marked(global);
      CleanedNeedsLess(Ops(g, b), global);
      forall r: nat | r in Needs(Ops(g', b)) ensures r in D'[b] { assert r in Needs(Ops(g, b)); }
      forall t: nat, r: nat | t < |g'.bb| && HasEdge(g'.bb[b], t) && r in D'[t]
        ensures r in D'[b] + MadeBy(Ops(g', b))
      {
        assert r in D[b] + MadeBy(Ops(g, b));
        if r !in D[b] { CleanedMakes(Ops(g, b), global, r); }
      }
    }
    assert Certified(g', D');
  }

  lemma SingleCertified(g: Graph, g': Graph, global: seq<bool>, D: seq<set<nat>>)
    requires Certified(g, D) && Cleaned(g, g', global) && OneBlock(g) && TypedOps(Ops(g, 0))
    ensures ReadsWritten(g')
  {
    var D' := seq(|D|, _ => {});
    SingleIsAlone(g);
    SingleRemovable(g, global);
    CleanedNeedsLess(Ops(g, 0), global);
    assert Certified(g', D');
  }

  // ----- what tame graphs are good for -----

  lemma InvBelow(g: Graph, T: nat, bools: set<nat>)
    requires Inv(g, T, bools)
    ensures AllBelow(g.code, T)
  {
    forall i | 0 <= i < |g.code| ensures Below(g.code[i], T) {
      assert OpOk(g.code[i], T, bools);
    }
  }

  lemma InvTyped(g: Graph, T: nat, bools: set<nat>)
    requires Inv(g, T, bools)
    ensures forall b :: 0 <= b < |g.bb| && g.bb[b].used ==> AllWellTyped(Ops(g, b))
  {
    forall b | 0 <= b < |g.bb| && g.bb[b].used ensures AllWellTyped(Ops(g, b)) {
      forall i | 0 <= i < |Ops(g, b)| ensures WellTyped(Ops(g, b)[i]) {
        assert BlockInRange(g, b);
        assert OpOk(g.code[b + i], T, bools);
      }
    }
  }

  lemma StraightBut(g: Graph, b: nat, i: nat)
    requires b < |g.bb| && BlockInRange(g, b) && Shaped(g, b) && i < |Ops(g, b)| && Control(Ops(g, b)[i].code)
    ensures Ready(g, b) && i == g.bb[b].len - 1 && Ops(g, b)[i] == Last(g, b)
  {
    var n := g.bb[b].len;
    assert forall k :: 0 <= k < n - 1 ==> g.code[b .. b + n - 1][k] == Ops(g, b)[k];
  }

  lemma FetchExposes(g: Graph, c: nat, r: nat)
    requires IsFetch(g, c, r)
    ensures Exposed(Ops(g, c), r)
  {
    assert Ops(g, c)[0] == g.code[c] && !WrittenBefore(Ops(g, c), 0, r);
  }

  lemma TameTyped(g: Graph, T: nat, bools: set<nat>)
    requires Inv(g, T, bools) && FetchesNext(g)
    ensures TypedGraph(g)
  {
    InvTyped(g, T, bools);
    forall b: nat | b < |g.bb| && g.bb[b].used ensures TypedOps(Ops(g, b)) && ResetsFetched(g, b) {
      assert AllWellTyped(Ops(g, b)) && BlockInRange(g, b) && Shaped(g, b);
      forall i | 0 <= i < |Ops(g, b)| && Ops(g, b)[i].code.FeReset? && Defines(Ops(g, b)[i])
        ensures exists c: nat :: c < |g.bb| && Exposed(Ops(g, c), Ops(g, b)[i].res.n)
      {
        StraightBut(g, b, i);
        assert FetchAt(g, b);
        FetchExposes(g, g.bb[b].follow.value, Last(g, b).res.n);
      }
    }
  }

  // A round of a block needs no more than the block does.
  lemma {:induction false} ReachingIsNeeded(ops: seq<Op>)
    ensures Reaching(ops, {}) <= Needs(ops)
    decreases |ops|
  {
    if ops != [] { ReachingIsNeeded(ops[1..]); }
  }

  lemma {:induction false} NothingNeeded(ops: seq<Op>, k: nat)
    requires Needs(ops) == {}
    ensures Needed(ops, k) == {}
    decreases k
  {
    if k > 0 {
      NothingNeeded(ops, k - 1);
      ReachingIsNeeded(ops);
    }
  }

  lemma TameHarmless(g: Graph, T: nat, bools: set<nat>)
    requires Inv(g, T, bools) && ReadsWritten(g)
    ensures Harmless(g)
  {
    var D: seq<set<nat>> :| Certified(g, D);
    assert Needs(Ops(g, 0)) <= D[0];
    forall k: nat ensures Needed(Ops(g, 0), k) == {} {
      NothingNeeded(Ops(g, 0), k);
    }
  }

  lemma CleanedFork(op: Op, global: seq<bool>, live: set<nat>, T: nat, bools: set<nat>)
    requires OpOk(op, T, bools) && Forked(op)
    ensures var op' := CleanOp(op, global, live); Forked(op') && (op'.code.Jmpznz? <==> op.code.Jmpznz?)
  {
  }

  lemma CleanedSplit(g: Graph, g': Graph, global: seq<bool>, b: nat, T: nat, bools: set<nat>)
    requires Inv(g, T, bools) && InRange(g') && CleanedAll(g, g', global) && b < |g.bb| && Parted(g, b)
    ensures Parted(g', b)
  {
    CleanedOnward(g, g', global, T, bools);
    InvClosed(g, T, bools);
    var last := b + g.bb[b].len - 1;
    var live := CleanedLine(g, g', global, last);
    CleanedFork(g.code[last], global, live, T, bools);
    SameParted(g, g', b, b);
  }

  lemma CleanedSplits(g: Graph, g': Graph, global: seq<bool>, K: set<(nat, nat)>, T: nat, bools: set<nat>)
    requires Inv(g, T, bools) && InRange(g') && CleanedAll(g, g', global) && AllSplit(g, K)
    ensures AllSplit(g', K)
  {
    forall k: nat, j: nat | (k, j) in K ensures Split(g', k, j) {
      if k < |g'.code| && !g'.code[k].code.Nop? {
        var live := CleanedLine(g, g', global, k);
        CleanedFits(g.code[k], global, live, T, bools, NONE);
        forall b: nat {:trigger Owns(g', b, k)} | b < |g'.bb| && g'.bb[b].used && Owns(g', b, k)
          ensures b + g'.bb[b].len == j + 1 && Parted(g', b)
        {
          assert Owns(g, b, k);
          CleanedSplit(g, g', global, b, T, bools);
        }
      }
    }
  }

  // compute_live_var leaves a tame graph tame.
  lemma CleanedTame(g: Graph, g': Graph, global: seq<bool>, T: nat, bools: set<nat>)
    requires Inv(g, T, bools) && Tame(g) && Cleaned(g, g', global) && CleanedAll(g, g', global)
    requires |global| == T && forall r: nat :: r < T ==> (global[r] <==> Marks(g, r))
    ensures Inv(g', T, bools) && Tame(g')
  {
    CleanedKeepsInv(g, g', global, T, bools);
    var K: set<(nat, nat)> :| MadeFirst(g.code, K) && AllSplit(g, K);
    CleanedMadeFirst(g, g', global, K);
    CleanedSplits(g, g', global, K, T, bools);
    CleanedFlags(g, g', global, T, bools);
    CleanedFetches(g, g', global);
    CleanedReturns(g, g', global, T, bools);
    CleanedCertified(g, g', global, T, bools);
  }

  lemma CleanedCertified(g: Graph, g': Graph, global: seq<bool>, T: nat, bools: set<nat>)
    requires Inv(g, T, bools) && ReadsWritten(g) && FetchesNext(g) && Cleaned(g, g', global)
    requires |global| == T && forall r: nat :: r < T ==> (global[r] <==> Marks(g, r))
    ensures ReadsWritten(g')
  {
    var D: seq<set<nat>> :| Certified(g, D);
    TameTyped(g, T, bools);
    InvClosed(g, T, bools);
    InvBelow(g, T, bools);
    if g.bb[0].next.Some? {
      MarkedIsSound(g, T, global);
      SeveralRemovable(g, global, T);
      SeveralCertified(g, g', global, D);
    } else {
      SingleCertified(g, g', global, D);
    }
  }
}
