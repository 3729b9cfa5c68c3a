// Blocks of orderly code, cleaned, give every register back where its temporary is made: one live range each.
module CleanedRanges {
  import opened Options
  import opened Opcodes
  import opened Graphs
  import opened Rewrites
  import opened JumpRules
  import opened Trails
  import opened LiveVars
  import opened Renumber
  import opened RegisterAllocator
  import opened OrderlyCode
  import opened Splits
  import opened OrderlySteps
  import opened CleanedGraphs

  // The instruction only makes r, and nothing but that.
  predicate OnlyMakes(op: Op, r: nat) {
    Defines(op) && op.res.n == r && !Reads(op, r) && (op.code.Pure? || op.code.Bool? || op.code.Test?)
  }

  // r is made at i, and at most made before.
  ghost predicate MadeAt(all: seq<Op>, i: nat, r: nat) {
    && i < |all| && Slot(all[i].res) && all[i].res.n == r && !all[i].code.Recv? && !all[i].code.AddArrayElement?
    && !Reads(all[i], r)
    && forall k :: 0 <= k < i ==> !Mentions(all[k], r) || OnlyMakes(all[k], r)
  }

  lemma MadeAtRest(all: seq<Op>, i: nat, r: nat)
    requires MadeAt(all, i, r) && i > 0
    ensures MadeAt(all[1..], i - 1, r)
  {
    forall k | 0 <= k < i - 1 ensures !Mentions(all[1..][k], r) || OnlyMakes(all[1..][k], r) {
      assert all[1..][k] == all[k + 1];
    }
  }

  lemma {:induction false} NotLiveBefore(ops: seq<Op>, global: seq<bool>, i: nat, r: nat)
    requires MadeAt(Clean(ops, global).0, i, r)
    ensures r !in Clean(ops, global).1
    decreases |ops|
  {
    var all := Clean(ops, global).0;
    var (rest, live) := Clean(ops[1..], global);
    assert all[0] == CleanOp(ops[0], global, live) && all[1..] == rest;
    if i > 0 {
      MadeAtRest(all, i, r);
      NotLiveBefore(ops[1..], global, i - 1, r);
    }
  }

  // What would only be made again is gone.
  lemma {:induction false} MadeOnce(ops: seq<Op>, global: seq<bool>, i: nat, r: nat, j: nat)
    requires MadeAt(Clean(ops, global).0, i, r) && !(r < |global| && global[r]) && j < i
    ensures !Mentions(Clean(ops, global).0[j], r)
    decreases |ops|
  {
    var all := Clean(ops, global).0;
    var (rest, live) := Clean(ops[1..], global);
    assert all[0] == CleanOp(ops[0], global, live) && all[1..] == rest;
    MadeAtRest(all, i, r);
    if j == 0 {
      NotLiveBefore(ops[1..], global, i - 1, r);
    } else {
      MadeOnce(ops[1..], global, i - 1, r, j - 1);
    }
  }

  lemma OpsAt(g: Graph, b: nat, i: nat)
    requires b < |g.bb| && BlockInRange(g, b) && i < |Ops(g, b)|
    ensures b + i < |g.code| && Ops(g, b)[i] == g.code[b + i] && Owns(g, b, b + i) && |Ops(g, b)| == g.bb[b].len
  {
  }

  lemma IdleMakesNothing(op: Op, T: nat, bools: set<nat>)
    requires OpOk(op, T, bools) && Idle(op)
    ensures !MayClose(op)
  {
  }

  // In front of another instruction of its block that makes a result stands no RETURN.
  lemma NoneLeaves(g: Graph, b: nat, k: nat, i: nat, T: nat, bools: set<nat>)
    requires Inv(g, T, bools) && ReturnsLast(g) && b < |g.bb| && g.bb[b].used && k < i < |Ops(g, b)|
    requires MayClose(Ops(g, b)[i])
    ensures !Leaves(Ops(g, b)[k])
  {
    assert BlockInRange(g, b);
    OpsAt(g, b, k);
    OpsAt(g, b, i);
    var op := g.code[b + i];
    assert OpOk(op, T, bools);
    if Leaves(g.code[b + k]) {
      IdleBehind(g, b, b + k, b + i);
      IdleMakesNothing(op, T, bools);
      assert false;
    }
  }

  // No split lies inside a block.
  lemma YieldsOrGone(g: Graph, b: nat, k: nat, i: nat)
    requires MadeFirstIn(g) && b < |g.bb| && g.bb[b].used && k < i < g.bb[b].len && b + i < |g.code|
    requires MayClose(g.code[b + i])
    ensures Yields(g.code[b + k], g.code[b + i].res.n, g.code[b + i].code.Recv?)
  {
    var K: set<(nat, nat)> :| MadeFirst(g.code, K) && AllSplit(g, K);
    if SplitBefore(K, b + k, b + i) {
      var j: nat :| (b + k, j) in K && j < b + i;
      assert Splits.Split(g, b + k, j) && Owns(g, b, b + k) && Quiet(g.code[b + k]);
    }
  }

  // What may stand before an instruction that makes r, in the middle of a block.
  lemma YieldsInside(g: Graph, b: nat, k: nat, i: nat, T: nat, bools: set<nat>)
    requires Inv(g, T, bools) && MadeFirstIn(g) && ReturnsLast(g) && b < |g.bb| && g.bb[b].used && k < i < |Ops(g, b)|
    requires MayClose(Ops(g, b)[i])
    ensures var op, r := Ops(g, b)[k], Ops(g, b)[i].res.n;
            !Mentions(op, r) || (OnlyMakes(op, r) && !Ops(g, b)[i].code.Recv?)
  {
    assert BlockInRange(g, b) && Shaped(g, b);
    OpsAt(g, b, k);
    OpsAt(g, b, i);
    YieldsOrGone(g, b, k, i);
    if Control(Ops(g, b)[k].code) {
      StraightBut(g, b, k);
      assert false;
    }
    NoneLeaves(g, b, k, i, T, bools);
  }

  lemma ClosesMeans(op: Op, global: seq<bool>)
    requires Closes(op, global)
    ensures MayClose(op)
    ensures Flagged(op) || !(op.res.n < |global| && global[op.res.n])
  {
  }

  lemma BlockRange(g: Graph, g1: Graph, global: seq<bool>, T: nat, bools: set<nat>, b: nat, i: nat)
    requires Inv(g1, T, bools) && MadeFirstIn(g1) && ReturnsLast(g1) && FlagsUnset(g1, global)
    requires b < |g1.bb| == |g.bb| && g1.bb[b].used && Ops(g1, b) == Clean(Ops(g, b), global).0
    requires i < |Ops(g1, b)| && Closes(Ops(g1, b)[i], global)
    ensures var r := Ops(g1, b)[i].res.n;
            && !(r < |global| && global[r]) && !Reads(Ops(g1, b)[i], r) && !Ops(g1, b)[i].code.AddArrayElement?
            && forall j :: 0 <= j < i ==> !Mentions(Ops(g1, b)[j], r)
  {
    var ops := Ops(g1, b);
    var r := ops[i].res.n;
    assert BlockInRange(g1, b);
    OpsAt(g1, b, i);
    ClosesMeans(ops[i], global);
    var K: set<(nat, nat)> :| MadeFirst(g1.code, K) && AllSplit(g1, K);
    assert MakesOnly(g1.code[b + i]);
    forall k | 0 <= k < i ensures !Mentions(ops[k], r) || (OnlyMakes(ops[k], r) && !ops[i].code.Recv?) {
      YieldsInside(g1, b, k, i, T, bools);
    }
    if !ops[i].code.Recv? {
      assert MadeAt(ops, i, r);
      forall j | 0 <= j < i ensures !Mentions(ops[j], r) {
        MadeOnce(Ops(g, b), global, i, r, j);
      }
    }
  }

  ghost predicate FlagsUnset(g: Graph, global: seq<bool>) {
    forall i :: 0 <= i < |g.code| && Flagged(g.code[i]) ==> !(g.code[i].res.n < |global| && global[g.code[i].res.n])
  }

  // After the last compute_live_var results marked unused are no globals.
  lemma CleanedFlagsUnset(g: Graph, g1: Graph, global: seq<bool>, T: nat, bools: set<nat>)
    requires Inv(g, T, bools) && InRange(g1) && CleanedAll(g, g1, global) && FlagsUnmarked(g)
    requires |global| == T && forall r: nat :: r < T ==> (global[r] <==> Marks(g, r))
    ensures FlagsUnset(g1, global)
  {
    forall i | 0 <= i < |g1.code| && Flagged(g1.code[i])
      ensures !(g1.code[i].res.n < |global| && global[g1.code[i].res.n])
    {
      var live := CleanedLine(g, g1, global, i);
      if g1.code[i] != g.code[i] { CleanOpFlags(g.code[i], global, live); }
    }
  }

  // The blocks of the graph that reassign_registers gets.
  lemma LastRanges(g: Graph, g1: Graph, last: Graph, global: seq<bool>, T: nat, bools: set<nat>)
    requires Inv(g, T, bools) && Tame(g) && Cleaned(g, g1, global) && CleanedAll(g, g1, global) && SameAlive(g1, last)
    requires |global| == T && forall r: nat :: r < T ==> (global[r] <==> Marks(g, r))
    ensures AllRangesOk(last, global)
  {
    CleanedTame(g, g1, global, T, bools);
    CleanedFlagsUnset(g, g1, global, T, bools);
    forall b: nat | b < |last.bb| && last.bb[b].used ensures RangesOk(Ops(last, b), global) {
      assert AliveAt(g1, last, b);
      forall i | 0 <= i < |Ops(g1, b)| && Closes(Ops(g1, b)[i], global)
        ensures var r := Ops(g1, b)[i].res.n;
                && !(r < |global| && global[r]) && !Reads(Ops(g1, b)[i], r) && !Ops(g1, b)[i].code.AddArrayElement?
                && forall j :: 0 <= j < i ==> !Mentions(Ops(g1, b)[j], r)
      {
        BlockRange(g, g1, global, T, bools, b, i);
      }
    }
  }
}
