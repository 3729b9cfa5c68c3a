// What the optimizer takes for granted about an op array, as conditions on the op array alone; and what they mean
// for the graph built from it.
module OrderlyCode {
  import opened Options
  import opened Opcodes
  import opened Graphs
  import opened Preds
  import opened Rewrites
  import opened Marking
  import opened BuildCfg
  import opened JumpRules
  import opened LiveVars
  import opened Renumber
  import opened Splits

  // ----- temporaries are written before they are read -----

  function MadeBy(ops: seq<Op>): set<nat> {
    if ops == [] then {} else (if Slot(ops[0].res) then {ops[0].res.n} else {}) + MadeBy(ops[1..])
  }

  // Before line i exactly temporaries in D[i] may be read: what every way to the line has written.
  ghost predicate WrittenBy(code: seq<Op>, D: seq<set<nat>>) {
    && |D| == |code| && (code != [] ==> D[0] == {})
    && (forall i :: 0 <= i < |code| ==> Needs([code[i]]) <= D[i])
    && forall i: nat, j: nat {:trigger GoesTo(code, i, j)} :: GoesTo(code, i, j) ==> D[j] <= D[i] + MadeBy([code[i]])
  }

  // The control flow as build_cfg sees it.
  predicate GoesTo(code: seq<Op>, i: nat, j: nat) {
    i < |code| && j < |code| && InEdges(EdgesFor(code[i], i + 1, |code|), j)
  }

  // ----- registers are given back where their temporary is made -----

  // The instruction makes its result, or may be marked as one whose result nobody reads.
  predicate MayClose(op: Op) {
    Slot(op.res) && (
      (!op.code.AddArrayElement? && op.op1 != op.res && (op.op2 != op.res || Ex(op.code)))
      || (op.res.Var? && !op.code.Recv? && (op.resUnused || op.code.Assign? || op.code.DoFcall?)))
  }

  // op may stand before an instruction that makes r: it does not mention r, or ends its block, or only makes r and
  // is removed unless r is read in between.
  predicate Yields(op: Op, r: nat, recv: bool) {
    || !Mentions(op, r)
    || (Control(op.code) && !Ex(op.code))
    || op.code.Return? || op.code.Exit?
    || SelfTest(op)
    || (!recv && Defines(op) && op.res.n == r && !Reads(op, r)
        && (op.code.Pure? || op.code.Bool? || op.code.Test? || Ex(op.code)))
  }

  predicate MakesOnly(op: Op) {
    MayClose(op) ==> !Reads(op, op.res.n) && !op.code.AddArrayElement?
  }

  predicate Quiet(op: Op) {
    op.code.Nop? ==> op.op1 == op.op2 == op.res == Unused
  }

  // NOPs have no operands, and nothing reads the temporary that it makes.
  ghost predicate Neat(code: seq<Op>) {
    forall i :: 0 <= i < |code| ==> MakesOnly(code[i]) && Quiet(code[i])
  }

  // No temporary is made again after it has been read, unless a split of K lies between.
  ghost predicate MadeFirst(code: seq<Op>, K: set<(nat, nat)>) {
    && Neat(code)
    && forall k: nat, i: nat :: k < i < |code| && MayClose(code[i]) ==>
         Yields(code[k], code[i].res.n, code[i].code.Recv?) || SplitBefore(K, k, i)
  }

  // A split of K lies between lines k and i.
  ghost predicate SplitBefore(K: set<(nat, nat)>, k: nat, i: nat) {
    exists j: nat :: (k, j) in K && j < i
  }

  // ----- results marked unused -----

  predicate Flagged(op: Op) {
    op.res.Var? && op.resUnused && !op.code.Recv?
  }

  ghost predicate UnusedUnread(code: seq<Op>) {
    forall i, k :: 0 <= i < |code| && 0 <= k < |code| && Flagged(code[i]) ==> !NeedsBefore(code[k], code[i].res.n)
  }

  // ----- loops over arrays -----

  // The compiler puts FE_FETCH right behind FE_RESET.
  ghost predicate FetchedFrom(code: seq<Op>) {
    forall i :: 0 <= i < |code| && code[i].code.FeReset? && Defines(code[i]) ==>
      i + 1 < |code| && code[i + 1].code.FeFetch? && Reads(code[i + 1], code[i].res.n)
  }

  // What the compiler emits: every temporary is written before it is read on every way through the code and not made
  // again after it has been read, unless a test whose ways stay apart lies between, as in $i++ && f(); results marked
  // unused are not read; FE_FETCH follows FE_RESET.
  ghost predicate Orderly(code: seq<Op>) {
    && (exists D: seq<set<nat>> :: WrittenBy(code, D))
    && MadeFirst(code, SplitLines(code)) && UnusedUnread(code) && FetchedFrom(code)
  }

  // ----- the same for graphs -----

  // The blocks read what every way to them has written.
  ghost predicate Certified(g: Graph, D: seq<set<nat>>) {
    && |D| == |g.bb| && (|D| > 0 ==> D[0] == {})
    && (forall b: nat :: b < |g.bb| && g.bb[b].used ==> Needs(Ops(g, b)) <= D[b])
    && forall b: nat, t: nat {:trigger HasEdge(g.bb[b], t)} ::
         b < |g.bb| && t < |g.bb| && g.bb[b].used && HasEdge(g.bb[b], t) ==> D[t] <= D[b] + MadeBy(Ops(g, b))
  }

  ghost predicate ReadsWritten(g: Graph) {
    exists D: seq<set<nat>> :: Certified(g, D)
  }

  ghost predicate FlagsUnmarked(g: Graph) {
    forall i :: 0 <= i < |g.code| && Flagged(g.code[i]) ==> !Marks(g, g.code[i].res.n)
  }

  // FE_RESET ends its block, and the next block is one FE_FETCH.
  ghost predicate FetchesNext(g: Graph) {
    forall b: nat :: b < |g.bb| && g.bb[b].used ==> FetchAt(g, b)
  }

  ghost predicate FetchAt(g: Graph, b: nat)
    requires b < |g.bb|
  {
    Ready(g, b) && Last(g, b).code.FeReset? && Defines(Last(g, b)) ==>
      && g.bb[b].follow.Some? && IsFetch(g, g.bb[b].follow.value, Last(g, b).res.n)
  }

  predicate IsFetch(g: Graph, c: nat, r: nat) {
    && c < |g.bb| && c < |g.code| && g.bb[c].start == Some(c) && g.bb[c].len == 1 && g.code[c].code.FeFetch?
    && Reads(g.code[c], r)
  }

  predicate Idle(op: Op) {
    op.code.Nop? || op.code.HandleException?
  }

  predicate Leaves(op: Op) {
    op.code.Return? || op.code.Exit?
  }

  // Behind a RETURN there is at most the last line, which does nothing.
  ghost predicate ReturnsLast(g: Graph) {
    && |g.code| > 0 && |g.bb| == |g.code| + 1
    && Idle(g.code[|g.code| - 1]) && EdgesOf(g.bb[|g.code| - 1]) == Edges(None, None, None, None)
    && forall b: nat, j: nat {:trigger ReturnAt(g, b, j)} ::
         b < |g.bb| && g.bb[b].used && Owns(g, b, j) && j < |g.code| && Leaves(g.code[j]) ==> ReturnAt(g, b, j)
  }

  ghost predicate ReturnAt(g: Graph, b: nat, j: nat)
    requires b < |g.bb|
  {
    && (g.bb[b].follow.None? || (|g.code| > 0 && g.bb[b].follow == Some(|g.code| - 1)))
    && forall i: nat {:trigger Owns(g, b, i)} :: Owns(g, b, i) && j < i < |g.code| ==> Idle(g.code[i])
  }

  ghost predicate MadeFirstIn(g: Graph) {
    exists K: set<(nat, nat)> :: MadeFirst(g.code, K) && AllSplit(g, K)
  }

  ghost predicate Tame(g: Graph) {
    ReadsWritten(g) && MadeFirstIn(g) && FlagsUnmarked(g) && FetchesNext(g) && ReturnsLast(g)
  }

  // ----- needs of sequences -----

  lemma {:induction false} NeedsMonotone(a: seq<Op>, b: seq<Op>, b': seq<Op>)
    requires Needs(b') <= Needs(b)
    ensures Needs(a + b') <= Needs(a + b)
    decreases |a|
  {
    if a == [] {
      assert a + b == b && a + b' == b';
    } else {
      assert (a + b)[1..] == a[1..] + b && (a + b')[1..] == a[1..] + b';
      NeedsMonotone(a[1..], b, b');
    }
  }

  // What the second part needs is made by the first or needed by both.
  lemma {:induction false} NeedsOrMade(a: seq<Op>, b: seq<Op>, r: nat)
    requires r in Needs(b)
    ensures r in Needs(a + b) || r in MadeBy(a)
    decreases |a|
  {
    if a == [] {
      assert a + b == b;
    } else {
      assert (a + b)[1..] == a[1..] + b;
      NeedsOrMade(a[1..], b, r);
    }
  }

  // What the first part makes is needed by both only if the first needs it.
  lemma {:induction false} MadeNotNeeded(a: seq<Op>, b: seq<Op>, r: nat)
    requires r in Needs(a + b) && r in MadeBy(a)
    ensures r in Needs(a)
    decreases |a|
  {
    if a != [] {
      assert (a + b)[1..] == a[1..] + b;
      if r in Needs(a[1..] + b) && r in MadeBy(a[1..]) { MadeNotNeeded(a[1..], b, r); }
    }
  }

  lemma {:induction false} NeedsOfSum(a: seq<Op>, b: seq<Op>, r: nat)
    requires r in Needs(a + b)
    ensures r in Needs(a) || r in Needs(b)
    decreases |a|
  {
    if a == [] {
      assert a + b == b;
    } else {
      assert (a + b)[1..] == a[1..] + b;
      if r in Needs(a[1..] + b) { NeedsOfSum(a[1..], b, r); }
    }
  }

  lemma {:induction false} MadeBySum(a: seq<Op>, b: seq<Op>)
    ensures MadeBy(a + b) == MadeBy(a) + MadeBy(b)
    decreases |a|
  {
    if a == [] {
      assert a + b == b;
    } else {
      assert (a + b)[1..] == a[1..] + b;
      MadeBySum(a[1..], b);
    }
  }

  lemma {:induction false} NeedsOfFirst(a: seq<Op>, b: seq<Op>)
    ensures Needs(a) <= Needs(a + b)
    decreases |a|
  {
    if a != [] {
      assert (a + b)[1..] == a[1..] + b;
      NeedsOfFirst(a[1..], b);
    }
  }

  // Two stretches of code one after the other, the second of which may read what D' holds.
  lemma NeedsOfBoth(a: seq<Op>, b: seq<Op>, D: set<nat>, D': set<nat>)
    requires Needs(a) <= D && Needs(b) <= D' && D' <= D + MadeBy(a)
    ensures Needs(a + b) <= D
  {
    forall r | r in Needs(a + b) ensures r in D {
      NeedsOfSum(a, b, r);
      if r !in Needs(a) && r in MadeBy(a) { MadeNotNeeded(a, b, r); }
    }
  }

  // ----- the graph as built -----

  lemma One(op: Op)
    ensures [op][0] == op && [op][1..] == [] && MadeBy([op]) == (if Slot(op.res) then {op.res.n} else {})
  {
    assert MadeBy([op][1..]) == {};
  }

  // From line i to the end of its block.
  lemma {:induction false} BlockWritten(code: seq<Op>, D: seq<set<nat>>, i: nat, m: nat)
    requires WrittenBy(code, D) && i < m <= |code| && forall k :: i <= k < m - 1 ==> !EndsBlock(code[k].code)
    ensures Needs(code[i..m]) <= D[i] && D[m - 1] <= D[i] + MadeBy(code[i..m - 1])
    decreases m - i
  {
    One(code[i]);
    if i + 1 < m {
      BlockWritten(code, D, i + 1, m);
      assert code[i..m] == [code[i]] + code[i + 1..m];
      assert code[i..m - 1] == [code[i]] + code[i + 1..m - 1];
      assert GoesTo(code, i, i + 1);
      NeedsOfBoth([code[i]], code[i + 1..m], D[i], D[i + 1]);
      MadeBySum([code[i]], code[i + 1..m - 1]);
    } else {
      assert code[i..m] == [code[i]] && code[i..m - 1] == [];
    }
  }

  lemma BuiltWritten(code: seq<Op>, bb: seq<Block>, D: seq<set<nat>>, b: nat)
    requires Built(code, bb) && WrittenBy(code, D) && b < |bb| && bb[b].start.Some?
    ensures b < |code| && Needs(Ops(Graph(code, bb), b)) <= D[b]
    ensures forall t: nat :: t < |code| && HasEdge(bb[b], t) ==> D[t] <= D[b] + MadeBy(Ops(Graph(code, bb), b))
  {
    BuiltFacts(code, bb, b);
    assert BuiltBlock(code, bb, b);
    var m := b + bb[b].len;
    forall k | b <= k < m - 1 ensures !EndsBlock(code[k].code) {
      assert StartsFor(bb, code[k], k);
    }
    BlockWritten(code, D, b, m);
    assert Ops(Graph(code, bb), b) == code[b..m] == code[b..m - 1] + [code[m - 1]];
    MadeBySum(code[b..m - 1], [code[m - 1]]);
    forall t: nat | t < |code| && HasEdge(bb[b], t) ensures D[t] <= D[b] + MadeBy(code[b..m]) {
      assert InEdges(EdgesOf(bb[b]), t);
      assert GoesTo(code, m - 1, t);
    }
  }

  // Marking changes nothing but lists and use.
  lemma MarkedBlocks(code: seq<Op>, bb: seq<Block>)
    requires Built(code, bb)
    ensures EdgesInRange(bb) && More(bb, MarkUsed(bb, 0))
    ensures forall b: nat :: b < |bb| && MarkUsed(bb, 0)[b].used ==> bb[b].start.Some?
  {
    BuiltLayout(code, bb);
    MarkUsedTheorem(bb);
    forall b: nat | b < |bb| && MarkUsed(bb, 0)[b].used ensures bb[b].start.Some? {
      ReachedIsStarted(code, bb, b);
    }
  }

  lemma StartsCertified(code: seq<Op>, bb: seq<Block>, D: seq<set<nat>>)
    requires Built(code, bb) && EdgesInRange(bb) && WrittenBy(code, D)
    ensures Certified(Graph(code, MarkUsed(bb, 0)), D + [{}])
  {
    MarkedBlocks(code, bb);
    var g, D' := Graph(code, MarkUsed(bb, 0)), D + [{}];
    forall b: nat | b < |g.bb| && g.bb[b].used
      ensures Needs(Ops(g, b)) <= D'[b]
      ensures forall t: nat :: t < |g.bb| && HasEdge(g.bb[b], t) ==> D'[t] <= D'[b] + MadeBy(Ops(g, b))
    {
      BuiltWritten(code, bb, D, b);
      BuiltEdges(code, bb, b);
      assert Ops(g, b) == Ops(Graph(code, bb), b);
      forall t: nat | t < |g.bb| && HasEdge(g.bb[b], t) ensures D'[t] <= D'[b] + MadeBy(Ops(g, b)) {
        assert HasEdge(bb[b], t);
        assert t < |code| ==> D'[t] == D[t];
      }
    }
  }

  lemma NothingMarks(g: Graph, r: nat)
    requires forall k :: 0 <= k < |g.code| ==> !NeedsBefore(g.code[k], r)
    ensures !Marks(g, r)
  {
    forall b: nat | b < |g.bb| ensures !Exposed(Ops(g, b), r) {
      forall i | 0 <= i < |Ops(g, b)| ensures !NeedsBefore(Ops(g, b)[i], r) {
        assert Ops(g, b)[i] == g.code[g.bb[b].start.value + i];
      }
    }
  }

  lemma StartsUnmarked(g: Graph)
    requires UnusedUnread(g.code)
    ensures FlagsUnmarked(g)
  {
    forall i | 0 <= i < |g.code| && Flagged(g.code[i]) ensures !Marks(g, g.code[i].res.n) {
      NothingMarks(g, g.code[i].res.n);
    }
  }

  lemma StartsFetching(code: seq<Op>, bb: seq<Block>)
    requires Built(code, bb) && EdgesInRange(bb) && FetchedFrom(code)
    ensures FetchesNext(Graph(code, MarkUsed(bb, 0)))
  {
    MarkedBlocks(code, bb);
    var g := Graph(code, MarkUsed(bb, 0));
    forall b: nat | b < |g.bb| && g.bb[b].used ensures FetchAt(g, b) {
      if Ready(g, b) && Last(g, b).code.FeReset? && Defines(Last(g, b)) { FetchBuilt(code, bb, g, b); }
    }
  }

  lemma {:induction false} FetchBuilt(code: seq<Op>, bb: seq<Block>, g: Graph, b: nat)
    requires Built(code, bb) && FetchedFrom(code) && g.code == code && More(bb, g.bb) && b < |bb| && bb[b].start.Some?
    requires Ready(g, b) && Last(g, b).code.FeReset? && Defines(Last(g, b))
    ensures FetchAt(g, b)
  {
    BuiltFacts(code, bb, b);
    assert BuiltBlock(code, bb, b);
    var c := b + bb[b].len;
    assert g.bb[b].len == bb[b].len && Last(g, b) == code[c - 1];
    assert StartsFor(bb, code[c - 1], c - 1);
    assert Started(bb, c);
    assert bb[b].next == Some(c) && bb[b].follow == Some(c);
    OneLine(code, bb, c);
    assert g.bb[c].start == bb[c].start && g.bb[c].len == bb[c].len;
  }

  // An instruction that ends its block and starts it.
  lemma OneLine(code: seq<Op>, bb: seq<Block>, c: nat)
    requires Built(code, bb) && c < |code| && Started(bb, c) && EndsBlock(code[c].code)
    ensures bb[c].len == 1
  {
    BuiltFacts(code, bb, c);
    assert StartsFor(bb, code[c], c);
  }

  lemma ReturnsBuilt(code: seq<Op>, bb: seq<Block>, b: nat, j: nat)
    requires Built(code, bb) && b < |bb| && bb[b].start.Some? && Owns(Graph(code, bb), b, j) && j < |code|
    requires Leaves(code[j])
    ensures j == b + bb[b].len - 1 && bb[b].follow == Some(|code| - 1)
  {
    BuiltFacts(code, bb, b);
    assert BuiltBlock(code, bb, b);
    assert StartsFor(bb, code[j], j);
    assert Started(bb, j + 1);
  }

  lemma StartsReturning(code: seq<Op>, bb: seq<Block>)
    requires Built(code, bb) && EdgesInRange(bb)
    ensures ReturnsLast(Graph(code, MarkUsed(bb, 0)))
  {
    MarkedBlocks(code, bb);
    var g, n := Graph(code, MarkUsed(bb, 0)), |code|;
    assert StartsFor(bb, code[n - 2], n - 2);
    assert BuiltBlock(code, bb, n - 1);
    BuiltFacts(code, bb, n - 1);
    forall b: nat, j: nat {:trigger ReturnAt(g, b, j)} | b < |g.bb| && g.bb[b].used && Owns(g, b, j) && j < n
      && Leaves(g.code[j])
      ensures ReturnAt(g, b, j)
    {
      assert Owns(Graph(code, bb), b, j);
      ReturnsBuilt(code, bb, b, j);
    }
  }

  lemma StartsSplit(code: seq<Op>, bb: seq<Block>)
    requires Built(code, bb) && OnlyLeaders(code, bb, |code|) && EdgesInRange(bb)
    ensures AllSplit(Graph(code, MarkUsed(bb, 0)), SplitLines(code))
  {
    MarkedBlocks(code, bb);
    forall k: nat, j: nat | (k, j) in SplitLines(code) ensures Split(Graph(code, MarkUsed(bb, 0)), k, j) {
      LineSplits(code, bb, MarkUsed(bb, 0), k, j);
    }
  }

  // The graph that optimize_jmp gets first.
  lemma StartsTame(code: seq<Op>, bb: seq<Block>)
    requires Built(code, bb) && OnlyLeaders(code, bb, |code|) && EdgesInRange(bb) && Orderly(code)
    ensures Tame(Graph(code, MarkUsed(bb, 0)))
  {
    var D: seq<set<nat>> :| WrittenBy(code, D);
    StartsCertified(code, bb, D);
    StartsUnmarked(Graph(code, MarkUsed(bb, 0)));
    StartsFetching(code, bb);
    StartsReturning(code, bb);
    StartsSplit(code, bb);
  }
}
