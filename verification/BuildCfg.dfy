// build_cfg: splits an op array into basic blocks and links them.
module BuildCfg {
  import opened Options
  import opened Opcodes
  import opened Graphs
  import opened Preds
  import opened Rewrites
  import opened Ways
  import opened Marking
  import opened Flat

  // What the compiler hands over: jumps stay inside, and the code ends in RETURN; HANDLE_EXCEPTION.
  predicate Compiled(code: seq<Op>) {
    && 2 <= |code|
    && code[|code| - 1].code.HandleException?
    && (code[|code| - 2].code.Return? || code[|code| - 2].code.Exit?)
    && forall i :: 0 <= i < |code| ==> TargetsInside(code[i], |code|)
  }

  predicate TargetsInside(op: Op, n: nat) {
    && (op.code.Jmp? ==> op.to1 < n)
    && (TwoWay(op.code) || op.code.Jmpznz? ==> op.to2 < n)
    && (op.code.Jmpznz? ==> op.ext < n)
  }

  // Opcodes after which a new block starts.
  predicate EndsBlock(c: Opcode) {
    Control(c) || c.Return? || c.Exit? || c.DoFcall?
  }

  // The switch of the second loop; `line` is the line after op.
  function EdgesFor(op: Op, line: nat, n: nat): Edges
    requires 0 < n
  {
    if op.code.Jmp? then Edges(Some(op.to1), None, None, None)
    else if op.code.Jmpznz? then Edges(None, Some(op.to2), Some(op.ext), None)
    else if TwoWay(op.code) then Edges(None, Some(op.to2), None, Some(line))
    else if op.code.Return? || op.code.Exit? then Edges(None, None, None, Some(n - 1))
    else Edges(None, None, None, Some(line))
  }

  // The jump at line i leads to line j.
  predicate JumpsTo(code: seq<Op>, i: nat, j: nat) {
    i < |code| && Control(code[i].code) && InEdges(EdgesFor(code[i], i + 1, |code|), j)
  }

  // S has every line that jumps alone lead to from a line of S.
  ghost predicate LinesIn(code: seq<Op>, S: set<nat>) {
    forall i: nat, j: nat {:trigger JumpsTo(code, i, j), i in S} :: i in S && JumpsTo(code, i, j) ==> j in S
  }

  // The test at line i jumps to where jumps alone do not lead to the next line.
  ghost predicate LineApart(code: seq<Op>, i: nat)
    requires i < |code|
  {
    exists S: set<nat> :: LinesIn(code, S) && code[i].to2 in S && i + 1 !in S
  }

  // Every JMPZ_EX or JMPNZ_EX that keeps its outcome where it found it tests a Boolean, or jumps to where jumps alone
  // do not lead to the next line.
  ghost predicate SelfTestsOk(code: seq<Op>, bools: set<nat>) {
    forall i: nat {:trigger LineApart(code, i)} ::
      i < |code| && SelfTest(code[i]) && code[i].res.n !in bools ==> LineApart(code, i)
  }

  predicate Started(bb: seq<Block>, i: nat) {
    i < |bb| && bb[i].start == Some(i)
  }

  // The blocks that line i forces to exist.
  predicate StartsFor(bb: seq<Block>, op: Op, i: nat) {
    && (EndsBlock(op.code) ==> Started(bb, i + 1))
    && (op.code.Jmp? ==> Started(bb, op.to1))
    && (TwoWay(op.code) || op.code.Jmpznz? ==> Started(bb, op.to2))
    && (op.code.Jmpznz? ==> Started(bb, op.ext))
  }

  // The line that starts a block because of the instruction at line j.
  predicate LeadsTo(op: Op, j: nat, i: nat) {
    || (EndsBlock(op.code) && i == j + 1)
    || (op.code.Jmp? && i == op.to1)
    || ((TwoWay(op.code) || op.code.Jmpznz?) && i == op.to2)
    || (op.code.Jmpznz? && i == op.ext)
  }

  // Line 0, or where one of the first n instructions makes a block start.
  ghost predicate Leader(code: seq<Op>, n: nat, i: nat) {
    i == 0 || exists j: nat {:trigger LeadsTo(code[j], j, i)} :: j < n && j < |code| && LeadsTo(code[j], j, i)
  }

  ghost predicate OnlyLeaders(code: seq<Op>, bb: seq<Block>, n: nat) {
    forall i: nat {:trigger Leader(code, n, i)} :: Started(bb, i) ==> Leader(code, n, i)
  }

  function Start(bb: seq<Block>, i: nat): (r: seq<Block>)
    requires i < |bb|
    ensures |r| == |bb|
  {
    bb[i := bb[i].(start := Some(i))]
  }

  // Nothing but block starts has been set.
  ghost predicate OnlyStarts(bb: seq<Block>) {
    forall i :: 0 <= i < |bb| ==> bb[i] == EMPTY || bb[i] == EMPTY.(start := Some(i))
  }

  ghost predicate MoreStarts(bb: seq<Block>, bb': seq<Block>) {
    |bb'| == |bb| && OnlyStarts(bb') && forall i: nat :: Started(bb, i) ==> Started(bb', i)
  }

  // if (c) bbs[i].start = code + i
  method StartIf(bb: seq<Block>, c: bool, i: nat) returns (r: seq<Block>)
    requires OnlyStarts(bb) && (c ==> i < |bb|)
    ensures MoreStarts(bb, r) && (c ==> Started(r, i))
    ensures forall k :: 0 <= k < |bb| && !(c && k == i) ==> r[k] == bb[k]
  {
    r := if c then Start(bb, i) else bb;
  }

  // One line of the first loop.
  method StartBlocks(bb: seq<Block>, op: Op, line: nat) returns (r: seq<Block>)
    requires OnlyStarts(bb) && line + 1 < |bb| && TargetsInside(op, |bb| - 1)
    ensures MoreStarts(bb, r) && StartsFor(r, op, line)
    ensures forall i: nat :: Started(r, i) ==> Started(bb, i) || LeadsTo(op, line, i)
    ensures bb[|bb| - 1].start.None? && (EndsBlock(op.code) ==> line + 1 < |bb| - 1) ==> r[|bb| - 1].start.None?
  {
    r := StartIf(bb, op.code.Jmp?, op.to1);
    r := StartIf(r, op.code.Jmpznz?, op.ext);
    r := StartIf(r, TwoWay(op.code) || op.code.Jmpznz?, op.to2);
    r := StartIf(r, EndsBlock(op.code), line + 1);
  }

  lemma MoreStartsKeep(bb: seq<Block>, bb': seq<Block>, op: Op, i: nat)
    requires MoreStarts(bb, bb') && StartsFor(bb, op, i)
    ensures StartsFor(bb', op, i)
  {
  }

  lemma OneMoreLine(code: seq<Op>, bb: seq<Block>, bb': seq<Block>, line: nat)
    requires line < |code| && OnlyLeaders(code, bb, line)
    requires forall i: nat :: Started(bb', i) ==> Started(bb, i) || LeadsTo(code[line], line, i)
    ensures OnlyLeaders(code, bb', line + 1)
  {
    forall i: nat | Started(bb', i) ensures Leader(code, line + 1, i) {
      if i != 0 && !LeadsTo(code[line], line, i) {
        assert Leader(code, line, i);
        var j: nat :| j < line && j < |code| && LeadsTo(code[j], j, i);
        assert LeadsTo(code[j], j, i);
      }
    }
  }

  // Find Starts of Basic Blocks
  ghost predicate LinesStart(code: seq<Op>, bb: seq<Block>, n: nat)
    requires n <= |code|
  {
    forall i :: 0 <= i < n ==> StartsFor(bb, code[i], i)
  }

  lemma LinesKept(code: seq<Op>, bb: seq<Block>, bb': seq<Block>, line: nat)
    requires line < |code| && LinesStart(code, bb, line) && MoreStarts(bb, bb') && StartsFor(bb', code[line], line)
    ensures LinesStart(code, bb', line + 1)
  {
    forall i | 0 <= i < line ensures StartsFor(bb', code[i], i) {
      MoreStartsKeep(bb, bb', code[i], i);
    }
  }

  method FindStarts(code: seq<Op>) returns (bb: seq<Block>)
    requires Compiled(code)
    ensures |bb| == |code| + 1 && OnlyStarts(bb) && Started(bb, 0) && bb[|code|].start.None?
    ensures LinesStart(code, bb, |code|) && OnlyLeaders(code, bb, |code|)
  {
    var n := |code|;
    bb := Start(seq(n + 1, _ => EMPTY), 0);
    var line := 0;
    while line < n
      invariant 0 <= line <= n && |bb| == n + 1 && OnlyStarts(bb) && Started(bb, 0) && bb[n].start.None?
      invariant LinesStart(code, bb, line) && OnlyLeaders(code, bb, line)
    {
      ghost var bb0 := bb;
      assert TargetsInside(code[line], n);
      bb := StartBlocks(bb, code[line], line);
      LinesKept(code, bb0, bb, line);
      OneMoreLine(code, bb0, bb, line);
      line := line + 1;
    }
  }

  // Block b ends at line n, where the next block starts.
  ghost predicate Finished(code: seq<Op>, bb: seq<Block>, b: nat, n: nat) {
    && b < n < |code| == |bb| - 1
    && bb[b] == WithEdges(EMPTY, EdgesFor(code[n - 1], n, |code|)).(start := Some(b), len := n - b, next := Some(n))
    && Started(bb, n)
    && forall i :: b < i < n ==> bb[i].start.None?
  }

  // The last block has no edges.
  ghost predicate FinishedLast(code: seq<Op>, bb: seq<Block>, b: nat) {
    && b < |code| == |bb| - 1
    && bb[b] == EMPTY.(start := Some(b), len := |code| - b)
    && forall i :: b < i < |bb| ==> bb[i].start.None?
  }

  ghost predicate Built(code: seq<Op>, bb: seq<Block>) {
    && Compiled(code) && |bb| == |code| + 1 && Started(bb, 0)
    && (forall i :: 0 <= i < |code| ==> StartsFor(bb, code[i], i))
    && forall b :: 0 <= b < |bb| ==> BuiltBlock(code, bb, b)
  }

  ghost predicate BuiltBlock(code: seq<Op>, bb: seq<Block>, b: nat)
    requires b < |bb|
  {
    if bb[b].start.None? then bb[b] == EMPTY
    else if bb[b].next.Some? then Finished(code, bb, b, bb[b].next.value)
    else FinishedLast(code, bb, b)
  }

  // The blocks before p are done.
  ghost predicate DoneBefore(code: seq<Op>, bb: seq<Block>, p: nat) {
    |bb| == |code| + 1 && p <= |bb|
    && forall b :: 0 <= b < p ==>
         if bb[b].start.None? then bb[b] == EMPTY else bb[b].next.Some? && Finished(code, bb, b, bb[b].next.value)
  }

  // The blocks after p have at most been started.
  ghost predicate FreshAfter(bb: seq<Block>, p: nat) {
    forall b :: p < b < |bb| ==> bb[b] == EMPTY || bb[b] == EMPTY.(start := Some(b))
  }

  ghost predicate SameStarts(bb: seq<Block>, bb': seq<Block>) {
    |bb'| == |bb| && forall i :: 0 <= i < |bb| ==> bb'[i].start == bb[i].start
  }

  lemma FinishBlock(code: seq<Op>, bb: seq<Block>, bb': seq<Block>, p: nat, line: nat)
    requires p < line < |code| && DoneBefore(code, bb, p) && FreshAfter(bb, p)
    requires bb[p] == EMPTY.(start := Some(p)) && (forall i :: p < i < line ==> bb[i].start.None?)
    requires bb[line].start.Some?
    requires bb' == bb[p := WithEdges(EMPTY, EdgesFor(code[line - 1], line, |code|)).(start := Some(p),
          len := line - p, next := Some(line))]
    ensures DoneBefore(code, bb', line) && FreshAfter(bb', line) && SameStarts(bb, bb')
    ensures bb'[line] == EMPTY.(start := Some(line))
  {
    forall b | 0 <= b < line
      ensures if bb'[b].start.None? then bb'[b] == EMPTY
              else bb'[b].next.Some? && Finished(code, bb', b, bb'[b].next.value)
    {
      if b < p && bb[b].start.Some? { assert Finished(code, bb, b, bb[b].next.value); }
    }
  }

  lemma FinishLast(code: seq<Op>, bb: seq<Block>, bb': seq<Block>, p: nat)
    requires p < |code| && DoneBefore(code, bb, p) && FreshAfter(bb, p)
    requires bb[p] == EMPTY.(start := Some(p)) && forall i :: p < i < |bb| ==> bb[i].start.None?
    requires bb' == bb[p := bb[p].(len := |code| - p)]
    ensures SameStarts(bb, bb') && forall b :: 0 <= b < |bb'| ==> BuiltBlock(code, bb', b)
  {
    forall b | 0 <= b < |bb'| ensures BuiltBlock(code, bb', b) {
      if b < p && bb[b].start.Some? { assert Finished(code, bb, b, bb[b].next.value); }
    }
  }

  // Block p has been started, and no other one before the line.
  ghost predicate OpenAt(bb: seq<Block>, p: nat, line: nat) {
    p < line <= |bb| && bb[p] == EMPTY.(start := Some(p)) && forall i :: p < i < line ==> bb[i].start.None?
  }

  lemma StillOpen(bb: seq<Block>, p: nat, line: nat)
    requires OpenAt(bb, p, line) && line < |bb| && bb[line].start.None?
    ensures OpenAt(bb, p, line + 1)
  {
  }

  // Block p ends where block `line` starts.
  method CloseBlock(code: seq<Op>, bb: seq<Block>, p: nat, line: nat) returns (bb': seq<Block>)
    requires p < line < |code| && DoneBefore(code, bb, p) && FreshAfter(bb, p)
    requires OpenAt(bb, p, line) && bb[line].start.Some?
    ensures DoneBefore(code, bb', line) && FreshAfter(bb', line) && SameStarts(bb, bb') && OpenAt(bb', line, line + 1)
  {
    bb' := bb[p := bb[p].(len := line - p, next := Some(line))];
    bb' := bb'[p := WithEdges(bb'[p], EdgesFor(code[line - 1], line, |code|))];
    FinishBlock(code, bb, bb', p, line);
  }

  // Find Lengths of Basic Blocks and build CFG
  method Build(code: seq<Op>) returns (bb: seq<Block>)
    requires Compiled(code)
    ensures Built(code, bb) && OnlyLeaders(code, bb, |code|)
  {
    bb := FindStarts(code);
    ghost var starts := bb;
    var n := |code|;
    var p, line := 0, 1;
    while line < n
      invariant p < line <= n && |bb| == n + 1 && SameStarts(starts, bb)
      invariant OpenAt(bb, p, line)
      invariant DoneBefore(code, bb, p) && FreshAfter(bb, p)
    {
      if bb[line].start.Some? {
        bb := CloseBlock(code, bb, p, line);
        p := line;
      } else {
        StillOpen(bb, p, line);
      }
      line := line + 1;
    }
    ghost var bb0 := bb;
    bb := bb[p := bb[p].(len := n - p)];
    FinishLast(code, bb0, bb, p);
    KeepsStarts(code, starts, bb);
    KeepsLeaders(code, starts, bb);
  }

  lemma KeepsStarts(code: seq<Op>, bb: seq<Block>, bb': seq<Block>)
    requires SameStarts(bb, bb')
    requires forall i :: 0 <= i < |code| ==> StartsFor(bb, code[i], i)
    ensures forall i :: 0 <= i < |code| ==> StartsFor(bb', code[i], i)
  {
  }

  lemma KeepsLeaders(code: seq<Op>, bb: seq<Block>, bb': seq<Block>)
    requires SameStarts(bb, bb') && OnlyLeaders(code, bb, |code|)
    ensures OnlyLeaders(code, bb', |code|)
  {
    forall i: nat | Started(bb', i) ensures Leader(code, |code|, i) {
      assert Started(bb, i);
    }
  }

  // ----- the graph built is a good one -----

  lemma BuiltFacts(code: seq<Op>, bb: seq<Block>, b: nat)
    requires Built(code, bb) && b < |bb| && bb[b].start.Some?
    ensures 0 < bb[b].len && b + bb[b].len <= |code| && bb[b].start == Some(b) && !bb[b].used
    ensures forall i :: b < i < b + bb[b].len ==> bb[i].start.None?
    ensures bb[b].next.Some? ==> bb[b].next == Some(b + bb[b].len) && Started(bb, b + bb[b].len)
    ensures bb[b].next.None? ==> forall i :: b < i < |bb| ==> bb[i].start.None?
    ensures bb[b].next.None? ==> b + bb[b].len == |code|
  {
    assert BuiltBlock(code, bb, b);
  }

  // The edges of a block lead to started blocks.
  lemma BuiltEdges(code: seq<Op>, bb: seq<Block>, b: nat)
    requires Built(code, bb) && b < |bb|
    ensures forall t: nat :: HasEdge(bb[b], t) ==> Started(bb, t)
  {
    assert BuiltBlock(code, bb, b);
    if bb[b].start.Some? {
      BuiltFacts(code, bb, b);
      var m := b + bb[b].len;
      assert StartsFor(bb, code[m - 1], m - 1) && TargetsInside(code[m - 1], |code|);
      assert StartsFor(bb, code[|code| - 2], |code| - 2);
    }
  }

  lemma BuiltShaped(code: seq<Op>, bb: seq<Block>, b: nat)
    requires Built(code, bb) && b < |bb|
    ensures var g := Graph(code, bb);
            BlockInRange(g, b) && Shaped(g, b)
            && (bb[b].start.Some? && FallsThrough(g, b) ==> bb[b].next.Some? && bb[b].follow == bb[b].next)
            && forall t: nat :: HasEdge(bb[b], t) ==> Started(bb, t)
  {
    assert BuiltBlock(code, bb, b);
    BuiltEdges(code, bb, b);
    if bb[b].start.Some? {
      BuiltFacts(code, bb, b);
      var m := b + bb[b].len;
      forall i | b <= i < m - 1 ensures !Control(code[i].code) {
        assert StartsFor(bb, code[i], i);
      }
      assert StartsFor(bb, code[m - 1], m - 1);
    }
  }

  lemma {:induction false} BuiltOwner(code: seq<Op>, bb: seq<Block>, i: nat) returns (b: nat)
    requires Built(code, bb) && i < |code|
    ensures Owns(Graph(code, bb), b, i)
    decreases i
  {
    if bb[i].start.Some? {
      BuiltFacts(code, bb, i);
      b := i;
    } else {
      b := BuiltOwner(code, bb, i - 1);
      assert BuiltBlock(code, bb, b);
      BuiltFacts(code, bb, b);
    }
  }

  lemma BuiltInRange(code: seq<Op>, bb: seq<Block>)
    requires Built(code, bb)
    ensures EdgesInRange(bb)
  {
    forall b | 0 <= b < |bb|
      ensures Bounded(bb[b].jmp1, |bb|) && Bounded(bb[b].jmp2, |bb|) && Bounded(bb[b].ext, |bb|)
      ensures Bounded(bb[b].follow, |bb|)
    {
      BuiltShaped(code, bb, b);
      assert forall r: Ref :: r.Some? && (r == bb[b].jmp1 || r == bb[b].jmp2 || r == bb[b].ext || r == bb[b].follow) ==>
               HasEdge(bb[b], r.value);
    }
  }

  lemma BuiltDisjoint(code: seq<Op>, bb: seq<Block>)
    requires Built(code, bb)
    ensures Disjoint(Graph(code, bb)) && NextSkips(Graph(code, bb))
  {
    forall b, c | 0 <= b < c < |bb| && (bb[c].used || bb[c].len > 0) && bb[b].len > 0 ensures b + bb[b].len <= c {
      assert BuiltBlock(code, bb, b) && BuiltBlock(code, bb, c);
      BuiltFacts(code, bb, b);
    }
    forall b: nat, c: nat | b < c < |bb| && bb[b].start.Some? && Skipped(bb[b], c)
      ensures !bb[c].used && bb[c].len == 0
    {
      BuiltFacts(code, bb, b);
      assert BuiltBlock(code, bb, c);
    }
  }

  lemma BuiltLayout(code: seq<Op>, bb: seq<Block>)
    requires Built(code, bb)
    ensures Layout(Graph(code, bb)) && NoneUsed(bb) && NoDups(bb) && EdgesInRange(bb)
    ensures forall b :: 0 <= b < |bb| ==> bb[b].pred == []
  {
    var g := Graph(code, bb);
    forall b | 0 <= b < |bb|
      ensures BlockInRange(g, b) && Shaped(g, b) && !bb[b].used && bb[b].pred == []
    {
      BuiltShaped(code, bb, b);
      assert BuiltBlock(code, bb, b);
    }
    BuiltInRange(code, bb);
    BuiltDisjoint(code, bb);
    forall i | 0 <= i < |code| && !code[i].code.Nop? ensures exists b :: Owns(g, b, i) {
      var b := BuiltOwner(code, bb, i);
    }
  }

  // ----- and marking it gives the invariant -----

  // Blocks that were never started are not reached.
  lemma ReachedIsStarted(code: seq<Op>, bb: seq<Block>, b: nat)
    requires Built(code, bb) && Reachable(Flow(bb), 0, b)
    ensures b < |bb| && bb[b].start.Some?
  {
    var bs := seq(|bb|, i requires 0 <= i < |bb| => bb[i].(used := bb[i].start.Some?));
    forall a: nat, t: nat {:trigger HasEdge(bs[a], t)} | a < |bs| && bs[a].used && HasEdge(bs[a], t)
      ensures t < |bs| && bs[t].used
    {
      BuiltShaped(code, bb, a);
      assert HasEdge(bb[a], t);
    }
    assert Flow(bs) == Flow(bb);
    var n: nat :| Within(Flow(bb), 0, b, n);
    ClosedKeepsPaths(bs, 0, b, n);
  }

  // Marking changes nothing about a block's shape.
  lemma MoreShaped(g: Graph, g': Graph, b: nat)
    requires b < |g.bb| == |g'.bb| && g'.code == g.code && BlockInRange(g, b) && Shaped(g, b)
    requires More(g.bb, g'.bb)
    requires g'.bb[b].used ==> g.bb[b].start.Some? && g.bb[b].len > 0
    ensures BlockInRange(g', b) && Shaped(g', b)
  {
    assert forall t: nat :: HasEdge(g'.bb[b], t) == HasEdge(g.bb[b], t);
    assert EdgesOf(g'.bb[b]) == EdgesOf(g.bb[b]);
  }

  // The next started block is the next one in use.
  lemma FollowPlaced(code: seq<Op>, bb: seq<Block>, bb': seq<Block>, b: nat)
    requires Built(code, bb) && More(bb, bb') && b < |bb| && bb[b].start.Some? && bb[b].next.Some?
    requires bb[b].follow == bb[b].next
    requires forall x :: 0 <= x < |bb| && bb'[x].used ==> bb[x].start.Some?
    ensures NextUsed(bb', b, bb'[b].follow)
  {
    BuiltFacts(code, bb, b);
  }

  lemma BuiltPlaced(code: seq<Op>, bb: seq<Block>, bb': seq<Block>, b: nat)
    requires Built(code, bb) && More(bb, bb') && b < |bb|
    requires forall x :: 0 <= x < |bb| && bb'[x].used ==> bb[x].start.Some?
    ensures var g := Graph(code, bb'); BlockInRange(g, b) && Shaped(g, b) && Placed(g, b)
  {
    BuiltShaped(code, bb, b);
    if bb[b].start.Some? { BuiltFacts(code, bb, b); }
    MoreShaped(Graph(code, bb), Graph(code, bb'), b);
    if bb'[b].used && FallsThrough(Graph(code, bb), b) {
      FollowPlaced(code, bb, bb', b);
    }
  }

  lemma MarkedLayout(code: seq<Op>, bb: seq<Block>, bb': seq<Block>)
    requires Built(code, bb) && Layout(Graph(code, bb)) && More(bb, bb')
    requires forall x :: 0 <= x < |bb| && bb'[x].used ==> bb[x].start.Some?
    ensures Layout(Graph(code, bb'))
  {
    var g, g' := Graph(code, bb), Graph(code, bb');
    forall b | 0 <= b < |bb'| ensures BlockInRange(g', b) && Shaped(g', b) && Placed(g', b) {
      BuiltPlaced(code, bb, bb', b);
    }
    forall b, c | 0 <= b < c < |bb'| && (bb'[c].used || bb'[c].len > 0) && bb'[b].len > 0 ensures b + bb'[b].len <= c {
      assert BuiltBlock(code, bb, c);
    }
    forall i | 0 <= i < |code| && !code[i].code.Nop? ensures exists b :: Owns(g', b, i) {
      var b :| Owns(g, b, i);
      assert Owns(g', b, i);
    }
    forall b: nat, c: nat | b < c < |bb'| && bb'[b].start.Some? && Skipped(bb'[b], c)
      ensures !bb'[c].used && bb'[c].len == 0
    {
      assert Skipped(bb[b], c);
      assert BuiltBlock(code, bb, c);
    }
  }

  lemma BuiltEnd(code: seq<Op>, bb: seq<Block>, b: nat)
    requires Built(code, bb) && b < |bb| && bb[b].len > 0 && b + bb[b].len <= |code|
    requires Control(code[b + bb[b].len - 1].code)
    ensures EdgesOf(bb[b]) == EdgesFor(code[b + bb[b].len - 1], b + bb[b].len, |code|)
  {
    assert BuiltBlock(code, bb, b);
  }

  lemma BuiltWays(code: seq<Op>, bb: seq<Block>, bb': seq<Block>, S: set<nat>)
    requires Built(code, bb) && More(bb, bb') && LinesIn(code, S)
    ensures WaysIn(Graph(code, bb'), S)
  {
    var g := Graph(code, bb');
    forall t: nat, u: nat {:trigger HasEdge(bb'[t], u), t in S} | t < |bb'| && bb'[t].used && t in S && OneJump(g, t)
      && HasEdge(bb'[t], u)
      ensures u in S
    {
      BuiltEnd(code, bb, t);
      assert JumpsTo(code, t, u);
    }
  }

  lemma BuiltApart(code: seq<Op>, bb: seq<Block>, bb': seq<Block>, p: nat)
    requires Built(code, bb) && More(bb, bb') && p < |bb'|
    requires TestsItself(Graph(code, bb'), p) && LineApart(code, p + bb'[p].len - 1)
    ensures StaysApart(Graph(code, bb'), p)
  {
    var i := p + bb'[p].len - 1;
    var S: set<nat> :| LinesIn(code, S) && code[i].to2 in S && i + 1 !in S;
    BuiltEnd(code, bb, p);
    BuiltWays(code, bb, bb', S);
  }

  lemma BuiltTests(code: seq<Op>, bb: seq<Block>, bb': seq<Block>, bools: set<nat>)
    requires Built(code, bb) && More(bb, bb') && SelfTestsOk(code, bools)
    ensures TestsApart(Graph(code, bb'), bools)
  {
    var g := Graph(code, bb');
    forall p: nat {:trigger ApartAt(g, p, bools)} | p < |bb'| && bb'[p].used ensures ApartAt(g, p, bools) {
      if TestsItself(g, p) && Tested(g, p) !in bools {
        assert LineApart(code, p + bb'[p].len - 1);
        BuiltApart(code, bb, bb', p);
      }
    }
  }

  // build_cfg followed by mark_used_bb establishes the invariant and a graph that means what the code means.
  lemma BuildTheorem(code: seq<Op>, bb: seq<Block>, T: nat, bools: set<nat>)
    requires Built(code, bb) && CodeOk(code, T, bools) && SelfTestsOk(code, bools)
    ensures EdgesInRange(bb)
    ensures var g := Graph(code, MarkUsed(bb, 0));
            Inv(g, T, bools) && Exact(g.bb) && LaidOut(g, code, Identity(|bb|))
  {
    BuiltLayout(code, bb);
    var bb' := MarkUsed(bb, 0);
    MarkUsedTheorem(bb);
    forall x: nat | x < |bb| && bb'[x].used ensures bb[x].start.Some? {
      ReachedIsStarted(code, bb, x);
    }
    MarkedLayout(code, bb, bb');
    BuiltTests(code, bb, bb', bools);
    assert Within(Flow(bb), 0, 0, 0);
    BuiltLaidOut(code, bb, bb', T, bools);
  }

  function Identity(n: nat): (r: seq<nat>)
    ensures |r| == n && forall i :: 0 <= i < n ==> r[i] == i
  {
    seq(n, i requires 0 <= i < n => i)
  }

  lemma BuiltLaidOut(code: seq<Op>, bb: seq<Block>, bb': seq<Block>, T: nat, bools: set<nat>)
    requires Built(code, bb) && More(bb, bb') && Inv(Graph(code, bb'), T, bools)
    ensures LaidOut(Graph(code, bb'), code, Identity(|bb|))
  {
    var g, pos := Graph(code, bb'), Identity(|bb|);
    InvClosed(g, T, bools);
    forall b | 0 <= b < |bb'| && bb'[b].used ensures LaidOutBlock(g, code, pos, b) {
      assert BlockInRange(g, b);
      BuiltBlockLaidOut(code, bb, bb', b);
    }
  }

  lemma BuiltBlockLaidOut(code: seq<Op>, bb: seq<Block>, bb': seq<Block>, b: nat)
    requires Built(code, bb) && More(bb, bb') && b < |bb| && bb'[b].used && BlockInRange(Graph(code, bb'), b)
    ensures LaidOutBlock(Graph(code, bb'), code, Identity(|bb|), b)
  {
    BuiltShaped(code, bb, b);
    BuiltFacts(code, bb, b);
    assert BuiltBlock(code, bb, b);
    var m := b + bb[b].len;
    assert StartsFor(bb, code[m - 1], m - 1) && TargetsInside(code[m - 1], |code|);
  }
}
