// Every step of optimize_jmp keeps what orderly code gives.
module OrderlySteps {
  import opened Options
  import opened Opcodes
  import opened Graphs
  import opened Preds
  import opened Rewrites
  import opened DeleteMerge
  import opened JumpRules
  import opened Trails
  import opened LiveVars
  import opened Renumber
  import opened Splits
  import opened OrderlyCode

  // ----- one instruction for another -----

  // op' closes no range that op did not, and may stand wherever op may.
  ghost predicate Weaker(op: Op, op': Op) {
    && (MayClose(op') ==> MayClose(op) && op'.res == op.res && (op'.code.Recv? ==> op.code.Recv?))
    && (MakesOnly(op) && Quiet(op) ==> MakesOnly(op') && Quiet(op'))
    && forall r: nat, recv: bool :: Yields(op, r, recv) ==> Yields(op', r, recv)
  }

  ghost predicate AllWeaker(code: seq<Op>, code': seq<Op>) {
    |code'| == |code| && forall i :: 0 <= i < |code| ==> Weaker(code[i], code'[i])
  }

  lemma WeakerKeeps(code: seq<Op>, code': seq<Op>, K: set<(nat, nat)>)
    requires MadeFirst(code, K) && AllWeaker(code, code')
    ensures MadeFirst(code', K)
  {
    forall k: nat, i: nat | k < i < |code'| && MayClose(code'[i])
      ensures Yields(code'[k], code'[i].res.n, code'[i].code.Recv?) || SplitBefore(K, k, i)
    {
      assert Weaker(code[i], code'[i]) && Weaker(code[k], code'[k]);
      if !SplitBefore(K, k, i) {
        assert Yields(code[k], code[i].res.n, code[i].code.Recv?);
        assert Yields(code'[k], code[i].res.n, code[i].code.Recv?);
      }
    }
    forall i | 0 <= i < |code'| ensures MakesOnly(code'[i]) && Quiet(code'[i]) {
      assert Weaker(code[i], code'[i]);
    }
  }

  lemma WeakerItself(op: Op)
    ensures Weaker(op, op)
  {
  }

  lemma WeakerNop(op: Op)
    ensures Weaker(op, SetToNop(op))
  {
  }

  // op' asks no more of what is before it, and leaves no less behind, than op.
  ghost predicate Mild(op: Op, op': Op) {
    && Weaker(op, op')
    && (forall r: nat :: NeedsBefore(op', r) ==> NeedsBefore(op, r))
    && Needs([op']) <= Needs([op]) && MadeBy([op]) <= MadeBy([op']) + Needs([op])
    && (Flagged(op') ==> Flagged(op) && op'.res == op.res)
    && !Leaves(op') && (op'.code.FeReset? || op.code.FeFetch? ==> op' == op)
  }

  lemma MildItself(op: Op)
    requires !Leaves(op)
    ensures Mild(op, op)
  {
  }

  predicate Jumps(op: Op) {
    Control(op.code) && !op.code.FeReset?
  }

  // The RETURN or EXIT that a JMP leads to.
  predicate TakesReturn(g: Graph, p: nat, ed: Edit)
    requires Ready(g, p)
  {
    && Last(g, p).code.Jmp? && Single(g, g.bb[p].jmp1) && ed.op == First(g, g.bb[p].jmp1.value) && Leaves(ed.op)
    && ed.e == Edges(None, None, None, g.bb[p].follow) && !ed.shrink
  }

  lemma TestNops(op: Op, T: nat, bools: set<nat>)
    requires OpOk(op, T, bools) && (op.code.Jmp? || op.code.Jmpz? || op.code.Jmpnz? || op.code.Jmpznz? || SelfTest(op))
    ensures Mild(op, SetToNop(op))
  {
    One(op);
    One(SetToNop(op));
    WeakerNop(op);
  }

  // Tests and JMPs for one another.
  lemma TestChanges(op: Op, op': Op, T: nat, bools: set<nat>)
    requires OpOk(op, T, bools) && (op.code.Jmp? || op.code.Jmpz? || op.code.Jmpnz? || op.code.Jmpznz?)
    requires op'.code.Jmp? || op'.code.Jmpz? || op'.code.Jmpnz? || op'.code.Jmpznz?
    requires (op'.op1 == op.op1 || op'.op1 == Unused) && (op'.op2 == op.op2 || op'.op2 == Unused) && op'.res == op.res
    requires op'.resUnused == op.resUnused
    ensures Mild(op, op')
  {
    One(op);
    One(op');
  }

  lemma ExChanges(op: Op, T: nat, bools: set<nat>)
    requires OpOk(op, T, bools) && Ex(op.code) && !SelfTest(op)
    ensures Mild(op, op.(code := Bool, op2 := Unused))
  {
    One(op);
    One(op.(code := Bool, op2 := Unused));
  }

  lemma JmpMild(g: Graph, p: nat, ed: Edit, T: nat, bools: set<nat>)
    requires Ready(g, p) && LastFacts(g, p, T, bools) && Last(g, p).code.Jmp?
    requires JmpRule(g, p) == Some(ed) || ThreadJmp1(g, p) == Some(ed) || ReturnRule(g, p) == Some(ed)
    ensures Mild(Last(g, p), ed.op) || TakesReturn(g, p, ed)
  {
    var op := Last(g, p);
    if JmpRule(g, p) == Some(ed) {
      TestNops(op, T, bools);
    } else if ed.op == op {
      MildItself(op);
    } else if !Leaves(ed.op) {
      TestChanges(op, ed.op, T, bools);
    }
  }

  lemma PickMild(g: Graph, p: nat, ed: Edit, T: nat, bools: set<nat>)
    requires Ready(g, p) && LastFacts(g, p, T, bools) && !Last(g, p).code.Jmp? && Pick(g, p) == Some(ed)
    ensures Jumps(Last(g, p)) && Mild(Last(g, p), ed.op)
  {
    var op := Last(g, p);
    if ed.op == op {
      MildItself(op);
    } else if Ex(op.code) {
      if ed.op.code.Nop? { TestNops(op, T, bools); } else { ExChanges(op, T, bools); }
    } else if ed.op.code.Nop? {
      TestNops(op, T, bools);
    } else {
      TestChanges(op, ed.op, T, bools);
    }
  }

  lemma ChosenMild(g: Graph, p: nat, ed: Edit, T: nat, bools: set<nat>)
    requires Inv(g, T, bools) && Ready(g, p) && Chosen(g, p, ed)
    ensures Jumps(Last(g, p)) && (Mild(Last(g, p), ed.op) || TakesReturn(g, p, ed))
  {
    InvLast(g, p, T, bools);
    if Last(g, p).code.Jmp? {
      JmpMild(g, p, ed, T, bools);
    } else if Pick(g, p) == Some(ed) {
      PickMild(g, p, ed, T, bools);
    } else {
      MildItself(Last(g, p));
    }
  }

  // ----- new edges go on where an old one led -----

  ghost predicate Via(g: Graph, p: nat, op': Op, t: nat, u: nat) {
    && p < |g.bb| && t < |g.bb| && HasEdge(g.bb[p], t) && g.bb[t].len == 1 && HasEdge(g.bb[t], u)
    && MadeBy([First(g, t)]) <= MadeBy([op'])
  }

  ghost predicate EdgesVia(g: Graph, p: nat, ed: Edit) {
    p < |g.bb| && forall u: nat {:trigger InEdges(ed.e, u)} :: InEdges(ed.e, u) ==>
        HasEdge(g.bb[p], u) || exists t: nat :: Via(g, p, ed.op, t, u)
  }

  lemma JumpMakesNothing(g: Graph, t: nat, T: nat, bools: set<nat>)
    requires CodeOk(g.code, T, bools)
    ensures !Ex(First(g, t).code) && Control(First(g, t).code) && !Forks(First(g, t).code) ==>
              MadeBy([First(g, t)]) == {}
  {
    One(First(g, t));
  }

  // One of the pointers now leads from t to u.
  lemma ThreadsVia(g: Graph, p: nat, ed: Edit, t: nat, u: nat, other: Ref, T: nat, bools: set<nat>)
    requires p < |g.bb| && CodeOk(g.code, T, bools) && HasEdge(g.bb[p], t) && t < |g.bb| && g.bb[t].len == 1
    requires HasEdge(g.bb[t], u)
    requires Control(First(g, t).code) && !Forks(First(g, t).code)
    requires (Ex(First(g, t).code) ==> First(g, t).res == ed.op.res)
    requires forall x: nat :: InEdges(ed.e, x) ==> x == u || HasEdge(g.bb[p], x)
    ensures EdgesVia(g, p, ed)
  {
    JumpMakesNothing(g, t, T, bools);
    One(First(g, t));
    One(ed.op);
    assert Via(g, p, ed.op, t, u);
  }

  lemma PlainVia(g: Graph, p: nat, ed: Edit)
    requires p < |g.bb| && forall x: nat :: InEdges(ed.e, x) ==> HasEdge(g.bb[p], x)
    ensures EdgesVia(g, p, ed)
  {
  }

  lemma Jmp1Via(g: Graph, p: nat, ed: Edit, T: nat, bools: set<nat>)
    requires Inv(g, T, bools) && Ready(g, p) && Last(g, p).code.Jmp? && ThreadJmp1(g, p) == Some(ed)
    ensures EdgesVia(g, p, ed)
  {
    var t := g.bb[p].jmp1.value;
    if g.bb[t].jmp1.Some? { ThreadsVia(g, p, ed, t, g.bb[t].jmp1.value, None, T, bools); }
  }

  lemma Jmp2Via(g: Graph, p: nat, ed: Edit, T: nat, bools: set<nat>)
    requires Inv(g, T, bools) && Ready(g, p) && ThreadJmp2(g, p, Other(g, p)) == Some(ed)
    ensures EdgesVia(g, p, ed)
  {
    var t := g.bb[p].jmp2.value;
    if g.bb[t].jmp1.Some? { ThreadsVia(g, p, ed, t, g.bb[t].jmp1.value, None, T, bools); }
  }

  lemma ExtVia(g: Graph, p: nat, ed: Edit, T: nat, bools: set<nat>)
    requires Inv(g, T, bools) && Ready(g, p) && ThreadExt(g, p) == Some(ed)
    ensures EdgesVia(g, p, ed)
  {
    var t := g.bb[p].ext.value;
    if g.bb[t].jmp1.Some? { ThreadsVia(g, p, ed, t, g.bb[t].jmp1.value, None, T, bools); }
  }

  lemma ZnzThreadVia(g: Graph, p: nat, ed: Edit, t: nat, T: nat, bools: set<nat>)
    requires CodeOk(g.code, T, bools) && Ready(g, p) && g.bb[p].jmp2.Some? && g.bb[p].ext.Some?
    requires ZnzThread(g, p) == Some(ed)
    requires ed.drop == Some(t) && t < |g.bb| && g.bb[t].len == 1
    ensures EdgesVia(g, p, ed)
  {
    if ed.add.Some? { ThreadsVia(g, p, ed, t, ed.add.value, None, T, bools); }
  }

  lemma ZnzVia(g: Graph, p: nat, ed: Edit, T: nat, bools: set<nat>)
    requires Inv(g, T, bools) && Ready(g, p) && g.bb[p].used && Last(g, p).code.Jmpznz? && ZnzRule(g, p) == Some(ed)
    ensures EdgesVia(g, p, ed)
  {
    if ZnzThreads(g, p) {
      var t := ed.drop.value;
      PointsTo(g, p, t, T, bools);
      if ed.drop != g.bb[p].jmp2 { JumpIsWhole(g, t); }
      ZnzThreadVia(g, p, ed, t, T, bools);
    }
  }

  lemma TestThreadVia(g: Graph, p: nat, x: Operand, taken: bool, ed: Edit, T: nat, bools: set<nat>)
    requires Inv(g, T, bools) && Ready(g, p) && Single(g, g.bb[p].jmp2) && TestThread(g, p, x, taken) == Some(ed)
    requires Ex(Last(g, p).code) ==> x == Last(g, p).res
    ensures EdgesVia(g, p, ed)
  {
    var t := g.bb[p].jmp2.value;
    if ed.add.Some? { ThreadsVia(g, p, ed, t, ed.add.value, None, T, bools); }
  }

  lemma TestVia(g: Graph, p: nat, taken: bool, ed: Edit, T: nat, bools: set<nat>)
    requires Inv(g, T, bools) && Ready(g, p) && TestRule(g, p, taken) == Some(ed)
    requires if taken then Last(g, p).code.Jmpnz? else Last(g, p).code.Jmpz?
    ensures EdgesVia(g, p, ed)
  {
    var blk, op := g.bb[p], Last(g, p);
    if blk.follow == blk.jmp2 || op.op1.Const? {
      PlainVia(g, p, ed);
    } else if IsJump(g, blk.follow) {
      var t := blk.follow.value;
      if ed.add.Some? { ThreadsVia(g, p, ed, t, ed.add.value, None, T, bools); }
    } else {
      TestThreadVia(g, p, op.op1, taken, ed, T, bools);
    }
  }

  lemma ExVia(g: Graph, p: nat, taken: bool, ed: Edit, T: nat, bools: set<nat>)
    requires Inv(g, T, bools) && Ready(g, p) && Ex(Last(g, p).code) && ExRule(g, p, taken) == Some(ed)
    ensures EdgesVia(g, p, ed)
  {
    if g.bb[p].follow != g.bb[p].jmp2 { TestThreadVia(g, p, Last(g, p).res, taken, ed, T, bools); }
  }

  lemma ChosenVia(g: Graph, p: nat, ed: Edit, T: nat, bools: set<nat>)
    requires Inv(g, T, bools) && Ready(g, p) && g.bb[p].used && Chosen(g, p, ed)
    ensures EdgesVia(g, p, ed)
  {
    var c := Last(g, p).code;
    if Pick(g, p) == Some(ed) {
      if c.Jmpznz? { ZnzVia(g, p, ed, T, bools); }
      else if c.Jmpz? || c.Jmpnz? { TestVia(g, p, c.Jmpnz?, ed, T, bools); }
      else if Ex(c) { ExVia(g, p, c.JmpnzEx?, ed, T, bools); }
      else { PlainVia(g, p, ed); }
    } else if c.Jmp? && ThreadJmp1(g, p) == Some(ed) {
      Jmp1Via(g, p, ed, T, bools);
    } else if FollowsJmp2(c) && ThreadJmp2(g, p, Other(g, p)) == Some(ed) {
      Jmp2Via(g, p, ed, T, bools);
    } else if c.Jmpznz? && ThreadExt(g, p) == Some(ed) {
      ExtVia(g, p, ed, T, bools);
    } else {
      PlainVia(g, p, ed);
    }
  }

  // ----- a rewrite -----

  ghost predicate EditedTo(g: Graph, g': Graph, p: nat, ed: Edit, T: nat, bools: set<nat>) {
    && Inv(g, T, bools) && Inv(g', T, bools) && Ready(g, p) && SameList(g, g')
    && Rewritten(g, g', p, ed.op, ed.shrink, ed.e)
    && (ed.shrink ==> ed.op.code.Nop?) && Jumps(Last(g, p)) && (Mild(Last(g, p), ed.op) || TakesReturn(g, p, ed))
    && (g.bb[p].used ==> EdgesVia(g, p, ed))
  }

  lemma RuleIs(g: Graph, prev: Option<Move>, p: nat, ed: Edit, T: nat, bools: set<nat>)
    requires Inv(g, T, bools) && Allowed(g, prev, Rule(p, ed))
    ensures EditedTo(g, Edited(g, p, ed), p, ed, T, bools)
  {
    ChosenSound(g, prev, p, ed, T, bools);
    EditKeeps(g, p, ed, T, bools);
    ChosenMild(g, p, ed, T, bools);
    if g.bb[p].used { ChosenVia(g, p, ed, T, bools); }
  }

  function LastLine(g: Graph, p: nat): nat
    requires Ready(g, p)
  {
    p + g.bb[p].len - 1
  }

  // The instructions of p but the last.
  function Front(g: Graph, p: nat): seq<Op>
    requires Ready(g, p)
  {
    g.code[p .. LastLine(g, p)]
  }

  lemma EditedOps(g: Graph, g': Graph, p: nat, ed: Edit, T: nat, bools: set<nat>)
    requires EditedTo(g, g', p, ed, T, bools)
    ensures Ops(g, p) == Front(g, p) + [Last(g, p)] && Straight(Front(g, p))
    ensures Ops(g', p) == Front(g, p) + (if ed.shrink then [] else [ed.op])
  {
    assert BlockInRange(g, p) && Shaped(g, p);
    EndOps(g, g', p, ed.op, ed.shrink);
  }

  lemma EndOps(g: Graph, g': Graph, p: nat, op: Op, shrink: bool)
    requires Ready(g, p) && p < |g'.bb| && g.bb[p].start == g'.bb[p].start == Some(p)
    requires g'.bb[p].len == g.bb[p].len - (if shrink then 1 else 0)
    requires g'.code == g.code[LastLine(g, p) := op]
    ensures Ops(g, p) == Front(g, p) + [Last(g, p)] && Ops(g', p) == Front(g, p) + (if shrink then [] else [op])
  {
    SameFront(g.code, g'.code, p, LastLine(g, p));
  }

  lemma SameFront(code: seq<Op>, code': seq<Op>, p: nat, last: nat)
    requires p <= last < |code| == |code'| && forall i :: p <= i < last ==> code'[i] == code[i]
    ensures code'[p .. last] == code[p .. last]
    ensures code[p .. last + 1] == code[p .. last] + [code[last]]
    ensures code'[p .. last + 1] == code[p .. last] + [code'[last]]
  {
  }

  lemma OtherOps(g: Graph, g': Graph, p: nat, ed: Edit, T: nat, bools: set<nat>, b: nat)
    requires EditedTo(g, g', p, ed, T, bools) && b < |g.bb| && b != p
    ensures Ops(g', b) == Ops(g, b) && g'.bb[b].len == g.bb[b].len && EdgesOf(g'.bb[b]) == EdgesOf(g.bb[b])
    ensures (g'.bb[b].used ==> g.bb[b].used)
    ensures forall i: nat :: Owns(g, b, i) ==> i != LastLine(g, p)
  {
    assert BlockInRange(g, b) && BlockInRange(g, p);
    var n := g.bb[b].len;
    if n > 0 {
      if b < p { assert b + n <= p; } else { assert p + g.bb[p].len <= b; }
      assert g'.code[b .. b + n] == g.code[b .. b + n];
    }
  }

  lemma FirstOk(g: Graph, t: nat, T: nat, bools: set<nat>)
    requires CodeOk(g.code, T, bools)
    ensures WellTyped(First(g, t))
  {
    if t < |g.bb| && g.bb[t].start.Some? && g.bb[t].start.value < |g.code| {
      assert OpOk(g.code[g.bb[t].start.value], T, bools);
    }
  }

  lemma RuleMadeFirst(g: Graph, g': Graph, p: nat, ed: Edit, T: nat, bools: set<nat>, K: set<(nat, nat)>)
    requires EditedTo(g, g', p, ed, T, bools) && MadeFirst(g.code, K)
    ensures MadeFirst(g'.code, K)
  {
    if TakesReturn(g, p, ed) { FirstOk(g, g.bb[p].jmp1.value, T, bools); }
    forall i | 0 <= i < |g.code| ensures Weaker(g.code[i], g'.code[i]) {
      WeakerItself(g.code[i]);
    }
    WeakerKeeps(g.code, g'.code, K);
  }

  // What is exposed at the end of a block whose last instruction changes.
  lemma ExposedAtEnd(pre: seq<Op>, op: Op, rest: seq<Op>, r: nat)
    requires Exposed(pre + rest, r) && |rest| <= 1
    ensures Exposed(pre + [op], r) || (|rest| == 1 && NeedsBefore(rest[0], r) && !NeedsBefore(op, r))
  {
    var i :| 0 <= i < |pre + rest| && NeedsBefore((pre + rest)[i], r) && !WrittenBefore(pre + rest, i, r);
    assert forall j :: 0 <= j < i ==> (pre + [op])[j] == (pre + rest)[j];
    assert !WrittenBefore(pre + [op], i, r);
    if i < |pre| {
      assert NeedsBefore((pre + [op])[i], r);
    } else if NeedsBefore(op, r) {
      assert NeedsBefore((pre + [op])[i], r);
    }
  }

  lemma ReturnExposes(g: Graph, p: nat, ed: Edit, T: nat, bools: set<nat>, r: nat)
    requires Inv(g, T, bools) && Ready(g, p) && TakesReturn(g, p, ed) && NeedsBefore(ed.op, r)
    ensures var t := g.bb[p].jmp1.value; t < |g.bb| && Exposed(Ops(g, t), r)
  {
    var t := g.bb[p].jmp1.value;
    assert BlockInRange(g, t);
    assert Ops(g, t)[0] == ed.op && !WrittenBefore(Ops(g, t), 0, r);
  }

  lemma RuleMarks(g: Graph, g': Graph, p: nat, ed: Edit, T: nat, bools: set<nat>, r: nat)
    requires EditedTo(g, g', p, ed, T, bools) && Marks(g', r)
    ensures Marks(g, r)
  {
    var b: nat :| b < |g'.bb| && Exposed(Ops(g', b), r);
    if b != p {
      OtherOps(g, g', p, ed, T, bools, b);
    } else {
      EditedOps(g, g', p, ed, T, bools);
      ExposedAtEnd(Front(g, p), Last(g, p), if ed.shrink then [] else [ed.op], r);
      if !Exposed(Ops(g, p), r) { ReturnExposes(g, p, ed, T, bools, r); }
    }
  }

  lemma RuleFlags(g: Graph, g': Graph, p: nat, ed: Edit, T: nat, bools: set<nat>)
    requires EditedTo(g, g', p, ed, T, bools) && FlagsUnmarked(g)
    ensures FlagsUnmarked(g')
  {
    if TakesReturn(g, p, ed) { FirstOk(g, g.bb[p].jmp1.value, T, bools); }
    forall i | 0 <= i < |g'.code| && Flagged(g'.code[i]) ensures !Marks(g', g'.code[i].res.n) {
      assert Flagged(g.code[i]) && g'.code[i].res == g.code[i].res;
      if Marks(g', g'.code[i].res.n) { RuleMarks(g, g', p, ed, T, bools, g'.code[i].res.n); }
    }
  }

  lemma RuleFetches(g: Graph, g': Graph, p: nat, ed: Edit, T: nat, bools: set<nat>)
    requires EditedTo(g, g', p, ed, T, bools) && FetchesNext(g)
    ensures FetchesNext(g')
  {
    forall b: nat | b < |g'.bb| && g'.bb[b].used ensures FetchAt(g', b) {
      if b == p { RuleFetchAtP(g, g', p, ed, T, bools); } else { RuleFetchAt(g, g', p, ed, T, bools, b); }
    }
  }

  lemma RuleFetchAtP(g: Graph, g': Graph, p: nat, ed: Edit, T: nat, bools: set<nat>)
    requires EditedTo(g, g', p, ed, T, bools)
    ensures FetchAt(g', p)
  {
    EditedOps(g, g', p, ed, T, bools);
    if Ready(g', p) && ed.shrink {
      assert Last(g', p) == Front(g, p)[|Front(g, p)| - 1];
    }
  }

  lemma {:induction false} RuleFetchAt(g: Graph, g': Graph, p: nat, ed: Edit, T: nat, bools: set<nat>, b: nat)
    requires EditedTo(g, g', p, ed, T, bools) && FetchesNext(g) && b < |g.bb| && b != p && g'.bb[b].used
    ensures FetchAt(g', b)
  {
    OtherOps(g, g', p, ed, T, bools, b);
    assert FetchAt(g, b);
    if Ready(g', b) && Last(g', b).code.FeReset? && Defines(Last(g', b)) {
      assert Owns(g, b, LastLine(g, b));
      assert Last(g', b) == Last(g, b);
      FetchUnchanged(g, g', p, ed, T, bools, g.bb[b].follow.value, Last(g, b).res.n);
    }
  }

  lemma FetchUnchanged(g: Graph, g': Graph, p: nat, ed: Edit, T: nat, bools: set<nat>, c: nat, r: nat)
    requires EditedTo(g, g', p, ed, T, bools) && IsFetch(g, c, r)
    ensures IsFetch(g', c, r)
  {
    if c != p {
      OtherOps(g, g', p, ed, T, bools, c);
      assert Owns(g, c, c);
    }
  }

  // A block that ends in a jump has no RETURN.
  lemma NoReturnBefore(g: Graph, p: nat, j: nat)
    requires ReturnsLast(g) && Ready(g, p) && g.bb[p].used && Jumps(Last(g, p)) && Owns(g, p, j)
    ensures j < |g.code| && !Leaves(g.code[j])
  {
    assert Owns(g, p, LastLine(g, p));
    if j < |g.code| && Leaves(g.code[j]) {
      IdleBehind(g, p, j, LastLine(g, p));
      assert false;
    }
  }

  lemma IdleBehind(g: Graph, p: nat, j: nat, i: nat)
    requires ReturnsLast(g) && p < |g.bb| && g.bb[p].used && Owns(g, p, j) && j <= i < |g.code| && Leaves(g.code[j])
    requires Owns(g, p, i)
    ensures i == j || Idle(g.code[i])
  {
    assert ReturnAt(g, p, j);
  }

  lemma {:induction false} RuleReturns(g: Graph, g': Graph, p: nat, ed: Edit, T: nat, bools: set<nat>)
    requires EditedTo(g, g', p, ed, T, bools) && ReturnsLast(g)
    ensures ReturnsLast(g')
  {
    var n := |g.code|;
    assert LastLine(g, p) != n - 1;
    assert p != n - 1;
    forall b: nat, j: nat {:trigger ReturnAt(g', b, j)} | b < |g'.bb| && g'.bb[b].used && Owns(g', b, j) && j < n
      && Leaves(g'.code[j])
      ensures ReturnAt(g', b, j)
    {
      if b == p { RuleReturnAtP(g, g', p, ed, T, bools, j); } else { RuleReturnAt(g, g', p, ed, T, bools, b, j); }
    }
  }

  // The lines of the other blocks are as they were.
  lemma OtherLine(g: Graph, g': Graph, p: nat, ed: Edit, T: nat, bools: set<nat>, b: nat, i: nat)
    requires EditedTo(g, g', p, ed, T, bools) && b < |g.bb| && b != p && g'.bb[b].used && Owns(g', b, i) && i < |g.code|
    ensures Owns(g, b, i) && |g'.code| == |g.code| && g'.code[i] == g.code[i]
  {
    OtherOps(g, g', p, ed, T, bools, b);
    assert Owns(g, b, i) && i != LastLine(g, p);
  }

  lemma {:induction false} RuleReturnAt(g: Graph, g': Graph, p: nat, ed: Edit, T: nat, bools: set<nat>, b: nat, j: nat)
    requires EditedTo(g, g', p, ed, T, bools) && ReturnsLast(g) && b < |g.bb| && b != p
    requires g'.bb[b].used && Owns(g', b, j) && j < |g.code| && Leaves(g'.code[j])
    ensures ReturnAt(g', b, j)
  {
    OtherOps(g, g', p, ed, T, bools, b);
    OtherLine(g, g', p, ed, T, bools, b, j);
    assert ReturnAt(g, b, j);
    forall i: nat {:trigger Owns(g', b, i)} | Owns(g', b, i) && j < i < |g.code| ensures Idle(g'.code[i]) {
      OtherLine(g, g', p, ed, T, bools, b, i);
    }
  }

  lemma RuleReturnAtP(g: Graph, g': Graph, p: nat, ed: Edit, T: nat, bools: set<nat>, j: nat)
    requires EditedTo(g, g', p, ed, T, bools) && ReturnsLast(g) && g'.bb[p].used && Owns(g', p, j) && j < |g.code|
    requires Leaves(g'.code[j])
    ensures ReturnAt(g', p, j)
  {
    InvLast(g, p, T, bools);
    assert Owns(g, p, j);
    NoReturnBefore(g, p, j);
  }

  lemma EditNeeds(g: Graph, g': Graph, p: nat, ed: Edit, D: seq<set<nat>>, T: nat, bools: set<nat>)
    requires EditedTo(g, g', p, ed, T, bools) && Certified(g, D) && g.bb[p].used
    ensures Needs(Ops(g', p)) <= D[p] && MadeBy(Ops(g, p)) <= MadeBy(Ops(g', p)) + D[p]
  {
    EditedOps(g, g', p, ed, T, bools);
    var pre, op, rest := Front(g, p), Last(g, p), if ed.shrink then [] else [ed.op];
    assert pre + [] == pre;
    MadeBySum(pre, [op]);
    MadeBySum(pre, rest);
    One(op);
    One(ed.op);
    if TakesReturn(g, p, ed) {
      ReturnNeeds(g, p, ed, D, T, bools);
      FirstOk(g, g.bb[p].jmp1.value, T, bools);
    } else {
      NopNeeds(ed, op);
      NeedsMonotone(pre, [op], rest);
      forall r | r in MadeBy([op]) && r !in MadeBy(rest) ensures r in D[p] || r in MadeBy(pre) {
        NeedsOrMade(pre, [op], r);
      }
    }
  }

  lemma NopNeeds(ed: Edit, op: Op)
    requires Mild(op, ed.op) && (ed.shrink ==> ed.op.code.Nop?)
    ensures Needs(if ed.shrink then [] else [ed.op]) <= Needs([op])
  {
  }

  lemma ReturnNeeds(g: Graph, p: nat, ed: Edit, D: seq<set<nat>>, T: nat, bools: set<nat>)
    requires Inv(g, T, bools) && Ready(g, p) && g.bb[p].used && TakesReturn(g, p, ed) && Certified(g, D)
    requires Ops(g, p) == Front(g, p) + [Last(g, p)]
    ensures Needs(Front(g, p) + [ed.op]) <= D[p] && MadeBy([Last(g, p)]) == {}
  {
    var t := g.bb[p].jmp1.value;
    PointsTo(g, p, t, T, bools);
    assert Ops(g, t) == [ed.op];
    InvLast(g, p, T, bools);
    One(Last(g, p));
    MadeBySum(Front(g, p), [Last(g, p)]);
    NeedsOfFirst(Front(g, p), [Last(g, p)]);
    assert HasEdge(g.bb[p], t);
    assert D[t] <= D[p] + MadeBy(Ops(g, p));
    NeedsOfBoth(Front(g, p), [ed.op], D[p], D[t]);
  }

  lemma {:induction false} EditEdges(g: Graph, g': Graph, p: nat, ed: Edit, D: seq<set<nat>>, T: nat, bools: set<nat>,
                                     u: nat)
    requires EditedTo(g, g', p, ed, T, bools) && Certified(g, D) && g.bb[p].used && u < |g.bb| && InEdges(ed.e, u)
    ensures D[u] <= D[p] + MadeBy(Ops(g', p))
  {
    EditNeeds(g, g', p, ed, D, T, bools);
    if !HasEdge(g.bb[p], u) {
      var t: nat :| Via(g, p, ed.op, t, u);
      EditMakes(g, g', p, ed, T, bools, t, u);
      ViaWritten(g, p, ed.op, D, T, bools, t, u);
    }
  }

  lemma ViaWritten(g: Graph, p: nat, op': Op, D: seq<set<nat>>, T: nat, bools: set<nat>, t: nat, u: nat)
    requires Inv(g, T, bools) && Certified(g, D) && Via(g, p, op', t, u) && g.bb[p].used && u < |g.bb|
    ensures D[u] <= D[p] + MadeBy(Ops(g, p)) + MadeBy([First(g, t)])
  {
    PointsTo(g, p, t, T, bools);
    assert Ops(g, t) == [First(g, t)];
  }

  lemma EditMakes(g: Graph, g': Graph, p: nat, ed: Edit, T: nat, bools: set<nat>, t: nat, u: nat)
    requires EditedTo(g, g', p, ed, T, bools) && Via(g, p, ed.op, t, u)
    ensures MadeBy([First(g, t)]) <= MadeBy(Ops(g', p))
  {
    EditedOps(g, g', p, ed, T, bools);
    One(ed.op);
    MadeBySum(Front(g, p), if ed.shrink then [] else [ed.op]);
    if ed.shrink {
      assert g'.code[LastLine(g, p)] == ed.op;
      NopMakes(g', ed, T, bools);
    }
  }

  lemma NopMakes(g': Graph, ed: Edit, T: nat, bools: set<nat>)
    requires CodeOk(g'.code, T, bools) && ed.op.code.Nop? && ed.op in g'.code
    ensures MadeBy([ed.op]) == {}
  {
    One(ed.op);
    var i :| 0 <= i < |g'.code| && g'.code[i] == ed.op;
    assert OpOk(g'.code[i], T, bools);
  }

  lemma RuleCertified(g: Graph, g': Graph, p: nat, ed: Edit, D: seq<set<nat>>, T: nat, bools: set<nat>)
    requires EditedTo(g, g', p, ed, T, bools) && Certified(g, D)
    ensures Certified(g', D)
  {
    forall b: nat | b < |g'.bb| && g'.bb[b].used
      ensures Needs(Ops(g', b)) <= D[b]
      ensures forall t: nat {:trigger HasEdge(g'.bb[b], t)} ::
                t < |g'.bb| && HasEdge(g'.bb[b], t) ==> D[t] <= D[b] + MadeBy(Ops(g', b))
    {
      if b != p {
        OtherOps(g, g', p, ed, T, bools, b);
        forall t: nat {:trigger HasEdge(g'.bb[b], t)} | t < |g'.bb| && HasEdge(g'.bb[b], t)
          ensures D[t] <= D[b] + MadeBy(Ops(g', b))
        {
          assert HasEdge(g.bb[b], t);
        }
      } else {
        EditNeeds(g, g', p, ed, D, T, bools);
        forall t: nat {:trigger HasEdge(g'.bb[p], t)} | t < |g'.bb| && HasEdge(g'.bb[p], t)
          ensures D[t] <= D[p] + MadeBy(Ops(g', p))
        {
          assert InEdges(ed.e, t);
          EditEdges(g, g', p, ed, D, T, bools, t);
        }
      }
    }
  }

  lemma RuleTame(g: Graph, prev: Option<Move>, p: nat, ed: Edit, T: nat, bools: set<nat>)
    requires Inv(g, T, bools) && Tame(g) && Allowed(g, prev, Rule(p, ed))
    ensures Tame(Edited(g, p, ed))
  {
    var g' := Edited(g, p, ed);
    RuleIs(g, prev, p, ed, T, bools);
    var K: set<(nat, nat)> :| MadeFirst(g.code, K) && AllSplit(g, K);
    RuleMadeFirst(g, g', p, ed, T, bools, K);
    MoveSplit(g, prev, Rule(p, ed), T, bools, K);
    RuleFlags(g, g', p, ed, T, bools);
    RuleFetches(g, g', p, ed, T, bools);
    RuleReturns(g, g', p, ed, T, bools);
    var D: seq<set<nat>> :| Certified(g, D);
    RuleCertified(g, g', p, ed, D, T, bools);
  }

  // ----- unlinking -----

  lemma UnlinkIs(g: Graph, p: nat, q: nat, T: nat, bools: set<nat>)
    requires Inv(g, T, bools) && CanDelete(g, p, q)
    ensures var g' := DeleteNext(g, p, q);
            && Deleted(g, g', p, q) && Inv(g', T, bools) && SameAlive(g, g') && SameStarts(g, g')
            && g'.bb[p].next == g.bb[q].next
    ensures g.bb[0].next.None? ==> DeleteNext(g, p, q).bb[0].next.None?
    ensures forall b: nat :: b < |g.bb| ==> EdgesOf(DeleteNext(g, p, q).bb[b]) == EdgesOf(g.bb[b])
  {
    DeleteBlocks(g, p, q);
    DeleteKeeps(g, p, q, T, bools);
    assert BlockInRange(g, p);
  }

  lemma UnlinkedOps(g: Graph, g': Graph, p: nat, q: nat, b: nat)
    requires Layout(g) && Deleted(g, g', p, q) && b < |g.bb|
    ensures Ops(g', b) == if b == q then [] else Ops(g, b)
  {
    assert BlockInRange(g, b) && BlockInRange(g, q);
    if b != q && g.bb[b].len > 0 { DeletedCode(g, g', p, q, b); }
  }

  lemma UnlinkMarks(g: Graph, p: nat, q: nat, T: nat, bools: set<nat>, r: nat)
    requires Inv(g, T, bools) && CanDelete(g, p, q) && Marks(DeleteNext(g, p, q), r)
    ensures Marks(g, r)
  {
    var g' := DeleteNext(g, p, q);
    UnlinkIs(g, p, q, T, bools);
    var b: nat :| b < |g'.bb| && Exposed(Ops(g', b), r);
    UnlinkedOps(g, g', p, q, b);
  }

  // A block still in use has its first and last instructions.
  lemma AliveCode(g: Graph, g': Graph, b: nat)
    requires InRange(g) && InRange(g') && SameAlive(g, g') && b < |g'.bb| && g'.bb[b].used && g'.bb[b].len > 0
    ensures Ready(g, b) && Ready(g', b) && Last(g', b) == Last(g, b) && g'.code[b] == g.code[b]
    ensures g.bb[b].start == g'.bb[b].start == Some(b) && g.bb[b].len == g'.bb[b].len
    ensures EdgesOf(g.bb[b]) == EdgesOf(g'.bb[b]) && g.bb[b].used
  {
    assert AliveAt(g, g', b) && BlockInRange(g, b) && BlockInRange(g', b);
    var n := g.bb[b].len;
    assert Ops(g', b)[0] == g'.code[b] && Ops(g, b)[0] == g.code[b];
    assert Ops(g', b)[n - 1] == Last(g', b) && Ops(g, b)[n - 1] == Last(g, b);
  }

  lemma AliveFetchAt(g: Graph, g': Graph, b: nat, T: nat, bools: set<nat>)
    requires Inv(g, T, bools) && Inv(g', T, bools) && SameAlive(g, g') && FetchesNext(g) && b < |g'.bb| && g'.bb[b].used
    ensures FetchAt(g', b)
  {
    if Ready(g', b) && Last(g', b).code.FeReset? && Defines(Last(g', b)) {
      AliveCode(g, g', b);
      assert FetchAt(g, b);
      var c := g.bb[b].follow.value;
      assert HasEdge(g'.bb[b], c);
      assert g'.bb[c].used && AliveAt(g, g', c);
      AliveCode(g, g', c);
    }
  }

  lemma AliveFetches(g: Graph, g': Graph, T: nat, bools: set<nat>)
    requires Inv(g, T, bools) && Inv(g', T, bools) && SameAlive(g, g') && FetchesNext(g)
    ensures FetchesNext(g')
  {
    forall b: nat | b < |g'.bb| && g'.bb[b].used ensures FetchAt(g', b) {
      AliveFetchAt(g, g', b, T, bools);
    }
  }

  lemma UnlinkReturns(g: Graph, p: nat, q: nat, T: nat, bools: set<nat>)
    requires Inv(g, T, bools) && CanDelete(g, p, q) && ReturnsLast(g)
    ensures ReturnsLast(DeleteNext(g, p, q))
  {
    var g' := DeleteNext(g, p, q);
    UnlinkIs(g, p, q, T, bools);
    forall b: nat, j: nat {:trigger ReturnAt(g', b, j)} | b < |g'.bb| && g'.bb[b].used && Owns(g', b, j)
      && j < |g'.code| && Leaves(g'.code[j])
      ensures ReturnAt(g', b, j)
    {
      UnlinkReturnAt(g, g', p, q, b, j);
    }
  }

  lemma UnlinkReturnAt(g: Graph, g': Graph, p: nat, q: nat, b: nat, j: nat)
    requires ReturnsLast(g) && Deleted(g, g', p, q) && b < |g.bb| && EdgesOf(g'.bb[b]) == EdgesOf(g.bb[b])
    requires g'.bb[b].used && Owns(g', b, j) && j < |g'.code| && Leaves(g'.code[j])
    ensures ReturnAt(g', b, j)
  {
    assert Owns(g, b, j);
    assert ReturnAt(g, b, j);
    forall i: nat {:trigger Owns(g', b, i)} | Owns(g', b, i) && j < i < |g'.code| ensures Idle(g'.code[i]) {
      assert Owns(g, b, i);
    }
  }

  lemma UnlinkTame(g: Graph, p: nat, q: nat, T: nat, bools: set<nat>)
    requires Inv(g, T, bools) && Tame(g) && CanDelete(g, p, q)
    ensures Tame(DeleteNext(g, p, q))
  {
    var g' := DeleteNext(g, p, q);
    UnlinkIs(g, p, q, T, bools);
    var K: set<(nat, nat)> :| MadeFirst(g.code, K) && AllSplit(g, K);
    MoveSplit(g, None, Unlink(p, q), T, bools, K);
    forall i | 0 <= i < |g.code| ensures Weaker(g.code[i], g'.code[i]) {
      WeakerItself(g.code[i]);
      WeakerNop(g.code[i]);
    }
    WeakerKeeps(g.code, g'.code, K);
    forall i | 0 <= i < |g'.code| && Flagged(g'.code[i]) ensures !Marks(g', g'.code[i].res.n) {
      assert g'.code[i] == g.code[i];
      if Marks(g', g'.code[i].res.n) { UnlinkMarks(g, p, q, T, bools, g'.code[i].res.n); }
    }
    AliveFetches(g, g', T, bools);
    UnlinkReturns(g, p, q, T, bools);
    var D: seq<set<nat>> :| Certified(g, D);
    FewerCertified(g, g', D);
  }

  // Fewer blocks in use, the same code in those.
  lemma FewerCertified(g: Graph, g': Graph, D: seq<set<nat>>)
    requires Certified(g, D) && SameAlive(g, g')
    ensures Certified(g', D)
  {
    forall b: nat | b < |g'.bb| && g'.bb[b].used
      ensures Needs(Ops(g', b)) <= D[b]
      ensures forall t: nat {:trigger HasEdge(g'.bb[b], t)} ::
                t < |g'.bb| && HasEdge(g'.bb[b], t) ==> D[t] <= D[b] + MadeBy(Ops(g', b))
    {
      assert AliveAt(g, g', b);
      forall t: nat {:trigger HasEdge(g'.bb[b], t)} | t < |g'.bb| && HasEdge(g'.bb[b], t)
        ensures D[t] <= D[b] + MadeBy(Ops(g', b))
      {
        assert InEdges(EdgesOf(g'.bb[b]), t);
        assert HasEdge(g.bb[b], t);
      }
    }
  }

  // ----- merging -----

  lemma GapInCode(g: Graph, g': Graph, x: nat, gap: seq<Op>, rest: seq<Op>)
    requires x < |g.bb| == |g'.bb| && BlockInRange(g, x) && g.bb[x].used && g'.code == g.code
    requires Ops(g', x) == Ops(g, x) + gap + rest
    ensures forall i :: 0 <= i < |gap| ==> gap[i] in g.code
  {
    forall i | 0 <= i < |gap| ensures gap[i] in g.code {
      assert Ops(g', x)[|Ops(g, x)| + i] == gap[i];
      assert Ops(g', x)[|Ops(g, x)| + i] in g.code;
    }
  }

  lemma JoinIs(g: Graph, x: nat, p: nat, T: nat, bools: set<nat>) returns (gap: seq<Op>)
    requires Inv(g, T, bools) && CanMerge(g, x, p)
    ensures var g' := Merge(g, x, p);
            && Merged(g, g', x, p) && Inv(g', T, bools) && SameList(g, g') && g'.code == g.code
            && Ops(g', x) == Ops(g, x) + gap + Ops(g, p)
    ensures (forall i :: 0 <= i < |gap| ==> gap[i].code.Nop? && gap[i] in g.code) && x + g.bb[x].len <= p
  {
    MergeBlocks(g, x, p);
    MergeKeeps(g, x, p, T, bools);
    gap := MergedOps(g, Merge(g, x, p), x, p);
    assert BlockInRange(g, x);
    GapInCode(g, Merge(g, x, p), x, gap, Ops(g, p));
  }

  // Blocks other than the two.
  lemma UnjoinedOps(g: Graph, g': Graph, x: nat, p: nat, b: nat)
    requires InRange(g) && Merged(g, g', x, p) && b < |g.bb| && b != x
    ensures Ops(g', b) == if b == p then [] else Ops(g, b)
    ensures b != p ==> EdgesOf(g'.bb[b]) == EdgesOf(g.bb[b]) && g'.bb[b].len == g.bb[b].len && g'.bb[b].start == g.bb[b].start && g'.bb[b].used == g.bb[b].used
  {
    assert BlockInRange(g, b);
  }

  lemma {:induction false} ExposedInSum(a: seq<Op>, b: seq<Op>, r: nat)
    requires Exposed(a + b, r)
    ensures Exposed(a, r) || Exposed(b, r)
  {
    var i :| 0 <= i < |a + b| && NeedsBefore((a + b)[i], r) && !WrittenBefore(a + b, i, r);
    if i < |a| {
      assert forall j :: 0 <= j < i ==> a[j] == (a + b)[j];
      assert NeedsBefore(a[i], r) && !WrittenBefore(a, i, r);
    } else {
      forall j | 0 <= j < i - |a| ensures !DefinesSlot(b[j], r) { assert b[j] == (a + b)[|a| + j]; }
      assert NeedsBefore(b[i - |a|], r) && !WrittenBefore(b, i - |a|, r);
    }
  }

  // NOPs without operands.
  ghost predicate Silent(gap: seq<Op>) {
    forall i :: 0 <= i < |gap| ==> gap[i].code.Nop? && Quiet(gap[i])
  }

  lemma SilentExposes(gap: seq<Op>, r: nat)
    requires Silent(gap)
    ensures !Exposed(gap, r)
  {
  }

  lemma {:induction false} SilentNeeds(gap: seq<Op>)
    requires Silent(gap)
    ensures Needs(gap) == {} && MadeBy(gap) == {}
    decreases |gap|
  {
    if gap != [] {
      assert gap[0].code.Nop? && Quiet(gap[0]);
      SilentNeeds(gap[1..]);
    }
  }

  lemma GapIsSilent(code: seq<Op>, gap: seq<Op>)
    requires Neat(code) && forall i :: 0 <= i < |gap| ==> gap[i].code.Nop? && gap[i] in code
    ensures Silent(gap)
  {
    forall i | 0 <= i < |gap| ensures Quiet(gap[i]) {
      var k :| 0 <= k < |code| && code[k] == gap[i];
      assert Quiet(code[k]);
    }
  }

  lemma JoinMarks(g: Graph, x: nat, p: nat, T: nat, bools: set<nat>, r: nat)
    requires Inv(g, T, bools) && Neat(g.code) && CanMerge(g, x, p) && Marks(Merge(g, x, p), r)
    ensures Marks(g, r)
  {
    var g' := Merge(g, x, p);
    var gap := JoinIs(g, x, p, T, bools);
    var b: nat :| b < |g'.bb| && Exposed(Ops(g', b), r);
    if b == x {
      GapIsSilent(g.code, gap);
      SilentExposes(gap, r);
      ExposedInSum(Ops(g, x) + gap, Ops(g, p), r);
      if Exposed(Ops(g, x) + gap, r) { ExposedInSum(Ops(g, x), gap, r); }
    } else {
      UnjoinedOps(g, g', x, p, b);
    }
  }

  lemma JoinCertified(g: Graph, x: nat, p: nat, D: seq<set<nat>>, T: nat, bools: set<nat>)
    requires Inv(g, T, bools) && Neat(g.code) && CanMerge(g, x, p) && Certified(g, D)
    ensures Certified(Merge(g, x, p), D)
  {
    var g' := Merge(g, x, p);
    var gap := JoinIs(g, x, p, T, bools);
    JoinNeeds(g, x, p, gap, D);
    forall b: nat | b < |g'.bb| && g'.bb[b].used
      ensures Needs(Ops(g', b)) <= D[b]
      ensures forall t: nat {:trigger HasEdge(g'.bb[b], t)} ::
                t < |g'.bb| && HasEdge(g'.bb[b], t) ==> D[t] <= D[b] + MadeBy(Ops(g', b))
    {
      if b != x { UnjoinedOps(g, g', x, p, b); }
      forall t: nat {:trigger HasEdge(g'.bb[b], t)} | t < |g'.bb| && HasEdge(g'.bb[b], t)
        ensures D[t] <= D[b] + MadeBy(Ops(g', b))
      {
        assert InEdges(EdgesOf(g'.bb[b]), t);
        assert HasEdge(g.bb[if b == x then p else b], t);
      }
    }
  }

  lemma {:induction false} JoinNeeds(g: Graph, x: nat, p: nat, gap: seq<Op>, D: seq<set<nat>>)
    requires Certified(g, D) && Neat(g.code) && CanMerge(g, x, p) && forall i ::
               0 <= i < |gap| ==> gap[i].code.Nop? && gap[i] in g.code
    ensures Needs(Ops(g, x) + gap + Ops(g, p)) <= D[x]
    ensures D[p] + MadeBy(Ops(g, p)) <= D[x] + MadeBy(Ops(g, x) + gap + Ops(g, p))
  {
    var a, c := Ops(g, x), Ops(g, p);
    GapIsSilent(g.code, gap);
    SilentNeeds(gap);
    MadeBySum(a, gap);
    MadeBySum(a + gap, c);
    assert HasEdge(g.bb[x], p);
    NeedsOfBoth(a, gap, D[x], D[x]);
    assert D[p] <= D[x] + MadeBy(a);
    NeedsOfBoth(a + gap, c, D[x], D[p]);
    assert Needs(a + gap + c) <= D[x];
  }

  lemma JoinFetches(g: Graph, x: nat, p: nat, T: nat, bools: set<nat>)
    requires Inv(g, T, bools) && CanMerge(g, x, p) && FetchesNext(g)
    ensures FetchesNext(Merge(g, x, p))
  {
    var g' := Merge(g, x, p);
    var gap := JoinIs(g, x, p, T, bools);
    forall b: nat | b < |g'.bb| && g'.bb[b].used ensures FetchAt(g', b) {
      if b == x { JoinFetchAtX(g, g', x, p, T, bools); } else { JoinFetchAt(g, g', x, p, T, bools, b); }
    }
  }

  // A FE_FETCH behind a FE_RESET in use is not merged.
  lemma FetchStays(g: Graph, x: nat, p: nat, T: nat, bools: set<nat>, b: nat, c: nat)
    requires Inv(g, T, bools) && CanMerge(g, x, p) && b < |g.bb| && g.bb[b].used && Ready(g, b)
    requires TwoWay(Last(g, b).code)
    requires g.bb[b].follow == Some(c) && c < |g.bb| && g.bb[c].len == 1 && c < |g.code| && TwoWay(g.code[c].code)
    ensures c != p && c != x
  {
    InvLast(g, b, T, bools);
    assert HasEdge(g.bb[b], c);
    assert b in g.bb[c].pred;
    assert g.bb[c].used && BlockInRange(g, c);
    InvLast(g, c, T, bools);
  }

  // A FE_FETCH that stays as it is stays the next block, also of a block x that ends as b did.
  lemma FetchKept(g: Graph, g': Graph, b: nat, x: nat, c: nat)
    requires b < |g.bb| == |g'.bb| && x < |g.bb| && g'.code == g.code && FetchAt(g, b) && g.bb[b].follow == Some(c)
    requires c < |g.bb|
    requires Ready(g, b) && Ready(g', x) && Last(g', x) == Last(g, b)
    requires g'.bb[x].follow == g.bb[b].follow && g'.bb[c].start == g.bb[c].start && g'.bb[c].len == g.bb[c].len
    ensures FetchAt(g', x)
  {
  }

  // What the merge leaves alone.
  lemma Unjoined(g: Graph, g': Graph, x: nat, p: nat, b: nat)
    requires Merged(g, g', x, p) && b < |g.bb| && b != x && b != p
    ensures g'.bb[b].follow == g.bb[b].follow && g'.bb[b].len == g.bb[b].len && g'.bb[b].start == g.bb[b].start
    ensures g'.bb[b].used == g.bb[b].used
  {
  }

  lemma JoinFetchAt(g: Graph, g': Graph, x: nat, p: nat, T: nat, bools: set<nat>, b: nat)
    requires Inv(g, T, bools) && CanMerge(g, x, p) && Merged(g, g', x, p) && FetchesNext(g) && b < |g.bb| && b != x
    requires g'.bb[b].used
    ensures FetchAt(g', b)
  {
    Unjoined(g, g', x, p, b);
    assert FetchAt(g, b);
    if Ready(g', b) && Last(g', b).code.FeReset? && Defines(Last(g', b)) {
      assert Ready(g, b) && Last(g, b) == Last(g', b);
      var c := g.bb[b].follow.value;
      FetchStays(g, x, p, T, bools, b, c);
      Unjoined(g, g', x, p, c);
      FetchKept(g, g', b, b, c);
    }
  }

  // x ends as p did.
  lemma JoinedEnd(g: Graph, g': Graph, x: nat, p: nat, T: nat, bools: set<nat>)
    requires Inv(g, T, bools) && CanMerge(g, x, p) && Merged(g, g', x, p) && Inv(g', T, bools) && Ready(g', x)
    requires Last(g', x).code.FeReset?
    ensures Ready(g, p) && Last(g, p) == Last(g', x) && g'.bb[x].follow == g.bb[p].follow && g.bb[p].used
  {
    InvLast(g', x, T, bools);
    assert BlockInRange(g, p) && Shaped(g, p);
    assert g.bb[p].len > 0;
  }

  lemma JoinFetchAtX(g: Graph, g': Graph, x: nat, p: nat, T: nat, bools: set<nat>)
    requires Inv(g, T, bools) && CanMerge(g, x, p) && Merged(g, g', x, p) && FetchesNext(g) && Inv(g', T, bools)
    ensures FetchAt(g', x)
  {
    if Ready(g', x) && Last(g', x).code.FeReset? && Defines(Last(g', x)) {
      JoinedEnd(g, g', x, p, T, bools);
      assert FetchAt(g, p);
      var c := g.bb[p].follow.value;
      FetchStays(g, x, p, T, bools, p, c);
      Unjoined(g, g', x, p, c);
      FetchKept(g, g', p, x, c);
    }
  }

  lemma JoinLast(g: Graph, g': Graph, x: nat, p: nat)
    requires InRange(g) && Disjoint(g) && CanMerge(g, x, p) && Merged(g, g', x, p) && ReturnsLast(g)
    ensures EdgesOf(g'.bb[|g.code| - 1]) == EdgesOf(g.bb[|g.code| - 1]) && x + g.bb[x].len <= p
  {
    assert BlockInRange(g, x) && BlockInRange(g, p);
    assert x != |g.code| - 1;
  }

  lemma {:induction false} JoinReturns(g: Graph, x: nat, p: nat, T: nat, bools: set<nat>)
    requires Inv(g, T, bools) && CanMerge(g, x, p) && ReturnsLast(g)
    ensures ReturnsLast(Merge(g, x, p))
  {
    var g' := Merge(g, x, p);
    MergeBlocks(g, x, p);
    JoinLast(g, g', x, p);
    forall b: nat, j: nat {:trigger ReturnAt(g', b, j)} | b < |g'.bb| && g'.bb[b].used && Owns(g', b, j)
      && j < |g'.code| && Leaves(g'.code[j])
      ensures ReturnAt(g', b, j)
    {
      if b == x { JoinReturnAtX(g, g', x, p, T, bools, j); } else { JoinReturnAt(g, g', x, p, b, j); }
    }
  }

  lemma JoinReturnAt(g: Graph, g': Graph, x: nat, p: nat, b: nat, j: nat)
    requires InRange(g) && ReturnsLast(g) && Merged(g, g', x, p) && b < |g.bb| && b != x
    requires g'.bb[b].used && Owns(g', b, j) && j < |g'.code| && Leaves(g'.code[j])
    ensures ReturnAt(g', b, j)
  {
    UnjoinedOps(g, g', x, p, b);
    assert Owns(g, b, j);
    assert ReturnAt(g, b, j);
    forall i: nat {:trigger Owns(g', b, i)} | Owns(g', b, i) && j < i < |g'.code| ensures Idle(g'.code[i]) {
      assert Owns(g, b, i);
    }
  }

  lemma JoinReturnAtX(g: Graph, g': Graph, x: nat, p: nat, T: nat, bools: set<nat>, j: nat)
    requires Inv(g, T, bools) && CanMerge(g, x, p) && Merged(g, g', x, p) && ReturnsLast(g) && x + g.bb[x].len <= p
    requires Owns(g', x, j) && j < |g.code| && Leaves(g.code[j])
    ensures ReturnAt(g', x, j)
  {
    assert EdgesOf(g'.bb[x]) == EdgesOf(g.bb[p]);
    if x + g.bb[x].len <= j < p { GapIsNop(g, x, p, j); }
    assert Owns(g, if j < p then x else p, j);
    assert ReturnAt(g, if j < p then x else p, j);
    forall i: nat {:trigger Owns(g', x, i)} | Owns(g', x, i) && j < i < |g.code| ensures Idle(g.code[i]) {
      if x + g.bb[x].len <= i < p {
        GapIsNop(g, x, p, i);
      } else {
        assert Owns(g, if i < p then x else p, i);
      }
    }
  }

  lemma JoinTame(g: Graph, x: nat, p: nat, T: nat, bools: set<nat>)
    requires Inv(g, T, bools) && Tame(g) && CanMerge(g, x, p)
    ensures Tame(Merge(g, x, p))
  {
    var g' := Merge(g, x, p);
    var gap := JoinIs(g, x, p, T, bools);
    var K: set<(nat, nat)> :| MadeFirst(g.code, K) && AllSplit(g, K);
    MoveSplit(g, None, Join(x, p), T, bools, K);
    assert MadeFirst(g'.code, K);
    forall i | 0 <= i < |g'.code| && Flagged(g'.code[i]) ensures !Marks(g', g'.code[i].res.n) {
      if Marks(g', g'.code[i].res.n) { JoinMarks(g, x, p, T, bools, g'.code[i].res.n); }
    }
    JoinFetches(g, x, p, T, bools);
    JoinReturns(g, x, p, T, bools);
    var D: seq<set<nat>> :| Certified(g, D);
    JoinCertified(g, x, p, D, T, bools);
  }

  // ----- every run -----

  lemma MoveTame(g: Graph, prev: Option<Move>, m: Move, T: nat, bools: set<nat>)
    requires Inv(g, T, bools) && Tame(g) && Allowed(g, prev, m)
    ensures Tame(Result(g, prev, m))
  {
    match m
    case Rule(p, ed) => RuleTame(g, prev, p, ed, T, bools);
    case Unlink(p, q) => UnlinkTame(g, p, q, T, bools);
    case Join(x, p) => JoinTame(g, x, p, T, bools);
  }

  lemma {:induction false} TrailTame(g: Graph, prev: Option<Move>, ms: seq<Move>, g': Graph, T: nat, bools: set<nat>)
    requires Inv(g, T, bools) && Tame(g) && Trail(g, prev, ms, g')
    ensures Inv(g', T, bools) && Tame(g')
    decreases |ms|
  {
    if ms != [] {
      MoveKeeps(g, prev, ms[0], T, bools);
      MoveTame(g, prev, ms[0], T, bools);
      TrailTame(Result(g, prev, ms[0]), Some(ms[0]), ms[1..], g', T, bools);
    }
  }
}
