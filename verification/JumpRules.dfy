// The jump rewrites of optimize_jmp, one function per `case`, each trying its rules in the source's order.
// A rule yields an Edit: the new last instruction, the new pointers, and the predecessor bookkeeping.
module JumpRules {
  import opened Options
  import opened Opcodes
  import opened Graphs
  import opened Preds
  import opened Ways
  import opened Rewrites

  datatype Edit = Edit(op: Op, shrink: bool, drop: Ref, e: Edges, add: Ref)

  const ZEND_BRK: nat := 50
  const ZEND_CONT: nat := 51

  // p ends in an instruction.
  predicate Ready(g: Graph, p: nat) {
    p < |g.bb| && 0 < g.bb[p].len && p + g.bb[p].len <= |g.code|
  }

  function Last(g: Graph, p: nat): Op
    requires Ready(g, p)
  {
    g.code[p + g.bb[p].len - 1]
  }

  // p->start->opcode and its operands; a block that starts nowhere has none.
  function First(g: Graph, t: nat): Op {
    if t < |g.bb| && g.bb[t].start.Some? && g.bb[t].start.value < |g.code| then g.code[g.bb[t].start.value]
    else Op(Nop, Unused, Unused, Unused, false, 0, 0, 0)
  }

  predicate Single(g: Graph, r: Ref) {
    r.Some? && r.value < |g.bb| && g.bb[r.value].len == 1
  }

  // The block is one JMP.
  predicate IsJump(g: Graph, r: Ref) {
    Single(g, r) && First(g, r.value).code.Jmp?
  }

  // o tests the temporary x.
  predicate Tests(o: Op, x: Operand) {
    x.Tmp? && o.op1 == x
  }

  // o tests x, and keeps the outcome in x if it keeps it at all.
  predicate TestsKeeping(o: Op, x: Operand) {
    Tests(o, x) && (o.code.JmpzEx? || o.code.JmpnzEx? ==> o.res == x)
  }

  // Where a test of a false (true) value goes.
  function OnFalse(blk: Block, c: Opcode): Ref {
    if c.Jmpnz? || c.JmpnzEx? then blk.follow else blk.jmp2
  }

  function OnTrue(blk: Block, c: Opcode): Ref {
    if c.Jmpnz? || c.JmpnzEx? then blk.jmp2 else if c.Jmpznz? then blk.ext else blk.follow
  }

  function Unless(r: Ref, other: Ref): Ref {
    if r != other then r else None
  }

  function ToJmp(op: Op): Op {
    op.(code := Jmp, op1 := Unused, op2 := Unused)
  }

  // ----- case ZEND_JMP -----

  function JmpRule(g: Graph, p: nat): Option<Edit>
    requires Ready(g, p)
  {
    if g.bb[p].jmp1 == g.bb[p].next then
      Some(Edit(SetToNop(Last(g, p)), true, None, Edges(None, None, None, g.bb[p].jmp1), None))
    else None
  }

  function ThreadJmp1(g: Graph, p: nat): Option<Edit>
    requires Ready(g, p)
  {
    var blk := g.bb[p];
    if IsJump(g, blk.jmp1) && blk.jmp1 != Some(p) then
      var u := g.bb[blk.jmp1.value].jmp1;
      Some(Edit(Last(g, p), false, blk.jmp1, Edges(u, None, None, None), u))
    else None
  }

  // ----- case ZEND_JMPZNZ -----

  function ZnzRule(g: Graph, p: nat): Option<Edit>
    requires Ready(g, p)
  {
    var blk, op := g.bb[p], Last(g, p);
    var jmp := ToJmp(op).(ext := 0);
    if blk.ext == blk.jmp2 then
      Some(Edit(jmp, false, None, Edges(blk.jmp2, None, None, None), None))
    else if op.op1.Const? then
      if !Truth(op.op1.value) then
        Some(Edit(jmp, false, blk.ext, Edges(blk.jmp2, None, None, None), None))
      else
        Some(Edit(jmp, false, blk.jmp2, Edges(blk.ext, None, None, None), None))
    else if blk.ext == blk.next then
      Some(Edit(op.(code := Jmpz, ext := 0), false, None, Edges(None, blk.jmp2, None, blk.ext), None))
    else if blk.jmp2 == blk.next then
      Some(Edit(op.(code := Jmpnz, ext := 0), false, None, Edges(None, blk.ext, None, blk.jmp2), None))
    else if Single(g, blk.jmp2) && blk.ext.Some? && op.op1.Tmp? then
      ZnzThread(g, p)
    else None
  }

  function ZnzThread(g: Graph, p: nat): Option<Edit>
    requires Ready(g, p) && g.bb[p].jmp2.Some? && g.bb[p].ext.Some?
  {
    var blk, op := g.bb[p], Last(g, p);
    var z, nz := First(g, blk.jmp2.value), First(g, blk.ext.value);
    if (z.code.Jmpz? || z.code.Jmpznz? || z.code.Jmpnz?) && Tests(z, op.op1) && blk.jmp2.value < |g.bb| then
      var u := OnFalse(g.bb[blk.jmp2.value], z.code);
      Some(Edit(op, false, blk.jmp2, Edges(None, u, blk.ext, None), u))
    else if (nz.code.Jmpnz? || nz.code.Jmpznz? || nz.code.Jmpz?) && Tests(nz, op.op1) && blk.ext.value < |g.bb| then
      var u := OnTrue(g.bb[blk.ext.value], nz.code);
      Some(Edit(op, false, blk.ext, Edges(None, blk.jmp2, u, None), u))
    else None
  }

  // The loops that follow a chain of JMPs.
  function ThreadJmp2(g: Graph, p: nat, other: Ref): Option<Edit>
    requires Ready(g, p)
  {
    var blk := g.bb[p];
    if IsJump(g, blk.jmp2) then
      var u := g.bb[blk.jmp2.value].jmp1;
      Some(Edit(Last(g, p), false, Unless(blk.jmp2, other), EdgesOf(blk).(jmp2 := u), u))
    else None
  }

  function ThreadExt(g: Graph, p: nat): Option<Edit>
    requires Ready(g, p)
  {
    var blk := g.bb[p];
    if IsJump(g, blk.ext) then
      var u := g.bb[blk.ext.value].jmp1;
      Some(Edit(Last(g, p), false, Unless(blk.ext, blk.jmp2), EdgesOf(blk).(ext := u), u))
    else None
  }

  // ----- case ZEND_JMPZ and case ZEND_JMPNZ -----

  // `taken` is the truth value on which the instruction jumps.
  function TestRule(g: Graph, p: nat, taken: bool): Option<Edit>
    requires Ready(g, p)
  {
    var blk, op := g.bb[p], Last(g, p);
    var fall := Edges(None, None, None, blk.follow);
    if blk.follow == blk.jmp2 then
      Some(Edit(SetToNop(op), true, None, fall, None))
    else if op.op1.Const? then
      if Truth(op.op1.value) == taken then
        Some(Edit(ToJmp(op), false, blk.follow, Edges(blk.jmp2, None, None, None), None))
      else
        Some(Edit(SetToNop(op), true, blk.jmp2, fall, None))
    else if IsJump(g, blk.follow) then
      var u := g.bb[blk.follow.value].jmp1;
      Some(Edit(op.(code := Jmpznz), false, blk.follow,
                if taken then Edges(None, u, blk.jmp2, None) else Edges(None, blk.jmp2, u, None), u))
    else if Single(g, blk.jmp2) && op.op1.Tmp? then
      TestThread(g, p, op.op1, taken)
    else None
  }

  // A jump on x lands on another test of x.  JMPZ and JMPZ_EX share this.
  function TestThread(g: Graph, p: nat, x: Operand, taken: bool): Option<Edit>
    requires Ready(g, p) && Single(g, g.bb[p].jmp2)
  {
    var blk, op := g.bb[p], Last(g, p);
    var o := First(g, blk.jmp2.value);
    if Threadable(o.code, op.code) && TestsKeeping(o, x) then
      var b := g.bb[blk.jmp2.value];
      var u := if taken then OnTrue(b, o.code) else OnFalse(b, o.code);
      Some(Edit(op, false, Unless(blk.jmp2, blk.follow), EdgesOf(blk).(jmp2 := u), u))
    else None
  }

  // The opcodes a jump may be threaded through: the _EX forms only from an _EX form.
  predicate Threadable(c: Opcode, from: Opcode) {
    c.Jmpz? || c.Jmpnz? || c.Jmpznz? || (Ex(from) && Ex(c))
  }

  predicate Ex(c: Opcode) {
    c.JmpzEx? || c.JmpnzEx?
  }

  // ----- case ZEND_JMPZ_EX and case ZEND_JMPNZ_EX -----

  function ExRule(g: Graph, p: nat, taken: bool): Option<Edit>
    requires Ready(g, p)
  {
    var blk, op := g.bb[p], Last(g, p);
    var fall := Edges(None, None, None, blk.follow);
    if blk.follow == blk.jmp2 && op.op1.Tmp? && op.res.Tmp? && op.op1.n == op.res.n then
      Some(Edit(SetToNop(op), true, None, fall, None))
    else if blk.follow == blk.jmp2 then
      Some(Edit(op.(code := Bool, op2 := Unused), false, None, fall, None))
    else if Single(g, blk.jmp2) && op.res.Tmp? then
      TestThread(g, p, op.res, taken)
    else None
  }

  // ----- JMP to RETURN or EXIT -----

  function ReturnRule(g: Graph, p: nat): Option<Edit>
    requires Ready(g, p)
  {
    var blk, op := g.bb[p], Last(g, p);
    if op.code.Jmp? && Single(g, blk.jmp1)
      && (First(g, blk.jmp1.value).code.Return? || First(g, blk.jmp1.value).code.Exit?) then
      if op.ext == ZEND_BRK || op.ext == ZEND_CONT then
        Some(Edit(op.(ext := 0), false, None, EdgesOf(blk), None))
      else
        Some(Edit(First(g, blk.jmp1.value), false, blk.jmp1, Edges(None, None, None, blk.follow), None))
    else None
  }

  // ----- every rule is sound -----

  ghost predicate Sound(g: Graph, p: nat, ed: Edit, T: nat, bools: set<nat>)
    requires Ready(g, p)
  {
    && CanRewrite(g, p, ed.op, ed.shrink, ed.drop, ed.e, ed.add, T, bools)
    && Tidy(g.bb, p, ed.drop, ed.e, ed.add)
    && (g.bb[p].used ==> forall w: World, s :: StateOk(s, T, bools) ==>
          TailHop(w, g, Last(g, p), g.bb[p], ed.op, ed.e, s))
  }

  // What the invariant says about a block t that p points to.
  lemma PointsTo(g: Graph, p: nat, t: nat, T: nat, bools: set<nat>)
    requires Inv(g, T, bools) && p < |g.bb| && HasEdge(g.bb[p], t)
    ensures t < |g.bb| && BlockInRange(g, t) && Shaped(g, t)
    ensures g.bb[p].used ==> g.bb[t].used
    ensures forall u: nat :: HasEdge(g.bb[t], u) ==> u < |g.bb| && (g.bb[t].used ==> g.bb[u].used)
  {
    assert BlockInRange(g, p);
    assert BlockInRange(g, t) && Shaped(g, t);
  }

  // A used block that starts with a jump is that jump.
  lemma JumpIsWhole(g: Graph, t: nat)
    requires InRange(g) && t < |g.bb| && BlockInRange(g, t) && Shaped(g, t) && g.bb[t].used && Control(First(g, t).code)
    ensures g.bb[t].len == 1
  {
    assert g.bb[t].len > 0;
    var pre := g.code[t .. t + g.bb[t].len - 1];
    assert pre != [] ==> pre[0] == First(g, t);
  }

  // The meaning of a block of one instruction.
  lemma SingleStep(w: World, g: Graph, t: nat, s: State)
    requires t < |g.bb| && BlockInRange(g, t) && g.bb[t].len == 1
    ensures Step(w, g, Running(t, s)) == ExecOps(w, [First(g, t)], g.bb[t], s)
  {
    assert Ops(g, t) == [First(g, t)];
  }

  lemma NextIsNext(g: Graph, p: nat, T: nat, bools: set<nat>)
    requires Inv(g, T, bools) && p < |g.bb| && g.bb[p].start.Some? && g.bb[p].next.Some?
    ensures NextUsed(g.bb, p, g.bb[p].next)
  {
    assert BlockInRange(g, p);
    forall c | p < c < g.bb[p].next.value ensures !g.bb[c].used {
      assert Skipped(g.bb[p], c);
    }
  }

  lemma TailIs(w: World, op: Op, blk: Block, s: State)
    ensures var (d, s') := Exec(w, op, s); ExecOps(w, [op], blk, s) == Leave(blk, d, s')
  {
  }

  // A jump into a block that is one JMP is a jump to where that goes.
  lemma HopThroughJump(w: World, g: Graph, t: nat, s: State)
    requires t < |g.bb| && BlockInRange(g, t) && Shaped(g, t) && IsJump(g, Some(t))
    ensures g.bb[t].jmp1.Some? && HasEdge(g.bb[t], g.bb[t].jmp1.value)
    ensures Step(w, g, Running(t, s)) == Running(g.bb[t].jmp1.value, s)
  {
    SingleStep(w, g, t, s);
    TailIs(w, First(g, t), g.bb[t], s);
  }

  // A jump into a block that is one test of x, when x is known.
  lemma HopThroughTest(w: World, g: Graph, t: nat, s: State, x: Operand, v: bool)
    requires t < |g.bb| && BlockInRange(g, t) && Shaped(g, t) && g.bb[t].len == 1
    requires var o := First(g, t); TestsKeeping(o, x) && (o.code.Jmpz? || o.code.Jmpnz? || o.code.Jmpznz? || (Ex(o.code) && Value(x, s.tm) == ToBool(Value(x, s.tm))))
    requires Truth(Value(x, s.tm)) == v
    ensures var u := if v then OnTrue(g.bb[t], First(g, t).code) else OnFalse(g.bb[t], First(g, t).code);
            u.Some? && HasEdge(g.bb[t], u.value) && Step(w, g, Running(t, s)) == Running(u.value, s)
  {
    SingleStep(w, g, t, s);
    var o := First(g, t);
    TailIs(w, o, g.bb[t], s);
    assert Ex(o.code) ==> Put(x, s.tm, Value(x, s.tm)) == s.tm;
  }

  // p leads to t, and t to u.
  ghost predicate Leads(g: Graph, p: nat, t: nat, u: nat) {
    && p < |g.bb| && t < |g.bb| && u < |g.bb| && BlockInRange(g, t) && Shaped(g, t)
    && HasEdge(g.bb[p], t) && HasEdge(g.bb[t], u) && (g.bb[p].used ==> g.bb[t].used) && (g.bb[t].used ==> g.bb[u].used)
  }

  // Threading p's jump to t on to u, where t goes.  p may have another edge.
  lemma ThreadEdges(g: Graph, p: nat, t: nat, u: nat, other: Ref, drop: Ref, e: Edges)
    requires Leads(g, p, t, u) && drop == Unless(Some(t), other)
    requires forall x: nat :: HasEdge(g.bb[p], x) <==> x == t || other == Some(x)
    requires forall x: nat :: InEdges(e, x) <==> x == u || other == Some(x)
    ensures CanRewire(g.bb, p, drop, e, Some(u)) && Tidy(g.bb, p, drop, e, Some(u))
  {
  }

  // Threading leads over one jump.
  lemma ThreadSteers(g: Graph, p: nat, t: nat, u: nat, op: Op, e: Edges)
    requires Ready(g, p) && Leads(g, p, t, u) && g.bb[t].len == 1 && Control(First(g, t).code)
    requires Control(Last(g, p).code)
    requires forall x: nat :: InEdges(e, x) ==> x == u || HasEdge(g.bb[p], x)
    requires SelfTest(op) ==>
               op == Last(g, p) && e.follow == g.bb[p].follow && g.bb[p].jmp2 == Some(t) && e.jmp2 == Some(u)
    ensures Steers(g, p, op, e)
  {
    assert Over(g, p, t, u);
  }

  lemma JumpTarget(g: Graph, t: nat)
    requires t < |g.bb| && BlockInRange(g, t) && Shaped(g, t) && IsJump(g, Some(t))
    ensures g.bb[t].jmp1.Some? && HasEdge(g.bb[t], g.bb[t].jmp1.value)
  {
  }

  // What is known about the last instruction of p, in use or not.
  ghost predicate LastFacts(g: Graph, p: nat, T: nat, bools: set<nat>)
    requires Ready(g, p)
  {
    && BlockInRange(g, p) && TailShape(Last(g, p).code, EdgesOf(g.bb[p])) && OpOk(Last(g, p), T, bools)
    && (g.bb[p].used && FallsAfter(Last(g, p).code) ==> NextUsed(g.bb, p, g.bb[p].follow))
  }

  lemma InvLast(g: Graph, p: nat, T: nat, bools: set<nat>)
    requires Inv(g, T, bools) && Ready(g, p)
    ensures LastFacts(g, p, T, bools)
  {
    assert BlockInRange(g, p) && Shaped(g, p) && Placed(g, p);
  }

  // What the invariant says about p and its last instruction.
  ghost predicate TailFacts(g: Graph, p: nat, T: nat, bools: set<nat>)
    requires Ready(g, p)
  {
    && BlockInRange(g, p) && g.bb[p].start.Some? && g.bb[p].used
    && TailShape(Last(g, p).code, EdgesOf(g.bb[p]))
    && OpOk(Last(g, p), T, bools)
    && (FallsAfter(Last(g, p).code) ==> NextUsed(g.bb, p, g.bb[p].follow))
    && (g.bb[p].next.Some? ==> NextUsed(g.bb, p, g.bb[p].next))
  }

  lemma InvTail(g: Graph, p: nat, T: nat, bools: set<nat>)
    requires Inv(g, T, bools) && Ready(g, p) && g.bb[p].used
    ensures TailFacts(g, p, T, bools)
  {
    assert BlockInRange(g, p) && Shaped(g, p) && Placed(g, p);
    if g.bb[p].next.Some? { NextIsNext(g, p, T, bools); }
  }

  // Rules that only give edges up: the new instruction goes where the old one went.
  lemma PlainSound(g: Graph, p: nat, ed: Edit, T: nat, bools: set<nat>)
    requires Ready(g, p) && BlockInRange(g, p) && ed.add.None?
    requires ed.drop.Some? ==> HasEdge(g.bb[p], ed.drop.value)
    requires forall x: nat :: InEdges(ed.e, x) ==> HasEdge(g.bb[p], x) && ed.drop != Some(x)
    requires forall x: nat :: HasEdge(g.bb[p], x) && !InEdges(ed.e, x) ==> ed.drop == Some(x)
    requires (Control(ed.op.code) ==> Control(Last(g, p).code)) && !SelfTest(ed.op)
    requires OpOk(ed.op, T, bools) && TailShape(ed.op.code, ed.e) && (ed.shrink ==> ed.op.code.Nop? && ed.e.jmp2.None?)
    requires ed.shrink || FallsAfter(ed.op.code) ==> NextUsed(g.bb, p, ed.e.follow)
    requires forall w: World, s :: StateOk(s, T, bools) ==> SameExit(w, Last(g, p), g.bb[p], ed.op, ed.e, s)
    ensures Sound(g, p, ed, T, bools)
  {
    RewirePlain(g, p, ed.drop, ed.e);
    forall w: World, s | StateOk(s, T, bools) ensures TailHop(w, g, Last(g, p), g.bb[p], ed.op, ed.e, s) {
      assert SameExit(w, Last(g, p), g.bb[p], ed.op, ed.e, s);
      TailIs(w, Last(g, p), g.bb[p], s);
      TailIs(w, ed.op, WithEdges(g.bb[p], ed.e), s);
    }
  }

  ghost predicate SameExit(w: World, op: Op, blk: Block, op': Op, e: Edges, s: State) {
    && Exec(w, op, s).1 == Exec(w, op', s).1
    && Target(blk, Exec(w, op, s).0) == Target(WithEdges(blk, e), Exec(w, op', s).0)
  }

  lemma RewirePlain(g: Graph, p: nat, drop: Ref, e: Edges)
    requires p < |g.bb| && BlockInRange(g, p)
    requires drop.Some? ==> HasEdge(g.bb[p], drop.value)
    requires forall x: nat :: InEdges(e, x) ==> HasEdge(g.bb[p], x) && drop != Some(x)
    ensures CanRewire(g.bb, p, drop, e, None)
  {
  }

  lemma JmpRuleSound(g: Graph, p: nat, T: nat, bools: set<nat>)
    requires Inv(g, T, bools) && Ready(g, p) && Last(g, p).code.Jmp? && JmpRule(g, p).Some?
    ensures Sound(g, p, JmpRule(g, p).value, T, bools)
  {
    assert BlockInRange(g, p) && Shaped(g, p);
    NextIsNext(g, p, T, bools);
    var blk, ed := g.bb[p], JmpRule(g, p).value;
    forall w: World, s | StateOk(s, T, bools) ensures TailHop(w, g, Last(g, p), blk, ed.op, ed.e, s) {
      TailIs(w, Last(g, p), blk, s);
      TailIs(w, ed.op, WithEdges(blk, ed.e), s);
    }
  }

  // Every rule that follows a chain of JMPs from the jump at `d`.
  lemma ThreadJumpHop(w: World, g: Graph, op: Op, blk: Block, e: Edges, t: nat, s: State)
    requires t < |g.bb| && BlockInRange(g, t) && Shaped(g, t) && IsJump(g, Some(t))
    requires var (d, s') := Exec(w, op, s);
             Target(WithEdges(blk, e), d) == Target(blk, d)
             || (Target(blk, d) == Some(t) && Target(WithEdges(blk, e), d) == g.bb[t].jmp1)
    ensures TailHop(w, g, op, blk, op, e, s)
  {
    TailIs(w, op, blk, s);
    TailIs(w, op, WithEdges(blk, e), s);
    HopThroughJump(w, g, t, Exec(w, op, s).1);
  }

  lemma ThreadJmp1By(g: Graph, p: nat, t: nat, u: nat, T: nat, bools: set<nat>)
    requires Ready(g, p) && LastFacts(g, p, T, bools) && Last(g, p).code.Jmp? && ThreadJmp1(g, p).Some?
    requires g.bb[p].jmp1 == Some(t) && IsJump(g, Some(t)) && g.bb[t].jmp1 == Some(u) && Leads(g, p, t, u)
    ensures Sound(g, p, ThreadJmp1(g, p).value, T, bools)
  {
    var blk, ed := g.bb[p], ThreadJmp1(g, p).value;
    ThreadEdges(g, p, t, u, None, ed.drop, ed.e);
    ThreadSteers(g, p, t, u, ed.op, ed.e);
    forall w: World, s | StateOk(s, T, bools) ensures TailHop(w, g, Last(g, p), blk, ed.op, ed.e, s) {
      ThreadJumpHop(w, g, ed.op, blk, ed.e, t, s);
    }
  }

  lemma ThreadJmp1Sound(g: Graph, p: nat, T: nat, bools: set<nat>)
    requires Inv(g, T, bools) && Ready(g, p) && Last(g, p).code.Jmp? && ThreadJmp1(g, p).Some?
    ensures Sound(g, p, ThreadJmp1(g, p).value, T, bools)
  {
    InvLast(g, p, T, bools);
    var t := g.bb[p].jmp1.value;
    PointsTo(g, p, t, T, bools);
    JumpTarget(g, t);
    ThreadJmp1By(g, p, t, g.bb[t].jmp1.value, T, bools);
  }

  // A jump to a RETURN or EXIT is one.
  lemma ReturnHop(w: World, g: Graph, op: Op, blk: Block, e: Edges, t: nat, s: State)
    requires op.code.Jmp? && blk.jmp1 == Some(t) && t < |g.bb| && BlockInRange(g, t) && g.bb[t].len == 1
    requires First(g, t).code.Return? || First(g, t).code.Exit?
    ensures TailHop(w, g, op, blk, First(g, t), e, s)
  {
    TailIs(w, op, blk, s);
    TailIs(w, First(g, t), WithEdges(blk, e), s);
    SingleStep(w, g, t, s);
    TailIs(w, First(g, t), g.bb[t], s);
  }

  lemma ReturnRuleBy(g: Graph, p: nat, t: nat, T: nat, bools: set<nat>)
    requires Ready(g, p) && LastFacts(g, p, T, bools) && ReturnRule(g, p).Some? && g.bb[p].jmp1 == Some(t)
    requires t < |g.bb| && BlockInRange(g, t) && OpOk(First(g, t), T, bools)
    ensures Sound(g, p, ReturnRule(g, p).value, T, bools)
  {
    var op, blk, ed := Last(g, p), g.bb[p], ReturnRule(g, p).value;
    forall w: World, s | StateOk(s, T, bools) ensures TailHop(w, g, op, blk, ed.op, ed.e, s) {
      if ed.op.code.Jmp? {
        TailIs(w, op, blk, s);
        TailIs(w, ed.op, WithEdges(blk, ed.e), s);
      } else {
        ReturnHop(w, g, op, blk, ed.e, t, s);
      }
    }
  }

  lemma ReturnRuleSound(g: Graph, p: nat, T: nat, bools: set<nat>)
    requires Inv(g, T, bools) && Ready(g, p) && ReturnRule(g, p).Some?
    ensures Sound(g, p, ReturnRule(g, p).value, T, bools)
  {
    InvLast(g, p, T, bools);
    var t := g.bb[p].jmp1.value;
    PointsTo(g, p, t, T, bools);
    ReturnRuleBy(g, p, t, T, bools);
  }

  lemma ThreadJmp2By(g: Graph, p: nat, other: Ref, t: nat, u: nat, T: nat, bools: set<nat>)
    requires Ready(g, p) && LastFacts(g, p, T, bools) && ThreadJmp2(g, p, other).Some?
    requires (TwoWay(Last(g, p).code) && other == g.bb[p].follow) || (Last(g, p).code.Jmpznz? && other == g.bb[p].ext)
    requires g.bb[p].jmp2 == Some(t) && IsJump(g, Some(t)) && g.bb[t].jmp1 == Some(u) && Leads(g, p, t, u)
    ensures Sound(g, p, ThreadJmp2(g, p, other).value, T, bools)
  {
    var blk, ed := g.bb[p], ThreadJmp2(g, p, other).value;
    ThreadEdges(g, p, t, u, other, ed.drop, ed.e);
    ThreadSteers(g, p, t, u, ed.op, ed.e);
    forall w: World, s | StateOk(s, T, bools) ensures TailHop(w, g, Last(g, p), blk, ed.op, ed.e, s) {
      ThreadJumpHop(w, g, ed.op, blk, ed.e, t, s);
    }
  }

  lemma ThreadJmp2Sound(g: Graph, p: nat, other: Ref, T: nat, bools: set<nat>)
    requires Inv(g, T, bools) && Ready(g, p) && ThreadJmp2(g, p, other).Some?
    requires (TwoWay(Last(g, p).code) && other == g.bb[p].follow) || (Last(g, p).code.Jmpznz? && other == g.bb[p].ext)
    ensures Sound(g, p, ThreadJmp2(g, p, other).value, T, bools)
  {
    InvLast(g, p, T, bools);
    var t := g.bb[p].jmp2.value;
    PointsTo(g, p, t, T, bools);
    JumpTarget(g, t);
    ThreadJmp2By(g, p, other, t, g.bb[t].jmp1.value, T, bools);
  }

  lemma ThreadExtBy(g: Graph, p: nat, t: nat, u: nat, T: nat, bools: set<nat>)
    requires Ready(g, p) && LastFacts(g, p, T, bools) && ThreadExt(g, p).Some? && Last(g, p).code.Jmpznz?
    requires g.bb[p].ext == Some(t) && IsJump(g, Some(t)) && g.bb[t].jmp1 == Some(u) && Leads(g, p, t, u)
    ensures Sound(g, p, ThreadExt(g, p).value, T, bools)
  {
    var blk, ed := g.bb[p], ThreadExt(g, p).value;
    ThreadEdges(g, p, t, u, blk.jmp2, ed.drop, ed.e);
    ThreadSteers(g, p, t, u, ed.op, ed.e);
    forall w: World, s | StateOk(s, T, bools) ensures TailHop(w, g, Last(g, p), blk, ed.op, ed.e, s) {
      ThreadJumpHop(w, g, ed.op, blk, ed.e, t, s);
    }
  }

  lemma ThreadExtSound(g: Graph, p: nat, T: nat, bools: set<nat>)
    requires Inv(g, T, bools) && Ready(g, p) && ThreadExt(g, p).Some? && Last(g, p).code.Jmpznz?
    ensures Sound(g, p, ThreadExt(g, p).value, T, bools)
  {
    InvLast(g, p, T, bools);
    var t := g.bb[p].ext.value;
    PointsTo(g, p, t, T, bools);
    JumpTarget(g, t);
    ThreadExtBy(g, p, t, g.bb[t].jmp1.value, T, bools);
  }

  // Every rule that goes through a second test of x: on value v control goes to t, and x is known there.
  lemma ThreadTestHop(w: World, g: Graph, op: Op, blk: Block, e: Edges, t: nat, x: Operand, v: bool, s: State)
    requires t < |g.bb| && BlockInRange(g, t) && Shaped(g, t) && g.bb[t].len == 1
    requires TestsKeeping(First(g, t), x) && Threadable(First(g, t).code, op.code)
    requires var (d, s') := Exec(w, op, s);
             Target(WithEdges(blk, e), d) == Target(blk, d)
             || (Target(blk, d) == Some(t)
                 && Truth(Value(x, s'.tm)) == v && (Ex(op.code) ==> Value(x, s'.tm) == ToBool(Value(x, s'.tm)))
                 && Target(WithEdges(blk, e), d) == if v then OnTrue(g.bb[t], First(g, t).code)
                    else OnFalse(g.bb[t], First(g, t).code))
    ensures TailHop(w, g, op, blk, op, e, s)
  {
    TailIs(w, op, blk, s);
    TailIs(w, op, WithEdges(blk, e), s);
    var (d, s') := Exec(w, op, s);
    if Target(WithEdges(blk, e), d) != Target(blk, d) {
      HopThroughTest(w, g, t, s', x, v);
    }
  }

  lemma TestTarget(g: Graph, t: nat, v: bool)
    requires t < |g.bb| && BlockInRange(g, t) && Shaped(g, t) && g.bb[t].len == 1
    requires var c := First(g, t).code; c.Jmpz? || c.Jmpnz? || c.Jmpznz? || Ex(c)
    ensures var u := if v then OnTrue(g.bb[t], First(g, t).code) else OnFalse(g.bb[t], First(g, t).code);
            u.Some? && HasEdge(g.bb[t], u.value)
  {
  }

  predicate ZnzThreads(g: Graph, p: nat)
    requires Ready(g, p)
  {
    var blk := g.bb[p];
    blk.ext != blk.jmp2 && !Last(g, p).op1.Const? && blk.ext != blk.next && blk.jmp2 != blk.next
  }

  lemma ZnzThreadHop(w: World, g: Graph, p: nat, t: nat, T: nat, bools: set<nat>, s: State)
    requires Ready(g, p) && TailFacts(g, p, T, bools) && Last(g, p).code.Jmpznz? && Last(g, p).op1.Tmp?
    requires g.bb[p].jmp2.Some? && g.bb[p].ext.Some? && g.bb[p].ext != g.bb[p].jmp2
    requires ZnzThread(g, p).Some? && ZnzThread(g, p).value.drop == Some(t)
    requires t < |g.bb| && BlockInRange(g, t) && Shaped(g, t) && g.bb[t].len == 1
    ensures var ed := ZnzThread(g, p).value; TailHop(w, g, Last(g, p), g.bb[p], ed.op, ed.e, s)
  {
    var blk, op, ed := g.bb[p], Last(g, p), ZnzThread(g, p).value;
    ThreadTestHop(w, g, op, blk, ed.e, t, op.op1, ed.drop != blk.jmp2, s);
  }

  lemma ZnzThreadBy(g: Graph, p: nat, t: nat, u: nat, T: nat, bools: set<nat>)
    requires Ready(g, p) && TailFacts(g, p, T, bools) && Last(g, p).code.Jmpznz? && Last(g, p).op1.Tmp?
    requires g.bb[p].jmp2.Some? && g.bb[p].ext.Some? && g.bb[p].ext != g.bb[p].jmp2 && Leads(g, p, t, u)
    requires g.bb[t].len == 1
    requires ZnzThread(g, p).Some? && ZnzThread(g, p).value.drop == Some(t) && ZnzThread(g, p).value.add == Some(u)
    ensures Sound(g, p, ZnzThread(g, p).value, T, bools)
  {
    var blk, ed := g.bb[p], ZnzThread(g, p).value;
    ThreadEdges(g, p, t, u, if ed.drop == blk.jmp2 then blk.ext else blk.jmp2, ed.drop, ed.e);
    ThreadSteers(g, p, t, u, ed.op, ed.e);
    forall w: World, s | StateOk(s, T, bools) ensures TailHop(w, g, Last(g, p), blk, ed.op, ed.e, s) {
      ZnzThreadHop(w, g, p, t, T, bools, s);
    }
  }

  lemma ZnzThreadSound(g: Graph, p: nat, T: nat, bools: set<nat>)
    requires Inv(g, T, bools) && Ready(g, p) && TailFacts(g, p, T, bools) && Last(g, p).code.Jmpznz?
    requires Last(g, p).op1.Tmp?
    requires Single(g, g.bb[p].jmp2) && g.bb[p].ext.Some? && g.bb[p].ext != g.bb[p].jmp2 && ZnzThread(g, p).Some?
    ensures Sound(g, p, ZnzThread(g, p).value, T, bools)
  {
    var blk, ed := g.bb[p], ZnzThread(g, p).value;
    var t := ed.drop.value;
    PointsTo(g, p, t, T, bools);
    if ed.drop != blk.jmp2 { JumpIsWhole(g, t); }
    TestTarget(g, t, ed.drop != blk.jmp2);
    ZnzThreadBy(g, p, t, ed.add.value, T, bools);
  }

  lemma ZnzPlainSound(g: Graph, p: nat, T: nat, bools: set<nat>)
    requires Ready(g, p) && TailFacts(g, p, T, bools) && Last(g, p).code.Jmpznz? && ZnzRule(g, p).Some?
    requires !ZnzThreads(g, p)
    ensures Sound(g, p, ZnzRule(g, p).value, T, bools)
  {
    var blk, op, ed := g.bb[p], Last(g, p), ZnzRule(g, p).value;
    forall w: World, s | StateOk(s, T, bools) ensures SameExit(w, op, blk, ed.op, ed.e, s) {
    }
    PlainSound(g, p, ed, T, bools);
  }

  lemma ZnzRuleSound(g: Graph, p: nat, T: nat, bools: set<nat>)
    requires Inv(g, T, bools) && Ready(g, p) && g.bb[p].used && Last(g, p).code.Jmpznz? && ZnzRule(g, p).Some?
    ensures Sound(g, p, ZnzRule(g, p).value, T, bools)
  {
    InvTail(g, p, T, bools);
    if !ZnzThreads(g, p) {
      ZnzPlainSound(g, p, T, bools);
    } else {
      ZnzThreadSound(g, p, T, bools);
    }
  }

  predicate Takes(c: Opcode, taken: bool) {
    if taken then c.Jmpnz? || c.JmpnzEx? else c.Jmpz? || c.JmpzEx?
  }

  lemma TestThreadHop(w: World, g: Graph, p: nat, x: Operand, taken: bool, t: nat, T: nat, bools: set<nat>, s: State)
    requires Ready(g, p) && TailFacts(g, p, T, bools) && Takes(Last(g, p).code, taken)
    requires Single(g, g.bb[p].jmp2) && g.bb[p].jmp2 == Some(t) && g.bb[p].jmp2 != g.bb[p].follow
    requires x == (if Ex(Last(g, p).code) then Last(g, p).res else Last(g, p).op1)
    requires x.Tmp? && TestThread(g, p, x, taken).Some?
    requires BlockInRange(g, t) && Shaped(g, t) && StateOk(s, T, bools)
    ensures var ed := TestThread(g, p, x, taken).value; TailHop(w, g, Last(g, p), g.bb[p], ed.op, ed.e, s)
  {
    var blk, op, ed := g.bb[p], Last(g, p), TestThread(g, p, x, taken).value;
    ThreadTestHop(w, g, op, blk, ed.e, t, x, taken, s);
  }

  lemma TestThreadBy(g: Graph, p: nat, x: Operand, taken: bool, t: nat, u: nat, T: nat, bools: set<nat>)
    requires Ready(g, p) && TailFacts(g, p, T, bools) && Takes(Last(g, p).code, taken)
    requires Single(g, g.bb[p].jmp2) && g.bb[p].jmp2 == Some(t) && g.bb[p].jmp2 != g.bb[p].follow && Leads(g, p, t, u)
    requires x == (if Ex(Last(g, p).code) then Last(g, p).res else Last(g, p).op1)
    requires x.Tmp? && TestThread(g, p, x, taken).Some? && TestThread(g, p, x, taken).value.add == Some(u)
    ensures Sound(g, p, TestThread(g, p, x, taken).value, T, bools)
  {
    var blk, ed := g.bb[p], TestThread(g, p, x, taken).value;
    ThreadEdges(g, p, t, u, blk.follow, ed.drop, ed.e);
    ThreadSteers(g, p, t, u, ed.op, ed.e);
    forall w: World, s | StateOk(s, T, bools) ensures TailHop(w, g, Last(g, p), blk, ed.op, ed.e, s) {
      TestThreadHop(w, g, p, x, taken, t, T, bools, s);
    }
  }

  lemma TestThreadSound(g: Graph, p: nat, x: Operand, taken: bool, T: nat, bools: set<nat>)
    requires Inv(g, T, bools) && Ready(g, p) && g.bb[p].used && Takes(Last(g, p).code, taken)
    requires Single(g, g.bb[p].jmp2) && g.bb[p].jmp2 != g.bb[p].follow
    requires x == (if Ex(Last(g, p).code) then Last(g, p).res else Last(g, p).op1)
    requires x.Tmp? && TestThread(g, p, x, taken).Some?
    ensures Sound(g, p, TestThread(g, p, x, taken).value, T, bools)
  {
    InvTail(g, p, T, bools);
    var t := g.bb[p].jmp2.value;
    PointsTo(g, p, t, T, bools);
    TestTarget(g, t, taken);
    TestThreadBy(g, p, x, taken, t, TestThread(g, p, x, taken).value.add.value, T, bools);
  }

  lemma TestPlainSound(g: Graph, p: nat, taken: bool, T: nat, bools: set<nat>)
    requires Ready(g, p) && TailFacts(g, p, T, bools) && TestRule(g, p, taken).Some?
    requires if taken then Last(g, p).code.Jmpnz? else Last(g, p).code.Jmpz?
    requires g.bb[p].follow == g.bb[p].jmp2 || Last(g, p).op1.Const?
    ensures Sound(g, p, TestRule(g, p, taken).value, T, bools)
  {
    var blk, op, ed := g.bb[p], Last(g, p), TestRule(g, p, taken).value;
    forall w: World, s | StateOk(s, T, bools) ensures SameExit(w, op, blk, ed.op, ed.e, s) {
    }
    PlainSound(g, p, ed, T, bools);
  }

  // JMPZ x, L1; JMP L2 becomes JMPZNZ x, L1, L2, and likewise for JMPNZ.
  lemma TestJoinHop(w: World, g: Graph, p: nat, taken: bool, t: nat, T: nat, bools: set<nat>, s: State)
    requires Ready(g, p) && TailFacts(g, p, T, bools) && TestRule(g, p, taken).Some?
    requires if taken then Last(g, p).code.Jmpnz? else Last(g, p).code.Jmpz?
    requires IsJump(g, g.bb[p].follow) && g.bb[p].follow == Some(t) && g.bb[p].follow != g.bb[p].jmp2
    requires !Last(g, p).op1.Const?
    requires t < |g.bb| && BlockInRange(g, t) && Shaped(g, t)
    ensures var ed := TestRule(g, p, taken).value; TailHop(w, g, Last(g, p), g.bb[p], ed.op, ed.e, s)
  {
    var blk, op, ed := g.bb[p], Last(g, p), TestRule(g, p, taken).value;
    TailIs(w, op, blk, s);
    TailIs(w, ed.op, WithEdges(blk, ed.e), s);
    HopThroughJump(w, g, t, s);
  }

  lemma TestJoinBy(g: Graph, p: nat, taken: bool, t: nat, u: nat, T: nat, bools: set<nat>)
    requires Ready(g, p) && TailFacts(g, p, T, bools) && TestRule(g, p, taken).Some?
    requires if taken then Last(g, p).code.Jmpnz? else Last(g, p).code.Jmpz?
    requires IsJump(g, g.bb[p].follow) && g.bb[p].follow == Some(t) && g.bb[p].follow != g.bb[p].jmp2
    requires !Last(g, p).op1.Const?
    requires g.bb[t].jmp1 == Some(u) && Leads(g, p, t, u)
    ensures Sound(g, p, TestRule(g, p, taken).value, T, bools)
  {
    var blk, ed := g.bb[p], TestRule(g, p, taken).value;
    ThreadEdges(g, p, t, u, blk.jmp2, ed.drop, ed.e);
    ThreadSteers(g, p, t, u, ed.op, ed.e);
    forall w: World, s | StateOk(s, T, bools) ensures TailHop(w, g, Last(g, p), blk, ed.op, ed.e, s) {
      TestJoinHop(w, g, p, taken, t, T, bools, s);
    }
  }

  lemma TestJoinSound(g: Graph, p: nat, taken: bool, T: nat, bools: set<nat>)
    requires Inv(g, T, bools) && Ready(g, p) && TailFacts(g, p, T, bools) && TestRule(g, p, taken).Some?
    requires if taken then Last(g, p).code.Jmpnz? else Last(g, p).code.Jmpz?
    requires IsJump(g, g.bb[p].follow) && g.bb[p].follow != g.bb[p].jmp2 && !Last(g, p).op1.Const?
    ensures Sound(g, p, TestRule(g, p, taken).value, T, bools)
  {
    var t := g.bb[p].follow.value;
    PointsTo(g, p, t, T, bools);
    JumpTarget(g, t);
    TestJoinBy(g, p, taken, t, g.bb[t].jmp1.value, T, bools);
  }

  lemma TestRuleSound(g: Graph, p: nat, taken: bool, T: nat, bools: set<nat>)
    requires Inv(g, T, bools) && Ready(g, p) && g.bb[p].used && TestRule(g, p, taken).Some?
    requires if taken then Last(g, p).code.Jmpnz? else Last(g, p).code.Jmpz?
    ensures Sound(g, p, TestRule(g, p, taken).value, T, bools)
  {
    InvTail(g, p, T, bools);
    var blk, op := g.bb[p], Last(g, p);
    if blk.follow == blk.jmp2 || op.op1.Const? {
      TestPlainSound(g, p, taken, T, bools);
    } else if IsJump(g, blk.follow) {
      TestJoinSound(g, p, taken, T, bools);
    } else {
      TestThreadSound(g, p, op.op1, taken, T, bools);
    }
  }

  lemma ExPlainSound(g: Graph, p: nat, taken: bool, T: nat, bools: set<nat>)
    requires Ready(g, p) && TailFacts(g, p, T, bools) && ExRule(g, p, taken).Some?
    requires if taken then Last(g, p).code.JmpnzEx? else Last(g, p).code.JmpzEx?
    requires g.bb[p].follow == g.bb[p].jmp2 && (SelfTest(Last(g, p)) ==> Last(g, p).res.n in bools)
    ensures Sound(g, p, ExRule(g, p, taken).value, T, bools)
  {
    var blk, op, ed := g.bb[p], Last(g, p), ExRule(g, p, taken).value;
    forall w: World, s | StateOk(s, T, bools) ensures SameExit(w, op, blk, ed.op, ed.e, s) {
      assert SelfTest(op) ==> Put(op.res, s.tm, ToBool(Value(op.op1, s.tm))) == s.tm;
    }
    PlainSound(g, p, ed, T, bools);
  }

  lemma ExRuleSound(g: Graph, p: nat, taken: bool, T: nat, bools: set<nat>)
    requires Inv(g, T, bools) && Ready(g, p) && g.bb[p].used && ExRule(g, p, taken).Some?
    requires if taken then Last(g, p).code.JmpnzEx? else Last(g, p).code.JmpzEx?
    ensures Sound(g, p, ExRule(g, p, taken).value, T, bools)
  {
    InvTail(g, p, T, bools);
    if g.bb[p].follow == g.bb[p].jmp2 {
      assert ApartAt(g, p, bools);
      ExPlainSound(g, p, taken, T, bools);
    } else {
      TestThreadSound(g, p, Last(g, p).res, taken, T, bools);
    }
  }

  // ----- predecessor lists -----

  lemma AnyLenExact(bb: seq<Block>, bb': seq<Block>, p: nat, n: nat, drop: Ref, e: Edges, add: Ref)
    requires p < |bb| && Exact(bb) && Tidy(bb, p, drop, e, add) && bb' == bb[p := bb[p].(len := n)]
    ensures Exact(bb') && Tidy(bb', p, drop, e, add)
  {
    forall t: nat, b: nat {:trigger b in bb'[t].pred} | t < |bb'| && b in bb'[t].pred
      ensures b < |bb'| && bb'[b].used && HasEdge(bb'[b], t)
    {
      assert b in bb[t].pred;
    }
  }

  lemma EditExactBy(bb: seq<Block>, p: nat, n: nat, ed: Edit, bb': seq<Block>)
    requires p < |bb| && NoDups(bb) && Edged(bb) && Exact(bb) && CanRewire(bb, p, ed.drop, ed.e, ed.add)
    requires Tidy(bb, p, ed.drop, ed.e, ed.add)
    requires bb' == Rewire(bb[p := bb[p].(len := n)], p, ed.drop, ed.e, ed.add)
    ensures p < |bb'| && (Exact(bb') <==> ed.add.None? || bb'[p].used)
  {
    var bb1 := bb[p := bb[p].(len := n)];
    SameEdgesKeep(bb, bb1, p, n);
    CanRewireAnyLen(bb, bb1, p, n, ed.drop, ed.e, ed.add);
    AnyLenExact(bb, bb1, p, n, ed.drop, ed.e, ed.add);
    RewireExact(bb1, p, ed.drop, ed.e, ed.add);
  }

  // A rewrite (every sound one is of this kind) leaves the lists exact, except when p has just removed itself and
  // enters itself again.
  lemma EditExact(g: Graph, g': Graph, p: nat, ed: Edit)
    requires NoDups(g.bb) && Edged(g.bb) && Exact(g.bb) && Ready(g, p)
    requires CanRewire(g.bb, p, ed.drop, ed.e, ed.add) && Tidy(g.bb, p, ed.drop, ed.e, ed.add)
    requires g' == Rewrite(g, p, ed.op, ed.shrink, ed.drop, ed.e, ed.add)
    ensures p < |g'.bb| && (Exact(g'.bb) <==> ed.add.None? || g'.bb[p].used)
  {
    EditExactBy(g.bb, p, g.bb[p].len - if ed.shrink then 1 else 0, ed, g'.bb);
  }
}
