// compute_live_var: which temporaries live across blocks, and removal of results nobody reads.
module LiveVars {
  import opened Opcodes
  import opened Graphs
  import opened Rewrites

  // ----- what an instruction reads and writes, as the pass sees it -----

  predicate Reads(op: Op, r: nat) {
    || (Slot(op.op1) && op.op1.n == r)
    || (Slot(op.op2) && op.op2.n == r)
    || (op.code.DeclareInherited? && op.ext == r)
  }

  // The result counts as written unless it is a VAR marked unused.
  predicate Defines(op: Op) {
    op.res.Tmp? || (op.res.Var? && (op.code.Recv? || !op.resUnused))
  }

  predicate DefinesSlot(op: Op, r: nat) {
    Defines(op) && op.res.n == r
  }

  // RECV and ADD_ARRAY_ELEMENT add to a result that is already there.
  predicate Extends(c: Opcode) {
    c.Recv? || c.AddArrayElement?
  }

  predicate NeedsBefore(op: Op, r: nat) {
    Reads(op, r) || (DefinesSlot(op, r) && Extends(op.code))
  }

  // ----- pass one: `global` -----

  // r is needed at some point of the block before the block has written it.
  ghost predicate Exposed(ops: seq<Op>, r: nat) {
    exists i :: 0 <= i < |ops| && NeedsBefore(ops[i], r) && !WrittenBefore(ops, i, r)
  }

  ghost predicate WrittenBefore(ops: seq<Op>, i: int, r: nat)
    requires 0 <= i <= |ops|
  {
    exists j :: 0 <= j < i && DefinesSlot(ops[j], r)
  }

  // All temporaries of the instruction are below T.
  predicate Below(op: Op, T: nat) {
    && (Slot(op.op1) ==> op.op1.n < T)
    && (Slot(op.op2) ==> op.op2.n < T)
    && (Slot(op.res) ==> op.res.n < T)
    && (op.code.DeclareInherited? ==> op.ext < T)
  }

  // A temporary that is read before the block has written it.
  method MarkRead(r: nat, def: array<bool>, global: array<bool>)
    requires def.Length == global.Length && def != global && r < global.Length
    modifies global
    ensures forall k :: 0 <= k < global.Length ==> global[k] == (old(global[k]) || (k == r && !def[k]))
  {
    if !def[r] && !global[r] {
      global[r] := true;
    }
  }

  // One instruction of the forward scan.
  method ScanOp(op: Op, def: array<bool>, global: array<bool>)
    requires def.Length == global.Length && def != global && Below(op, global.Length)
    modifies def, global
    ensures forall r :: 0 <= r < global.Length ==> global[r] == (old(global[r]) || (NeedsBefore(op, r) && !old(def[r])))
    ensures forall r :: 0 <= r < global.Length ==> def[r] == (old(def[r]) || DefinesSlot(op, r))
  {
    if Slot(op.op1) { MarkRead(op.op1.n, def, global); }
    if Slot(op.op2) { MarkRead(op.op2.n, def, global); }
    if op.code.DeclareInherited? { MarkRead(op.ext, def, global); }
    if Defines(op) {
      if Extends(op.code) { MarkRead(op.res.n, def, global); }
      def[op.res.n] := true;
    }
  }

  lemma ExposedUpTo(ops: seq<Op>, i: nat, r: nat)
    requires i < |ops|
    ensures Exposed(ops[..i + 1], r) <==> Exposed(ops[..i], r) || (NeedsBefore(ops[i], r) && !WrittenBefore(ops, i, r))
    ensures WrittenBefore(ops, i + 1, r) <==> WrittenBefore(ops, i, r) || DefinesSlot(ops[i], r)
  {
    forall k | 0 <= k <= i
      ensures WrittenBefore(ops[..i + 1], k, r) <==> WrittenBefore(ops, k, r)
      ensures k <= |ops[..i]| && (WrittenBefore(ops[..i], k, r) <==> WrittenBefore(ops, k, r))
    {
      assert forall j :: 0 <= j < k ==> ops[..i + 1][j] == ops[j] == ops[..i][j];
    }
    if Exposed(ops[..i], r) {
      var k :| 0 <= k < i && NeedsBefore(ops[..i][k], r) && !WrittenBefore(ops[..i], k, r);
      assert NeedsBefore(ops[..i + 1][k], r) && !WrittenBefore(ops[..i + 1], k, r);
    }
    if Exposed(ops[..i + 1], r) {
      var k :| 0 <= k < i + 1 && NeedsBefore(ops[..i + 1][k], r) && !WrittenBefore(ops[..i + 1], k, r);
      if k < i { assert NeedsBefore(ops[..i][k], r); }
    }
    if NeedsBefore(ops[i], r) && !WrittenBefore(ops, i, r) {
      assert NeedsBefore(ops[..i + 1][i], r);
    }
  }

  method ScanBlock(ops: seq<Op>, def: array<bool>, global: array<bool>)
    requires def.Length == global.Length && def != global
    requires forall i :: 0 <= i < |ops| ==> Below(ops[i], global.Length)
    modifies def, global
    ensures forall r :: 0 <= r < global.Length ==> (global[r] <==> old(global[r]) || Exposed(ops, r))
  {
    var k := 0;
    while k < def.Length
      invariant 0 <= k <= def.Length && forall r :: 0 <= r < k ==> !def[r]
      invariant global[..] == old(global[..])
    {
      def[k] := false;
      k := k + 1;
    }
    var i := 0;
    while i < |ops|
      invariant 0 <= i <= |ops|
      invariant forall r :: 0 <= r < global.Length ==> (global[r] <==> old(global[r]) || Exposed(ops[..i], r))
      invariant forall r :: 0 <= r < global.Length ==> (def[r] <==> WrittenBefore(ops, i, r))
    {
      forall r: nat | r < global.Length
        ensures Exposed(ops[..i + 1], r) <==>
                  Exposed(ops[..i], r) || (NeedsBefore(ops[i], r) && !WrittenBefore(ops, i, r))
        ensures WrittenBefore(ops, i + 1, r) <==> WrittenBefore(ops, i, r) || DefinesSlot(ops[i], r)
      {
        ExposedUpTo(ops, i, r);
      }
      ScanOp(ops[i], def, global);
      i := i + 1;
    }
    assert ops[..|ops|] == ops;
  }

  // The first half of compute_live_var.  With a single block nothing is marked.
  method ComputeGlobal(g: Graph, T: nat) returns (global: array<bool>)
    requires Layout(g) && g.bb[0].used && forall i :: 0 <= i < |g.code| ==> Below(g.code[i], T)
    ensures fresh(global) && global.Length == T
    ensures forall r: nat :: r < T ==> (global[r] <==> Marks(g, r))
  {
    global := new bool[T](_ => false);
    assert BlockInRange(g, 0);
    if g.bb[0].next.Some? {
      var def := new bool[T](_ => false);
      var p := 0;
      while p < |g.bb|
        invariant p <= |g.bb| && global.Length == T && def.Length == T && def != global && fresh(global) && fresh(def)
        invariant p < |g.bb| ==> g.bb[p].start.Some?
        invariant forall r ::
                    0 <= r < T ==> (global[r] <==> exists b: nat :: b < p && b < |g.bb| && Exposed(Ops(g, b), r))
        decreases |g.bb| - p
      {
        assert BlockInRange(g, p);
        var q := if g.bb[p].next.Some? then g.bb[p].next.value else |g.bb|;
        SkippedHaveNoCode(g, p, q);
        ScanBlock(Ops(g, p), def, global);
        p := q;
      }
    }
  }

  lemma SkippedHaveNoCode(g: Graph, p: nat, q: nat)
    requires Layout(g) && p < q <= |g.bb| && g.bb[p].start.Some?
    requires q == if g.bb[p].next.Some? then g.bb[p].next.value else |g.bb|
    ensures forall b: nat, r: nat :: p < b < q ==> !Exposed(Ops(g, b), r)
  {
    forall b: nat, r: nat | p < b < q ensures !Exposed(Ops(g, b), r) {
      assert Skipped(g.bb[p], b);
      assert BlockInRange(g, b);
      assert Ops(g, b) == [];
    }
  }

  // ----- pass two: removing dead results -----

  // The switch: what becomes of an instruction whose result is not needed.
  function Unneeded(op: Op): Op {
    match op.code
    case JmpzEx => op.(code := Jmpz, res := Unused)
    case JmpnzEx => op.(code := Jmpnz, res := Unused)
    case Assign(_) => if op.res.Var? then op.(resUnused := true) else op
    case DoFcall(_) => if op.res.Var? then op.(resUnused := true) else op
    case Unset(_) => op.(res := Unused)
    case Recv(_) => op
    case Effect(_) => op
    case Ask(_) => op
    case New => op
    case FeFetch => op
    case DeclareInherited => op
    case _ => SetToNop(op)
  }

  function CleanOp(op: Op, global: seq<bool>, live: set<nat>): Op
  {
    if Defines(op) && !((op.res.n < |global| && global[op.res.n]) || op.res.n in live) then Unneeded(op)
    else if op.res.Var? && op.resUnused && !op.code.Recv? && op.res.n in live then op.(resUnused := false)
    else op
  }

  // `used` before the (already cleaned) instruction, from `used` after it.
  function LiveBefore(op: Op, live: set<nat>): set<nat> {
    var l := if Defines(op) then (if Extends(op.code) then live + {op.res.n} else live - {op.res.n}) else live;
    var l1 := if Slot(op.op1) then l + {op.op1.n} else l;
    var l2 := if Slot(op.op2) then l1 + {op.op2.n} else l1;
    if op.code.DeclareInherited? then l2 + {op.ext} else l2
  }

  // A block from its end to its start: the cleaned code, and what it needs from before.
  function Clean(ops: seq<Op>, global: seq<bool>): (r: (seq<Op>, set<nat>))
    ensures |r.0| == |ops|
  {
    if ops == [] then ([], {})
    else
      var (rest, live) := Clean(ops[1..], global);
      var op := CleanOp(ops[0], global, live);
      ([op] + rest, LiveBefore(op, live))
  }

  lemma {:induction false} CleanedAt(ops: seq<Op>, global: seq<bool>, j: nat) returns (live: set<nat>)
    requires j < |ops|
    ensures Clean(ops, global).0[j] == CleanOp(ops[j], global, live)
    decreases |ops|
  {
    if j == 0 {
      live := Clean(ops[1..], global).1;
    } else {
      live := CleanedAt(ops[1..], global, j - 1);
    }
  }

  predicate AllBelow(ops: seq<Op>, T: nat) {
    forall i :: 0 <= i < |ops| ==> Below(ops[i], T)
  }

  lemma {:induction false} LiveBelow(ops: seq<Op>, global: seq<bool>, T: nat)
    requires AllBelow(ops, T)
    ensures forall r :: r in Clean(ops, global).1 ==> r < T
    ensures AllBelow(Clean(ops, global).0, T)
  {
    if ops != [] {
      assert AllBelow(ops[1..], T);
      LiveBelow(ops[1..], global, T);
    }
  }

  ghost predicate IsSet(used: seq<bool>, live: set<nat>) {
    forall r :: 0 <= r < |used| ==> (used[r] <==> r in live)
  }

  // The two ends of one step of the backward loop: choosing the instruction, ...
  method Choose(op: Op, global: array<bool>, used: array<bool>, ghost live: set<nat>) returns (op': Op)
    requires global.Length == used.Length && Below(op, used.Length) && IsSet(used[..], live)
    ensures op' == CleanOp(op, global[..], live)
  {
    op' := op;
    if Defines(op) && !global[op.res.n] && !used[op.res.n] {
      op' := Unneeded(op);
    } else if op.res.Var? && op.resUnused && !op.code.Recv? && used[op.res.n] {
      op' := op.(resUnused := false);
    }
  }

  // ... and updating `used`.
  method UpdateUsed(op: Op, used: array<bool>, ghost live: set<nat>)
    requires Below(op, used.Length) && IsSet(used[..], live)
    modifies used
    ensures IsSet(used[..], LiveBefore(op, live))
  {
    if Defines(op) {
      used[op.res.n] := Extends(op.code);
    }
    if Slot(op.op1) {
      used[op.op1.n] := true;
    }
    if Slot(op.op2) {
      used[op.op2.n] := true;
    }
    if op.code.DeclareInherited? {
      used[op.ext] := true;
    }
  }

  lemma CleanOpBelow(op: Op, global: seq<bool>, live: set<nat>, T: nat)
    requires Below(op, T)
    ensures Below(CleanOp(op, global, live), T)
  {
  }

  // memset(used, 0, ...)
  method ClearUsed(used: array<bool>)
    modifies used
    ensures forall r :: 0 <= r < used.Length ==> !used[r]
  {
    var k := 0;
    while k < used.Length
      invariant 0 <= k <= used.Length && forall r :: 0 <= r < k ==> !used[r]
    {
      used[k] := false;
      k := k + 1;
    }
  }

  // Instruction i of the block, when the ones after it are done.
  method CleanAt(code: array<Op>, at: nat, global: array<bool>, used: array<bool>, ghost live: set<nat>)
    requires at < code.Length && global.Length == used.Length && global != used
    requires Below(code[at], used.Length) && IsSet(used[..], live)
    modifies code, used
    ensures code[..] == old(code[..])[at := CleanOp(old(code[at]), global[..], live)]
    ensures IsSet(used[..], LiveBefore(code[at], live))
  {
    var op' := Choose(code[at], global, used, live);
    CleanOpBelow(code[at], global[..], live, used.Length);
    UpdateUsed(op', used, live);
    code[at] := op';
  }

  lemma CleanOneMore(ops: seq<Op>, global: seq<bool>, i: nat, tail: seq<Op>)
    requires i < |ops| && tail == Clean(ops[i + 1..], global).0
    ensures var live := Clean(ops[i + 1..], global).1; var op' := CleanOp(ops[i], global, live);
            Clean(ops[i..], global) == ([op'] + tail, LiveBefore(op', live))
  {
    assert ops[i..][1..] == ops[i + 1..];
  }

  // The inner loop of the second half of compute_live_var.
  method CleanBlock(code: array<Op>, start: nat, len: nat, global: array<bool>, used: array<bool>)
    requires start + len <= code.Length && global.Length == used.Length && global != used
    requires AllBelow(code[start .. start + len], used.Length)
    modifies code, used
    ensures code[start .. start + len] == Clean(old(code[start .. start + len]), global[..]).0
    ensures forall i :: 0 <= i < code.Length && !(start <= i < start + len) ==> code[i] == old(code[i])
  {
    ghost var ops, gl, was := code[start .. start + len], global[..], code[..];
    ghost var pre, post := was[..start], was[start + len ..];
    ClearUsed(used);
    var i := len;
    ghost var done: seq<Op>, live := [], {};
    assert ops[len..] == [] && code[..] == was == pre + ops[..len] + done + post;
    while i > 0
      invariant 0 <= i <= len && |ops| == len && global[..] == gl && (done, live) == Clean(ops[i..], gl)
      invariant code[..] == pre + ops[..i] + done + post
      invariant IsSet(used[..], live)
    {
      i := i - 1;
      OneFurther(pre, ops, i, done, post);
      assert code[start + i] == code[..][start + i] == ops[i] && Below(ops[i], used.Length);
      CleanOneMore(ops, gl, i, done);
      CleanAt(code, start + i, global, used, live);
      done, live := [CleanOp(ops[i], gl, live)] + done, LiveBefore(CleanOp(ops[i], gl, live), live);
    }
    Finished(pre, done, post, len);
    assert ops[0..] == ops && ops[..0] == [];
    assert code[start .. start + len] == code[..][start .. start + len];
    forall j | 0 <= j < code.Length && !(start <= j < start + len) ensures code[j] == was[j] {
      assert code[j] == code[..][j];
    }
  }

  lemma OneFurther(pre: seq<Op>, ops: seq<Op>, i: nat, done: seq<Op>, post: seq<Op>)
    requires i < |ops|
    ensures (pre + ops[..i + 1] + done + post)[|pre| + i] == ops[i]
    ensures forall x :: (pre + ops[..i + 1] + done + post)[|pre| + i := x] == pre + ops[..i] + ([x] + done) + post
  {
  }

  lemma Finished(pre: seq<Op>, done: seq<Op>, post: seq<Op>, len: nat)
    requires |done| == len
    ensures (pre + [] + done + post)[|pre| .. |pre| + len] == done
  {
  }

  // ----- the cleaned code shows the same traces -----

  predicate Matters(global: seq<bool>, live: set<nat>, r: nat) {
    (r < |global| && global[r]) || r in live
  }

  // The two states agree on everything that still matters.
  ghost predicate Agree(s: State, s': State, global: seq<bool>, live: set<nat>) {
    && s.tr == s'.tr && |s.tm| == |s'.tm|
    && forall r :: 0 <= r < |s.tm| && Matters(global, live, r) ==> s.tm[r] == s'.tm[r]
  }

  // FE_RESET is also removed when its result is not needed, although it jumps; compiled code always
  // fetches from that result, in another block.
  predicate Removable(op: Op, global: seq<bool>) {
    WellTyped(op) && (op.code.FeReset? && Defines(op) ==> op.res.n < |global| && global[op.res.n])
  }

  // What an instruction reads, it reads alike in both states.
  lemma SameValues(op: Op, s: State, s': State, global: seq<bool>, live: set<nat>)
    requires WellTyped(op) && Agree(s, s', global, LiveBefore(op, live))
    ensures Value(op.op1, s.tm) == Value(op.op1, s'.tm)
    ensures Value(op.op2, s.tm) == Value(op.op2, s'.tm)
    ensures Extra(op, s.tm) == Extra(op, s'.tm)
  {
    assert Slot(op.op1) ==> Matters(global, LiveBefore(op, live), op.op1.n);
    assert Slot(op.op2) ==> Matters(global, LiveBefore(op, live), op.op2.n);
    assert op.code.DeclareInherited? ==> Matters(global, LiveBefore(op, live), op.ext);
    assert op.code.AddArrayElement? ==> Matters(global, LiveBefore(op, live), op.res.n);
  }

  lemma PutAgree(op: Op, s: State, s': State, v: int, tr: seq<Event>, global: seq<bool>, live: set<nat>)
    requires Agree(s, s', global, LiveBefore(op, live))
    ensures Agree(State(Put(op.res, s.tm, v), tr), State(Put(op.res, s'.tm, v), tr), global, live)
  {
    forall r: nat | r < |s.tm| && Matters(global, live, r)
      ensures Put(op.res, s.tm, v)[r] == Put(op.res, s'.tm, v)[r]
    {
      assert !(Slot(op.res) && op.res.n == r) ==> Matters(global, LiveBefore(op, live), r);
    }
  }

  lemma KeepAgree(op: Op, s: State, s': State, global: seq<bool>, live: set<nat>)
    requires Agree(s, s', global, LiveBefore(op, live)) && !Slot(op.res)
    ensures Agree(s, s', global, live)
  {
    forall r: nat | r < |s.tm| && Matters(global, live, r) ensures s.tm[r] == s'.tm[r] {
      assert Matters(global, LiveBefore(op, live), r);
    }
  }

  // The same instruction, up to the unused mark on its result.
  lemma SameOpSim(w: World, op: Op, op': Op, s: State, s': State, global: seq<bool>, live: set<nat>)
    requires WellTyped(op) && WellTyped(op') && (op' == op || op'.(resUnused := op.resUnused) == op)
    requires Agree(s, s', global, LiveBefore(op', live))
    ensures var (d, t) := Exec(w, op, s); var (d', t') := Exec(w, op', s'); d == d' && Agree(t, t', global, live)
  {
    SameValues(op', s, s', global, live);
    var (d, t) := Exec(w, op, s); var (d', t') := Exec(w, op', s');
    if Slot(op.res) {
      assert op'.res == op.res;
      var v := ResultOf(w, op, s);
      assert t == State(Put(op.res, s.tm, v), t.tr) && t' == State(Put(op.res, s'.tm, v), t.tr);
      PutAgree(op', s, s', v, t.tr, global, live);
    } else {
      KeepAgree(op', s, s', global, live);
    }
  }

  // What an instruction with a result puts there.
  function ResultOf(w: World, op: Op, s: State): int {
    var v1 := Value(op.op1, s.tm);
    if op.code.JmpzEx? || op.code.JmpnzEx? || op.code.Bool? then ToBool(v1)
    else if op.code.Test? then ToBool(w.pure(op.code, v1, Value(op.op2, s.tm), 0))
    else if op.code.Ask? then ToBool(w.result(s.tr + [Event(op.code, v1, Value(op.op2, s.tm), Extra(op, s.tm))]))
    else if Computes(op.code) then w.pure(op.code, v1, Value(op.op2, s.tm), Extra(op, s.tm))
    else w.result(s.tr + [Event(op.code, v1, Value(op.op2, s.tm), Extra(op, s.tm))])
  }

  // Writing a dead temporary on one side only.
  lemma DeadPut(op: Op, s: State, s': State, v: int, global: seq<bool>, live: set<nat>)
    requires Agree(s, s', global, live) && Slot(op.res) && !Matters(global, live, op.res.n)
    ensures Agree(s.(tm := Put(op.res, s.tm, v)), s', global, live)
  {
  }

  // The result goes, and with it whatever only computed it.
  lemma UnneededSim(w: World, op: Op, s: State, s': State, global: seq<bool>, live: set<nat>)
    requires Removable(op, global) && Defines(op) && !Matters(global, live, op.res.n)
    requires Agree(s, s', global, LiveBefore(Unneeded(op), live))
    ensures var (d, t) := Exec(w, op, s); var (d', t') := Exec(w, Unneeded(op), s'); d == d' && Agree(t, t', global, live)
  {
    var op' := Unneeded(op);
    if op'.res == op.res {
      assert WellTyped(op');
      SameOpSim(w, op, op', s, s', global, live);
    } else {
      KeepAgree(op', s, s', global, live);
      var t := Exec(w, op, s).1;
      var v := ResultOf(w, op, s);
      assert t == State(Put(op.res, s.tm, v), t.tr);
      if !op'.code.Nop? { SameValues(op', s, s', global, live); }
      DeadPut(op, State(s.tm, t.tr), State(s'.tm, t.tr), v, global, live);
    }
  }

  lemma CleanOpSim(w: World, op: Op, s: State, s': State, global: seq<bool>, live: set<nat>)
    requires Removable(op, global)
    requires Agree(s, s', global, LiveBefore(CleanOp(op, global, live), live))
    ensures var (d, t) := Exec(w, op, s); var (d', t') := Exec(w, CleanOp(op, global, live), s');
            d == d' && Agree(t, t', global, live)
  {
    if Defines(op) && !Matters(global, live, op.res.n) {
      UnneededSim(w, op, s, s', global, live);
    } else {
      SameOpSim(w, op, CleanOp(op, global, live), s, s', global, live);
    }
  }

  predicate AllRemovable(ops: seq<Op>, global: seq<bool>) {
    forall i :: 0 <= i < |ops| ==> Removable(ops[i], global)
  }

  ghost predicate SameExitOn(c: Config, c': Config, global: seq<bool>) {
    if c.Running? then c'.Running? && c'.b == c.b && Agree(c.s, c'.s, global, {})
    else c' == c
  }

  // A cleaned block does what the block did, as far as the other blocks can tell.
  lemma {:induction false} CleanSim(w: World, ops: seq<Op>, blk: Block, s: State, s': State, global: seq<bool>)
    requires AllRemovable(ops, global) && Agree(s, s', global, Clean(ops, global).1)
    ensures SameExitOn(ExecOps(w, ops, blk, s), ExecOps(w, Clean(ops, global).0, blk, s'), global)
    decreases |ops|
  {
    if ops != [] {
      var (rest, live) := Clean(ops[1..], global);
      var op' := CleanOp(ops[0], global, live);
      CleanOpSim(w, ops[0], s, s', global, live);
      assert Clean(ops, global).0 == [op'] + rest;
      assert ([op'] + rest)[1..] == rest;
      var (d, t) := Exec(w, ops[0], s); var (d', t') := Exec(w, op', s');
      if d.Next? {
        assert AllRemovable(ops[1..], global);
        CleanSim(w, ops[1..], blk, t, t', global);
      } else {
        assert Agree(t, t', global, {}) by {
          assert forall r: nat :: Matters(global, {}, r) ==> Matters(global, live, r);
        }
      }
    }
  }

  lemma ExposedLater(ops: seq<Op>, r: nat)
    requires ops != [] && Exposed(ops[1..], r) && !DefinesSlot(ops[0], r)
    ensures Exposed(ops, r)
  {
    var i :| 0 <= i < |ops[1..]| && NeedsBefore(ops[1..][i], r) && !WrittenBefore(ops[1..], i, r);
    assert NeedsBefore(ops[i + 1], r);
    forall j | 0 <= j < i + 1 ensures !DefinesSlot(ops[j], r) {
      if j > 0 { assert ops[j] == ops[1..][j - 1]; }
    }
  }

  // What a cleaned block needs from before is exposed in it.
  lemma {:induction false} LiveIsExposed(ops: seq<Op>, global: seq<bool>, r: nat)
    requires r in Clean(ops, global).1
    ensures Exposed(ops, r)
    decreases |ops|
  {
    var live := Clean(ops[1..], global).1;
    if NeedsBefore(ops[0], r) {
      assert !WrittenBefore(ops, 0, r);
    } else {
      StillLive(ops[0], global, live, r);
      LiveIsExposed(ops[1..], global, r);
      ExposedLater(ops, r);
    }
  }

  lemma StillLive(op: Op, global: seq<bool>, live: set<nat>, r: nat)
    requires r in LiveBefore(CleanOp(op, global, live), live) && !NeedsBefore(op, r)
    ensures r in live && !DefinesSlot(op, r)
  {
  }

  // ----- the whole graph -----

  // The code of g' is that of g, cleaned block by block.
  ghost predicate Cleaned(g: Graph, g': Graph, global: seq<bool>) {
    && g'.bb == g.bb
    && forall b :: 0 <= b < |g.bb| && g.bb[b].used ==> Ops(g', b) == Clean(Ops(g, b), global).0
  }

  ghost predicate CodeRemovable(g: Graph, global: seq<bool>) {
    forall b :: 0 <= b < |g.bb| && g.bb[b].used ==> AllRemovable(Ops(g, b), global)
  }

  // No block needs a temporary that is not global.
  ghost predicate GlobalSound(g: Graph, global: seq<bool>) {
    forall b: nat, r: nat {:trigger Exposed(Ops(g, b), r)} ::
      b < |g.bb| && g.bb[b].used && Exposed(Ops(g, b), r) ==> r < |global| && global[r]
  }

  lemma {:induction false} CleanedRun(w: World, g: Graph, g': Graph, global: seq<bool>, c: Config, c': Config, n: nat)
    requires Cleaned(g, g', global) && GlobalSound(g, global) && Closed(g.bb)
    requires CodeRemovable(g, global)
    requires SameExitOn(c, c', global) && (c.Running? ==> c.b < |g.bb| && g.bb[c.b].used)
    ensures SameExitOn(Run(w, g, c, n), Run(w, g', c', n), global)
    decreases n
  {
    if n > 0 {
      if c.Running? {
        var ops := Ops(g, c.b);
        forall r: nat | r in Clean(ops, global).1 ensures r < |global| && global[r] {
          LiveIsExposed(ops, global, r);
        }
        assert Agree(c.s, c'.s, global, Clean(ops, global).1) by {
          assert forall r: nat :: Matters(global, Clean(ops, global).1, r) ==> Matters(global, {}, r);
        }
        CleanSim(w, ops, g.bb[c.b], c.s, c'.s, global);
      }
      CleanedRun(w, g, g', global, Step(w, g, c), Step(w, g', c'), n - 1);
    }
  }

  // Removing dead results changes no trace.
  lemma CleanedSameBehaviour(g: Graph, g': Graph, global: seq<bool>, T: nat, bools: set<nat>)
    requires Cleaned(g, g', global) && GlobalSound(g, global) && Closed(g.bb) && 0 < |g.bb| && g.bb[0].used
    requires CodeRemovable(g, global)
    ensures SameBehaviour(g, g', T, bools)
  {
    forall w: World ensures Equivalent(w, g, g', T, bools) {
      forall s, n: nat | StateOk(s, T, bools)
        ensures Reaches(w, g', Running(0, s), Run(w, g, Running(0, s), n))
        ensures Reaches(w, g, Running(0, s), Run(w, g', Running(0, s), n))
      {
        CleanedRun(w, g, g', global, Running(0, s), Running(0, s), n);
        assert Leq(Run(w, g, Running(0, s), n), Run(w, g', Running(0, s), n));
        assert Leq(Run(w, g', Running(0, s), n), Run(w, g, Running(0, s), n));
      }
    }
  }

  // ----- the pass -----

  // The instruction at line i belongs to no block.
  ghost predicate Unowned(g: Graph, i: int) {
    forall b {:trigger Owns(g, b, i)} :: !Owns(g, b, i)
  }

  // Every block is cleaned, in use or not, and nothing else is touched.
  ghost predicate CleanedAll(g: Graph, g': Graph, global: seq<bool>) {
    && g'.bb == g.bb && |g'.code| == |g.code|
    && (forall b :: 0 <= b < |g.bb| ==> Ops(g', b) == Clean(Ops(g, b), global).0)
    && forall i :: 0 <= i < |g.code| && Unowned(g, i) ==> g'.code[i] == g.code[i]
  }

  // Blocks at and after p still have the code of g; the ones before p are cleaned.
  ghost predicate CleanedUpTo(g: Graph, code: seq<Op>, global: seq<bool>, p: nat) {
    && |code| == |g.code|
    && (forall i :: 0 <= i < |g.code| && Unowned(g, i) ==> code[i] == g.code[i])
    && forall b ::
         0 <= b < |g.bb| ==> Ops(Graph(code, g.bb), b) == if b < p then Clean(Ops(g, b), global).0 else Ops(g, b)
  }

  // Another block than p keeps its code.
  lemma CleanedOther(g: Graph, code: seq<Op>, p: nat, code': seq<Op>, b: nat)
    requires InRange(g) && Disjoint(g) && p < |g.bb| && b < |g.bb| && b != p && |code| == |code'| == |g.code|
    requires forall i :: 0 <= i < |code| && !(p <= i < p + g.bb[p].len) ==> code'[i] == code[i]
    ensures Ops(Graph(code', g.bb), b) == Ops(Graph(code, g.bb), b)
  {
    assert BlockInRange(g, b) && BlockInRange(g, p);
    var n := g.bb[b].len;
    if n > 0 {
      if g.bb[p].len > 0 && p < b { assert p + g.bb[p].len <= b; }
      if b < p { assert b + n <= p || g.bb[p].len == 0; }
      assert code'[b .. b + n] == code[b .. b + n];
    }
  }

  lemma CleanedOne(g: Graph, code: seq<Op>, global: seq<bool>, p: nat, code': seq<Op>, q: nat)
    requires Layout(g) && p < q <= |g.bb| && g.bb[p].start.Some?
    requires q == if g.bb[p].next.Some? then g.bb[p].next.value else |g.bb|
    requires CleanedUpTo(g, code, global, p) && |code'| == |code|
    requires p + g.bb[p].len <= |code| + 1
    requires g.bb[p].len > 0 ==>
               p + g.bb[p].len <= |code| && code'[p .. p + g.bb[p].len] == Clean(code[p .. p + g.bb[p].len], global).0
    requires forall i :: 0 <= i < |code| && !(p <= i < p + g.bb[p].len) ==> code'[i] == code[i]
    ensures CleanedUpTo(g, code', global, q)
  {
    var g1, g2 := Graph(code, g.bb), Graph(code', g.bb);
    assert BlockInRange(g, p);
    forall i | 0 <= i < |g.code| && Unowned(g, i) ensures code'[i] == g.code[i] {
      assert !Owns(g, p, i);
    }
    forall b | 0 <= b < |g.bb| ensures Ops(g2, b) == if b < q then Clean(Ops(g, b), global).0 else Ops(g, b) {
      if b == p {
        if g.bb[p].len > 0 { assert Ops(g1, p) == code[p .. p + g.bb[p].len] == Ops(g, p); }
      } else {
        CleanedOther(g, code, p, code', b);
        if p < b < q { SkippedIsEmpty(g, p, b); }
      }
    }
  }

  lemma SkippedIsEmpty(g: Graph, p: nat, b: nat)
    requires Layout(g) && p < b < |g.bb| && g.bb[p].start.Some? && Skipped(g.bb[p], b)
    ensures Ops(g, b) == []
  {
    assert BlockInRange(g, b);
  }

  // A block that has not been cleaned yet.
  lemma NotYetCleaned(g: Graph, code: seq<Op>, global: seq<bool>, p: nat, T: nat)
    requires Layout(g) && AllBelow(g.code, T) && CleanedUpTo(g, code, global, p) && p < |g.bb| && g.bb[p].start.Some?
    requires g.bb[p].len > 0
    ensures p + g.bb[p].len <= |code| && AllBelow(code[p .. p + g.bb[p].len], T)
  {
    assert BlockInRange(g, p);
    assert Ops(Graph(code, g.bb), p) == code[p .. p + g.bb[p].len];
    assert code[p .. p + g.bb[p].len] == g.code[p .. p + g.bb[p].len];
  }

  // Where the walk goes after p.
  lemma WalkOn(g: Graph, p: nat)
    requires Layout(g) && p < |g.bb| && g.bb[p].start.Some?
    ensures p + g.bb[p].len <= |g.code| + 1
    ensures g.bb[p].next.Some? ==> p < g.bb[p].next.value < |g.bb| && g.bb[g.bb[p].next.value].start.Some?
  {
    assert BlockInRange(g, p);
  }

  // The second half of compute_live_var.
  method RemoveDead(g: Graph, T: nat, global: array<bool>) returns (g': Graph)
    requires Layout(g) && g.bb[0].used && AllBelow(g.code, T) && global.Length == T
    ensures Cleaned(g, g', global[..]) && CleanedAll(g, g', global[..])
  {
    var code := new Op[|g.code|](i requires 0 <= i < |g.code| => g.code[i]);
    var used := new bool[T](_ => false);
    assert code[..] == g.code;
    var p := 0;
    assert BlockInRange(g, 0);
    while p < |g.bb|
      invariant p <= |g.bb| && (p < |g.bb| ==> g.bb[p].start.Some?) && code.Length == |g.code|
      invariant CleanedUpTo(g, code[..], global[..], p) && global[..] == old(global[..])
      decreases |g.bb| - p
    {
      WalkOn(g, p);
      var q, n := if g.bb[p].next.Some? then g.bb[p].next.value else |g.bb|, g.bb[p].len;
      ghost var code0 := code[..];
      if n > 0 {
        NotYetCleaned(g, code0, global[..], p, T);
        assert code[p .. p + n] == code0[p .. p + n];
        CleanBlock(code, p, n, global, used);
        assert code[p .. p + n] == code[..][p .. p + n];
      }
      CleanedOne(g, code0, global[..], p, code[..], q);
      p := q;
    }
    g' := Graph(code[..], g.bb);
  }

  ghost predicate NothingExposed(g: Graph) {
    forall b: nat, r: nat {:trigger Exposed(Ops(g, b), r)} :: b < |g.bb| && g.bb[b].used ==> !Exposed(Ops(g, b), r)
  }

  lemma ExposedBelow(g: Graph, T: nat, b: nat, r: nat)
    requires Layout(g) && AllBelow(g.code, T) && b < |g.bb| && Exposed(Ops(g, b), r)
    ensures r < T
  {
    var i :| 0 <= i < |Ops(g, b)| && NeedsBefore(Ops(g, b)[i], r) && !WrittenBefore(Ops(g, b), i, r);
    assert BlockInRange(g, b);
    assert Ops(g, b)[i] in g.code;
  }

  // What the pass marks: with several blocks, whatever some block needs from before; with one block, nothing.
  ghost predicate Marks(g: Graph, r: nat) {
    g.bb != [] && g.bb[0].next.Some? && exists b: nat :: b < |g.bb| && Exposed(Ops(g, b), r)
  }

  // Marking what is exposed anywhere is enough.
  lemma MarkedIsSound(g: Graph, T: nat, global: seq<bool>)
    requires Layout(g) && AllBelow(g.code, T) && |global| == T
    requires forall r: nat :: r < T ==> (global[r] <==> Marks(g, r))
    ensures g.bb[0].next.Some? || NothingExposed(g) ==> GlobalSound(g, global)
  {
    if g.bb[0].next.Some? || NothingExposed(g) {
      forall b: nat, r: nat {:trigger Exposed(Ops(g, b), r)} | b < |g.bb| && g.bb[b].used && Exposed(Ops(g, b), r)
        ensures r < |global| && global[r]
      {
        ExposedBelow(g, T, b, r);
      }
    }
  }
}
