// reassign_registers, continued: renaming the instructions, and why nobody can tell.
module Renumber {
  import opened Opcodes
  import opened Graphs
  import opened LiveVars
  import opened Registers

  // ----- renaming -----

  function RenameSlot(o: Operand, sub: seq<int>): Operand {
    if Slot(o) && o.n < |sub| && sub[o.n] >= 0 then (if o.Tmp? then Tmp(sub[o.n]) else Var(sub[o.n])) else o
  }

  function Rename(op: Op, sub: seq<int>): Op {
    op.(op1 := RenameSlot(op.op1, sub), op2 := RenameSlot(op.op2, sub), res := RenameSlot(op.res, sub),
        ext := if op.code.DeclareInherited? && op.ext < |sub| && sub[op.ext] >= 0 then sub[op.ext] else op.ext)
  }

  function RenameAll(ops: seq<Op>, sub: seq<int>): (r: seq<Op>)
    ensures |r| == |ops| && forall i :: 0 <= i < |ops| ==> r[i] == Rename(ops[i], sub)
  {
    seq(|ops|, i requires 0 <= i < |ops| => Rename(ops[i], sub))
  }

  // The result's register is given back: either nobody reads the result, or this is where it is made.
  predicate Closes(op: Op, global: seq<bool>) {
    Slot(op.res) && (
      (!op.code.Recv? && op.res.Var? && op.resUnused)
      || (op.op1 != op.res && op.op2 != op.res && !(op.res.n < |global| && global[op.res.n])
          && !op.code.AddArrayElement?))
  }

  predicate Mentions(op: Op, r: nat) {
    Reads(op, r) || (Slot(op.res) && op.res.n == r)
  }

  // ----- the scan, one instruction at a time from the end -----

  function GetSlot(st: Regs, o: Operand, global: seq<bool>): (st': Regs)
    requires Sized(st, |global|) && (Slot(o) ==> o.n < |global|)
    ensures Sized(st', |global|)
  {
    if Slot(o) then GetReg(st, o.n, global) else st
  }

  // extended_value as an operand.
  function ExtSlot(op: Op): Operand {
    if op.code.DeclareInherited? then Var(op.ext) else Unused
  }

  function GetOperands(st: Regs, op: Op, global: seq<bool>): (st': Regs)
    requires Sized(st, |global|) && Below(op, |global|)
    ensures Sized(st', |global|)
  {
    var st1 := GetSlot(st, op.op1, global);
    var st2 := GetSlot(st1, op.op2, global);
    var st3 := GetSlot(st2, ExtSlot(op), global);
    GetSlot(st3, op.res, global)
  }

  function RegOp(st: Regs, op: Op, global: seq<bool>): (st': Regs)
    requires Sized(st, |global|) && Below(op, |global|)
    ensures Sized(st', |global|)
  {
    var st1 := GetOperands(st, op, global);
    if Closes(op, global) then FreeReg(st1, op.res.n) else st1
  }

  function RegBlock(st: Regs, ops: seq<Op>, global: seq<bool>): (st': Regs)
    requires Sized(st, |global|) && AllBelow(ops, |global|)
    ensures Sized(st', |global|)
  {
    if ops == [] then st
    else RegOp(RegBlock(st, ops[1..], global), ops[0], global)
  }

  // ----- what a block must look like -----

  // One live range per local temporary: before the instruction that gives its register back it is not
  // mentioned, and that instruction does not read it.  Results nobody reads are local.
  ghost predicate RangesOk(ops: seq<Op>, global: seq<bool>) {
    forall i :: 0 <= i < |ops| && Closes(ops[i], global) ==>
      var r := ops[i].res.n;
      && !(r < |global| && global[r])
      && !Reads(ops[i], r) && !ops[i].code.AddArrayElement?
      && forall j :: 0 <= j < i ==> !Mentions(ops[j], r)
  }

  // What the block needs from before (RECV writes its result, it does not read it).
  function Needs(ops: seq<Op>): (s: set<nat>) {
    if ops == [] then {}
    else NeedsOp(ops[0], Needs(ops[1..]))
  }

  function NeedsOp(op: Op, after: set<nat>): set<nat> {
    var l := if Slot(op.res) && !op.code.AddArrayElement? then after - {op.res.n} else after;
    var l0 := if op.code.AddArrayElement? && Slot(op.res) then l + {op.res.n} else l;
    var l1 := if Slot(op.op1) then l0 + {op.op1.n} else l0;
    var l2 := if Slot(op.op2) then l1 + {op.op2.n} else l1;
    if op.code.DeclareInherited? then l2 + {op.ext} else l2
  }

  // No write hits the register of another temporary that is still needed.
  ghost predicate NoClash(ops: seq<Op>, sub: seq<int>, global: seq<bool>)
    decreases |ops|
  {
    ops != [] ==>
      && NoClash(ops[1..], sub, global)
      && (Slot(ops[0].res) ==>
            forall s: nat :: s in Needs(ops[1..]) && s != ops[0].res.n && s < |sub| && ops[0].res.n < |sub| ==>
                sub[s] != sub[ops[0].res.n])
  }

  // Everything the block mentions has a register.
  predicate HasReg(o: Operand, sub: seq<int>, n: nat) {
    Slot(o) ==> o.n < |sub| && 0 <= sub[o.n] < n
  }

  predicate CoversOp(op: Op, sub: seq<int>, n: nat) {
    HasReg(op.op1, sub, n) && HasReg(op.op2, sub, n) && HasReg(ExtSlot(op), sub, n) && HasReg(op.res, sub, n)
  }

  predicate Covers(ops: seq<Op>, sub: seq<int>, n: nat) {
    forall i :: 0 <= i < |ops| ==> CoversOp(ops[i], sub, n)
  }

  // ----- the scan produces such a numbering -----

  // A global's register is nobody else's.
  ghost predicate GlobalsApart(sub: seq<int>, global: seq<bool>) {
    forall g: nat, r: nat ::
      g < |sub| && r < |sub| && g < |global| && global[g] && g != r && sub[g] >= 0 ==> sub[g] != sub[r]
  }

  ghost predicate GlobalsOpen(st: Regs, open: set<nat>, global: seq<bool>) {
    forall g: nat :: g < |global| && g < |st.regOf| && global[g] && st.regOf[g] >= 0 ==> g in open
  }

  ghost predicate ScanInv(st: Regs, open: set<nat>, global: seq<bool>) {
    RegInv(st, open, global) && GlobalsOpen(st, open, global) && GlobalsApart(st.regOf, global)
  }

  // Registers once given out stay.
  ghost predicate Grown(st: Regs, st': Regs) {
    && |st'.regOf| == |st.regOf| && st.n <= st'.n
    && forall s: nat :: s < |st.regOf| && st.regOf[s] >= 0 ==> st'.regOf[s] == st.regOf[s]
  }

  lemma GetRegScan(st: Regs, open: set<nat>, r: nat, global: seq<bool>)
    requires ScanInv(st, open, global) && r < |global|
    ensures var st' := GetReg(st, r, global);
            && ScanInv(st', OpenAfterGet(st, open, r), global) && Grown(st, st') && 0 <= st'.regOf[r] < st'.n
            && (forall s: nat :: s < |global| && s != r ==> st'.regOf[s] == st.regOf[s])
            && (forall g: nat ::
                  g < |global| && global[g] && st.regOf[g] < 0 && st'.regOf[g] >= 0 ==> st'.regOf[g] == st.n)
  {
    GetRegFinds(st, open, r, global);
    var st' := GetReg(st, r, global);
    if st.regOf[r] < 0 {
      forall g: nat, x: nat | g < |global| && x < |global| && global[g] && g != x && st'.regOf[g] >= 0
        ensures st'.regOf[g] != st'.regOf[x]
      {
        if g == r { assert st'.regOf[x] < st.n; }
      }
    }
  }

  // All the operands of one instruction.
  ghost predicate OperandsOpen(st: Regs, open: set<nat>, op: Op) {
    forall r: nat :: Mentions(op, r) && r < |st.regOf| && st.regOf[r] >= 0 ==> r in open
  }

  // What a few GET_REGs leave.
  ghost predicate Got(st: Regs, open: set<nat>, st': Regs, open': set<nat>, global: seq<bool>) {
    && ScanInv(st', open', global) && Grown(st, st') && open <= open'
    && (forall r: nat ::
          r < |global| && r < |st.regOf| && st.regOf[r] < 0 && r < |st'.regOf| && st'.regOf[r] >= 0 ==> r in open')
    && (forall g: nat ::
          g < |global| && g < |st.regOf| && global[g] && st.regOf[g] < 0 && g < |st'.regOf| && st'.regOf[g] >= 0 ==>
          st.n <= st'.regOf[g])
  }

  // One operand.
  lemma GotSlot(st: Regs, open: set<nat>, st1: Regs, open1: set<nat>, o: Operand, global: seq<bool>)
    returns (open2: set<nat>)
    requires Sized(st, |global|) && Got(st, open, st1, open1, global) && (Slot(o) ==> o.n < |global|)
    requires Slot(o) && st.regOf[o.n] >= 0 ==> o.n in open
    ensures Got(st, open, GetSlot(st1, o, global), open2, global) && open1 <= open2
    ensures Slot(o) ==> o.n in open2
    ensures forall r :: r in open2 ==> r in open1 || (Slot(o) && r == o.n)
    ensures Grown(st1, GetSlot(st1, o, global)) && HasReg(o, GetSlot(st1, o, global).regOf, GetSlot(st1, o, global).n)
  {
    open2 := open1;
    if Slot(o) {
      GetRegScan(st1, open1, o.n, global);
      open2 := OpenAfterGet(st1, open1, o.n);
    }
  }

  lemma HasRegGrows(o: Operand, st: Regs, st': Regs)
    requires Grown(st, st') && HasReg(o, st.regOf, st.n)
    ensures HasReg(o, st'.regOf, st'.n)
  {
  }

  predicate IsOpen(o: Operand, open: set<nat>) {
    Slot(o) ==> o.n in open
  }

  // Two operands.
  lemma GotTwo(st: Regs, open: set<nat>, st1: Regs, open1: set<nat>, a: Operand, b: Operand, global: seq<bool>)
    returns (open2: set<nat>)
    requires Sized(st, |global|) && Got(st, open, st1, open1, global) && (Slot(a) ==> a.n < |global|)
    requires (Slot(b) ==> b.n < |global|)
    requires Slot(a) && st.regOf[a.n] >= 0 ==> a.n in open
    requires Slot(b) && st.regOf[b.n] >= 0 ==> b.n in open
    ensures var st2 := GetSlot(GetSlot(st1, a, global), b, global);
            && Got(st, open, st2, open2, global) && open1 <= open2 && IsOpen(a, open2) && IsOpen(b, open2)
            && Grown(st1, st2) && HasReg(a, st2.regOf, st2.n) && HasReg(b, st2.regOf, st2.n)
    ensures forall r :: r in open2 ==> r in open1 || (Slot(a) && r == a.n) || (Slot(b) && r == b.n)
  {
    var sta := GetSlot(st1, a, global);
    var opena := GotSlot(st, open, st1, open1, a, global);
    open2 := GotSlot(st, open, sta, opena, b, global);
    HasRegGrows(a, sta, GetSlot(sta, b, global));
  }

  lemma GetOperandsScan(st: Regs, open: set<nat>, op: Op, global: seq<bool>) returns (open': set<nat>)
    requires ScanInv(st, open, global) && Below(op, |global|) && OperandsOpen(st, open, op)
    ensures Got(st, open, GetOperands(st, op, global), open', global)
    ensures CoversOp(op, GetOperands(st, op, global).regOf, GetOperands(st, op, global).n)
    ensures forall r: nat :: Mentions(op, r) ==> r in open'
    ensures forall r: nat :: r in open' ==> r in open || Mentions(op, r)
  {
    OperandsAreOpen(st, open, op);
    var st2 := GetSlot(GetSlot(st, op.op1, global), op.op2, global);
    var st4 := GetSlot(GetSlot(st2, ExtSlot(op), global), op.res, global);
    var open2 := GotTwo(st, open, st, open, op.op1, op.op2, global);
    open' := GotTwo(st, open, st2, open2, ExtSlot(op), op.res, global);
    HasRegGrows(op.op1, st2, st4);
    HasRegGrows(op.op2, st2, st4);
    MentionsOpen(op, open');
  }

  lemma MentionsOpen(op: Op, open: set<nat>)
    requires IsOpen(op.op1, open) && IsOpen(op.op2, open) && IsOpen(ExtSlot(op), open) && IsOpen(op.res, open)
    ensures forall r: nat :: Mentions(op, r) ==> r in open
  {
  }

  lemma OperandsAreOpen(st: Regs, open: set<nat>, op: Op)
    requires OperandsOpen(st, open, op) && Below(op, |st.regOf|)
    ensures Slot(op.op1) && st.regOf[op.op1.n] >= 0 ==> op.op1.n in open
    ensures Slot(op.op2) && st.regOf[op.op2.n] >= 0 ==> op.op2.n in open
    ensures op.code.DeclareInherited? && st.regOf[op.ext] >= 0 ==> op.ext in open
    ensures Slot(op.res) && st.regOf[op.res.n] >= 0 ==> op.res.n in open
  {
    assert Slot(op.op1) ==> Mentions(op, op.op1.n);
    assert Slot(op.op2) ==> Mentions(op, op.op2.n);
    assert op.code.DeclareInherited? ==> Mentions(op, op.ext);
    assert Slot(op.res) ==> Mentions(op, op.res.n);
  }

  lemma FreeScan(st: Regs, open: set<nat>, r: nat, global: seq<bool>) returns (open': set<nat>)
    requires ScanInv(st, open, global) && r in open && !global[r]
    ensures ScanInv(FreeReg(st, r), open', global) && open' == open - {r}
    ensures FreeReg(st, r).regOf == st.regOf && FreeReg(st, r).n == st.n
  {
    FreeRegKeeps(st, open, r, global);
    open' := open - {r};
    assert OpenAfterFree(st, open, r) == open - {r};
  }

  // The block so far: what is needed is open, what is closed is not mentioned above, and the numbering is good.
  ghost predicate Numbered(st: Regs, open: set<nat>, ops: seq<Op>, above: seq<Op>, global: seq<bool>) {
    && ScanInv(st, open, global)
    && (forall r: nat :: r in Needs(ops) && r < |global| ==> r in open)
    && (forall i, r: nat :: 0 <= i < |above| && Mentions(above[i], r) && r < |global| && st.regOf[r] >= 0 ==> r in open)
    && NoClash(ops, st.regOf, global) && Covers(ops, st.regOf, st.n)
  }

  lemma {:induction false} NoClashGrows(ops: seq<Op>, st: Regs, st': Regs, global: seq<bool>)
    requires NoClash(ops, st.regOf, global) && Covers(ops, st.regOf, st.n) && Grown(st, st')
    ensures NoClash(ops, st'.regOf, global) && Covers(ops, st'.regOf, st'.n)
    decreases |ops|
  {
    if ops != [] {
      var rest := ops[1..];
      assert forall i :: 0 <= i < |rest| ==> rest[i] == ops[i + 1];
      NoClashGrows(rest, st, st', global);
      assert forall i :: 0 < i < |ops| ==> ops[i] == rest[i - 1];
      assert CoversOp(ops[0], st.regOf, st.n);
      forall s: nat | s in Needs(rest) ensures s < |st.regOf| && st.regOf[s] >= 0 {
        NeedsCovered(rest, s, st.regOf, st.n);
      }
    }
  }

  lemma {:induction false} NeedsCovered(ops: seq<Op>, s: nat, sub: seq<int>, n: nat)
    requires s in Needs(ops) && Covers(ops, sub, n)
    ensures s < |sub| && 0 <= sub[s] < n
    decreases |ops|
  {
    assert CoversOp(ops[0], sub, n);
    if s in Needs(ops[1..]) {
      NeedsCovered(ops[1..], s, sub, n);
    }
  }

  // The premises about `above + [op] + rest`, seen from op.
  lemma RangesAt(above: seq<Op>, op: Op, rest: seq<Op>, global: seq<bool>)
    requires RangesOk(above + ([op] + rest), global)
    ensures RangesOk((above + [op]) + rest, global)
    ensures Closes(op, global) ==>
      && !(op.res.n < |global| && global[op.res.n]) && !Reads(op, op.res.n) && !op.code.AddArrayElement?
      && forall j :: 0 <= j < |above| ==> !Mentions(above[j], op.res.n)
  {
    var all := above + ([op] + rest);
    assert (above + [op]) + rest == all;
    assert all[|above|] == op;
    assert forall j :: 0 <= j < |above| ==> all[j] == above[j];
  }

  // One more instruction.
  lemma NumberedStep(st1: Regs, open1: set<nat>, op: Op, rest: seq<Op>, above: seq<Op>, global: seq<bool>)
    returns (open: set<nat>)
    requires Numbered(st1, open1, rest, above + [op], global) && Below(op, |global|)
    requires RangesOk(above + ([op] + rest), global)
    ensures Numbered(RegOp(st1, op, global), open, [op] + rest, above, global)
    ensures Grown(st1, RegOp(st1, op, global))
    ensures FreshGlobals(st1, RegOp(st1, op, global), global)
    ensures forall r: nat :: r in open ==> (r in open1 || Mentions(op, r)) && !(Closes(op, global) && r == op.res.n)
  {
    RangesAt(above, op, rest, global);
    assert (above + [op])[|above|] == op;
    var open2 := GetOperandsScan(st1, open1, op, global);
    var st2, st := GetOperands(st1, op, global), RegOp(st1, op, global);
    open := open2;
    if Closes(op, global) {
      assert Mentions(op, op.res.n);
      open := FreeScan(st2, open2, op.res.n, global);
    }
    NoClashGrows(rest, st1, st2, global);
    NumberedOpen(st1, open1, st2, open2, st, open, op, rest, above, global);
  }

  // Globals that got a register got one above all earlier ones.
  ghost predicate FreshGlobals(st: Regs, st': Regs, global: seq<bool>) {
    forall g: nat ::
      g < |global| && g < |st.regOf| && g < |st'.regOf| && global[g] && st.regOf[g] < 0 && st'.regOf[g] >= 0 ==>
      st.n <= st'.regOf[g]
  }

  lemma NumberedOpen(st1: Regs, open1: set<nat>, st2: Regs, open2: set<nat>, st: Regs, open: set<nat>,
                     op: Op, rest: seq<Op>, above: seq<Op>, global: seq<bool>)
    requires Numbered(st1, open1, rest, above + [op], global)
    requires Got(st1, open1, st2, open2, global) && CoversOp(op, st2.regOf, st2.n)
    requires forall r: nat :: Mentions(op, r) ==> r in open2
    requires ScanInv(st, open, global) && st.regOf == st2.regOf && st.n == st2.n
    requires open == if Closes(op, global) then open2 - {op.res.n} else open2
    requires Closes(op, global) ==> !Reads(op, op.res.n) && !op.code.AddArrayElement?
    requires Closes(op, global) ==> forall j :: 0 <= j < |above| ==> !Mentions(above[j], op.res.n)
    requires NoClash(rest, st.regOf, global) && Covers(rest, st.regOf, st.n)
    ensures Numbered(st, open, [op] + rest, above, global)
  {
    var ops := [op] + rest;
    assert ops[1..] == rest;
    forall r: nat | r in Needs(ops) && r < |global| ensures r in open {
      NeedsOpen(op, Needs(rest), r);
    }
    AboveOpen(st1, open1, st2, open2, st, open, op, above, global);
    if Slot(op.res) {
      assert Mentions(op, op.res.n);
      WriteApart(st, open2, op, Needs(rest));
    }
  }

  lemma NeedsOpen(op: Op, after: set<nat>, r: nat)
    requires r in NeedsOp(op, after)
    ensures r in after || Mentions(op, r)
    ensures Slot(op.res) && r == op.res.n ==> Reads(op, r) || op.code.AddArrayElement?
  {
  }

  lemma AboveOpen(st1: Regs, open1: set<nat>, st2: Regs, open2: set<nat>, st: Regs, open: set<nat>, op: Op,
                  above: seq<Op>, global: seq<bool>)
    requires Got(st1, open1, st2, open2, global) && Sized(st1, |global|) && st.regOf == st2.regOf
    requires forall i, r: nat ::
               0 <= i < |above + [op]| && Mentions((above + [op])[i], r) && r < |global| && st1.regOf[r] >= 0 ==>
                 r in open1
    requires open == if Closes(op, global) then open2 - {op.res.n} else open2
    requires Closes(op, global) ==> forall j :: 0 <= j < |above| ==> !Mentions(above[j], op.res.n)
    ensures forall i, r: nat ::
              0 <= i < |above| && Mentions(above[i], r) && r < |global| && st.regOf[r] >= 0 ==> r in open
  {
    forall i, r: nat | 0 <= i < |above| && Mentions(above[i], r) && r < |global| && st.regOf[r] >= 0 ensures r in open {
      assert (above + [op])[i] == above[i];
      if st1.regOf[r] >= 0 { assert r in open1; }
    }
  }

  // A register that is written belongs to no other open temporary.
  lemma WriteApart(st: Regs, open2: set<nat>, op: Op, needed: set<nat>)
    requires Slot(op.res) && op.res.n in open2 && op.res.n < |st.regOf|
    requires forall s: nat :: s in needed && s < |st.regOf| ==> s in open2
    requires forall r: nat, s: nat ::
               r in open2 && s in open2 && r != s && r < |st.regOf| && s < |st.regOf| ==> st.regOf[r] != st.regOf[s]
    ensures forall s: nat :: s in needed && s != op.res.n && s < |st.regOf| ==> st.regOf[s] != st.regOf[op.res.n]
  {
  }

  // The locals that hold a register are needed.
  ghost predicate OnlyNeeded(open: set<nat>, ops: seq<Op>, global: seq<bool>) {
    forall r: nat :: r in open && !(r < |global| && global[r]) ==> r in Needs(ops)
  }

  lemma StillNeeded(open1: set<nat>, open: set<nat>, op: Op, rest: seq<Op>, global: seq<bool>)
    requires OnlyNeeded(open1, rest, global)
    requires forall r: nat :: r in open ==> (r in open1 || Mentions(op, r)) && !(Closes(op, global) && r == op.res.n)
    ensures OnlyNeeded(open, [op] + rest, global)
  {
    assert ([op] + rest)[1..] == rest;
  }

  // A whole block, from its end.
  lemma {:induction false} ScanBlockNumbers(st0: Regs, open0: set<nat>, ops: seq<Op>, above: seq<Op>, global: seq<bool>)
    returns (open: set<nat>)
    requires ScanInv(st0, open0, global) && AllBelow(ops, |global|)
    requires forall r: nat :: r < |global| && !global[r] ==> st0.regOf[r] < 0
    requires RangesOk(above + ops, global)
    ensures Numbered(RegBlock(st0, ops, global), open, ops, above, global)
    ensures Grown(st0, RegBlock(st0, ops, global)) && FreshGlobals(st0, RegBlock(st0, ops, global), global)
    ensures OnlyNeeded(open, ops, global)
    decreases |ops|
  {
    if ops == [] {
      open := open0;
    } else {
      var op, rest := ops[0], ops[1..];
      assert ops == [op] + rest;
      RangesAt(above, op, rest, global);
      var open1 := ScanBlockNumbers(st0, open0, rest, above + [op], global);
      var st1 := RegBlock(st0, rest, global);
      open := NumberedStep(st1, open1, op, rest, above, global);
      StillNeeded(open1, open, op, rest, global);
      GrownStep(st0, st1, RegOp(st1, op, global), global);
    }
  }

  lemma GrownStep(st0: Regs, st1: Regs, st2: Regs, global: seq<bool>)
    requires Grown(st0, st1) && FreshGlobals(st0, st1, global) && Grown(st1, st2) && FreshGlobals(st1, st2, global)
    ensures Grown(st0, st2) && FreshGlobals(st0, st2, global)
  {
  }

  // ----- between blocks -----

  // One local gives back its register and forgets it.
  lemma ReleaseOne(st: Regs, open: set<nat>, i: nat, global: seq<bool>) returns (open': set<nat>)
    requires ScanInv(st, open, global) && i < |global| && !global[i]
    ensures var st1 := FreeReg(st, i); ScanInv(st1.(regOf := st1.regOf[i := -1]), open', global)
  {
    var st1 := FreeReg(st, i);
    open' := OpenAfterFree(st, open, i);
    FreeRegKeeps(st, open, i, global);
    ForgetKeeps(st1, open', i, global);
  }

  // st' has forgotten the locals from i on.
  ghost predicate Forgotten(st: Regs, st': Regs, i: nat, global: seq<bool>) {
    && |st'.regOf| == |st.regOf| == |global| && st'.n == st.n
    && forall r: nat :: r < |global| ==> st'.regOf[r] == if global[r] || r < i then st.regOf[r] else -1
  }

  lemma ForgottenMore(st: Regs, st1: Regs, st': Regs, i: nat, global: seq<bool>)
    requires i < |global| == |st.regOf| && Forgotten(st1, st', i + 1, global) && st1.n == st.n
    requires st1.regOf == if global[i] then st.regOf else st.regOf[i := -1]
    ensures Forgotten(st, st', i, global)
  {
  }

  lemma {:induction false} ReleaseScan(st: Regs, open: set<nat>, i: nat, global: seq<bool>) returns (open': set<nat>)
    requires ScanInv(st, open, global) && i <= |global|
    ensures ScanInv(Release(st, global, i), open', global) && Forgotten(st, Release(st, global, i), i, global)
    decreases |global| - i
  {
    open' := open;
    if i < |global| {
      if global[i] {
        open' := ReleaseScan(st, open, i + 1, global);
        ForgottenMore(st, st, Release(st, global, i + 1), i, global);
      } else {
        var st1 := FreeReg(st, i);
        var st2 := st1.(regOf := st1.regOf[i := -1]);
        var open1 := ReleaseOne(st, open, i, global);
        open' := ReleaseScan(st2, open1, i + 1, global);
        ForgottenMore(st, st2, Release(st2, global, i + 1), i, global);
      }
    }
  }

  // `home` says where each global lives in the end.  In a block that used the numbering `sub`, globals
  // were already there and everything else is elsewhere.
  ghost predicate AtHome(sub: seq<int>, home: seq<int>, global: seq<bool>) {
    && |sub| == |home| == |global|
    && (forall g: nat :: g < |global| && global[g] && sub[g] >= 0 ==> sub[g] == home[g])
    && (forall g: nat, r: nat ::
          g < |global| && r < |global| && global[g] && home[g] >= 0 && r != g && sub[r] >= 0 ==> sub[r] != home[g])
  }

  ghost predicate BelowN(sub: seq<int>, n: nat) {
    forall r: nat :: r < |sub| ==> sub[r] < n
  }

  lemma AtHomeStays(sub: seq<int>, st: Regs, st': Regs, global: seq<bool>)
    requires AtHome(sub, st.regOf, global) && BelowN(sub, st.n) && |st'.regOf| == |global| && st.n <= st'.n
    requires forall g: nat :: g < |global| && global[g] && st.regOf[g] >= 0 ==> st'.regOf[g] == st.regOf[g]
    requires FreshGlobals(st, st', global)
    ensures AtHome(sub, st'.regOf, global) && BelowN(sub, st'.n)
  {
  }

  // What one block of the pass leaves.
  ghost predicate Passed(st: Regs, st': Regs, open: set<nat>, ops: seq<Op>, global: seq<bool>) {
    && ScanInv(st', open, global) && NoClash(ops, st'.regOf, global) && Covers(ops, st'.regOf, st'.n)
    && AtHome(st'.regOf, st'.regOf, global) && BelowN(st'.regOf, st'.n) && st.n <= st'.n
    && FreshGlobals(st, st', global)
    && forall g: nat :: g < |global| && g < |st.regOf| && g < |st'.regOf| && global[g] && st.regOf[g] >= 0 ==>
         st'.regOf[g] == st.regOf[g]
  }

  // A whole block of the pass.
  lemma PassBlock(st: Regs, open: set<nat>, ops: seq<Op>, global: seq<bool>) returns (open': set<nat>)
    requires ScanInv(st, open, global) && AllBelow(ops, |global|) && RangesOk(ops, global)
    ensures Passed(st, RegBlock(Release(st, global, 0), ops, global), open', ops, global)
  {
    var open1 := ReleaseScan(st, open, 0, global);
    assert [] + ops == ops;
    open' := ScanBlockNumbers(Release(st, global, 0), open1, ops, [], global);
  }

  // ----- running the renumbered code -----

  // The renumbered state holds, at its new place, whatever still matters.
  ghost predicate Holds(s: State, s': State, sub: seq<int>, home: seq<int>, global: seq<bool>, live: set<nat>, n: nat) {
    && s.tr == s'.tr && |s.tm| == |sub| == |home| == |global| && |s'.tm| == n
    && (forall r: nat :: r in live && r < |sub| ==> 0 <= sub[r] < n && s.tm[r] == s'.tm[sub[r]])
    && (forall g: nat :: g < |global| && global[g] && home[g] >= 0 ==> home[g] < n && s.tm[g] == s'.tm[home[g]])
  }

  // Every read of a temporary yields the value it had under the old numbering.
  lemma ReadsAlike(op: Op, s: State, s': State, sub: seq<int>, home: seq<int>, global: seq<bool>, live: set<nat>,
                   n: nat)
    requires Holds(s, s', sub, home, global, NeedsOp(op, live), n) && CoversOp(op, sub, n)
    ensures Value(op.op1, s.tm) == Value(Rename(op, sub).op1, s'.tm)
    ensures Value(op.op2, s.tm) == Value(Rename(op, sub).op2, s'.tm)
    ensures Extra(op, s.tm) == Extra(Rename(op, sub), s'.tm)
  {
    assert Slot(op.op1) ==> op.op1.n in NeedsOp(op, live);
    assert Slot(op.op2) ==> op.op2.n in NeedsOp(op, live);
    assert op.code.DeclareInherited? ==> op.ext in NeedsOp(op, live);
    assert op.code.AddArrayElement? && Slot(op.res) ==> op.res.n in NeedsOp(op, live);
  }

  // Writing the result keeps everything else that matters.
  lemma WritesAlike(op: Op, s: State, s': State, v: int, tr: seq<Event>, sub: seq<int>, home: seq<int>,
                    global: seq<bool>, live: set<nat>, n: nat)
    requires Holds(s, s', sub, home, global, NeedsOp(op, live), n) && CoversOp(op, sub, n) && AtHome(sub, home, global)
    requires Slot(op.res) ==> forall r: nat :: r in live && r != op.res.n && r < |sub| ==> sub[r] != sub[op.res.n]
    ensures Holds(State(Put(op.res, s.tm, v), tr), State(Put(RenameSlot(op.res, sub), s'.tm, v), tr), sub, home,
                  global, live, n)
  {
    forall r: nat | r in live && r < |sub|
      ensures 0 <= sub[r] < n && Put(op.res, s.tm, v)[r] == Put(RenameSlot(op.res, sub), s'.tm, v)[sub[r]]
    {
      if !(Slot(op.res) && op.res.n == r) { assert r in NeedsOp(op, live); }
    }
  }

  lemma ExecResult(w: World, op: Op, s: State)
    requires WellTyped(op)
    ensures Slot(op.res) ==> Exec(w, op, s).1 == State(Put(op.res, s.tm, ResultOf(w, op, s)), Exec(w, op, s).1.tr)
    ensures !Slot(op.res) ==> Exec(w, op, s).1.tm == s.tm
  {
  }

  lemma RenameOpSim(w: World, op: Op, s: State, s': State, sub: seq<int>, home: seq<int>, global: seq<bool>,
                    live: set<nat>, n: nat)
    requires WellTyped(op) && CoversOp(op, sub, n) && AtHome(sub, home, global)
    requires Holds(s, s', sub, home, global, NeedsOp(op, live), n)
    requires Slot(op.res) ==> forall r: nat :: r in live && r != op.res.n && r < |sub| ==> sub[r] != sub[op.res.n]
    ensures var (d, t) := Exec(w, op, s); var (d', t') := Exec(w, Rename(op, sub), s');
            d == d' && Holds(t, t', sub, home, global, live, n)
  {
    var op' := Rename(op, sub);
    ReadsAlike(op, s, s', sub, home, global, live, n);
    ExecResult(w, op, s);
    ExecResult(w, op', s');
    var t, t' := Exec(w, op, s).1, Exec(w, op', s').1;
    assert t.tr == t'.tr;
    if Slot(op.res) {
      assert ResultOf(w, op, s) == ResultOf(w, op', s');
      WritesAlike(op, s, s', ResultOf(w, op, s), t.tr, sub, home, global, live, n);
    } else {
      assert forall r: nat :: r in live ==> r in NeedsOp(op, live);
    }
  }

  predicate AllWellTyped(ops: seq<Op>) {
    forall i :: 0 <= i < |ops| ==> WellTyped(ops[i])
  }

  ghost predicate SameExitHome(c: Config, c': Config, home: seq<int>, global: seq<bool>, n: nat) {
    if c.Running? then c'.Running? && c'.b == c.b && Holds(c.s, c'.s, home, home, global, {}, n)
    else c' == c
  }

  // A renumbered block does what the block did, as far as the other blocks can tell.
  lemma {:induction false} RenameSim(w: World, ops: seq<Op>, blk: Block, s: State, s': State, sub: seq<int>,
                                     home: seq<int>, global: seq<bool>, n: nat)
    requires AllWellTyped(ops) && Covers(ops, sub, n) && NoClash(ops, sub, global) && AtHome(sub, home, global)
    requires Holds(s, s', sub, home, global, Needs(ops), n)
    ensures SameExitHome(ExecOps(w, ops, blk, s), ExecOps(w, RenameAll(ops, sub), blk, s'), home, global, n)
    decreases |ops|
  {
    if ops != [] {
      var op, rest := ops[0], ops[1..];
      assert CoversOp(op, sub, n);
      RenameOpSim(w, op, s, s', sub, home, global, Needs(rest), n);
      assert RenameAll(ops, sub)[1..] == RenameAll(rest, sub);
      var (d, t) := Exec(w, op, s); var (d', t') := Exec(w, Rename(op, sub), s');
      if d.Next? {
        assert forall i :: 0 <= i < |rest| ==> rest[i] == ops[i + 1];
        RenameSim(w, rest, blk, t, t', sub, home, global, n);
      }
    }
  }

  // Block b of g' is block b of g under subs[b].
  ghost predicate Renumbered(g: Graph, g': Graph, subs: seq<seq<int>>, home: seq<int>, global: seq<bool>, n: nat) {
    && g'.bb == g.bb && |subs| == |g.bb| && |home| == |global|
    && forall b: nat {:trigger subs[b]} :: b < |g.bb| && g.bb[b].used ==>
         && Ops(g', b) == RenameAll(Ops(g, b), subs[b])
         && Covers(Ops(g, b), subs[b], n) && NoClash(Ops(g, b), subs[b], global) && AtHome(subs[b], home, global)
  }

  // Blocks need nothing from before but globals.
  ghost predicate NeedsGlobals(g: Graph, global: seq<bool>) {
    forall b: nat, r: nat {:trigger r in Needs(Ops(g, b))} ::
      b < |g.bb| && g.bb[b].used && r in Needs(Ops(g, b)) ==> r < |global| && global[r]
  }

  lemma EnterBlock(ops: seq<Op>, s: State, s': State, sub: seq<int>, home: seq<int>, global: seq<bool>, n: nat)
    requires Covers(ops, sub, n) && AtHome(sub, home, global) && Holds(s, s', home, home, global, {}, n)
    requires forall r: nat :: r in Needs(ops) ==> r < |global| && global[r]
    ensures Holds(s, s', sub, home, global, Needs(ops), n)
  {
    forall r: nat | r in Needs(ops) && r < |sub| ensures 0 <= sub[r] < n && sub[r] == home[r] {
      NeedsCovered(ops, r, sub, n);
    }
  }

  // Renumbering is invisible: both programs go through the same blocks and show the same trace.
  lemma {:induction false} RenumberedRun(w: World, g: Graph, g': Graph, subs: seq<seq<int>>, home: seq<int>,
                                         global: seq<bool>, n: nat,
                                         c: Config, c': Config, steps: nat)
    requires Renumbered(g, g', subs, home, global, n) && NeedsGlobals(g, global) && Closed(g.bb)
    requires forall b :: 0 <= b < |g.bb| && g.bb[b].used ==> AllWellTyped(Ops(g, b))
    requires SameExitHome(c, c', home, global, n) && (c.Running? ==> c.b < |g.bb| && g.bb[c.b].used)
    ensures SameExitHome(Run(w, g, c, steps), Run(w, g', c', steps), home, global, n)
    decreases steps
  {
    if steps > 0 {
      if c.Running? {
        var sub := subs[c.b];
        EnterBlock(Ops(g, c.b), c.s, c'.s, sub, home, global, n);
        RenameSim(w, Ops(g, c.b), g.bb[c.b], c.s, c'.s, sub, home, global, n);
      }
      RenumberedRun(w, g, g', subs, home, global, n, Step(w, g, c), Step(w, g', c'), steps - 1);
    }
  }

  // A fresh activation: all temporaries hold the same thing.
  function Fresh(T: nat): (s: State)
    ensures |s.tm| == T && s.tr == [] && forall r :: 0 <= r < T ==> s.tm[r] == 0
  {
    State(seq(T, _ => 0), [])
  }

  ghost predicate SameTraceFromStart(g: Graph, T: nat, g': Graph, T': nat) {
    forall w: World, steps: nat ::
      var c, c' := Run(w, g, Running(0, Fresh(T)), steps), Run(w, g', Running(0, Fresh(T')), steps);
      Trace(c) == Trace(c') && (c.Halted? <==> c'.Halted?)
  }

  lemma RenumberedSameTrace(g: Graph, g': Graph, subs: seq<seq<int>>, home: seq<int>, global: seq<bool>, n: nat)
    requires Renumbered(g, g', subs, home, global, n) && NeedsGlobals(g, global) && Closed(g.bb)
    requires 0 < |g.bb| && g.bb[0].used && BelowN(home, n)
    requires forall b :: 0 <= b < |g.bb| && g.bb[b].used ==> AllWellTyped(Ops(g, b))
    ensures SameTraceFromStart(g, |global|, g', n)
  {
    forall w: World, steps: nat
      ensures var c, c' := Run(w, g, Running(0, Fresh(|global|)), steps), Run(w, g', Running(0, Fresh(n)), steps);
              Trace(c) == Trace(c') && (c.Halted? <==> c'.Halted?)
    {
      RenumberedRun(w, g, g', subs, home, global, n, Running(0, Fresh(|global|)), Running(0, Fresh(n)), steps);
    }
  }

  // ----- `global` as compute_live_var leaves it is good enough -----

  // After dead results are gone, what a block needs is what the backward pass found live at its start.
  lemma {:induction false} CleanedNeeds(ops: seq<Op>, global: seq<bool>)
    requires AllRemovable(ops, global)
    ensures Needs(Clean(ops, global).0) <= Clean(ops, global).1 && AllWellTyped(Clean(ops, global).0)
    decreases |ops|
  {
    if ops != [] {
      assert AllRemovable(ops[1..], global);
      CleanedNeeds(ops[1..], global);
      var (rest, live) := Clean(ops[1..], global);
      var op := CleanOp(ops[0], global, live);
      assert Removable(ops[0], global);
      assert ([op] + rest)[1..] == rest && ([op] + rest)[0] == op;
      assert WellTyped(op);
      assert NeedsOp(op, Needs(rest)) <= LiveBefore(op, live);
    }
  }

  lemma CleanedNeedsGlobals(g: Graph, g': Graph, global: seq<bool>)
    requires Cleaned(g, g', global) && GlobalSound(g, global)
    requires CodeRemovable(g, global)
    ensures NeedsGlobals(g', global)
    ensures forall b :: 0 <= b < |g'.bb| && g'.bb[b].used ==> AllWellTyped(Ops(g', b))
  {
    forall b: nat, r: nat {:trigger r in Needs(Ops(g', b))} | b < |g'.bb| && g'.bb[b].used && r in Needs(Ops(g', b))
      ensures r < |global| && global[r]
    {
      assert Ops(g', b) == Clean(Ops(g, b), global).0;
      CleanedNeeds(Ops(g, b), global);
      LiveIsExposed(Ops(g, b), global, r);
    }
    forall b | 0 <= b < |g'.bb| && g'.bb[b].used ensures AllWellTyped(Ops(g', b)) {
      CleanedNeeds(Ops(g, b), global);
    }
  }

  // compute_live_var followed by reassign_registers: same trace, from the start, whatever the world does.
  lemma CleanedAndRenumbered(g: Graph, g1: Graph, g': Graph, global: seq<bool>, subs: seq<seq<int>>, home: seq<int>,
                             n: nat)
    requires Cleaned(g, g1, global) && GlobalSound(g, global) && Closed(g.bb) && 0 < |g.bb| && g.bb[0].used
    requires CodeRemovable(g, global)
    requires Renumbered(g1, g', subs, home, global, n) && BelowN(home, n)
    ensures SameTraceFromStart(g, |global|, g', n)
  {
    CleanedNeedsGlobals(g, g1, global);
    RenumberedSameTrace(g1, g', subs, home, global, n);
    forall w: World, steps: nat
      ensures var c, c' := Run(w, g, Running(0, Fresh(|global|)), steps), Run(w, g', Running(0, Fresh(n)), steps);
              Trace(c) == Trace(c') && (c.Halted? <==> c'.Halted?)
    {
      CleanedRun(w, g, g1, global, Running(0, Fresh(|global|)), Running(0, Fresh(|global|)), steps);
      assert Trace(Run(w, g1, Running(0, Fresh(|global|)), steps)) == Trace(Run(w, g', Running(0, Fresh(n)), steps));
    }
  }
}
