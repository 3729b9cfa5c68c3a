// reassign_registers on any code and any marking: a register is always found, and few are enough.
module RegisterRuns {
  import opened Opcodes
  import opened Registers
  import opened Renumber
  import opened LiveVars

  // FREE_REG is reached: judged, as in the source, on the operands under their new numbers.
  predicate FreesResult(op: Op, op': Op, global: seq<bool>) {
    Slot(op.res) && (
      (!op'.code.Recv? && op'.res.Var? && op'.resUnused)
      || (op'.op1 != op'.res && op'.op2 != op'.res && !(op.res.n < |global| && global[op.res.n])
          && !op'.code.AddArrayElement?))
  }

  function RunOp(st: Regs, op: Op, global: seq<bool>): (st': Regs)
    requires Sized(st, |global|) && Below(op, |global|)
    ensures Sized(st', |global|)
  {
    var st1 := GetOperands(st, op, global);
    if FreesResult(op, Rename(op, st1.regOf), global) then FreeReg(st1, op.res.n) else st1
  }

  function RunBlock(st: Regs, ops: seq<Op>, global: seq<bool>): (st': Regs)
    requires Sized(st, |global|) && AllBelow(ops, |global|)
    ensures Sized(st', |global|)
  {
    if ops == [] then st else RunOp(RunBlock(st, ops[1..], global), ops[0], global)
  }

  predicate BlocksBelow(blocks: seq<seq<Op>>, T: nat) {
    forall b :: 0 <= b < |blocks| ==> AllBelow(blocks[b], T)
  }

  function RunBlocks(st: Regs, blocks: seq<seq<Op>>, global: seq<bool>): (st': Regs)
    requires Sized(st, |global|) && BlocksBelow(blocks, |global|)
    ensures Sized(st', |global|)
  {
    if blocks == [] then st
    else RunBlock(Release(RunBlocks(st, blocks[..|blocks| - 1], global), global, 0), blocks[|blocks| - 1], global)
  }

  function NoRegs(T: nat): Regs {
    Regs(seq(T, _ => -1), seq(T, _ => false), seq(T, _ => false), 0)
  }

  // ----- the invariant, whatever the code -----

  lemma SlotKeeps(st: Regs, open: set<nat>, o: Operand, global: seq<bool>) returns (open': set<nat>)
    requires RegInv(st, open, global) && (Slot(o) ==> o.n < |global|)
    ensures var st' := GetSlot(st, o, global);
            RegInv(st', open', global) && Grown(st, st') && HasReg(o, st'.regOf, st'.n)
  {
    open' := open;
    if Slot(o) {
      GetRegFinds(st, open, o.n, global);
      open' := OpenAfterGet(st, open, o.n);
    }
  }

  // Two operands, one after the other.
  lemma TwoSlotsKeep(st: Regs, open: set<nat>, a: Operand, b: Operand, global: seq<bool>) returns (open': set<nat>)
    requires RegInv(st, open, global) && (Slot(a) ==> a.n < |global|) && (Slot(b) ==> b.n < |global|)
    ensures var st' := GetSlot(GetSlot(st, a, global), b, global);
            RegInv(st', open', global) && Grown(st, st') && HasReg(a, st'.regOf, st'.n) && HasReg(b, st'.regOf, st'.n)
  {
    var st1 := GetSlot(st, a, global);
    var st2 := GetSlot(st1, b, global);
    var open1 := SlotKeeps(st, open, a, global);
    open' := SlotKeeps(st1, open1, b, global);
    HasRegGrows(a, st1, st2);
    GrownTwice(st, st1, st2);
  }

  lemma OperandsKeep(st: Regs, open: set<nat>, op: Op, global: seq<bool>) returns (open': set<nat>)
    requires RegInv(st, open, global) && Below(op, |global|)
    ensures var st' := GetOperands(st, op, global);
            RegInv(st', open', global) && Grown(st, st') && CoversOp(op, st'.regOf, st'.n)
  {
    var st2 := GetSlot(GetSlot(st, op.op1, global), op.op2, global);
    var st4 := GetSlot(GetSlot(st2, ExtSlot(op), global), op.res, global);
    var open2 := TwoSlotsKeep(st, open, op.op1, op.op2, global);
    open' := TwoSlotsKeep(st2, open2, ExtSlot(op), op.res, global);
    HasRegGrows(op.op1, st2, st4);
    HasRegGrows(op.op2, st2, st4);
    GrownTwice(st, st2, st4);
  }

  lemma OpKeeps(st: Regs, open: set<nat>, op: Op, global: seq<bool>) returns (open': set<nat>)
    requires RegInv(st, open, global) && Below(op, |global|)
    ensures var st' := RunOp(st, op, global);
            RegInv(st', open', global) && Grown(st, st') && CoversOp(op, st'.regOf, st'.n)
  {
    var st1 := GetOperands(st, op, global);
    open' := OperandsKeep(st, open, op, global);
    if FreesResult(op, Rename(op, st1.regOf), global) {
      FreeRegKeeps(st1, open', op.res.n, global);
      open' := OpenAfterFree(st1, open', op.res.n);
    }
  }

  lemma CoversMore(ops: seq<Op>, st: Regs, st': Regs)
    requires ops != [] && Covers(ops[1..], st.regOf, st.n) && Grown(st, st') && CoversOp(ops[0], st'.regOf, st'.n)
    ensures Covers(ops, st'.regOf, st'.n)
  {
    forall i | 0 < i < |ops| ensures CoversOp(ops[i], st'.regOf, st'.n) {
      assert CoversOp(ops[1..][i - 1], st.regOf, st.n);
    }
  }

  lemma GrownTwice(st: Regs, st1: Regs, st2: Regs)
    requires Grown(st, st1) && Grown(st1, st2)
    ensures Grown(st, st2)
  {
  }

  lemma {:induction false} BlockKeeps(st: Regs, open: set<nat>, ops: seq<Op>, global: seq<bool>)
    returns (open': set<nat>)
    requires RegInv(st, open, global) && AllBelow(ops, |global|)
    ensures var st' := RunBlock(st, ops, global);
            RegInv(st', open', global) && Grown(st, st') && Covers(ops, st'.regOf, st'.n)
    decreases |ops|
  {
    open' := open;
    if ops != [] {
      var rest, st1 := ops[1..], RunBlock(st, ops[1..], global);
      var open1 := BlockKeeps(st, open, rest, global);
      open' := OpKeeps(st1, open1, ops[0], global);
      CoversMore(ops, st1, RunOp(st1, ops[0], global));
      GrownTwice(st, st1, RunOp(st1, ops[0], global));
    }
  }

  lemma {:induction false} ReleaseKeeps(st: Regs, open: set<nat>, i: nat, global: seq<bool>) returns (open': set<nat>)
    requires RegInv(st, open, global) && i <= |global|
    ensures RegInv(Release(st, global, i), open', global) && Release(st, global, i).n == st.n
    decreases |global| - i
  {
    open' := open;
    if i < |global| {
      if global[i] {
        open' := ReleaseKeeps(st, open, i + 1, global);
      } else {
        var st1, open1 := FreeReg(st, i), OpenAfterFree(st, open, i);
        FreeRegKeeps(st, open, i, global);
        ForgetKeeps(st1, open1, i, global);
        open' := ReleaseKeeps(st1.(regOf := st1.regOf[i := -1]), open1, i + 1, global);
      }
    }
  }

  lemma OneMoreBlock(front: seq<seq<Op>>, ops: seq<Op>, global: seq<bool>)
    requires BlocksBelow(front, |global|) && AllBelow(ops, |global|)
    ensures BlocksBelow(front + [ops], |global|)
    ensures RunBlocks(NoRegs(|global|), front + [ops], global) ==
              RunBlock(Release(RunBlocks(NoRegs(|global|), front, global), global, 0), ops, global)
  {
    var all := front + [ops];
    assert all[..|all| - 1] == front && all[|all| - 1] == ops;
    forall b | 0 <= b < |all| ensures AllBelow(all[b], |global|) {
      assert b < |front| ==> all[b] == front[b];
    }
  }

  lemma NoRegsKeeps(global: seq<bool>)
    ensures RegInv(NoRegs(|global|), {}, global)
  {
    assert forall j: nat :: j < |global| ==> !HeldBy(NoRegs(|global|), {}, j);
  }

  lemma {:induction false} RunKeeps(blocks: seq<seq<Op>>, global: seq<bool>) returns (open: set<nat>)
    requires BlocksBelow(blocks, |global|)
    ensures RegInv(RunBlocks(NoRegs(|global|), blocks, global), open, global)
    decreases |blocks|
  {
    if blocks == [] {
      NoRegsKeeps(global);
      open := {};
    } else {
      var front := blocks[..|blocks| - 1];
      var st := RunBlocks(NoRegs(|global|), front, global);
      open := RunKeeps(front, global);
      open := ReleaseKeeps(st, open, 0, global);
      open := BlockKeeps(Release(st, global, 0), open, blocks[|blocks| - 1], global);
    }
  }

  // For any code and any marking, after any number of blocks: the registers used are the first n, n is at most the
  // number of temporaries, and at most the globals that have one plus all locals.
  lemma FewRegisters(blocks: seq<seq<Op>>, global: seq<bool>)
    requires BlocksBelow(blocks, |global|)
    ensures var st := RunBlocks(NoRegs(|global|), blocks, global);
            && st.n <= |global| && st.n <= |AssignedGlobals(st, global)| + |Locals(global)|
            && (forall j :: 0 <= j < |global| ==> (st.used[j] <==> j < st.n))
            && (forall r :: 0 <= r < |global| ==> st.regOf[r] < st.n)
  {
    var open := RunKeeps(blocks, global);
  }

  // And whatever temporary is asked for next, in any instruction of any block, GET_REG finds a slot.
  lemma AlwaysFound(blocks: seq<seq<Op>>, later: seq<Op>, op: Op, r: nat, global: seq<bool>)
    requires BlocksBelow(blocks, |global|)
    requires AllBelow(later, |global|) && Below(op, |global|) && r < |global|
    ensures var st := RunBlock(Release(RunBlocks(NoRegs(|global|), blocks, global), global, 0), later, global);
            && 0 <= GetReg(st, r, global).regOf[r] < |global|
            && CoversOp(op, GetOperands(st, op, global).regOf, |global|)
  {
    var st0 := RunBlocks(NoRegs(|global|), blocks, global);
    var open := RunKeeps(blocks, global);
    open := ReleaseKeeps(st0, open, 0, global);
    open := BlockKeeps(Release(st0, global, 0), open, later, global);
    var st := RunBlock(Release(st0, global, 0), later, global);
    GetRegFinds(st, open, r, global);
    var open' := OperandsKeep(st, open, op, global);
  }

  // ----- code with one live range per local -----

  // Two operands of one instruction have the same register only if they are the same temporary.
  lemma SameRegisterSameSlot(op: Op, st: Regs, open: set<nat>)
    requires Holders(st, open) && IsOpen(op.op1, open) && IsOpen(op.op2, open) && IsOpen(op.res, open) && Slot(op.res)
    ensures (RenameSlot(op.op1, st.regOf) == RenameSlot(op.res, st.regOf)) <==> op.op1 == op.res
    ensures (RenameSlot(op.op2, st.regOf) == RenameSlot(op.res, st.regOf)) <==> op.op2 == op.res
  {
  }

  lemma FreesIs(op: Op, st: Regs, open: set<nat>, global: seq<bool>)
    requires Holders(st, open) && IsOpen(op.op1, open) && IsOpen(op.op2, open) && IsOpen(op.res, open)
    ensures FreesResult(op, Rename(op, st.regOf), global) <==> Closes(op, global)
  {
    if Slot(op.res) { SameRegisterSameSlot(op, st, open); }
  }

  lemma OpenByMention(op: Op, open: set<nat>)
    requires forall r: nat :: Mentions(op, r) ==> r in open
    ensures IsOpen(op.op1, open) && IsOpen(op.op2, open) && IsOpen(op.res, open)
  {
    assert Slot(op.op1) ==> Mentions(op, op.op1.n);
    assert Slot(op.op2) ==> Mentions(op, op.op2.n);
    assert Slot(op.res) ==> Mentions(op, op.res.n);
  }

  // There the new numbers and the old ones give the same verdict.
  lemma OpIs(st: Regs, open: set<nat>, op: Op, global: seq<bool>)
    requires ScanInv(st, open, global) && Below(op, |global|) && OperandsOpen(st, open, op)
    ensures RunOp(st, op, global) == RegOp(st, op, global)
  {
    var open' := GetOperandsScan(st, open, op, global);
    OpenByMention(op, open');
    FreesIs(op, GetOperands(st, op, global), open', global);
  }

  lemma {:induction false} BlockIs(st0: Regs, open0: set<nat>, ops: seq<Op>, above: seq<Op>, global: seq<bool>)
    requires ScanInv(st0, open0, global) && AllBelow(ops, |global|)
    requires forall r: nat :: r < |global| && !global[r] ==> st0.regOf[r] < 0
    requires RangesOk(above + ops, global)
    ensures RunBlock(st0, ops, global) == RegBlock(st0, ops, global)
    decreases |ops|
  {
    if ops != [] {
      var op, rest := ops[0], ops[1..];
      assert ops == [op] + rest;
      RangesAt(above, op, rest, global);
      BlockIs(st0, open0, rest, above + [op], global);
      var open1 := ScanBlockNumbers(st0, open0, rest, above + [op], global);
      AboveIsOpen(RegBlock(st0, rest, global), open1, op, rest, above, global);
      OpIs(RegBlock(st0, rest, global), open1, op, global);
    }
  }

  lemma AboveIsOpen(st: Regs, open: set<nat>, op: Op, rest: seq<Op>, above: seq<Op>, global: seq<bool>)
    requires Numbered(st, open, rest, above + [op], global)
    ensures OperandsOpen(st, open, op)
  {
    assert (above + [op])[|above|] == op;
  }

  // One block of the pass: see Renumber.PassBlock.
  lemma BlockPassed(st: Regs, open: set<nat>, ops: seq<Op>, global: seq<bool>) returns (open': set<nat>)
    requires ScanInv(st, open, global) && AllBelow(ops, |global|) && RangesOk(ops, global)
    ensures Passed(st, RunBlock(Release(st, global, 0), ops, global), open', ops, global)
  {
    var open1 := ReleaseScan(st, open, 0, global);
    assert [] + ops == ops;
    BlockIs(Release(st, global, 0), open1, ops, [], global);
    open' := PassBlock(st, open, ops, global);
  }
}
