// How many registers reassign_registers gives out for code with one live range per local: no more than the globals that
// have one, and the locals that are in use at one and the same instruction.
module RegisterPressure {
  import opened Opcodes
  import opened LiveVars
  import opened Registers
  import opened Renumber
  import opened RegisterRuns

  // The locals that an instruction mentions, or that are needed behind it.
  ghost function InUse(op: Op, rest: seq<Op>, global: seq<bool>): set<nat> {
    set r: nat | r < |global| && !global[r] && (r in Needs(rest) || Mentions(op, r))
  }

  // The most locals in use at one instruction of the block.
  ghost function Peak(ops: seq<Op>, global: seq<bool>): nat {
    if ops == [] then 0
    else
      var here, behind := |InUse(ops[0], ops[1..], global)|, Peak(ops[1..], global);
      if here > behind then here else behind
  }

  // No instruction of any block has more than `peak` locals in use.
  ghost predicate AllPeaks(blocks: seq<seq<Op>>, global: seq<bool>, peak: nat) {
    forall b :: 0 <= b < |blocks| ==> Peak(blocks[b], global) <= peak
  }

  ghost predicate AllRanges(blocks: seq<seq<Op>>, global: seq<bool>) {
    forall b :: 0 <= b < |blocks| ==> RangesOk(blocks[b], global)
  }

  // ----- one GET_REG -----

  // The registers used are those of globals and at most `peak` more; the locals that hold one are in `room`.
  ghost predicate Snug(st: Regs, open: set<nat>, global: seq<bool>, room: set<nat>, peak: nat) {
    && ScanInv(st, open, global) && st.n <= |AssignedGlobals(st, global)| + peak && |room| <= peak
    && room <= Locals(global) && forall r: nat :: r in open && !global[r] ==> r in room
  }

  lemma SnugGet(st: Regs, open: set<nat>, r: nat, global: seq<bool>, room: set<nat>, peak: nat)
    requires Snug(st, open, global, room, peak) && r < |global| && (global[r] || r in room)
    ensures Snug(GetReg(st, r, global), OpenAfterGet(st, open, r), global, room, peak)
  {
    GetRegScan(st, open, r, global);
    if st.regOf[r] < 0 {
      if global[r] { SnugGlobal(st, open, r, global, room, peak); } else { SnugLocal(st, open, r, global, room, peak); }
    }
  }

  lemma SnugGlobal(st: Regs, open: set<nat>, r: nat, global: seq<bool>, room: set<nat>, peak: nat)
    requires Snug(st, open, global, room, peak) && r < |global| && global[r] && st.regOf[r] < 0
    ensures var st' := GetReg(st, r, global); st'.n <= |AssignedGlobals(st', global)| + peak
  {
    FreshIsFree(st, open, global, r);
    assert AssignedGlobals(GetReg(st, r, global), global) == AssignedGlobals(st, global) + {r};
  }

  // A local gets a new register only when all used ones are held, by globals and by others in the room.
  lemma SnugLocal(st: Regs, open: set<nat>, r: nat, global: seq<bool>, room: set<nat>, peak: nat)
    requires Snug(st, open, global, room, peak) && r < |global| && !global[r] && r in room && st.regOf[r] < 0
    ensures var st' := GetReg(st, r, global); st'.n <= |AssignedGlobals(st', global)| + peak
  {
    var j := FindFree(st, 0, false);
    LocalFindsRoom(st, open, global, r);
    assert AssignedGlobals(GetReg(st, r, global), global) == AssignedGlobals(st, global);
    if j >= st.n {
      HoldersCount(st, open, global, st.n);
      var others := room - {r};
      assert open <= AssignedGlobals(st, global) + others;
      SubsetCount(open, AssignedGlobals(st, global) + others);
    }
  }

  // ----- one instruction -----

  lemma SnugSlot(st: Regs, open: set<nat>, o: Operand, global: seq<bool>, room: set<nat>, peak: nat)
    returns (open': set<nat>)
    requires Snug(st, open, global, room, peak) && (Slot(o) ==> o.n < |global| && (global[o.n] || o.n in room))
    ensures Snug(GetSlot(st, o, global), open', global, room, peak)
  {
    open' := open;
    if Slot(o) {
      SnugGet(st, open, o.n, global, room, peak);
      open' := OpenAfterGet(st, open, o.n);
    }
  }

  predicate Roomy(o: Operand, global: seq<bool>, room: set<nat>) {
    Slot(o) ==> o.n < |global| && (global[o.n] || o.n in room)
  }

  lemma SnugOperands(st: Regs, open: set<nat>, op: Op, global: seq<bool>, room: set<nat>, peak: nat)
    requires Snug(st, open, global, room, peak) && Below(op, |global|)
    requires Roomy(op.op1, global, room) && Roomy(op.op2, global, room) && Roomy(ExtSlot(op), global, room)
    requires Roomy(op.res, global, room)
    ensures var st' := GetOperands(st, op, global); st'.n <= |AssignedGlobals(st', global)| + peak
  {
    var st1 := GetSlot(st, op.op1, global);
    var st2 := GetSlot(st1, op.op2, global);
    var st3 := GetSlot(st2, ExtSlot(op), global);
    var open1 := SnugSlot(st, open, op.op1, global, room, peak);
    var open2 := SnugSlot(st1, open1, op.op2, global, room, peak);
    var open3 := SnugSlot(st2, open2, ExtSlot(op), global, room, peak);
    var open4 := SnugSlot(st3, open3, op.res, global, room, peak);
  }

  lemma UseIsRoomy(op: Op, rest: seq<Op>, global: seq<bool>)
    requires Below(op, |global|)
    ensures var room := InUse(op, rest, global);
            && Roomy(op.op1, global, room) && Roomy(op.op2, global, room) && Roomy(ExtSlot(op), global, room)
            && Roomy(op.res, global, room)
            && room <= Locals(global)
  {
    assert Slot(op.op1) ==> Mentions(op, op.op1.n);
    assert Slot(op.op2) ==> Mentions(op, op.op2.n);
    assert op.code.DeclareInherited? ==> Mentions(op, op.ext);
    assert Slot(op.res) ==> Mentions(op, op.res.n);
  }

  ghost predicate Tight(st: Regs, global: seq<bool>, peak: nat) {
    Sized(st, |global|) && st.n <= |AssignedGlobals(st, global)| + peak
  }

  lemma OpTight(st: Regs, open: set<nat>, op: Op, rest: seq<Op>, global: seq<bool>, peak: nat)
    requires ScanInv(st, open, global) && Tight(st, global, peak) && Below(op, |global|)
    requires OnlyNeeded(open, rest, global)
    requires |InUse(op, rest, global)| <= peak
    ensures Tight(RegOp(st, op, global), global, peak)
  {
    UseIsRoomy(op, rest, global);
    SnugOperands(st, open, op, global, InUse(op, rest, global), peak);
    var st1 := GetOperands(st, op, global);
    assert AssignedGlobals(RegOp(st, op, global), global) == AssignedGlobals(st1, global);
  }

  // ----- blocks -----

  lemma {:induction false} BlockTight(st0: Regs, open0: set<nat>, ops: seq<Op>, above: seq<Op>, global: seq<bool>,
                                      peak: nat)
    requires ScanInv(st0, open0, global) && AllBelow(ops, |global|)
    requires forall r: nat :: r < |global| && !global[r] ==> st0.regOf[r] < 0
    requires RangesOk(above + ops, global) && Peak(ops, global) <= peak && Tight(st0, global, peak)
    ensures Tight(RegBlock(st0, ops, global), global, peak)
    decreases |ops|
  {
    if ops != [] {
      var op, rest := ops[0], ops[1..];
      assert ops == [op] + rest;
      RangesAt(above, op, rest, global);
      BlockTight(st0, open0, rest, above + [op], global, peak);
      var open1 := ScanBlockNumbers(st0, open0, rest, above + [op], global);
      OpTight(RegBlock(st0, rest, global), open1, op, rest, global, peak);
    }
  }

  lemma PassTight(st: Regs, open: set<nat>, ops: seq<Op>, global: seq<bool>, peak: nat) returns (open': set<nat>)
    requires ScanInv(st, open, global) && AllBelow(ops, |global|) && RangesOk(ops, global)
    requires Peak(ops, global) <= peak && Tight(st, global, peak)
    ensures var st' := RunBlock(Release(st, global, 0), ops, global); ScanInv(st', open', global) && Tight(st', global, peak)
  {
    open' := BlockPassed(st, open, ops, global);
    var st1 := Release(st, global, 0);
    var open1 := ReleaseScan(st, open, 0, global);
    assert [] + ops == ops;
    assert AssignedGlobals(st1, global) == AssignedGlobals(st, global);
    BlockIs(st1, open1, ops, [], global);
    BlockTight(st1, open1, ops, [], global, peak);
  }

  lemma {:induction false} RunTight(blocks: seq<seq<Op>>, global: seq<bool>, peak: nat) returns (open: set<nat>)
    requires BlocksBelow(blocks, |global|) && AllRanges(blocks, global) && AllPeaks(blocks, global, peak)
    ensures var st := RunBlocks(NoRegs(|global|), blocks, global); ScanInv(st, open, global) && Tight(st, global, peak)
    decreases |blocks|
  {
    if blocks == [] {
      NoRegsKeeps(global);
      open := {};
    } else {
      var front, last := blocks[..|blocks| - 1], blocks[|blocks| - 1];
      open := RunTight(front, global, peak);
      open := PassTight(RunBlocks(NoRegs(|global|), front, global), open, last, global, peak);
    }
  }

  // After any number of blocks with one live range per local, the registers used are at most those of the globals and
  // as many more as locals are in use at once.
  lemma AsFewAsInUse(blocks: seq<seq<Op>>, global: seq<bool>, peak: nat)
    requires BlocksBelow(blocks, |global|) && AllRanges(blocks, global) && AllPeaks(blocks, global, peak)
    ensures var st := RunBlocks(NoRegs(|global|), blocks, global); st.n <= |AssignedGlobals(st, global)| + peak
  {
    var open := RunTight(blocks, global, peak);
  }
}
