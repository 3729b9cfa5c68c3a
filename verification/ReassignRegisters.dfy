// reassign_registers as it runs: three arrays, a counter, and the code rewritten in place.
module RegisterAllocator {
  import opened Opcodes
  import opened Graphs
  import opened Rewrites
  import opened LiveVars
  import opened Registers
  import opened Renumber
  import opened RegisterRuns
  import opened RegisterPressure

  lemma RenamedByParts(op: Op, sub: seq<int>)
    ensures Rename(op, sub) ==
            op.(op1 := RenameSlot(op.op1, sub), op2 := RenameSlot(op.op2, sub), res := RenameSlot(op.res, sub),
                                   ext := if op.code.DeclareInherited? then Number(RenameSlot(ExtSlot(op), sub))
                                     else op.ext)
  {
  }

  // The temporary that an operand names.
  function Number(o: Operand): nat {
    if Slot(o) then o.n else 0
  }

  // Only the stretch of len instructions from start on may differ.
  predicate SameOutside(was: seq<Op>, now: seq<Op>, start: nat, len: nat) {
    |was| == |now| && forall i :: 0 <= i < |was| && !(start <= i < start + len) ==> now[i] == was[i]
  }

  class Allocator {
    const regOf: array<int>
    const pool: array<bool>
    const used: array<bool>
    var n: nat

    constructor (T: nat)
      ensures fresh(regOf) && fresh(pool) && fresh(used) && Apart(T)
      ensures St() == NoRegs(T)
    {
      regOf := new int[T](_ => -1);
      pool := new bool[T](_ => false);
      used := new bool[T](_ => false);
      n := 0;
    }

    ghost function St(): Regs
      reads this, regOf, pool, used
    {
      Regs(regOf[..], pool[..], used[..], n)
    }

    predicate Apart(T: nat)
      reads this
    {
      regOf.Length == pool.Length == used.Length == T && pool != used
    }

    // The search of GET_REG.
    method Search(untouched: bool) returns (j: nat)
      requires pool.Length == used.Length
      ensures j == FindFree(St(), 0, untouched)
    {
      j := 0;
      while j < pool.Length && (pool[j] || (untouched && used[j]))
        invariant j <= pool.Length && FindFree(St(), j, untouched) == FindFree(St(), 0, untouched)
        decreases pool.Length - j
      {
        j := j + 1;
      }
    }

    method Claim(r: nat, j: nat)
      requires r < regOf.Length && j < pool.Length && pool != used
      modifies this`n, regOf, pool
      ensures St() == Regs(old(regOf[..])[r := j], old(pool[..])[j := true], old(used[..]),
                           if j + 1 > old(n) then j + 1 else old(n))
    {
      pool[j] := true;
      regOf[r] := j;
      n := if j + 1 > n then j + 1 else n;
    }

    // GET_REG.  A register is always found, so the last line never reads assigned[r] == -1.
    method Get(r: nat, global: array<bool>, ghost open: set<nat>)
      requires Apart(global.Length) && global != pool && global != used && r < global.Length
      requires RegInv(St(), open, global[..])
      modifies this, regOf, pool, used
      ensures St() == GetReg(old(St()), r, global[..]) && 0 <= regOf[r] < used.Length
      ensures global[..] == old(global[..])
    {
      GetRegFinds(St(), open, r, global[..]);
      if regOf[r] < 0 {
        var j := Search(global[r]);
        if j < pool.Length { Claim(r, j); }
      }
      used[regOf[r]] := true;
    }

    method GetOperand(o: Operand, global: array<bool>, ghost open: set<nat>)
      returns (o': Operand, ghost open': set<nat>)
      requires Apart(global.Length) && global != pool && global != used && (Slot(o) ==> o.n < global.Length)
      requires RegInv(St(), open, global[..])
      modifies this, regOf, pool, used
      ensures St() == GetSlot(old(St()), o, global[..]) && global[..] == old(global[..])
      ensures o' == RenameSlot(o, St().regOf) && HasReg(o, St().regOf, St().n)
      ensures RegInv(St(), open', global[..]) && Grown(old(St()), St())
    {
      open' := SlotKeeps(St(), open, o, global[..]);
      if Slot(o) {
        Get(o.n, global, open);
      }
      o' := RenameSlot(o, regOf[..]);
    }

    method GetAllOperands(op: Op, global: array<bool>, ghost open: set<nat>) returns (op': Op, ghost open': set<nat>)
      requires Apart(global.Length) && global != pool && global != used && Below(op, global.Length)
      requires RegInv(St(), open, global[..])
      modifies this, regOf, pool, used
      ensures St() == GetOperands(old(St()), op, global[..]) && op' == Rename(op, St().regOf)
      ensures RegInv(St(), open', global[..]) && global[..] == old(global[..]) && HasReg(op.res, St().regOf, St().n)
    {
      var a, b, e, r;
      a, open' := GetOperand(op.op1, global, open);
      ghost var st1 := St();
      b, open' := GetOperand(op.op2, global, open');
      ghost var st2 := St();
      e, open' := GetOperand(ExtSlot(op), global, open');
      ghost var st3 := St();
      r, open' := GetOperand(op.res, global, open');
      NamesStay(op, st1, st2, st3, St());
      op' := op.(op1 := a, op2 := b, res := r, ext := if op.code.DeclareInherited? then Number(e) else op.ext);
      RenamedByParts(op, St().regOf);
    }

    // One instruction: registers for its operands, their new numbers, and the result's register given back.
    method Instruction(op: Op, global: array<bool>, ghost open: set<nat>) returns (op': Op, ghost open': set<nat>)
      requires Apart(global.Length) && global != pool && global != used && Below(op, global.Length)
      requires RegInv(St(), open, global[..])
      modifies this, regOf, pool, used
      ensures St() == RunOp(old(St()), op, global[..]) && op' == Rename(op, St().regOf)
      ensures RegInv(St(), open', global[..]) && global[..] == old(global[..])
    {
      ghost var open4 := OpKeeps(St(), open, op, global[..]);
      op', open' := GetAllOperands(op, global, open);
      if Slot(op.res) {
        if (!op'.code.Recv? && op'.res.Var? && op'.resUnused)
           || (op'.op1 != op'.res && op'.op2 != op'.res && !global[op.res.n] && !op'.code.AddArrayElement?)
        {
          pool[op'.res.n] := false;
        }
      }
      open' := open4;
    }

    // The loop at the start of a block.
    method ReleaseLocals(global: array<bool>)
      requires Apart(global.Length) && global != pool && global != used
      requires forall r :: 0 <= r < global.Length ==> regOf[r] < global.Length
      modifies regOf, pool
      ensures St() == Release(old(St()), global[..], 0)
      ensures global[..] == old(global[..])
    {
      var i := 0;
      while i < global.Length
        invariant 0 <= i <= global.Length && global[..] == old(global[..])
        invariant forall r :: 0 <= r < global.Length ==> regOf[r] < global.Length
        invariant Release(St(), global[..], i) == Release(old(St()), global[..], 0)
      {
        if !global[i] {
          if regOf[i] >= 0 {
            pool[regOf[i]] := false;
          }
          regOf[i] := -1;
        }
        i := i + 1;
      }
    }

    // The inner loop, from the end of the block to its start: ops, between pre and post.
    method Scan(code: array<Op>, start: nat, len: nat, global: array<bool>, ghost pre: seq<Op>, ghost ops: seq<Op>,
                ghost post: seq<Op>, ghost open0: set<nat>)
      returns (ghost open: set<nat>)
      requires Apart(global.Length) && global != pool && global != used && start + len <= code.Length
      requires code[..] == pre + ops + post && |pre| == start && |ops| == len && AllBelow(ops, global.Length)
      requires RegInv(St(), open0, global[..])
      modifies this, regOf, pool, used, code
      ensures global[..] == old(global[..]) && RegInv(St(), open, global[..])
      ensures St() == RunBlock(old(St()), ops, global[..]) && Covers(ops, St().regOf, St().n)
      ensures code[..] == pre + RenameAll(ops, St().regOf) + post
    {
      ghost var g, st1, now := global[..], St(), ops;
      var i := len;
      open := open0;
      ScannedNone(St(), ops, open, g);
      while i > 0
        invariant 0 <= i <= len && global[..] == g && code[..] == pre + now + post
        invariant ScannedAt(st1, St(), now, ops, i, open, g)
      {
        i := i - 1;
        Inside(pre, now, post, i);
        assert code[start + i] == code[..][start + i];
        ghost var open2 := ScannedStep(st1, St(), now, ops, i, open, g);
        var op';
        op', open := Instruction(code[start + i], global, open);
        open := open2;
        code[start + i] := op';
        Between(pre, now, post, i, op');
        now := now[i := op'];
      }
      ScannedAll(st1, St(), now, ops, open, g);
    }

    // One block of the outer loop.
    method Block(code: array<Op>, start: nat, len: nat, global: array<bool>, ghost ops: seq<Op>, ghost open0: set<nat>)
      returns (ghost open: set<nat>)
      requires Apart(global.Length) && global != pool && global != used && start + len <= code.Length
      requires RegInv(St(), open0, global[..]) && code[start .. start + len] == ops && AllBelow(ops, global.Length)
      modifies this, regOf, pool, used, code
      ensures global[..] == old(global[..]) && RegInv(St(), open, global[..])
      ensures St() == RunBlock(Release(old(St()), global[..], 0), ops, global[..]) && Covers(ops, St().regOf, St().n)
      ensures code[start .. start + len] == RenameAll(ops, St().regOf)
      ensures SameOutside(old(code[..]), code[..], start, len)
    {
      ghost var was := code[..];
      ghost var open1 := ReleaseKeeps(St(), open0, 0, global[..]);
      ReleaseLocals(global);
      assert was == was[..start] + ops + was[start + len ..];
      open := Scan(code, start, len, global, was[..start], ops, was[start + len ..], open1);
      Patched(was, start, len, RenameAll(ops, St().regOf), code[..]);
      assert code[start .. start + len] == code[..][start .. start + len];
    }
  }

  lemma Inside(pre: seq<Op>, now: seq<Op>, post: seq<Op>, i: nat)
    requires i < |now|
    ensures (pre + now + post)[|pre| + i] == now[i]
  {
  }

  lemma Between(pre: seq<Op>, now: seq<Op>, post: seq<Op>, i: nat, op: Op)
    requires i < |now|
    ensures (pre + now + post)[|pre| + i := op] == pre + now[i := op] + post
  {
  }

  lemma Patched(was: seq<Op>, start: nat, len: nat, mid: seq<Op>, now: seq<Op>)
    requires start + len <= |was| && |mid| == len && now == was[..start] + mid + was[start + len ..]
    ensures |now| == |was| && now[start .. start + len] == mid
    ensures SameOutside(was, now, start, len)
  {
  }

  // Names given while the operands get their registers do not change.
  lemma NamesStay(op: Op, st1: Regs, st2: Regs, st3: Regs, st4: Regs)
    requires Grown(st1, st2) && Grown(st2, st3) && Grown(st3, st4)
    requires HasReg(op.op1, st1.regOf, st1.n) && HasReg(op.op2, st2.regOf, st2.n)
    requires HasReg(ExtSlot(op), st3.regOf, st3.n)
    ensures RenameSlot(op.op1, st1.regOf) == RenameSlot(op.op1, st4.regOf)
    ensures RenameSlot(op.op2, st2.regOf) == RenameSlot(op.op2, st4.regOf)
    ensures RenameSlot(ExtSlot(op), st3.regOf) == RenameSlot(ExtSlot(op), st4.regOf)
  {
    SameName(op.op1, st1, st2); SameName(op.op1, st2, st3); SameName(op.op1, st3, st4);
    SameName(op.op2, st2, st3); SameName(op.op2, st3, st4);
    SameName(ExtSlot(op), st3, st4);
  }

  lemma SameName(o: Operand, st: Regs, st': Regs)
    requires Grown(st, st') && HasReg(o, st.regOf, st.n)
    ensures HasReg(o, st'.regOf, st'.n) && RenameSlot(o, st.regOf) == RenameSlot(o, st'.regOf)
  {
  }

  // The backward loop has reached instruction i of the block.
  ghost predicate ScannedAt(st1: Regs, st: Regs, code: seq<Op>, ops: seq<Op>, i: nat, open: set<nat>,
                            global: seq<bool>) {
    && |code| == |ops| && i <= |ops| && Sized(st1, |global|) && AllBelow(ops, |global|) && AllBelow(ops[i..], |global|)
    && RegInv(st, open, global) && st == RunBlock(st1, ops[i..], global) && Covers(ops[i..], st.regOf, st.n)
    && code[i..] == RenameAll(ops[i..], st.regOf) && code[..i] == ops[..i]
  }

  lemma ScannedNone(st: Regs, ops: seq<Op>, open: set<nat>, global: seq<bool>)
    requires RegInv(st, open, global) && AllBelow(ops, |global|)
    ensures ScannedAt(st, st, ops, ops, |ops|, open, global)
  {
    assert ops[|ops|..] == [] && ops[..|ops|] == ops;
  }

  lemma ScannedStep(st1: Regs, st: Regs, code: seq<Op>, ops: seq<Op>, i: nat, open: set<nat>, global: seq<bool>)
    returns (open': set<nat>)
    requires i < |ops| && ScannedAt(st1, st, code, ops, i + 1, open, global)
    ensures Below(ops[i], |global|) && code[i] == ops[i]
    ensures var st' := RunOp(st, ops[i], global);
            ScannedAt(st1, st', code[i := Rename(ops[i], st'.regOf)], ops, i, open', global)
  {
    var op, rest := ops[i], ops[i + 1..];
    assert Below(op, |global|);
    Split(ops, i);
    Split(code, i);
    assert code[i] == code[..i + 1][i];
    var st' := RunOp(st, op, global);
    open' := OpKeeps(st, open, op, global);
    RenamedTail(rest, st, st');
    RenamedOneMore(op, rest, st'.regOf);
    PutAt(code, i, Rename(op, st'.regOf));
    CoversMore(ops[i..], st, st');
  }

  lemma Split(ops: seq<Op>, i: nat)
    requires i < |ops|
    ensures ops[i..] == [ops[i]] + ops[i + 1..] && ops[i..][1..] == ops[i + 1..]
    ensures ops[..i + 1] == ops[..i] + [ops[i]] && ops[..i + 1][..i] == ops[..i] && ops[..i + 1][i] == ops[i]
    ensures ops[..i] + ([ops[i]] + ops[i + 1..]) == ops
  {
  }

  lemma RenamedOneMore(op: Op, rest: seq<Op>, sub: seq<int>)
    ensures RenameAll([op] + rest, sub) == [Rename(op, sub)] + RenameAll(rest, sub)
  {
  }

  lemma PutAt(code: seq<Op>, i: nat, op: Op)
    requires i < |code|
    ensures code[i := op][i..] == [op] + code[i + 1..] && code[i := op][..i] == code[..i]
  {
  }

  lemma ScannedAll(st1: Regs, st: Regs, code: seq<Op>, ops: seq<Op>, open: set<nat>, global: seq<bool>)
    requires ScannedAt(st1, st, code, ops, 0, open, global)
    ensures AllBelow(ops, |global|) && Sized(st1, |global|)
    ensures st == RunBlock(st1, ops, global) && code == RenameAll(ops, st.regOf) && Covers(ops, st.regOf, st.n)
  {
    assert ops[0..] == ops && code[0..] == code;
  }

  // Registers given out stay, so what is renamed is renamed for good.
  lemma RenamedTail(ops: seq<Op>, st: Regs, st': Regs)
    requires Covers(ops, st.regOf, st.n) && Grown(st, st')
    ensures RenameAll(ops, st.regOf) == RenameAll(ops, st'.regOf)
  {
    forall i | 0 <= i < |ops| ensures Rename(ops[i], st.regOf) == Rename(ops[i], st'.regOf) {
      assert CoversOp(ops[i], st.regOf, st.n);
    }
  }

  // ----- all blocks -----

  // The code of the blocks that are scanned, in order.
  function ScannedOps(g: Graph, p: nat): (r: seq<seq<Op>>)
    requires p <= |g.bb|
  {
    if p == 0 then []
    else if Scanned(g, p - 1) then ScannedOps(g, p - 1) + [Ops(g, p - 1)]
    else ScannedOps(g, p - 1)
  }

  predicate Scanned(g: Graph, p: nat)
    requires p < |g.bb|
  {
    g.bb[p].used && g.bb[p].len > 0
  }

  lemma {:induction false} NoneScanned(g: Graph, p: nat, q: nat)
    requires p <= q <= |g.bb| && forall b: nat :: p <= b < q ==> !Scanned(g, b)
    ensures ScannedOps(g, q) == ScannedOps(g, p)
    decreases q - p
  {
    if p < q { NoneScanned(g, p, q - 1); }
  }

  // Every used block is its old code under a numbering below n.
  ghost predicate RenamedBlock(g: Graph, code: seq<Op>, subs: seq<seq<int>>, n: nat, b: nat)
    requires |subs| == |g.bb| && b < |g.bb|
  {
    Ops(Graph(code, g.bb), b) == RenameAll(Ops(g, b), subs[b]) && Covers(Ops(g, b), subs[b], n)
  }

  ghost predicate AllRenamed(g: Graph, g': Graph, subs: seq<seq<int>>, n: nat) {
    && g'.bb == g.bb && |subs| == |g.bb|
    && forall b: nat {:trigger subs[b]} :: b < |g.bb| && g.bb[b].used ==> RenamedBlock(g, g'.code, subs, n, b)
  }

  // The numbering of a block with one live range per local.
  ghost predicate GoodNumbers(g: Graph, subs: seq<seq<int>>, st: Regs, global: seq<bool>, b: nat)
    requires |subs| == |g.bb| && b < |g.bb|
  {
    NoClash(Ops(g, b), subs[b], global) && AtHome(subs[b], st.regOf, global) && BelowN(subs[b], st.n)
  }

  // Used blocks before p are renumbered, the others still have the code of g.
  ghost predicate PassedUpTo(g: Graph, code: seq<Op>, subs: seq<seq<int>>, st: Regs, global: seq<bool>, p: nat,
                             ok: bool) {
    && |code| == |g.code| && |subs| == |g.bb|
    && forall b: nat :: b < |g.bb| && g.bb[b].used ==>
         if b < p then RenamedBlock(g, code, subs, st.n, b) && (ok ==> GoodNumbers(g, subs, st, global, b))
         else Ops(Graph(code, g.bb), b) == Ops(g, b)
  }

  lemma OthersKeepCode(g: Graph, code: seq<Op>, code': seq<Op>, p: nat, b: nat)
    requires Layout(g) && |code| == |g.code| && p < |g.bb| && b < |g.bb| && b != p
    requires g.bb[p].used && g.bb[b].used
    requires SameOutside(code, code', p, g.bb[p].len)
    ensures Ops(Graph(code', g.bb), b) == Ops(Graph(code, g.bb), b)
  {
    assert BlockInRange(g, b) && BlockInRange(g, p);
    var n := g.bb[b].len;
    if n > 0 {
      if g.bb[p].len > 0 && p < b { assert p + g.bb[p].len <= b; }
      if b < p { assert b + n <= p; }
      assert code'[b .. b + n] == code[b .. b + n];
    }
  }

  lemma OthersKeepAll(g: Graph, code: seq<Op>, code': seq<Op>, p: nat)
    requires Layout(g) && |code| == |g.code| && p < |g.bb| && g.bb[p].used
    requires SameOutside(code, code', p, g.bb[p].len)
    ensures forall b: nat ::
              b < |g.bb| && b != p && g.bb[b].used ==> Ops(Graph(code', g.bb), b) == Ops(Graph(code, g.bb), b)
  {
    forall b: nat | b < |g.bb| && b != p && g.bb[b].used
      ensures Ops(Graph(code', g.bb), b) == Ops(Graph(code, g.bb), b)
    {
      OthersKeepCode(g, code, code', p, b);
    }
  }

  // What a later block does to the numbering leaves earlier blocks as they were.
  lemma RenamedStays(g: Graph, code: seq<Op>, subs: seq<seq<int>>, n: nat, b: nat, code': seq<Op>, subs': seq<seq<int>>,
                     n': nat)
    requires |subs| == |subs'| == |g.bb| && b < |g.bb| && RenamedBlock(g, code, subs, n, b) && subs'[b] == subs[b]
    requires n <= n'
    requires Ops(Graph(code', g.bb), b) == Ops(Graph(code, g.bb), b)
    ensures RenamedBlock(g, code', subs', n', b)
  {
    forall i | 0 <= i < |Ops(g, b)| ensures CoversOp(Ops(g, b)[i], subs'[b], n') {
      assert CoversOp(Ops(g, b)[i], subs[b], n);
    }
  }

  lemma GoodStays(g: Graph, subs: seq<seq<int>>, st: Regs, global: seq<bool>, b: nat, subs': seq<seq<int>>, st': Regs)
    requires |subs| == |subs'| == |g.bb| && b < |g.bb| && GoodNumbers(g, subs, st, global, b) && subs'[b] == subs[b]
    requires |st.regOf| == |st'.regOf| == |global| && st.n <= st'.n && FreshGlobals(st, st', global)
    requires forall g: nat :: g < |global| && global[g] && st.regOf[g] >= 0 ==> st'.regOf[g] == st.regOf[g]
    ensures GoodNumbers(g, subs', st', global, b)
  {
    AtHomeStays(subs[b], st, st', global);
  }

  lemma PassedOne(g: Graph, code: seq<Op>, subs: seq<seq<int>>, st: Regs, global: seq<bool>, p: nat,
                  code': seq<Op>, st': Regs, open': set<nat>, q: nat, ok: bool)
    requires p < q <= |g.bb| && |code'| == |code| && Sized(st, |global|) && Sized(st', |global|) && st.n <= st'.n
    requires forall b: nat :: p < b < q ==> !g.bb[b].used
    requires PassedUpTo(g, code, subs, st, global, p, ok) && (ok ==> Passed(st, st', open', Ops(g, p), global))
    requires Ops(Graph(code', g.bb), p) == RenameAll(Ops(g, p), st'.regOf) && Covers(Ops(g, p), st'.regOf, st'.n)
    requires forall b: nat ::
               b < |g.bb| && b != p && g.bb[b].used ==> Ops(Graph(code', g.bb), b) == Ops(Graph(code, g.bb), b)
    ensures PassedUpTo(g, code', subs[p := st'.regOf], st', global, q, ok)
  {
    var subs' := subs[p := st'.regOf];
    forall b: nat | b < |g.bb| && g.bb[b].used
      ensures if b < q then RenamedBlock(g, code', subs', st'.n, b) && (ok ==> GoodNumbers(g, subs', st', global, b))
              else Ops(Graph(code', g.bb), b) == Ops(g, b)
    {
      if b < p {
        RenamedStays(g, code, subs, st.n, b, code', subs', st'.n);
        if ok { GoodStays(g, subs, st, global, b, subs', st'); }
      }
    }
  }

  lemma SkippedUnused(g: Graph, p: nat, q: nat)
    requires Layout(g) && p < q <= |g.bb| && g.bb[p].start.Some?
    requires q == if g.bb[p].next.Some? then g.bb[p].next.value else |g.bb|
    ensures forall b: nat :: p < b < q ==> !g.bb[b].used
  {
    forall b: nat | p < b < q ensures !g.bb[b].used {
      assert Skipped(g.bb[p], b);
    }
  }

  lemma EmptyPassed(st: Regs, open: set<nat>, global: seq<bool>)
    requires ScanInv(st, open, global)
    ensures Passed(st, st, open, [], global)
  {
  }

  ghost predicate AllRangesOk(g: Graph, global: seq<bool>) {
    forall b: nat :: b < |g.bb| && g.bb[b].used ==> RangesOk(Ops(g, b), global)
  }

  // The registers after the blocks before p.
  ghost predicate AfterBlocks(g: Graph, st: Regs, global: seq<bool>, p: nat)
    requires p <= |g.bb|
  {
    BlocksBelow(ScannedOps(g, p), |global|) && st == RunBlocks(NoRegs(|global|), ScannedOps(g, p), global)
  }

  // Between two blocks.
  ghost predicate BetweenBlocks(g: Graph, code: seq<Op>, subs: seq<seq<int>>, st: Regs, open: set<nat>, scan: set<nat>,
                                global: seq<bool>, p: nat, ok: bool) {
    && p <= |g.bb| && RegInv(st, open, global) && (ok ==> ScanInv(st, scan, global))
    && AfterBlocks(g, st, global, p) && PassedUpTo(g, code, subs, st, global, p, ok)
  }

  // The registers and their number are those of the scan over all used blocks, one after the other.
  ghost predicate ScanGives(g: Graph, global: seq<bool>, home: seq<int>, n: nat) {
    && BlocksBelow(ScannedOps(g, |g.bb|), |global|)
    && var st := RunBlocks(NoRegs(|global|), ScannedOps(g, |g.bb|), global); home == st.regOf && n == st.n
  }

  // The globals that have a register.
  ghost function WithRegister(home: seq<int>, global: seq<bool>): set<nat>
    requires |home| == |global|
  {
    set r: nat | r < |global| && global[r] && home[r] >= 0
  }

  lemma Finished(g: Graph, code: seq<Op>, subs: seq<seq<int>>, st: Regs, open: set<nat>, scan: set<nat>,
                 global: seq<bool>, ok: bool)
    requires BetweenBlocks(g, code, subs, st, open, scan, global, |g.bb|, ok)
    ensures AllRenamed(g, Graph(code, g.bb), subs, st.n)
    ensures Sized(st, |global|) && st.n <= |global| && st.n <= |WithRegister(st.regOf, global)| + |Locals(global)|
    ensures ok ==> Renumbered(g, Graph(code, g.bb), subs, st.regOf, global, st.n) && BelowN(st.regOf, st.n)
  {
    assert AssignedGlobals(st, global) == WithRegister(st.regOf, global);
    forall b: nat {:trigger subs[b]} | b < |g.bb| && g.bb[b].used
      ensures RenamedBlock(g, code, subs, st.n, b) && (ok ==> GoodNumbers(g, subs, st, global, b))
    {
    }
  }

  // No instruction of a block in use has more than `peak` locals in use.
  ghost predicate InUseAtMost(g: Graph, global: seq<bool>, peak: nat) {
    forall b: nat :: b < |g.bb| && g.bb[b].used ==> Peak(Ops(g, b), global) <= peak
  }

  // n registers are no more than those of the globals, and as many more as locals are in use at once.
  ghost predicate Frugal(g: Graph, global: seq<bool>, home: seq<int>, n: nat)
    requires |home| == |global|
  {
    forall peak: nat {:trigger InUseAtMost(g, global, peak)} ::
      InUseAtMost(g, global, peak) ==> n <= |WithRegister(home, global)| + peak
  }

  lemma {:induction false} ScannedFit(g: Graph, global: seq<bool>, peak: nat, p: nat)
    requires AllRangesOk(g, global) && InUseAtMost(g, global, peak) && p <= |g.bb|
    ensures AllRanges(ScannedOps(g, p), global) && AllPeaks(ScannedOps(g, p), global, peak)
    decreases p
  {
    if p > 0 { ScannedFit(g, global, peak, p - 1); }
  }

  lemma FewInGraph(g: Graph, st: Regs, global: seq<bool>)
    requires AllRangesOk(g, global) && AfterBlocks(g, st, global, |g.bb|)
    ensures Sized(st, |global|) && Frugal(g, global, st.regOf, st.n)
  {
    forall peak: nat {:trigger InUseAtMost(g, global, peak)} | InUseAtMost(g, global, peak)
      ensures st.n <= |WithRegister(st.regOf, global)| + peak
    {
      ScannedFit(g, global, peak, |g.bb|);
      AsFewAsInUse(ScannedOps(g, |g.bb|), global, peak);
    }
    assert AssignedGlobals(st, global) == WithRegister(st.regOf, global);
  }

  // The registers of one used block, with code or without.
  function OverBlock(g: Graph, p: nat, st: Regs, global: seq<bool>): (st': Regs)
    requires p < |g.bb| && AllBelow(Ops(g, p), |global|) && Sized(st, |global|)
    ensures Sized(st', |global|)
  {
    if g.bb[p].len > 0 then RunBlock(Release(st, global, 0), Ops(g, p), global) else st
  }

  lemma OverBlockGrows(g: Graph, p: nat, st: Regs, open: set<nat>, global: seq<bool>)
    requires p < |g.bb| && AllBelow(Ops(g, p), |global|) && RegInv(st, open, global)
    ensures st.n <= OverBlock(g, p, st, global).n
  {
    if g.bb[p].len > 0 {
      var open1 := ReleaseKeeps(st, open, 0, global);
      var open2 := BlockKeeps(Release(st, global, 0), open1, Ops(g, p), global);
    }
  }

  lemma OverBlockPassed(g: Graph, p: nat, st: Regs, scan: set<nat>, global: seq<bool>) returns (scan': set<nat>)
    requires p < |g.bb| && AllBelow(Ops(g, p), |global|) && (g.bb[p].len == 0 ==> Ops(g, p) == [])
    requires ScanInv(st, scan, global) && RangesOk(Ops(g, p), global)
    ensures Passed(st, OverBlock(g, p, st, global), scan', Ops(g, p), global)
  {
    if g.bb[p].len > 0 {
      scan' := BlockPassed(st, scan, Ops(g, p), global);
    } else {
      scan' := scan;
      EmptyPassed(st, scan, global);
    }
  }

  // Behind one used block.
  lemma NextBlock(g: Graph, code: seq<Op>, subs: seq<seq<int>>, st: Regs, open: set<nat>, scan: set<nat>,
                  global: seq<bool>, p: nat, ok: bool,
                  code': seq<Op>, st': Regs, open': set<nat>, q: nat)
    returns (scan': set<nat>)
    requires Layout(g) && p < q <= |g.bb| && g.bb[p].used && AllBelow(Ops(g, p), |global|)
    requires (g.bb[p].len == 0 ==> Ops(g, p) == [])
    requires (ok ==> RangesOk(Ops(g, p), global)) && forall b: nat :: p < b < q ==> !g.bb[b].used
    requires BetweenBlocks(g, code, subs, st, open, scan, global, p, ok)
    requires RegInv(st', open', global) && st' == OverBlock(g, p, st, global)
    requires Ops(Graph(code', g.bb), p) == RenameAll(Ops(g, p), st'.regOf) && Covers(Ops(g, p), st'.regOf, st'.n)
    requires SameOutside(code, code', p, g.bb[p].len)
    ensures BetweenBlocks(g, code', subs[p := st'.regOf], st', open', scan', global, q, ok)
  {
    OthersKeepAll(g, code, code', p);
    OverBlockGrows(g, p, st, open, global);
    scan' := scan;
    if ok { scan' := OverBlockPassed(g, p, st, scan, global); }
    PassedOne(g, code, subs, st, global, p, code', st', scan', q, ok);
    OneMoreScanned(g, p, q, st, st', global);
  }

  lemma OneMoreScanned(g: Graph, p: nat, q: nat, st: Regs, st': Regs, global: seq<bool>)
    requires p < q <= |g.bb| && g.bb[p].used && AllBelow(Ops(g, p), |global|) && forall b: nat ::
               p < b < q ==> !g.bb[b].used
    requires Sized(st, |global|) && AfterBlocks(g, st, global, p) && st' == OverBlock(g, p, st, global)
    ensures AfterBlocks(g, st', global, q)
  {
    NoneScanned(g, p + 1, q);
    ScannedNext(g, p);
    if Scanned(g, p) {
      OneMoreBlock(ScannedOps(g, p), Ops(g, p), global);
    }
  }

  lemma ScannedNext(g: Graph, p: nat)
    requires p < |g.bb|
    ensures ScannedOps(g, p + 1) == if Scanned(g, p) then ScannedOps(g, p) + [Ops(g, p)] else ScannedOps(g, p)
  {
  }

  // One used block of that pass.
  method PassOver(g: Graph, code: array<Op>, a: Allocator, global: array<bool>, ghost open: set<nat>, p: nat)
    returns (ghost open': set<nat>)
    requires Layout(g) && p < |g.bb| && g.bb[p].used && code.Length == |g.code|
    requires Ops(Graph(code[..], g.bb), p) == Ops(g, p)
    requires a.Apart(global.Length) && global != a.pool && global != a.used
    requires AllBelow(Ops(g, p), global.Length) && RegInv(a.St(), open, global[..])
    modifies code, a, a.regOf, a.pool, a.used
    ensures global[..] == old(global[..]) && RegInv(a.St(), open', global[..])
    ensures a.St() == OverBlock(g, p, old(a.St()), global[..]) && (g.bb[p].len == 0 ==> Ops(g, p) == [])
    ensures Ops(Graph(code[..], g.bb), p) == RenameAll(Ops(g, p), a.St().regOf) && Covers(Ops(g, p), a.St().regOf, a.n)
    ensures SameOutside(old(code[..]), code[..], p, g.bb[p].len)
  {
    assert BlockInRange(g, p);
    var n := g.bb[p].len;
    open' := open;
    if n > 0 {
      assert code[p .. p + n] == code[..][p .. p + n];
      open' := a.Block(code, p, n, global, Ops(g, p), open);
      assert code[p .. p + n] == code[..][p .. p + n];
    } else {
      assert Ops(g, p) == [];
    }
  }

  lemma SliceBelow(g: Graph, p: nat, T: nat)
    requires AllBelow(g.code, T) && p < |g.bb|
    ensures AllBelow(Ops(g, p), T)
  {
  }

  lemma BeforeBlocks(g: Graph, subs: seq<seq<int>>, global: seq<bool>, ok: bool)
    requires |subs| == |g.bb|
    ensures BetweenBlocks(g, g.code, subs, NoRegs(|global|), {}, {}, global, 0, ok)
  {
    NoRegsKeeps(global);
  }

  lemma PassedOn(g: Graph, code: seq<Op>, subs: seq<seq<int>>, st: Regs, global: seq<bool>, p: nat, q: nat, ok: bool)
    requires PassedUpTo(g, code, subs, st, global, p, ok) && p <= q <= |g.bb| && forall b: nat ::
               p <= b < q ==> !g.bb[b].used
    ensures PassedUpTo(g, code, subs, st, global, q, ok)
  {
  }

  lemma OverUnused(g: Graph, code: seq<Op>, subs: seq<seq<int>>, st: Regs, open: set<nat>, scan: set<nat>,
                   global: seq<bool>, p: nat, ok: bool, q: nat)
    requires p < q <= |g.bb| && !g.bb[p].used && forall b: nat :: p < b < q ==> !g.bb[b].used
    requires BetweenBlocks(g, code, subs, st, open, scan, global, p, ok)
    ensures BetweenBlocks(g, code, subs, st, open, scan, global, q, ok)
  {
    NoneScanned(g, p, q);
    PassedOn(g, code, subs, st, global, p, q, ok);
  }

  lemma UnpassedCode(g: Graph, code: seq<Op>, subs: seq<seq<int>>, st: Regs, open: set<nat>, scan: set<nat>,
                     global: seq<bool>, p: nat, ok: bool)
    requires p < |g.bb| && g.bb[p].used && BetweenBlocks(g, code, subs, st, open, scan, global, p, ok)
    ensures Ops(Graph(code, g.bb), p) == Ops(g, p) && RegInv(st, open, global)
  {
  }

  // Only operands are rewritten.
  ghost predicate SameOpcodes(was: seq<Op>, now: seq<Op>) {
    |now| == |was| && forall i :: 0 <= i < |was| ==> now[i].code == was[i].code
  }

  lemma SameOpcodesAfter(g: Graph, was: seq<Op>, code: seq<Op>, code': seq<Op>, p: nat, sub: seq<int>)
    requires Layout(g) && p < |g.bb| && g.bb[p].used && SameOpcodes(was, code) && |code| == |g.code|
    requires Ops(Graph(code, g.bb), p) == Ops(g, p) && Ops(Graph(code', g.bb), p) == RenameAll(Ops(g, p), sub)
    requires SameOutside(code, code', p, g.bb[p].len)
    ensures SameOpcodes(was, code')
  {
    assert BlockInRange(g, p);
    var n := g.bb[p].len;
    forall i | 0 <= i < |was| ensures code'[i].code == was[i].code {
      if p <= i < p + n {
        assert Ops(Graph(code', g.bb), p)[i - p] == code'[i] && Ops(Graph(code, g.bb), p)[i - p] == code[i];
      }
    }
  }

  // The outer loop.
  // One used block of the loop over all blocks.
  method UsedBlock(g: Graph, code: array<Op>, a: Allocator, global: array<bool>,
                   ghost subs: seq<seq<int>>, ghost open: set<nat>, ghost scan: set<nat>, ghost ok: bool, p: nat, ghost q: nat)
    returns (ghost subs': seq<seq<int>>, ghost open': set<nat>, ghost scan': set<nat>)
    requires Layout(g) && p < q <= |g.bb| && g.bb[p].used && AllBelow(g.code, global.Length) && code.Length == |g.code|
    requires (forall b: nat :: p < b < q ==> !g.bb[b].used) && ok == AllRangesOk(g, global[..])
    requires a.Apart(global.Length) && global != a.pool && global != a.used
    requires BetweenBlocks(g, code[..], subs, a.St(), open, scan, global[..], p, ok) && SameOpcodes(g.code, code[..])
    modifies code, a, a.regOf, a.pool, a.used
    ensures global[..] == old(global[..]) && SameOpcodes(g.code, code[..])
    ensures BetweenBlocks(g, code[..], subs', a.St(), open', scan', global[..], q, ok)
  {
    ghost var code0, st, gl := code[..], a.St(), global[..];
    UnpassedCode(g, code0, subs, st, open, scan, gl, p, ok);
    SliceBelow(g, p, |gl|);
    open' := PassOver(g, code, a, global, open, p);
    scan' := NextBlock(g, code0, subs, st, open, scan, gl, p, ok, code[..], a.St(), open', q);
    SameOpcodesAfter(g, g.code, code0, code[..], p, a.St().regOf);
    subs' := subs[p := a.St().regOf];
  }

  method AllBlocks(g: Graph, code: array<Op>, a: Allocator, global: array<bool>)
    returns (ghost subs: seq<seq<int>>, ghost open: set<nat>, ghost scan: set<nat>)
    requires Layout(g) && g.bb[0].used && AllBelow(g.code, global.Length) && code[..] == g.code
    requires a.Apart(global.Length) && global != a.pool && global != a.used && a.St() == NoRegs(global.Length)
    modifies code, a, a.regOf, a.pool, a.used
    ensures global[..] == old(global[..])
    ensures BetweenBlocks(g, code[..], subs, a.St(), open, scan, global[..], |g.bb|, AllRangesOk(g, global[..]))
    ensures SameOpcodes(g.code, code[..])
  {
    ghost var gl := global[..];
    ghost var ok := AllRangesOk(g, gl);
    subs, open, scan := seq(|g.bb|, _ => []), {}, {};
    BeforeBlocks(g, subs, gl, ok);
    assert BlockInRange(g, 0);
    var p := 0;
    while p < |g.bb|
      invariant p <= |g.bb| && global[..] == gl && (p < |g.bb| ==> g.bb[p].start.Some?)
      invariant BetweenBlocks(g, code[..], subs, a.St(), open, scan, gl, p, ok) && SameOpcodes(g.code, code[..])
      decreases |g.bb| - p
    {
      assert BlockInRange(g, p);
      var q := if g.bb[p].next.Some? then g.bb[p].next.value else |g.bb|;
      SkippedUnused(g, p, q);
      if g.bb[p].used {
        subs, open, scan := UsedBlock(g, code, a, global, subs, open, scan, ok, p, q);
      } else {
        OverUnused(g, code[..], subs, a.St(), open, scan, gl, p, ok, q);
      }
      p := q;
    }
  }

  // The pass over a whole function, for any code and any marking: each block is renumbered as a whole, and the
  // new number of temporaries is at most the old one, and at most the globals that got a register plus all locals.
  // With one live range per local in each block the numbering is one that nobody can tell from the old one, and the
  // number at most the globals that got a register and the locals in use at once; `home` is where the globals end up.
  method ReassignRegisters(g: Graph, T: nat, global: array<bool>)
    returns (g': Graph, T': nat, ghost subs: seq<seq<int>>, ghost home: seq<int>)
    requires Layout(g) && g.bb[0].used && AllBelow(g.code, T) && global.Length == T
    ensures AllRenamed(g, g', subs, T') && SameOpcodes(g.code, g'.code)
    ensures T' <= T && |home| == T && ScanGives(g, global[..], home, T')
    ensures T' <= |WithRegister(home, global[..])| + |Locals(global[..])|
    ensures AllRangesOk(g, global[..]) ==> Renumbered(g, g', subs, home, global[..], T') && BelowN(home, T')
    ensures AllRangesOk(g, global[..]) ==> Frugal(g, global[..], home, T')
  {
    var code := new Op[|g.code|](i requires 0 <= i < |g.code| => g.code[i]);
    assert code[..] == g.code;
    var a := new Allocator(T);
    ghost var open, scan;
    subs, open, scan := AllBlocks(g, code, a, global);
    g' := Graph(code[..], g.bb);
    T' := a.n;
    home := a.regOf[..];
    Finished(g, code[..], subs, a.St(), open, scan, global[..], AllRangesOk(g, global[..]));
    if AllRangesOk(g, global[..]) { FewInGraph(g, a.St(), global[..]); }
  }
}
