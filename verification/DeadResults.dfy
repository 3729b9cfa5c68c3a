// What compute_live_var leaves of a block, said of its instructions alone: no result that nobody needs is left that
// could go, and nothing else has gone.
module DeadResults {
  import opened Opcodes
  import opened Graphs
  import opened LiveVars

  // Instructions that are kept for what they do, whatever becomes of their results.
  predicate Stays(c: Opcode) {
    c.Recv? || c.Effect? || c.Ask? || c.New? || c.FeFetch? || c.DeclareInherited? || c.Assign? || c.DoFcall?
  }

  // The temporary is read elsewhere, or further down in the block before it is written again.
  ghost predicate NeededBehind(ops: seq<Op>, j: nat, global: seq<bool>, r: nat)
    requires j < |ops|
  {
    (r < |global| && global[r]) || Exposed(ops[j + 1..], r)
  }

  // Instruction j has no result that nobody needs, unless it is one that stays; a VAR that stays is marked unused.
  ghost predicate NoDeadAt(ops: seq<Op>, global: seq<bool>, j: nat)
    requires j < |ops|
  {
    Defines(ops[j]) && !NeededBehind(ops, j, global, ops[j].res.n) ==>
      Stays(ops[j].code) && ((ops[j].code.Assign? || ops[j].code.DoFcall?) ==> ops[j].res.Tmp?)
  }

  // A VAR that is marked unused is not read further down.
  ghost predicate UnusedAt(ops: seq<Op>, j: nat)
    requires j < |ops|
  {
    ops[j].res.Var? && ops[j].resUnused && !ops[j].code.Recv? ==> !Exposed(ops[j + 1..], ops[j].res.n)
  }

  // op' is what is left of op: the same, but for a result that nobody needs and a mark that is wrong.
  ghost predicate LeftOf(op: Op, op': Op, needed: bool) {
    || op' == op
    || (needed && op.res.Var? && op.resUnused && op' == op.(resUnused := false))
    || (!needed && Defines(op) &&
        if Stays(op.code) then (op.code.Assign? || op.code.DoFcall?) && op.res.Var? && op' == op.(resUnused := true)
        else if op.code.JmpzEx? then op' == op.(code := Jmpz, res := Unused)
        else if op.code.JmpnzEx? then op' == op.(code := Jmpnz, res := Unused)
        else if op.code.Unset? then op' == op.(res := Unused)
        else op'.code.Nop?)
  }

  ghost predicate Trimmed(ops: seq<Op>, ops': seq<Op>, global: seq<bool>) {
    && |ops'| == |ops|
    && forall j: nat {:trigger TrimmedAt(ops, ops', global, j)} :: j < |ops| ==> TrimmedAt(ops, ops', global, j)
  }

  ghost predicate TrimmedAt(ops: seq<Op>, ops': seq<Op>, global: seq<bool>, j: nat)
    requires j < |ops| == |ops'|
  {
    && NoDeadAt(ops', global, j) && UnusedAt(ops', j)
    && LeftOf(ops[j], ops'[j], Slot(ops[j].res) && NeededBehind(ops', j, global, ops[j].res.n))
  }

  // ----- the backward pass knows what is needed -----

  lemma ExposedFirst(ops: seq<Op>, r: nat)
    requires ops != []
    ensures Exposed(ops, r) <==> NeedsBefore(ops[0], r) || (Exposed(ops[1..], r) && !DefinesSlot(ops[0], r))
  {
    if NeedsBefore(ops[0], r) {
      assert !WrittenBefore(ops, 0, r);
    } else if Exposed(ops, r) {
      var i :| 0 <= i < |ops| && NeedsBefore(ops[i], r) && !WrittenBefore(ops, i, r);
      ExposedTail(ops, i, r);
    } else if Exposed(ops[1..], r) && !DefinesSlot(ops[0], r) {
      ExposedLater(ops, r);
    }
  }

  lemma ExposedTail(ops: seq<Op>, i: nat, r: nat)
    requires 0 < i < |ops| && NeedsBefore(ops[i], r) && !WrittenBefore(ops, i, r)
    ensures Exposed(ops[1..], r) && !DefinesSlot(ops[0], r)
  {
    assert !DefinesSlot(ops[0], r);
    assert NeedsBefore(ops[1..][i - 1], r);
    forall j | 0 <= j < i - 1 ensures !DefinesSlot(ops[1..][j], r) { assert !DefinesSlot(ops[j + 1], r); }
  }

  // What the pass takes to be in use is what the cleaned code reads before it writes it.
  lemma {:induction false} LiveExactly(ops: seq<Op>, global: seq<bool>, r: nat)
    ensures r in Clean(ops, global).1 <==> Exposed(Clean(ops, global).0, r)
    decreases |ops|
  {
    if ops != [] {
      var (rest, live) := Clean(ops[1..], global);
      var op := CleanOp(ops[0], global, live);
      LiveExactly(ops[1..], global, r);
      ExposedFirst([op] + rest, r);
      assert ([op] + rest)[1..] == rest;
    }
  }

  lemma {:induction false} CleanTail(ops: seq<Op>, global: seq<bool>, j: nat)
    requires j < |ops|
    ensures Clean(ops, global).0[j] == CleanOp(ops[j], global, Clean(ops[j + 1..], global).1)
    ensures Clean(ops, global).0[j + 1..] == Clean(ops[j + 1..], global).0
    decreases j
  {
    var (rest, live) := Clean(ops[1..], global);
    assert Clean(ops, global).0[1..] == rest;
    if j > 0 {
      CleanTail(ops[1..], global, j - 1);
      assert ops[1..][j..] == ops[j + 1..] && Clean(ops, global).0[j + 1..] == rest[j..];
    }
  }

  // One instruction, when what is in use behind it is known.
  lemma OneTrimmed(op: Op, global: seq<bool>, live: set<nat>)
    ensures var op', r := CleanOp(op, global, live), op.res;
            var needed := Slot(r) && ((r.n < |global| && global[r.n]) || r.n in live);
            && LeftOf(op, op', needed)
            && (Defines(op') && !needed ==>
                  Stays(op'.code) && ((op'.code.Assign? || op'.code.DoFcall?) ==> op'.res.Tmp?))
            && (op'.res.Var? && op'.resUnused && !op'.code.Recv? ==> op'.res.n !in live)
            && (Slot(op'.res) ==> op'.res == op.res)
  {
  }

  lemma CleanTrims(ops: seq<Op>, global: seq<bool>)
    ensures Trimmed(ops, Clean(ops, global).0, global)
  {
    var ops' := Clean(ops, global).0;
    forall j: nat {:trigger TrimmedAt(ops, ops', global, j)} | j < |ops| ensures TrimmedAt(ops, ops', global, j) {
      var live := Clean(ops[j + 1..], global).1;
      CleanTail(ops, global, j);
      if Slot(ops[j].res) { LiveExactly(ops[j + 1..], global, ops[j].res.n); }
      OneTrimmed(ops[j], global, live);
    }
  }

  // The whole graph: every block is trimmed, and nothing but instructions has changed.
  ghost predicate AllTrimmed(g: Graph, g': Graph, global: seq<bool>) {
    && g'.bb == g.bb
    && forall b: nat {:trigger Ops(g', b)} :: b < |g.bb| ==> Trimmed(Ops(g, b), Ops(g', b), global)
  }

  lemma CleanedTrims(g: Graph, g': Graph, global: seq<bool>)
    requires CleanedAll(g, g', global)
    ensures AllTrimmed(g, g', global)
  {
    forall b: nat {:trigger Ops(g', b)} | b < |g.bb| ensures Trimmed(Ops(g, b), Ops(g', b), global) {
      CleanTrims(Ops(g, b), global);
    }
  }
}
