// compute_live_var on a function that is one block jumping back to its own start: exactly when it is right.
//
// Such a function is the only one for which the pass marks nothing as living across blocks although a block
// does run after the block.
module LiveLoops {
  import opened Options
  import opened Opcodes
  import opened Graphs
  import opened Preds
  import opened Rewrites
  import opened LiveVars
  import opened DeadResults

  // ----- what a round of the loop needs -----

  // The temporaries whose values the instruction reads.
  function ReadSet(op: Op): (s: set<nat>) {
    (if Slot(op.op1) then {op.op1.n} else {}) + (if Slot(op.op2) then {op.op2.n} else {})
    + (if op.code.DeclareInherited? then {op.ext} else {})
    + (if op.code.AddArrayElement? && Slot(op.res) then {op.res.n} else {})
  }

  // Instructions that do nothing but make their result.
  predicate Derives(c: Opcode) {
    Computes(c) || c.Bool? || c.Test? || c.JmpzEx? || c.JmpnzEx?
  }

  // Instructions that are observed.
  predicate Shows(c: Opcode) {
    !Derives(c) && !c.Nop? && !c.Jmp? && !c.Jmpz? && !c.Jmpnz? && !c.Jmpznz?
  }

  // The temporaries that matter before op when those in `after` matter behind it.
  function Before1(op: Op, after: set<nat>): set<nat> {
    var kept := if Slot(op.res) then after - {op.res.n} else after;
    if Shows(op.code) || (Derives(op.code) && Slot(op.res) && op.res.n in after) then kept + ReadSet(op) else kept
  }

  // The temporaries whose values before the block are shown by it or end up in those in `out`.
  function Reaching(ops: seq<Op>, out: set<nat>): set<nat> {
    if ops == [] then out else Before1(ops[0], Reaching(ops[1..], out))
  }

  // The temporaries whose values before the block are shown within k rounds.
  function Needed(ops: seq<Op>, k: nat): set<nat> {
    if k == 0 then {} else Reaching(ops, Needed(ops, k - 1))
  }

  predicate Writes(op: Op, r: nat) {
    Slot(op.res) && op.res.n == r
  }

  ghost predicate LastWrite(ops: seq<Op>, i: nat, r: nat) {
    i < |ops| && Writes(ops[i], r) && forall j :: i < j < |ops| ==> !Writes(ops[j], r)
  }

  // The cleaned block still makes the value that r has at its end.
  ghost predicate KeepsLast(ops: seq<Op>, r: nat) {
    forall i: nat :: LastWrite(ops, i, r) ==> Writes(Clean(ops, []).0[i], r)
  }

  // Every temporary that some round needs keeps its last definition.
  ghost predicate RoundsKept(ops: seq<Op>) {
    forall k: nat, r: nat :: r in Needed(ops, k) ==> KeepsLast(ops, r)
  }

  // A block that ends in a jump to its own start and in nothing else.
  ghost predicate Circles(ops: seq<Op>, blk: Block) {
    && ops != [] && TypedOps(ops)
    && (forall i :: 0 <= i < |ops| - 1 ==> !Control(ops[i].code))
    && (forall i :: 0 <= i < |ops| ==> !Stops(ops[i].code))
    && var c := ops[|ops| - 1].code;
       if c.Jmp? then blk.jmp1 == Some(0) else c.Jmpznz? && blk.jmp2 == Some(0) && blk.ext == Some(0)
  }

  predicate TypedOps(ops: seq<Op>) {
    forall i :: 0 <= i < |ops| ==> WellTyped(ops[i])
  }

  lemma CirclesRest(ops: seq<Op>, blk: Block)
    requires Circles(ops, blk) && |ops| > 1
    ensures Circles(ops[1..], blk) && !Control(ops[0].code) && !Stops(ops[0].code) && WellTyped(ops[0])
  {
    assert ops[1..][|ops| - 2] == ops[|ops| - 1];
  }

  // ----- the condition is enough -----

  // KeepsLast, for the end of a block.
  ghost predicate KeepsAll(ops: seq<Op>, out: set<nat>) {
    forall r: nat :: r in out ==> KeepsLast(ops, r)
  }

  lemma KeepsRest(ops: seq<Op>, out: set<nat>)
    requires ops != [] && KeepsAll(ops, out)
    ensures KeepsAll(ops[1..], out)
  {
    var rest := ops[1..];
    forall r: nat, i: nat | r in out && LastWrite(rest, i, r) ensures Writes(Clean(rest, []).0[i], r) {
      forall j | i + 1 < j < |ops| ensures !Writes(ops[j], r) { assert ops[j] == rest[j - 1]; }
      assert LastWrite(ops, i + 1, r);
      assert Clean(ops, []).0[i + 1] == Clean(rest, []).0[i];
    }
  }

  ghost predicate WrittenIn(ops: seq<Op>, r: nat) {
    exists j :: 0 <= j < |ops| && Writes(ops[j], r)
  }

  lemma LastIsFirst(ops: seq<Op>, r: nat)
    requires ops != [] && Writes(ops[0], r) && !WrittenIn(ops[1..], r) && KeepsLast(ops, r)
    ensures Writes(Clean(ops, []).0[0], r)
  {
    forall j | 0 < j < |ops| ensures !Writes(ops[j], r) { assert ops[j] == ops[1..][j - 1]; }
    assert LastWrite(ops, 0, r);
  }

  // What the rest of the loop needs from before, the cleaned rest knows to be live, or the rest leaves it alone.
  lemma {:induction false} ReachingIsLive(ops: seq<Op>, blk: Block, out: set<nat>, x: nat)
    requires Circles(ops, blk) && KeepsAll(ops, out) && x in Reaching(ops, out)
    ensures x in Clean(ops, []).1 || (x in out && !WrittenIn(ops, x))
    decreases |ops|
  {
    var op, rest := ops[0], ops[1..];
    var (_, live) := Clean(rest, []);
    var after := Reaching(rest, out);
    KeepsRest(ops, out);
    assert Clean(ops, []).0[0] == CleanOp(op, [], live);
    if x in after && !Writes(op, x) {
      if |ops| > 1 {
        CirclesRest(ops, blk);
        ReachingIsLive(rest, blk, out, x);
      } else {
        assert rest == [];
      }
      NotWritten(ops, x);
    } else {
      if Derives(op.code) {
        assert |ops| > 1;
        CirclesRest(ops, blk);
        ReachingIsLive(rest, blk, out, op.res.n);
        if op.res.n !in live { LastIsFirst(ops, op.res.n); }
      } else if |ops| > 1 {
        CirclesRest(ops, blk);
      }
      StaysRead(op, live, x);
    }
  }

  lemma NotWritten(ops: seq<Op>, x: nat)
    requires ops != [] && !Writes(ops[0], x)
    ensures WrittenIn(ops, x) <==> WrittenIn(ops[1..], x)
  {
    if WrittenIn(ops, x) {
      var j :| 0 <= j < |ops| && Writes(ops[j], x);
      assert ops[1..][j - 1] == ops[j];
    }
    if WrittenIn(ops[1..], x) {
      var j :| 0 <= j < |ops[1..]| && Writes(ops[1..][j], x);
      assert ops[j + 1] == ops[1..][j];
    }
  }

  // An instruction that shows, or whose result stays, still reads what it read.
  lemma StaysRead(op: Op, live: set<nat>, x: nat)
    requires WellTyped(op) && !Stops(op.code) && x in ReadSet(op)
    requires (Shows(op.code) && !Control(op.code))
             || (Derives(op.code) && Slot(op.res) && (op.res.n in live || Writes(CleanOp(op, [], live), op.res.n)))
    ensures x in LiveBefore(CleanOp(op, [], live), live)
  {
  }

  // The same instruction, up to the unused mark; or its result is gone.
  lemma CleanedForms(op: Op, live: set<nat>)
    ensures var op' := CleanOp(op, [], live);
            || op'.(resUnused := op.resUnused) == op
            || (Defines(op) && op.res.n !in live && op'.res == Unused)
  {
  }

  lemma SlotsAgree(op: Op, s: State, s': State, after: set<nat>)
    requires Agree(s, s', [], after + ReadSet(op))
    ensures Value(op.op1, s.tm) == Value(op.op1, s'.tm) && Value(op.op2, s.tm) == Value(op.op2, s'.tm)
    ensures Extra(op, s.tm) == Extra(op, s'.tm)
  {
    assert Slot(op.op1) ==> Matters([], after + ReadSet(op), op.op1.n);
    assert Slot(op.op2) ==> Matters([], after + ReadSet(op), op.op2.n);
    assert op.code.DeclareInherited? ==> Matters([], after + ReadSet(op), op.ext);
    assert op.code.AddArrayElement? && Slot(op.res) ==> Matters([], after + ReadSet(op), op.res.n);
  }

  // One instruction and the same one cleaned, in states that agree on what matters.
  lemma OpRound(w: World, op: Op, op': Op, s: State, s': State, after: set<nat>)
    requires WellTyped(op) && !Control(op.code) && !Stops(op.code) && Agree(s, s', [], Before1(op, after))
    requires op'.(resUnused := op.resUnused) == op
             || (Slot(op.res) && op.res.n !in after && op'.res == Unused
                 && (op' == SetToNop(op) || op' == op.(res := Unused)))
    requires op' == SetToNop(op) && !op.code.Nop? ==> Derives(op.code)
    ensures var (d, t) := Exec(w, op, s); var (d', t') := Exec(w, op', s');
            d.Next? && d'.Next? && Agree(t, t', [], after)
  {
    var kept := if Slot(op.res) then after - {op.res.n} else after;
    assert Agree(s, s', [], kept) by {
      assert forall r: nat :: Matters([], kept, r) ==> Matters([], Before1(op, after), r);
    }
    if Shows(op.code) || (Derives(op.code) && Slot(op.res) && op.res.n in after) {
      assert Before1(op, after) == kept + ReadSet(op);
      SlotsAgree(op, s, s', kept);
    }
    AgreeBehind(w, op, op', s, s', kept, after);
  }

  lemma AgreeBehind(w: World, op: Op, op': Op, s: State, s': State, kept: set<nat>, after: set<nat>)
    requires WellTyped(op) && !Control(op.code) && !Stops(op.code) && Agree(s, s', [], kept)
    requires kept == if Slot(op.res) then after - {op.res.n} else after
    requires op'.(resUnused := op.resUnused) == op
             || (Slot(op.res) && op.res.n !in after && op'.res == Unused
                 && (op' == SetToNop(op) || op' == op.(res := Unused)))
    requires op' == SetToNop(op) && !op.code.Nop? ==> Derives(op.code)
    requires Shows(op.code) || (Derives(op.code) && Slot(op.res) && op.res.n in after) ==>
               && Value(op.op1, s.tm) == Value(op.op1, s'.tm) && Value(op.op2, s.tm) == Value(op.op2, s'.tm)
               && Extra(op, s.tm) == Extra(op, s'.tm)
    ensures var (d, t) := Exec(w, op, s); var (d', t') := Exec(w, op', s');
            d.Next? && d'.Next? && Agree(t, t', [], after)
  {
    var (d, t) := Exec(w, op, s); var (d', t') := Exec(w, op', s');
    assert t.tr == t'.tr;
    forall r: nat | r < |t.tm| && Matters([], after, r) ensures t.tm[r] == t'.tm[r] {
      if !Writes(op, r) { assert Matters([], kept, r); }
    }
  }

  // The jump at the end, cleaned, is itself.
  lemma JumpBack(w: World, ops: seq<Op>, blk: Block, s: State)
    requires Circles(ops, blk) && |ops| == 1
    ensures ExecOps(w, ops, blk, s) == Running(0, s) && Clean(ops, []).0 == ops
  {
    assert Clean(ops[1..], []) == ([], {});
  }

  lemma JumpReaching(ops: seq<Op>, blk: Block, out: set<nat>)
    requires Circles(ops, blk) && |ops| == 1
    ensures Reaching(ops, out) == out
  {
    assert ops[1..] == [];
  }

  // One round of the block and of the cleaned block.
  lemma {:induction false} RoundSim(w: World, ops: seq<Op>, blk: Block, s: State, s': State, out: set<nat>)
    returns (t: State, t': State)
    requires Circles(ops, blk) && KeepsAll(ops, out) && Agree(s, s', [], Reaching(ops, out))
    ensures ExecOps(w, ops, blk, s) == Running(0, t) && ExecOps(w, Clean(ops, []).0, blk, s') == Running(0, t')
    ensures Agree(t, t', [], out)
    decreases |ops|
  {
    var op, rest := ops[0], ops[1..];
    if |ops| == 1 {
      JumpBack(w, ops, blk, s);
      JumpBack(w, ops, blk, s');
      JumpReaching(ops, blk, out);
      t, t' := s, s';
    } else {
      CirclesRest(ops, blk);
      KeepsRest(ops, out);
      var (cleaned, live) := Clean(rest, []);
      var op', after := CleanOp(op, [], live), Reaching(rest, out);
      assert Clean(ops, []).0 == [op'] + cleaned && ([op'] + cleaned)[1..] == cleaned;
      GoneIsUnneeded(ops, blk, out, op', live, after);
      OpRound(w, op, op', s, s', after);
      var (d, s1) := Exec(w, op, s); var (d', s1') := Exec(w, op', s');
      t, t' := RoundSim(w, rest, blk, s1, s1', out);
    }
  }

  // What was removed is needed neither in this round nor behind it.
  lemma GoneIsUnneeded(ops: seq<Op>, blk: Block, out: set<nat>, op': Op, live: set<nat>, after: set<nat>)
    requires Circles(ops, blk) && |ops| > 1 && KeepsAll(ops, out)
    requires live == Clean(ops[1..], []).1 && op' == CleanOp(ops[0], [], live) && after == Reaching(ops[1..], out)
    ensures var op := ops[0];
            && (op'.(resUnused := op.resUnused) == op
                || (Slot(op.res) && op.res.n !in after && op'.res == Unused
                    && (op' == SetToNop(op) || op' == op.(res := Unused))))
            && (op' == SetToNop(op) && !op.code.Nop? ==> Derives(op.code))
  {
    var op := ops[0];
    CirclesRest(ops, blk);
    CleanedForms(op, live);
    assert Clean(ops, []).0[0] == op';
    if op'.(resUnused := op.resUnused) != op && op.res.n in after {
      KeepsRest(ops, out);
      ReachingIsLive(ops[1..], blk, out, op.res.n);
      LastIsFirst(ops, op.res.n);
    }
  }

  lemma ReachingMore(ops: seq<Op>, k: nat)
    ensures Needed(ops, k + 1) == Reaching(ops, Needed(ops, k))
  {
  }

  // A graph that is one block going round and round.
  ghost predicate OneLoop(g: Graph) {
    |g.bb| > 0 && Circles(Ops(g, 0), g.bb[0])
  }

  ghost predicate CleanedLoop(g: Graph, g': Graph) {
    |g.bb| > 0 && g'.bb == g.bb && Ops(g', 0) == Clean(Ops(g, 0), []).0
  }

  // n rounds, if the states agree on what n rounds need.
  lemma {:induction false} RoundsAgree(w: World, g: Graph, g': Graph, s: State, s': State, n: nat)
    requires OneLoop(g) && CleanedLoop(g, g') && RoundsKept(Ops(g, 0)) && Agree(s, s', [], Needed(Ops(g, 0), n))
    ensures var c, c' := Run(w, g, Running(0, s), n), Run(w, g', Running(0, s'), n);
            c.Running? && c'.Running? && Trace(c) == Trace(c')
    decreases n
  {
    if n > 0 {
      var ops := Ops(g, 0);
      ReachingMore(ops, n - 1);
      var t, t' := RoundSim(w, ops, g.bb[0], s, s', Needed(ops, n - 1));
      RoundsAgree(w, g, g', t, t', n - 1);
    }
  }

  lemma KeptIsSame(g: Graph, g': Graph, T: nat, bools: set<nat>)
    requires OneLoop(g) && CleanedLoop(g, g') && RoundsKept(Ops(g, 0))
    ensures SameBehaviour(g, g', T, bools)
  {
    forall w: World ensures Equivalent(w, g, g', T, bools) {
      forall s, n: nat | StateOk(s, T, bools)
        ensures Reaches(w, g', Running(0, s), Run(w, g, Running(0, s), n))
        ensures Reaches(w, g, Running(0, s), Run(w, g', Running(0, s), n))
      {
        RoundsAgree(w, g, g', s, s, n);
        assert Leq(Run(w, g, Running(0, s), n), Run(w, g', Running(0, s), n));
        assert Leq(Run(w, g', Running(0, s), n), Run(w, g, Running(0, s), n));
      }
    }
  }

  // ----- and it is needed -----

  // The instruction's opcode names it: no other one of the block makes a result with it.
  ghost predicate Told(ops: seq<Op>, i: nat) {
    i < |ops| && forall j :: 0 <= j < |ops| && j != i && Slot(ops[j].res) ==> ops[j].code != ops[i].code
  }

  ghost predicate NoBool(ops: seq<Op>) {
    forall i :: 0 <= i < |ops| ==> !ops[i].code.Bool? && !ops[i].code.Test?
  }

  // No two instructions of the block that could be removed have the same opcode, and none makes a Boolean.
  ghost predicate Telling(ops: seq<Op>) {
    && NoBool(ops)
    && forall i: nat :: i < |ops| && Slot(ops[i].res) && (Computes(ops[i].code) || ops[i].code.Unset?) ==> Told(ops, i)
  }

  // A value above all constants of the block.
  function Rare(ops: seq<Op>): (k: int)
    ensures k > 1
  {
    if ops == [] then 2
    else Max(Rare(ops[1..]), Max(Literal(ops[0].op1), Max(Literal(ops[0].op2), Literal(ops[0].res))) + 1)
  }

  function Literal(o: Operand): int {
    if o.Const? then o.value else 0
  }

  function Max(a: int, b: int): int {
    if a < b then b else a
  }

  // A world in which opcode c makes k, a computation makes k out of k, and nothing else makes k.
  ghost predicate Dyeing(w: World, c: Opcode, k: int) {
    && (forall e: seq<Event> :: w.result(e) == if |e| > 0 && e[|e| - 1].code == c then k else 0)
    && (forall c': Opcode, v1: int, v2: int, v3: int ::
          w.pure(c', v1, v2, v3) == if c' == c || v1 == k || v2 == k || v3 == k then k else 0)
  }

  predicate Dyed(e: Event, k: int) {
    e.v1 == k || e.v2 == k || e.v3 == k
  }

  predicate AnyDyed(tr: seq<Event>, k: int) {
    exists e :: e in tr && Dyed(e, k)
  }

  lemma DyedStays(tr: seq<Event>, tr': seq<Event>, k: int)
    requires AnyDyed(tr, k) && tr <= tr'
    ensures AnyDyed(tr', k)
  {
    var e :| e in tr && Dyed(e, k);
    var i :| 0 <= i < |tr| && tr[i] == e;
    assert tr'[i] == e;
  }

  lemma {:induction false} LoopRuns(w: World, ops: seq<Op>, blk: Block, s: State) returns (t: State)
    requires Circles(ops, blk)
    ensures ExecOps(w, ops, blk, s) == Running(0, t) && |t.tm| == |s.tm| && s.tr <= t.tr
    decreases |ops|
  {
    if |ops| == 1 {
      JumpBack(w, ops, blk, s);
      t := s;
    } else {
      CirclesRest(ops, blk);
      ExecShows(w, ops[0], s);
      t := LoopRuns(w, ops[1..], blk, Exec(w, ops[0], s).1);
    }
  }

  // The dye in a temporary that reaches a round's end or an observation.
  // One instruction: the dye is seen, or is in a temporary that the rest needs.
  lemma DyeStep(w: World, c: Opcode, k: int, ops: seq<Op>, blk: Block, s: State, out: set<nat>, r: nat) returns (q: nat)
    requires Dyeing(w, c, k) && Circles(ops, blk) && |ops| > 1 && NoBool(ops)
    requires r in Reaching(ops, out) && r < |s.tm| && s.tm[r] == k && AllBelow(ops, |s.tm|)
    ensures var t1 := Exec(w, ops[0], s).1; AnyDyed(t1.tr, k) || (q in Reaching(ops[1..], out) && q < |t1.tm| && t1.tm[q] == k)
  {
    CirclesRest(ops, blk);
    var op := ops[0];
    if r in Reaching(ops[1..], out) && !Writes(op, r) {
      q := r;
    } else {
      ReadIsDyed(op, s, r, k);
      q := if Slot(op.res) then op.res.n else 0;
      if Shows(op.code) { DyeShows(w, c, k, op, s, Exec(w, op, s).1); }
    }
  }

  lemma {:induction false} DyeSpreads(w: World, c: Opcode, k: int, ops: seq<Op>, blk: Block, s: State, out: set<nat>,
                                      r: nat, t: State)
    requires Dyeing(w, c, k) && Circles(ops, blk) && NoBool(ops)
    requires r in Reaching(ops, out) && r < |s.tm| && s.tm[r] == k && AllBelow(ops, |s.tm|)
    requires ExecOps(w, ops, blk, s) == Running(0, t)
    ensures AnyDyed(t.tr, k) || exists q: nat :: q in out && q < |t.tm| && t.tm[q] == k
    decreases |ops|
  {
    if |ops| == 1 {
      JumpBack(w, ops, blk, s);
      JumpReaching(ops, blk, out);
    } else {
      CirclesRest(ops, blk);
      var rest, t1 := ops[1..], Exec(w, ops[0], s).1;
      assert AllBelow(rest, |s.tm|);
      var q := DyeStep(w, c, k, ops, blk, s, out, r);
      if AnyDyed(t1.tr, k) {
        var t2 := LoopRuns(w, rest, blk, t1);
        DyedStays(t1.tr, t.tr, k);
      } else {
        DyeSpreads(w, c, k, rest, blk, t1, out, q, t);
      }
    }
  }

  lemma ReadIsDyed(op: Op, s: State, r: nat, k: int)
    requires r in ReadSet(op) && r < |s.tm| && s.tm[r] == k
    ensures Value(op.op1, s.tm) == k || Value(op.op2, s.tm) == k || Extra(op, s.tm) == k
  {
  }

  lemma DyeShows(w: World, c: Opcode, k: int, op: Op, s: State, t: State)
    requires Dyeing(w, c, k) && Shows(op.code) && t == Exec(w, op, s).1
    requires Value(op.op1, s.tm) == k || Value(op.op2, s.tm) == k || Extra(op, s.tm) == k
    ensures AnyDyed(t.tr, k)
  {
    var e := Event(op.code, Value(op.op1, s.tm), Value(op.op2, s.tm), Extra(op, s.tm));
    assert Dyed(e, k) && t.tr == s.tr + [e];
    assert e in t.tr;
  }

  lemma OneRound(w: World, g: Graph, s: State, n: nat) returns (t: State)
    requires OneLoop(g) && n > 0
    ensures ExecOps(w, Ops(g, 0), g.bb[0], s) == Running(0, t) && |t.tm| == |s.tm|
    ensures Run(w, g, Running(0, s), n) == Run(w, g, Running(0, t), n - 1)
    ensures t.tr <= Trace(Run(w, g, Running(0, s), n))
  {
    t := LoopRuns(w, Ops(g, 0), g.bb[0], s);
    RunShows(w, g, Running(0, t), n - 1);
  }

  // After one round either it has been shown or the rest of the rounds need where it is now.
  // n rounds from s on show a dyed value.
  ghost predicate DyedAfter(w: World, g: Graph, s: State, n: nat, k: int) {
    AnyDyed(Trace(Run(w, g, Running(0, s), n)), k)
  }

  lemma DyeRound(w: World, c: Opcode, k: int, g: Graph, s: State, n: nat, r: nat) returns (t: State, q: nat)
    requires Dyeing(w, c, k) && OneLoop(g) && AllBelow(Ops(g, 0), |s.tm|) && NoBool(Ops(g, 0)) && n > 0
    requires r in Needed(Ops(g, 0), n) && r < |s.tm| && s.tm[r] == k
    ensures |t.tm| == |s.tm| && (DyedAfter(w, g, t, n - 1, k) ==> DyedAfter(w, g, s, n, k))
    ensures DyedAfter(w, g, s, n, k) || (q in Needed(Ops(g, 0), n - 1) && q < |t.tm| && t.tm[q] == k)
  {
    var out := Needed(Ops(g, 0), n - 1);
    t := OneRound(w, g, s, n);
    q := 0;
    DyeSpreads(w, c, k, Ops(g, 0), g.bb[0], s, out, r, t);
    if AnyDyed(t.tr, k) {
      DyedStays(t.tr, Trace(Run(w, g, Running(0, s), n)), k);
    } else {
      q :| q in out && q < |t.tm| && t.tm[q] == k;
    }
  }

  // Over n rounds.
  lemma {:induction false} DyeAppears(w: World, c: Opcode, k: int, g: Graph, s: State, n: nat, r: nat)
    requires Dyeing(w, c, k) && OneLoop(g) && AllBelow(Ops(g, 0), |s.tm|) && NoBool(Ops(g, 0))
    requires r in Needed(Ops(g, 0), n) && r < |s.tm| && s.tm[r] == k
    ensures DyedAfter(w, g, s, n, k)
    decreases n
  {
    var t, q := DyeRound(w, c, k, g, s, n, r);
    if !DyedAfter(w, g, s, n, k) {
      DyeAppears(w, c, k, g, t, n - 1, q);
    }
  }

  // The last definition of r, carried out, dyes it.
  lemma {:induction false} LastWriteDyes(w: World, k: int, ops: seq<Op>, blk: Block, s: State, i: nat, r: nat, t: State)
    requires i < |ops| && Dyeing(w, ops[i].code, k) && Circles(ops, blk) && LastWrite(ops, i, r)
    requires (Computes(ops[i].code) || ops[i].code.Unset?) && r < |s.tm|
    requires ExecOps(w, ops, blk, s) == Running(0, t)
    ensures r < |t.tm| && t.tm[r] == k
    decreases |ops|
  {
    assert |ops| > 1;
    CirclesRest(ops, blk);
    var rest, t1 := ops[1..], Exec(w, ops[0], s).1;
    assert forall j :: 0 <= j < |rest| ==> rest[j] == ops[j + 1];
    if i == 0 {
      assert t1.tm[r] == k;
      UnwrittenStays(w, rest, blk, t1, r, t);
    } else {
      LastWriteDyes(w, k, rest, blk, t1, i - 1, r, t);
    }
  }

  lemma {:induction false} UnwrittenStays(w: World, ops: seq<Op>, blk: Block, s: State, r: nat, t: State)
    requires Circles(ops, blk) && (forall j :: 0 <= j < |ops| ==> !Writes(ops[j], r)) && r < |s.tm|
    requires ExecOps(w, ops, blk, s) == Running(0, t)
    ensures r < |t.tm| && t.tm[r] == s.tm[r]
    decreases |ops|
  {
    if |ops| == 1 {
      JumpBack(w, ops, blk, s);
    } else {
      CirclesRest(ops, blk);
      UnwrittenStays(w, ops[1..], blk, Exec(w, ops[0], s).1, r, t);
    }
  }

  ghost predicate Plain(s: State, k: int) {
    k !in s.tm && !AnyDyed(s.tr, k)
  }

  predicate NoLiteral(op: Op, k: int) {
    Literal(op.op1) != k && Literal(op.op2) != k && Literal(op.res) != k
  }

  // Without an instruction that makes the dye there is none.
  lemma OpStaysPlain(w: World, c: Opcode, k: int, op: Op, s: State)
    requires Dyeing(w, c, k) && k > 1 && Plain(s, k) && NoLiteral(op, k) && (Slot(op.res) ==> op.code != c)
    ensures Plain(Exec(w, op, s).1, k)
  {
    var t := Exec(w, op, s).1;
    assert Value(op.op1, s.tm) != k && Value(op.op2, s.tm) != k && Extra(op, s.tm) != k;
    forall e | e in t.tr ensures !Dyed(e, k) {
      assert e in s.tr || e == Event(op.code, Value(op.op1, s.tm), Value(op.op2, s.tm), Extra(op, s.tm));
    }
  }

  lemma {:induction false} OpsStayPlain(w: World, c: Opcode, k: int, ops: seq<Op>, blk: Block, s: State)
    requires Dyeing(w, c, k) && k > 1 && Plain(s, k)
    requires forall i :: 0 <= i < |ops| ==> NoLiteral(ops[i], k) && (Slot(ops[i].res) ==> ops[i].code != c)
    ensures var c' := ExecOps(w, ops, blk, s); !AnyDyed(Trace(c'), k) && (c'.Running? ==> Plain(c'.s, k))
    decreases |ops|
  {
    if ops != [] {
      OpStaysPlain(w, c, k, ops[0], s);
      OpsStayPlain(w, c, k, ops[1..], blk, Exec(w, ops[0], s).1);
    }
  }

  lemma {:induction false} RunStaysPlain(w: World, c: Opcode, k: int, g: Graph, cf: Config, n: nat)
    requires Dyeing(w, c, k) && k > 1 && |g.bb| > 0 && !AnyDyed(Trace(cf), k)
    requires (cf.Running? ==> cf.b == 0 && Plain(cf.s, k))
    requires forall i ::
               0 <= i < |Ops(g, 0)| ==>
                 NoLiteral(Ops(g, 0)[i], k) && (Slot(Ops(g, 0)[i].res) ==> Ops(g, 0)[i].code != c)
    requires forall t: nat :: HasEdge(g.bb[0], t) ==> t == 0
    ensures !AnyDyed(Trace(Run(w, g, cf, n)), k)
    decreases n
  {
    if n > 0 {
      if cf.Running? { OpsStayPlain(w, c, k, Ops(g, 0), g.bb[0], cf.s); }
      RunStaysPlain(w, c, k, g, Step(w, g, cf), n - 1);
    }
  }

  function Dye(c: Opcode, k: int): (w: World)
    ensures Dyeing(w, c, k)
  {
    World((e: seq<Event>) => if |e| > 0 && e[|e| - 1].code == c then k else 0, _ => false,
          (c', v1, v2, v3) => if c' == c || v1 == k || v2 == k || v3 == k then k else 0)
  }

  lemma {:induction false} RareIsRare(ops: seq<Op>, j: nat)
    requires j < |ops|
    ensures NoLiteral(ops[j], Rare(ops)) && Literal(ops[j].op1) < Rare(ops) && Literal(ops[j].op2) < Rare(ops)
    ensures Literal(ops[j].res) < Rare(ops)
    decreases |ops|
  {
    if j > 0 { RareIsRare(ops[1..], j - 1); }
  }

  lemma CleanOpFacts(op: Op, live: set<nat>, k: int)
    requires NoLiteral(op, k) && k > 1
    ensures var op' := CleanOp(op, [], live); NoLiteral(op', k) && (Slot(op'.res) ==> op'.res == op.res && op'.code == op.code)
  {
  }

  // The cleaned block has no instruction left that makes the dye.
  lemma CleanedIsPlain(ops: seq<Op>, i: nat, r: nat, j: nat, op': Op)
    requires Told(ops, i) && Writes(ops[i], r) && !Writes(Clean(ops, []).0[i], r) && j < |ops|
    requires op' == Clean(ops, []).0[j]
    ensures NoLiteral(op', Rare(ops)) && (Slot(op'.res) ==> op'.code != ops[i].code)
  {
    var live := CleanedAt(ops, [], j);
    RareIsRare(ops, j);
    CleanOpFacts(ops[j], live, Rare(ops));
  }

  // What can go in the middle of a block.
  lemma GoneKinds(ops: seq<Op>, blk: Block, i: nat, r: nat)
    requires Circles(ops, blk) && i < |ops| && Writes(ops[i], r) && !Writes(Clean(ops, []).0[i], r)
    ensures Computes(ops[i].code) || ops[i].code.Unset? || ops[i].code.Bool? || ops[i].code.Test?
  {
    var live := CleanedAt(ops, [], i);
    assert WellTyped(ops[i]);
  }

  lemma NeverDyed(w: World, g: Graph, g': Graph, i: nat, r: nat, s: State, m: nat)
    requires OneLoop(g) && CleanedLoop(g, g') && (forall t: nat :: HasEdge(g.bb[0], t) ==> t == 0)
    requires Told(Ops(g, 0), i) && Writes(Ops(g, 0)[i], r) && !Writes(Clean(Ops(g, 0), []).0[i], r)
    requires Dyeing(w, Ops(g, 0)[i].code, Rare(Ops(g, 0))) && Plain(s, Rare(Ops(g, 0)))
    ensures !AnyDyed(Trace(Run(w, g', Running(0, s), m)), Rare(Ops(g, 0)))
  {
    var ops := Ops(g, 0);
    forall j: nat | j < |ops|
      ensures var op' := Clean(ops, []).0[j]; NoLiteral(op', Rare(ops)) && (Slot(op'.res) ==> op'.code != ops[i].code)
    {
      CleanedIsPlain(ops, i, r, j, Clean(ops, []).0[j]);
    }
    RunStaysPlain(w, ops[i].code, Rare(ops), g', Running(0, s), m);
  }

  lemma DyedByOriginal(w: World, g: Graph, i: nat, r: nat, n: nat, k: int, s: State)
    requires OneLoop(g) && AllBelow(Ops(g, 0), |s.tm|) && NoBool(Ops(g, 0)) && LastWrite(Ops(g, 0), i, r)
    requires r in Needed(Ops(g, 0), n)
    requires Computes(Ops(g, 0)[i].code) || Ops(g, 0)[i].code.Unset?
    requires Dyeing(w, Ops(g, 0)[i].code, k)
    ensures AnyDyed(Trace(Run(w, g, Running(0, s), n + 1)), k)
  {
    var ops := Ops(g, 0);
    assert Below(ops[i], |s.tm|);
    var t := OneRound(w, g, s, n + 1);
    LastWriteDyes(w, k, ops, g.bb[0], s, i, r, t);
    DyeAppears(w, ops[i].code, k, g, t, n, r);
  }

  lemma LostSeenBy(w: World, g: Graph, g': Graph, i: nat, r: nat, n: nat, s: State, T: nat, bools: set<nat>)
    requires OneLoop(g) && CleanedLoop(g, g') && (forall t: nat :: HasEdge(g.bb[0], t) ==> t == 0)
    requires AllBelow(Ops(g, 0), |s.tm|) && Telling(Ops(g, 0)) && r in Needed(Ops(g, 0), n)
    requires LastWrite(Ops(g, 0), i, r) && !Writes(Clean(Ops(g, 0), []).0[i], r)
    requires Dyeing(w, Ops(g, 0)[i].code, Rare(Ops(g, 0))) && Plain(s, Rare(Ops(g, 0))) && StateOk(s, T, bools)
    ensures !SameBehaviour(g, g', T, bools)
  {
    var k := Rare(Ops(g, 0));
    GoneKinds(Ops(g, 0), g.bb[0], i, r);
    assert Told(Ops(g, 0), i);
    DyedByOriginal(w, g, i, r, n, k, s);
    forall m: nat ensures !AnyDyed(Trace(Run(w, g', Running(0, s), m)), k) {
      NeverDyed(w, g, g', i, r, s, m);
    }
    SeenApart(w, g, g', s, n + 1, k, T, bools);
  }

  lemma LostDefinition(ops: seq<Op>) returns (n: nat, r: nat, i: nat)
    requires !RoundsKept(ops)
    ensures r in Needed(ops, n) && LastWrite(ops, i, r) && !Writes(Clean(ops, []).0[i], r)
  {
    n, r :| r in Needed(ops, n) && !KeepsLast(ops, r);
    i :| LastWrite(ops, i, r) && !Writes(Clean(ops, []).0[i], r);
  }

  function Blank(T: nat): (s: State)
    ensures |s.tm| == T && forall k :: k > 1 ==> Plain(s, k)
    ensures forall bools :: StateOk(s, T, bools)
  {
    State(seq(T, _ => 0), [])
  }

  // A loop that loses a definition some round needs is seen to have changed.
  lemma LostIsSeen(g: Graph, g': Graph, T: nat, bools: set<nat>)
    requires OneLoop(g) && CleanedLoop(g, g') && (forall t: nat :: HasEdge(g.bb[0], t) ==> t == 0)
    requires AllBelow(Ops(g, 0), T) && Telling(Ops(g, 0)) && !RoundsKept(Ops(g, 0))
    ensures !SameBehaviour(g, g', T, bools)
  {
    var n, r, i := LostDefinition(Ops(g, 0));
    LostSeenBy(Dye(Ops(g, 0)[i].code, Rare(Ops(g, 0))), g, g', i, r, n, Blank(T), T, bools);
  }

  lemma SeenApart(w: World, g: Graph, g': Graph, s: State, n: nat, k: int, T: nat, bools: set<nat>)
    requires AnyDyed(Trace(Run(w, g, Running(0, s), n)), k) && StateOk(s, T, bools)
    requires forall m: nat :: !AnyDyed(Trace(Run(w, g', Running(0, s), m)), k)
    ensures !SameBehaviour(g, g', T, bools)
  {
    var goal := Run(w, g, Running(0, s), n);
    forall m: nat ensures !Leq(goal, Run(w, g', Running(0, s), m)) {
      if Leq(goal, Run(w, g', Running(0, s), m)) {
        DyedStays(Trace(goal), Trace(Run(w, g', Running(0, s), m)), k);
      }
    }
    assert !Reaches(w, g', Running(0, s), goal);
    assert !Equivalent(w, g, g', T, bools);
  }

  // ----- blocks that look the same to the pass -----

  // The pass does not look at what a computation computes.
  predicate SameKind(c: Opcode, c': Opcode) {
    || c' == c
    || ((c.Pure? || c.Bool? || c.Test?) && (c'.Pure? || c'.Bool? || c'.Test?))
    || (c.AddArrayElement? && c'.AddArrayElement?)
    || (c.Unset? && c'.Unset?)
  }

  predicate Alike(op: Op, op': Op) {
    SameKind(op.code, op'.code) && op' == op.(code := op'.code)
  }

  predicate AlikeOps(ops: seq<Op>, ops': seq<Op>) {
    |ops'| == |ops| && forall i :: 0 <= i < |ops| ==> Alike(ops[i], ops'[i])
  }

  predicate AlikeGraph(g: Graph, g': Graph) {
    g'.bb == g.bb && AlikeOps(g.code, g'.code)
  }

  lemma CleanOpAlike(op: Op, op': Op, live: set<nat>)
    requires Alike(op, op')
    ensures LiveBefore(CleanOp(op', [], live), live) == LiveBefore(CleanOp(op, [], live), live)
    ensures CleanOp(op', [], live).res == CleanOp(op, [], live).res
  {
  }

  lemma {:induction false} CleanAlike(ops: seq<Op>, ops': seq<Op>)
    requires AlikeOps(ops, ops')
    ensures Clean(ops', []).1 == Clean(ops, []).1
    ensures forall i :: 0 <= i < |ops| ==> Clean(ops', []).0[i].res == Clean(ops, []).0[i].res
    decreases |ops|
  {
    if ops != [] {
      CleanAlike(ops[1..], ops'[1..]);
      CleanOpAlike(ops[0], ops'[0], Clean(ops[1..], []).1);
    }
  }

  lemma {:induction false} ReachingAlike(ops: seq<Op>, ops': seq<Op>, out: set<nat>)
    requires AlikeOps(ops, ops')
    ensures Reaching(ops', out) == Reaching(ops, out)
    decreases |ops|
  {
    if ops != [] { ReachingAlike(ops[1..], ops'[1..], out); }
  }

  lemma {:induction false} NeededAlike(ops: seq<Op>, ops': seq<Op>, k: nat)
    requires AlikeOps(ops, ops')
    ensures Needed(ops', k) == Needed(ops, k)
    decreases k
  {
    if k > 0 {
      NeededAlike(ops, ops', k - 1);
      ReachingAlike(ops, ops', Needed(ops, k - 1));
    }
  }

  lemma KeepsAlike(ops: seq<Op>, ops': seq<Op>)
    requires AlikeOps(ops, ops')
    ensures RoundsKept(ops') <==> RoundsKept(ops)
  {
    forall k: nat ensures Needed(ops', k) == Needed(ops, k) {
      NeededAlike(ops, ops', k);
    }
    forall r: nat ensures KeepsLast(ops', r) <==> KeepsLast(ops, r) {
      KeepsLastAlike(ops, ops', r);
    }
  }

  lemma KeepsLastAlike(ops: seq<Op>, ops': seq<Op>, r: nat)
    requires AlikeOps(ops, ops')
    ensures KeepsLast(ops', r) <==> KeepsLast(ops, r)
  {
    CleanAlike(ops, ops');
    forall i: nat ensures LastWrite(ops', i, r) <==> LastWrite(ops, i, r) {
    }
  }

  // Every computation with an opcode of its own.
  function OwnCode(op: Op, i: nat): (op': Op)
    ensures Alike(op, op') && !op'.code.Bool? && !op'.code.Test?
    ensures Computes(op'.code) || op'.code.Unset? ==> op'.code in {Pure(i), AddArrayElement(i), Unset(i)}
  {
    if op.code.Pure? || op.code.Bool? || op.code.Test? then op.(code := Pure(i))
    else if op.code.AddArrayElement? then op.(code := AddArrayElement(i))
    else if op.code.Unset? then op.(code := Unset(i))
    else op
  }

  function OwnCodes(g: Graph): (g': Graph)
    ensures AlikeGraph(g, g')
  {
    Graph(seq(|g.code|, i requires 0 <= i < |g.code| => OwnCode(g.code[i], i)), g.bb)
  }

  lemma OwnCodesTell(g: Graph)
    requires |g.bb| > 0
    ensures Telling(Ops(OwnCodes(g), 0)) && AlikeOps(Ops(g, 0), Ops(OwnCodes(g), 0))
  {
    if Ops(g, 0) != [] {
      OwnTell(Ops(g, 0), Ops(OwnCodes(g), 0), g.bb[0].start.value);
    }
  }

  lemma OwnTell(ops: seq<Op>, ops': seq<Op>, a: nat)
    requires |ops'| == |ops| && forall j: nat :: j < |ops| ==> ops'[j] == OwnCode(ops[j], a + j)
    ensures Telling(ops') && AlikeOps(ops, ops')
  {
    forall i: nat | i < |ops'| && (Computes(ops'[i].code) || ops'[i].code.Unset?) ensures Told(ops', i) {
      forall j: nat | j < |ops'| && j != i ensures ops'[j].code != ops'[i].code {
        CodesDiffer(ops[i], ops[j], a + i, a + j);
      }
    }
  }

  lemma CodesDiffer(op: Op, op1: Op, i: nat, j: nat)
    requires i != j && (Computes(OwnCode(op, i).code) || OwnCode(op, i).code.Unset?)
    ensures OwnCode(op1, j).code != OwnCode(op, i).code
  {
  }

  lemma AlikeSlices(g: Graph, g': Graph)
    requires AlikeGraph(g, g') && |g.bb| > 0
    ensures AlikeOps(Ops(g, 0), Ops(g', 0))
  {
  }

  lemma CirclesAlike(ops: seq<Op>, ops': seq<Op>, blk: Block)
    requires Circles(ops, blk) && AlikeOps(ops, ops')
    ensures Circles(ops', blk)
  {
    forall i | 0 <= i < |ops| ensures WellTyped(ops'[i]) && Control(ops'[i].code) == Control(ops[i].code)
      && Stops(ops'[i].code) == Stops(ops[i].code) {
      assert WellTyped(ops[i]) && Alike(ops[i], ops'[i]);
    }
  }

  function CleanFirst(g: Graph): (g': Graph)
    requires OneLoop(g)
    ensures CleanedLoop(g, g')
  {
    var a, n := g.bb[0].start.value, |Ops(g, 0)|;
    var g' := Graph(g.code[..a] + Clean(Ops(g, 0), []).0 + g.code[a + n..], g.bb);
    assert Ops(g', 0) == Clean(Ops(g, 0), []).0;
    g'
  }

  // Whatever the computations of the loop compute.
  ghost predicate RightForAll(g: Graph, T: nat, bools: set<nat>) {
    forall g1: Graph, g1': Graph :: AlikeGraph(g, g1) && CleanedLoop(g1, g1') ==> SameBehaviour(g1, g1', T, bools)
  }

  // Cleaning a loop is right for all code that looks like it exactly when every temporary that some round needs
  // keeps its last definition; and for code whose computations can be told apart, exactly then.
  lemma LoopExactly(g: Graph, T: nat, bools: set<nat>)
    requires OneLoop(g) && AllBelow(Ops(g, 0), T) && forall t: nat :: HasEdge(g.bb[0], t) ==> t == 0
    ensures RightForAll(g, T, bools) <==> RoundsKept(Ops(g, 0))
    ensures forall g': Graph ::
              CleanedLoop(g, g') && Telling(Ops(g, 0)) ==> (SameBehaviour(g, g', T, bools) <==> RoundsKept(Ops(g, 0)))
  {
    if RoundsKept(Ops(g, 0)) {
      forall g1: Graph, g1': Graph | AlikeGraph(g, g1) && CleanedLoop(g1, g1')
        ensures SameBehaviour(g1, g1', T, bools)
      {
        AlikeSlices(g, g1);
        KeepsAlike(Ops(g, 0), Ops(g1, 0));
        CirclesAlike(Ops(g, 0), Ops(g1, 0), g.bb[0]);
        KeptIsSame(g1, g1', T, bools);
      }
      assert AlikeGraph(g, g);
    } else {
      NotForAll(g, T, bools);
      forall g': Graph | CleanedLoop(g, g') && Telling(Ops(g, 0)) ensures !SameBehaviour(g, g', T, bools) {
        LostIsSeen(g, g', T, bools);
      }
    }
  }

  lemma NotForAll(g: Graph, T: nat, bools: set<nat>)
    requires OneLoop(g) && AllBelow(Ops(g, 0), T) && (forall t: nat :: HasEdge(g.bb[0], t) ==> t == 0)
    requires !RoundsKept(Ops(g, 0))
    ensures !RightForAll(g, T, bools)
  {
    var g1 := OwnCodes(g);
    OwnCodesTell(g);
    KeepsAlike(Ops(g, 0), Ops(g1, 0));
    CirclesAlike(Ops(g, 0), Ops(g1, 0), g.bb[0]);
    BelowAlike(Ops(g, 0), Ops(g1, 0), T);
    LostIsSeen(g1, CleanFirst(g1), T, bools);
  }

  lemma BelowAlike(ops: seq<Op>, ops': seq<Op>, T: nat)
    requires AllBelow(ops, T) && AlikeOps(ops, ops')
    ensures AllBelow(ops', T)
  {
    forall i | 0 <= i < |ops'| ensures Below(ops'[i], T) {
      assert Below(ops[i], T) && Alike(ops[i], ops'[i]);
    }
  }

  // ----- the pass on any graph -----

  // The code of the blocks in use is typed, and what FE_RESET makes is fetched from later, as the compiler emits it.
  ghost predicate TypedGraph(g: Graph) {
    forall b: nat :: b < |g.bb| && g.bb[b].used ==> TypedOps(Ops(g, b)) && ResetsFetched(g, b)
  }

  ghost predicate ResetsFetched(g: Graph, b: nat)
    requires b < |g.bb|
  {
    forall i :: 0 <= i < |Ops(g, b)| && Ops(g, b)[i].code.FeReset? && Defines(Ops(g, b)[i]) ==>
      exists c: nat :: c < |g.bb| && Exposed(Ops(g, c), Ops(g, b)[i].res.n)
  }

  // A block that goes round.
  ghost predicate ComesBack(g: Graph) {
    |g.bb| > 0 && HasEdge(g.bb[0], 0) && forall i :: 0 <= i < |Ops(g, 0)| ==> !Stops(Ops(g, 0)[i].code)
  }

  // Several blocks, or one that does not come back, or one whose rounds keep what they need.
  ghost predicate Harmless(g: Graph) {
    |g.bb| > 0 && (g.bb[0].next.Some? || !ComesBack(g) || RoundsKept(Ops(g, 0)))
  }

  // The function is one block.
  ghost predicate OneBlock(g: Graph) {
    Layout(g) && Closed(g.bb) && g.bb[0].used && g.bb[0].next.None?
  }

  lemma SingleIsAlone(g: Graph)
    requires OneBlock(g)
    ensures forall c: nat :: 0 < c < |g.bb| ==> !g.bb[c].used
    ensures forall t: nat :: HasEdge(g.bb[0], t) ==> t == 0
  {
    assert BlockInRange(g, 0);
    forall c: nat | 0 < c < |g.bb| ensures !g.bb[c].used {
      assert Skipped(g.bb[0], c);
    }
  }

  // It has code, and the code ends in JMP, JMPZNZ or an instruction that stops.
  lemma SingleTail(g: Graph)
    requires OneBlock(g)
    ensures var ops := Ops(g, 0);
            && ops != [] && Straight(ops[..|ops| - 1]) && !FallsAfter(ops[|ops| - 1].code)
            && TailShape(ops[|ops| - 1].code, EdgesOf(g.bb[0]))
  {
    SingleIsAlone(g);
    assert BlockInRange(g, 0) && Shaped(g, 0) && Placed(g, 0);
    if FallsThrough(g, 0) { assert HasEdge(g.bb[0], g.bb[0].follow.value); }
    var n, ops := g.bb[0].len, Ops(g, 0);
    if n > 0 {
      assert ops == g.code[0..n] && ops[..n - 1] == g.code[0..n - 1];
    }
  }

  lemma SingleCircles(g: Graph)
    requires OneBlock(g) && ComesBack(g) && TypedOps(Ops(g, 0))
    ensures OneLoop(g)
  {
    SingleIsAlone(g);
    SingleTail(g);
    var ops := Ops(g, 0);
    forall i | 0 <= i < |ops| - 1 ensures !Control(ops[i].code) {
      assert ops[..|ops| - 1][i] == ops[i];
    }
    assert g.bb[0].jmp1.Some? ==> HasEdge(g.bb[0], g.bb[0].jmp1.value);
    assert g.bb[0].jmp2.Some? ==> HasEdge(g.bb[0], g.bb[0].jmp2.value);
    assert g.bb[0].ext.Some? ==> HasEdge(g.bb[0], g.bb[0].ext.value);
  }

  // No FE_RESET in it: that would go on to another block.
  lemma SingleRemovable(g: Graph, global: seq<bool>)
    requires OneBlock(g) && TypedOps(Ops(g, 0))
    ensures AllRemovable(Ops(g, 0), global)
  {
    SingleTail(g);
    var ops := Ops(g, 0);
    forall i | 0 <= i < |ops| ensures Removable(ops[i], global) {
      if i < |ops| - 1 { assert ops[..|ops| - 1][i] == ops[i]; }
    }
  }

  // Code that stops does not go round, wherever its block's pointers lead.
  lemma {:induction false} StopsHalt(w: World, ops: seq<Op>, blk: Block, s: State, i: nat)
    requires i < |ops| && Stops(ops[i].code) && forall j :: 0 <= j < i ==> !Control(ops[j].code)
    ensures ExecOps(w, ops, blk, s).Halted?
    decreases |ops|
  {
    if i > 0 && !Stops(ops[0].code) {
      StopsHalt(w, ops[1..], blk, Exec(w, ops[0], s).1, i - 1);
    }
  }

  lemma SingleHalts(w: World, g: Graph, s: State)
    requires OneBlock(g) && !ComesBack(g)
    ensures ExecOps(w, Ops(g, 0), g.bb[0], s).Halted?
  {
    SingleIsAlone(g);
    if HasEdge(g.bb[0], 0) {
      var ops := Ops(g, 0);
      SingleTail(g);
      var i :| 0 <= i < |ops| && Stops(ops[i].code);
      forall j | 0 <= j < i ensures !Control(ops[j].code) {
        assert ops[..|ops| - 1][j] == ops[j];
      }
      StopsHalt(w, ops, g.bb[0], s, i);
    }
  }

  // One block that does not come back: nothing runs after it, so no marking is needed.
  lemma OnceIsSame(g: Graph, g': Graph, global: seq<bool>, T: nat, bools: set<nat>)
    requires OneBlock(g) && !ComesBack(g) && TypedOps(Ops(g, 0)) && Cleaned(g, g', global)
    ensures SameBehaviour(g, g', T, bools)
  {
    SingleRemovable(g, global);
    forall w: World ensures Equivalent(w, g, g', T, bools) {
      forall s, n: nat | StateOk(s, T, bools)
        ensures Reaches(w, g', Running(0, s), Run(w, g, Running(0, s), n))
        ensures Reaches(w, g, Running(0, s), Run(w, g', Running(0, s), n))
      {
        OnceRuns(w, g, g', global, s, n);
        assert Leq(Run(w, g, Running(0, s), n), Run(w, g', Running(0, s), n));
        assert Leq(Run(w, g', Running(0, s), n), Run(w, g, Running(0, s), n));
      }
    }
  }

  lemma OnceRuns(w: World, g: Graph, g': Graph, global: seq<bool>, s: State, n: nat)
    requires OneBlock(g) && !ComesBack(g) && AllRemovable(Ops(g, 0), global) && Cleaned(g, g', global)
    ensures Run(w, g, Running(0, s), n) == Run(w, g', Running(0, s), n)
  {
    SingleHalts(w, g, s);
    CleanSim(w, Ops(g, 0), g.bb[0], s, s, global);
    if n > 0 {
      RunHalted(w, g, Step(w, g, Running(0, s)), n - 1);
      RunHalted(w, g', Step(w, g', Running(0, s)), n - 1);
    }
  }

  lemma {:induction false} CleanUnmarked(ops: seq<Op>, global: seq<bool>)
    requires forall r :: 0 <= r < |global| ==> !global[r]
    ensures Clean(ops, global) == Clean(ops, [])
    decreases |ops|
  {
    if ops != [] { CleanUnmarked(ops[1..], global); }
  }

  // Several blocks: everything that goes can go, ...
  lemma SeveralRemovable(g: Graph, global: seq<bool>, T: nat)
    requires Layout(g) && g.bb[0].next.Some? && AllBelow(g.code, T) && TypedGraph(g)
    requires |global| == T && forall r: nat :: r < T ==> (global[r] <==> Marks(g, r))
    ensures CodeRemovable(g, global)
  {
    forall b | 0 <= b < |g.bb| && g.bb[b].used ensures AllRemovable(Ops(g, b), global) {
      forall i | 0 <= i < |Ops(g, b)| ensures Removable(Ops(g, b)[i], global) {
        var op := Ops(g, b)[i];
        assert TypedOps(Ops(g, b)) && ResetsFetched(g, b);
        if op.code.FeReset? && Defines(op) {
          var c: nat :| c < |g.bb| && Exposed(Ops(g, c), op.res.n);
          ExposedBelow(g, T, c, op.res.n);
        }
      }
    }
  }

  // ... and the marking is sound.
  lemma SeveralIsSame(g: Graph, g': Graph, global: seq<bool>, T: nat, bools: set<nat>)
    requires Layout(g) && Closed(g.bb) && g.bb[0].used && g.bb[0].next.Some? && AllBelow(g.code, T) && TypedGraph(g)
    requires |global| == T && (forall r: nat :: r < T ==> (global[r] <==> Marks(g, r))) && Cleaned(g, g', global)
    ensures SameBehaviour(g, g', T, bools)
  {
    MarkedIsSound(g, T, global);
    SeveralRemovable(g, global, T);
    CleanedSameBehaviour(g, g', global, T, bools);
  }

  // Exactly when removing what is marked dead is right.
  lemma RemovalExactly(g: Graph, g': Graph, global: seq<bool>, T: nat, bools: set<nat>)
    requires Layout(g) && Closed(g.bb) && g.bb[0].used && AllBelow(g.code, T) && TypedGraph(g)
    requires |global| == T && (forall r: nat :: r < T ==> (global[r] <==> Marks(g, r))) && Cleaned(g, g', global)
    ensures Harmless(g) ==> SameBehaviour(g, g', T, bools)
    ensures !Harmless(g) ==> !RightForAll(g, T, bools)
    ensures Telling(Ops(g, 0)) ==> (SameBehaviour(g, g', T, bools) <==> Harmless(g))
  {
    if g.bb[0].next.Some? {
      SeveralIsSame(g, g', global, T, bools);
    } else if !ComesBack(g) {
      OnceIsSame(g, g', global, T, bools);
    } else {
      SingleIsAlone(g);
      SingleCircles(g);
      CleanUnmarked(Ops(g, 0), global);
      OpsBelow(g, T);
      LoopExactly(g, T, bools);
      assert AlikeGraph(g, g) && CleanedLoop(g, g');
    }
  }

  lemma OpsBelow(g: Graph, T: nat)
    requires AllBelow(g.code, T) && |g.bb| > 0
    ensures AllBelow(Ops(g, 0), T)
  {
  }

  // compute_live_var as a whole, for typed code: several blocks, one that does not come back and one whose rounds
  // keep what they need show the same traces; the remaining ones do not, at the latest when their computations
  // compute something else.
  method ComputeLiveVar(g: Graph, T: nat, ghost bools: set<nat>) returns (g': Graph, global: array<bool>)
    requires Layout(g) && Closed(g.bb) && g.bb[0].used && AllBelow(g.code, T)
    ensures fresh(global) && global.Length == T && (forall r: nat :: r < T ==> (global[r] <==> Marks(g, r)))
    ensures Cleaned(g, g', global[..]) && CleanedAll(g, g', global[..]) && AllTrimmed(g, g', global[..])
    ensures TypedGraph(g) && Harmless(g) ==> SameBehaviour(g, g', T, bools)
    ensures TypedGraph(g) && !Harmless(g) ==> !RightForAll(g, T, bools)
    ensures TypedGraph(g) && Telling(Ops(g, 0)) ==> (SameBehaviour(g, g', T, bools) <==> Harmless(g))
  {
    global := ComputeGlobal(g, T);
    g' := RemoveDead(g, T, global);
    CleanedTrims(g, g', global[..]);
    if TypedGraph(g) {
      RemovalExactly(g, g', global[..], T, bools);
    }
  }
}
