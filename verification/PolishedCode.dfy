// What is left of the jumps in the op array that emit_cfg makes of a graph at rest, on its lines alone.
module PolishedCode {
  import opened Options
  import opened Opcodes
  import opened Graphs
  import opened Preds
  import opened Rewrites
  import opened Flat
  import opened EmitCfg
  import opened JumpRules
  import opened Trails
  import opened Polish

  // A jump that decides on a constant.
  predicate TestsConst(op: Op) {
    Tester(op.code) && op.op1.Const?
  }

  predicate NoConstTests(code: seq<Op>) {
    forall i :: 0 <= i < |code| ==> !TestsConst(code[i])
  }

  predicate JmpAt(out: seq<Op>, l: nat) {
    l < |out| && out[l].code.Jmp?
  }

  predicate TestAt(out: seq<Op>, l: nat, x: Operand) {
    l < |out| && Tester(out[l].code) && out[l].op1 == x
  }

  predicate KeepAt(out: seq<Op>, l: nat, x: Operand) {
    l < |out| && Ex(out[l].code) && out[l].op1 == x && out[l].res == x
  }

  // A block in use that has no instruction lies at line l.
  ghost predicate EmptyAt(g: Graph, pos: seq<nat>, l: nat) {
    exists b: nat :: EmptyHere(g, pos, l, b)
  }

  predicate EmptyHere(g: Graph, pos: seq<nat>, l: nat, b: nat) {
    b < |g.bb| && b < |pos| && g.bb[b].used && g.bb[b].len == 0 && pos[b] == l
  }

  // Nothing about the jump at line i can be spared, unless there is an empty block where it goes: ...
  ghost predicate TrimAt(g: Graph, pos: seq<nat>, out: seq<Op>, i: nat)
    requires i < |out|
  {
    var op := out[i];
    var c := op.code;
    // it decides on no constant,
    && !TestsConst(op)
    // its two ways lead to different lines,
    && (c.Jmpz? || c.Jmpnz? || Ex(c) ==> op.to2 != i + 1 || EmptyAt(g, pos, i + 1))
    && (c.Jmpznz? ==> op.to2 != op.ext || EmptyAt(g, pos, op.ext))
    // none of them to a JMP,
    && (c.Jmp? ==> !JmpAt(out, op.to1) || op.to1 == i || EmptyAt(g, pos, op.to1))
    && (c.Jmpz? || c.Jmpnz? || c.Jmpznz? || Ex(c) || c.New? || c.FeFetch? ==>
          !JmpAt(out, op.to2) || EmptyAt(g, pos, op.to2))
    && (c.Jmpz? || c.Jmpnz? ==> !JmpAt(out, i + 1) || EmptyAt(g, pos, i + 1))
    && (c.Jmpznz? ==> !JmpAt(out, op.ext) || EmptyAt(g, pos, op.ext))
    // and the second operand's not to another test of the same temporary.
    && (Tester(c) && op.op1.Tmp? ==> !TestAt(out, op.to2, op.op1) || EmptyAt(g, pos, op.to2))
    && (Ex(c) && op.res.Tmp? ==>
          !(TestAt(out, op.to2, op.res) || KeepAt(out, op.to2, op.res)) || EmptyAt(g, pos, op.to2))
  }

  // ... at no line.
  ghost predicate Trim(g: Graph, pos: seq<nat>, out: seq<Op>) {
    forall i: nat {:trigger TrimAt(g, pos, out, i)} :: i < |out| ==> TrimAt(g, pos, out, i)
  }

  // The op array is the used blocks of the graph, one directly after the other and nothing else.
  ghost predicate LinesOf(g: Graph, out: seq<Op>, pos: seq<nat>) {
    LaidOut(g, out, pos) && Ordered(g, pos, |g.bb|) && Filled(g, pos, |g.bb|, |out|)
  }

  // ----- from the graph at rest to the one that is laid out -----

  // Every jump of a block in use spares what it can.
  ghost predicate WaysSpared(g: Graph) {
    forall p: nat {:trigger SparedAt(g, p)} :: p < |g.bb| && g.bb[p].used && g.bb[p].len > 0 ==> SparedAt(g, p)
  }

  predicate SparedAt(g: Graph, p: nat) {
    Ready(g, p) && SparesWays(g, p, g.bb[p], Last(g, p))
  }

  lemma AliveLines(g: Graph, g': Graph, b: nat)
    requires InRange(g) && InRange(g') && SameAlive(g, g') && b < |g'.bb| && g'.bb[b].used
    ensures g.bb[b].used && g.bb[b].len == g'.bb[b].len && EdgesOf(g.bb[b]) == EdgesOf(g'.bb[b])
    ensures g.bb[b].len > 0 ==> Ready(g, b) && Ready(g', b) && Last(g', b) == Last(g, b) && g'.code[b] == g.code[b]
  {
    assert AliveAt(g, g', b) && BlockInRange(g, b) && BlockInRange(g', b);
    var n := g.bb[b].len;
    if n > 0 {
      assert Ops(g', b)[0] == g'.code[b] && Ops(g, b)[0] == g.code[b];
      assert Ops(g', b)[n - 1] == Last(g', b) && Ops(g, b)[n - 1] == Last(g, b);
    }
  }

  // A way out of a block that is still in use leads to the same instruction.
  lemma AliveWay(g: Graph, g': Graph, p: nat, r: Ref, x: Operand)
    requires InRange(g) && InRange(g') && SameAlive(g, g') && Closed(g'.bb)
    requires p < |g'.bb| && g'.bb[p].used && (r.Some? ==> HasEdge(g'.bb[p], r.value))
    ensures LoneJmp(g', r) ==> LoneJmp(g, r)
    ensures LoneTest(g', r, x) ==> LoneTest(g, r, x)
    ensures LoneKeep(g', r, x) ==> LoneKeep(g, r, x)
    ensures Lone(g', r) ==> Lone(g, r)
  {
    if r.Some? {
      assert r.value < |g'.bb| && g'.bb[r.value].used;
      AliveLines(g, g', r.value);
    }
  }

  lemma SparedStill(g: Graph, g': Graph, p: nat)
    requires InRange(g) && InRange(g') && SameAlive(g, g') && Closed(g'.bb)
    requires p < |g'.bb| && g'.bb[p].used && g'.bb[p].len > 0 && SparedAt(g, p)
    ensures SparedAt(g', p)
  {
    AliveLines(g, g', p);
    var b, op := g'.bb[p], Last(g', p);
    AliveWay(g, g', p, b.jmp1, op.op1);
    AliveWay(g, g', p, b.jmp2, op.op1);
    AliveWay(g, g', p, b.jmp2, op.res);
    AliveWay(g, g', p, b.ext, op.op1);
    AliveWay(g, g', p, b.follow, op.op1);
  }

  lemma RestsSpared(g: Graph, g': Graph)
    requires Rests(g) && InRange(g) && InRange(g') && SameAlive(g, g') && Closed(g'.bb)
    ensures WaysSpared(g')
  {
    forall p: nat {:trigger SparedAt(g', p)} | p < |g'.bb| && g'.bb[p].used && g'.bb[p].len > 0
      ensures SparedAt(g', p)
    {
      AliveLines(g, g', p);
      assert RestsHere(g, p);
      SparedStill(g, g', p);
    }
  }

  // ----- from blocks to lines -----

  // The last instruction of block b is at line i.
  ghost predicate EndsAt(g: Graph, pos: seq<nat>, out: seq<Op>, b: nat, i: nat) {
    && b < |g.bb| && b < |pos| && g.bb[b].used && Ready(g, b) && i == pos[b] + g.bb[b].len - 1 && i < |out|
    && SameInstr(out[i], Last(g, b))
    && AimsAt(g.bb[b].jmp1, pos, out[i].to1) && AimsAt(g.bb[b].jmp2, pos, out[i].to2)
    && AimsAt(g.bb[b].ext, pos, out[i].ext)
  }

  lemma LineIn(g: Graph, out: seq<Op>, pos: seq<nat>, b: nat, i: nat)
    requires |pos| == |g.bb| && LineOf(g, pos, b, i) && BlockInRange(g, b) && LaidOutBlock(g, out, pos, b)
    requires Shaped(g, b)
    ensures i < |out| && b + (i - pos[b]) < |g.code| && SameInstr(out[i], g.code[b + (i - pos[b])])
    ensures Control(out[i].code) ==> EndsAt(g, pos, out, b, i)
  {
    var k, n := i - pos[b], g.bb[b].len;
    assert Corresponds(out, pos[b], g.code, b, k);
    if k < n - 1 {
      assert g.code[b .. b + n - 1][k] == g.code[b + k];
    }
  }

  // Every line is an instruction of a block in use; a jump is the last one.
  lemma LineIs(g: Graph, out: seq<Op>, pos: seq<nat>, i: nat) returns (b: nat)
    requires LinesOf(g, out, pos) && i < |out|
    ensures LineOf(g, pos, b, i) && b + (i - pos[b]) < |g.code| && SameInstr(out[i], g.code[b + (i - pos[b])])
    ensures Control(out[i].code) ==> EndsAt(g, pos, out, b, i)
  {
    assert LineFilled(g, pos, |g.bb|, i);
    b :| b < |g.bb| && LineOf(g, pos, b, i);
    LineIn(g, out, pos, b, i);
  }

  // The line that a way out of a block leads to begins the block there, unless that one is empty.
  lemma WayIs(g: Graph, out: seq<Op>, pos: seq<nat>, p: nat, r: Ref, l: nat, x: Operand)
    requires LinesOf(g, out, pos) && p < |g.bb| && g.bb[p].used && r.Some? && HasEdge(g.bb[p], r.value)
    requires r.value < |pos| && pos[r.value] == l && !EmptyAt(g, pos, l)
    ensures JmpAt(out, l) ==> LoneJmp(g, r)
    ensures TestAt(out, l, x) ==> LoneTest(g, r, x)
    ensures KeepAt(out, l, x) ==> LoneKeep(g, r, x)
  {
    var t := r.value;
    assert g.bb[t].used && LaidOutBlock(g, out, pos, t) && BlockInRange(g, t) && Shaped(g, t);
    assert !EmptyHere(g, pos, l, t);
    assert Corresponds(out, pos[t], g.code, t, 0);
    if Control(out[l].code) { JumpIsWhole(g, t); }
  }

  // Two blocks in use at one line: one of them is empty.
  lemma SameLine(g: Graph, out: seq<Op>, pos: seq<nat>, s: nat, t: nat)
    requires LinesOf(g, out, pos) && s < |g.bb| && t < |g.bb| && g.bb[s].used && g.bb[t].used && s != t
    requires pos[s] == pos[t]
    ensures EmptyAt(g, pos, pos[s])
  {
    if s < t { assert EmptyHere(g, pos, pos[s], s); } else { assert EmptyHere(g, pos, pos[s], t); }
  }

  // ----- at rest, line by line -----

  // The line behind a block that may go on is the line of the block it goes on to.
  lemma FallIs(g: Graph, out: seq<Op>, pos: seq<nat>, b: nat, i: nat)
    requires LinesOf(g, out, pos) && EndsAt(g, pos, out, b, i) && TwoWay(out[i].code)
    ensures var f := g.bb[b].follow; f.Some? && f.value < |pos| && HasEdge(g.bb[b], f.value) && pos[f.value] == i + 1
  {
    assert LaidOutBlock(g, out, pos, b) && BlockInRange(g, b);
  }

  lemma EdgesAre(g: Graph, out: seq<Op>, pos: seq<nat>, b: nat, i: nat)
    requires LinesOf(g, out, pos) && EndsAt(g, pos, out, b, i) && Control(out[i].code)
    ensures out[i].code.Jmp? ==> g.bb[b].jmp1.Some?
    ensures TwoWay(out[i].code) || out[i].code.Jmpznz? ==> g.bb[b].jmp2.Some?
    ensures out[i].code.Jmpznz? ==> g.bb[b].ext.Some?
    ensures forall r: Ref :: r.Some? && (r == g.bb[b].jmp1 || r == g.bb[b].jmp2 || r == g.bb[b].ext) ==>
              HasEdge(g.bb[b], r.value) && r.value < |g.bb| && g.bb[r.value].used && r.value < |pos|
  {
    assert BlockInRange(g, b) && Shaped(g, b);
    forall r: Ref | r.Some? && (r == g.bb[b].jmp1 || r == g.bb[b].jmp2 || r == g.bb[b].ext)
      ensures HasEdge(g.bb[b], r.value) && r.value < |g.bb| && g.bb[r.value].used && r.value < |pos|
    {
      assert HasEdge(g.bb[b], r.value);
    }
  }

  lemma JmpTrim(g: Graph, out: seq<Op>, pos: seq<nat>, b: nat, i: nat)
    requires LinesOf(g, out, pos) && EndsAt(g, pos, out, b, i) && SparedAt(g, b) && out[i].code.Jmp?
    ensures TrimAt(g, pos, out, i)
  {
    EdgesAre(g, out, pos, b, i);
    if !EmptyAt(g, pos, out[i].to1) { WayIs(g, out, pos, b, g.bb[b].jmp1, out[i].to1, Unused); }
  }

  lemma ZnzTrim(g: Graph, out: seq<Op>, pos: seq<nat>, b: nat, i: nat)
    requires LinesOf(g, out, pos) && EndsAt(g, pos, out, b, i) && SparedAt(g, b) && out[i].code.Jmpznz?
    ensures TrimAt(g, pos, out, i)
  {
    EdgesAre(g, out, pos, b, i);
    var blk, op := g.bb[b], out[i];
    if !EmptyAt(g, pos, op.to2) { WayIs(g, out, pos, b, blk.jmp2, op.to2, op.op1); }
    if !EmptyAt(g, pos, op.ext) { WayIs(g, out, pos, b, blk.ext, op.ext, op.op1); }
    if op.to2 == op.ext { SameLine(g, out, pos, blk.ext.value, blk.jmp2.value); }
  }

  // What its second operand leads to.
  lemma SecondTrim(g: Graph, out: seq<Op>, pos: seq<nat>, b: nat, i: nat)
    requires LinesOf(g, out, pos) && EndsAt(g, pos, out, b, i) && SparedAt(g, b) && TwoWay(out[i].code)
    ensures var op, c := out[i], out[i].code;
            && (c.Jmpz? || c.Jmpnz? || Ex(c) || c.New? || c.FeFetch? ==> !JmpAt(out, op.to2) || EmptyAt(g, pos, op.to2))
            && (Tester(c) && op.op1.Tmp? ==> !TestAt(out, op.to2, op.op1) || EmptyAt(g, pos, op.to2))
            && (Ex(c) && op.res.Tmp? ==>
                  !(TestAt(out, op.to2, op.res) || KeepAt(out, op.to2, op.res)) || EmptyAt(g, pos, op.to2))
  {
    EdgesAre(g, out, pos, b, i);
    var blk, op := g.bb[b], out[i];
    if !EmptyAt(g, pos, op.to2) {
      WayIs(g, out, pos, b, blk.jmp2, op.to2, op.op1);
      WayIs(g, out, pos, b, blk.jmp2, op.to2, op.res);
    }
  }

  lemma TwoWayTrim(g: Graph, out: seq<Op>, pos: seq<nat>, b: nat, i: nat)
    requires LinesOf(g, out, pos) && EndsAt(g, pos, out, b, i) && SparedAt(g, b) && TwoWay(out[i].code)
    ensures TrimAt(g, pos, out, i)
  {
    SecondTrim(g, out, pos, b, i);
    EdgesAre(g, out, pos, b, i);
    FallIs(g, out, pos, b, i);
    var blk, op := g.bb[b], out[i];
    if !EmptyAt(g, pos, i + 1) { WayIs(g, out, pos, b, blk.follow, i + 1, op.op1); }
    if op.to2 == i + 1 && blk.jmp2 != blk.follow { SameLine(g, out, pos, blk.follow.value, blk.jmp2.value); }
  }

  lemma SparedTrim(g: Graph, out: seq<Op>, pos: seq<nat>)
    requires LinesOf(g, out, pos) && WaysSpared(g)
    ensures Trim(g, pos, out)
  {
    forall i: nat {:trigger TrimAt(g, pos, out, i)} | i < |out| ensures TrimAt(g, pos, out, i) {
      if Control(out[i].code) {
        var b := LineIs(g, out, pos, i);
        assert SparedAt(g, b);
        if out[i].code.Jmp? { JmpTrim(g, out, pos, b, i); }
        else if out[i].code.Jmpznz? { ZnzTrim(g, out, pos, b, i); }
        else { TwoWayTrim(g, out, pos, b, i); }
      }
    }
  }

  // What optimize_jmp leaves at rest, with fewer blocks in use, is laid out in lines that spare what they can.
  lemma RestsTrim(g: Graph, g': Graph, out: seq<Op>, pos: seq<nat>)
    requires Rests(g) && InRange(g) && SameAlive(g, g') && LinesOf(g', out, pos)
    ensures Trim(g', pos, out) && NoConstTests(out)
  {
    RestsSpared(g, g');
    SparedTrim(g', out, pos);
    forall i | 0 <= i < |out| ensures !TestsConst(out[i]) { assert TrimAt(g', pos, out, i); }
  }
}
