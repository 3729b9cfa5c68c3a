// emit_cfg: compacts the used blocks back into one op array and sets the branch targets.
module EmitCfg {
  import opened Options
  import opened Opcodes
  import opened Graphs
  import opened Rewrites
  import opened Flat

  // memmove(&code[to], &code[from], len)
  function Memmove(code: seq<Op>, to: nat, from: nat, len: nat): (r: seq<Op>)
    requires to + len <= |code| && from + len <= |code|
    ensures |r| == |code|
    ensures forall i :: 0 <= i < |code| ==> r[i] == if to <= i < to + len then code[from + i - to] else code[i]
  {
    code[..to] + code[from .. from + len] + code[to + len ..]
  }

  // The jump operands of a block's last instruction.
  function SetTargets(op: Op, blk: Block, pos: seq<nat>): Op {
    var op1 := if blk.jmp1.Some? && blk.jmp1.value < |pos| then op.(to1 := pos[blk.jmp1.value]) else op;
    var op2 := if blk.jmp2.Some? && blk.jmp2.value < |pos| then op1.(to2 := pos[blk.jmp2.value]) else op1;
    if blk.ext.Some? && blk.ext.value < |pos| then op2.(ext := pos[blk.ext.value]) else op2
  }

  // Block b's instructions are at pos[b].
  ghost predicate Copied(g: Graph, code: seq<Op>, pos: seq<nat>, b: nat)
    requires b < |g.bb| == |pos|
  {
    && pos[b] + g.bb[b].len <= |code|
    && forall i :: 0 <= i < g.bb[b].len ==> Corresponds(code, pos[b], g.code, b, i)
  }

  // The used blocks before p are in place, below `at`, ...
  ghost predicate Behind(g: Graph, code: seq<Op>, pos: seq<nat>, p: nat, at: nat)
    requires |pos| == |g.bb|
  {
    forall b :: 0 <= b < |g.bb| && b < p && g.bb[b].used ==> Copied(g, code, pos, b) && pos[b] + g.bb[b].len <= at
  }

  // ... in order, ...
  ghost predicate Ordered(g: Graph, pos: seq<nat>, p: nat)
    requires |pos| == |g.bb|
  {
    forall b, c :: 0 <= b < c < |g.bb| && c < p && g.bb[b].used && g.bb[c].used ==> pos[b] + g.bb[b].len <= pos[c]
  }

  // ... each directly after the one before it; ...
  ghost predicate Tight(g: Graph, pos: seq<nat>, p: nat, at: nat)
    requires |pos| == |g.bb|
  {
    forall b: nat, f: nat :: b < |g.bb| && b < p && g.bb[b].used && NextUsed(g.bb, b, Some(f)) && g.bb[f].used ==>
      pos[b] + g.bb[b].len == if f < p then pos[f] else at
  }

  // ... with nothing else between them; ...
  ghost predicate Filled(g: Graph, pos: seq<nat>, p: nat, at: nat) {
    forall i: nat {:trigger LineFilled(g, pos, p, i)} :: i < at ==> LineFilled(g, pos, p, i)
  }

  ghost predicate LineFilled(g: Graph, pos: seq<nat>, p: nat, i: nat) {
    exists b: nat :: b < p && LineOf(g, pos, b, i)
  }

  // Line i belongs to block b.
  predicate LineOf(g: Graph, pos: seq<nat>, b: nat, i: nat) {
    b < |g.bb| && b < |pos| && g.bb[b].used && pos[b] <= i < pos[b] + g.bb[b].len
  }

  // ... and the used blocks from p on have not been touched.
  ghost predicate Ahead(g: Graph, code: seq<Op>, p: nat, at: nat) {
    forall c :: p <= c < |g.bb| && g.bb[c].used ==> at <= c && Untouched(g, code, c)
  }

  ghost predicate Untouched(g: Graph, code: seq<Op>, c: nat)
    requires c < |g.bb|
  {
    c + g.bb[c].len <= |code| + 1 && forall i :: c <= i < c + g.bb[c].len && i < |code| && i < |g.code| ==>
        code[i] == g.code[i]
  }

  ghost predicate Packed(g: Graph, code: seq<Op>, pos: seq<nat>, p: nat, at: nat) {
    && Layout(g) && |pos| == |g.bb| && |code| == |g.code| && p <= |g.bb| && at <= |code|
    && Behind(g, code, pos, p, at) && Ordered(g, pos, p) && Tight(g, pos, p, at) && Ahead(g, code, p, at)
    && Filled(g, pos, p, at)
  }

  // Block p moves to `at`; the walk goes on at q, with no used block between.
  ghost predicate Moved(g: Graph, code: seq<Op>, pos: seq<nat>, p: nat, at: nat, code': seq<Op>, pos': seq<nat>,
                        q: nat) {
    && |pos| == |pos'| == |g.bb| && |code| == |code'| == |g.code|
    && p < q <= |g.bb| && g.bb[p].used && at <= p && at <= |code| && p + g.bb[p].len <= |code| + 1
    && (g.bb[p].len > 0 ==> p + g.bb[p].len <= |code|)
    && code' == (if g.bb[p].len > 0 then Memmove(code, at, p, g.bb[p].len) else code)
    && pos' == pos[p := at]
    && forall c :: p < c < q ==> !g.bb[c].used
  }

  // A block below `at` is not overwritten.
  lemma CopiedStays(g: Graph, code: seq<Op>, pos: seq<nat>, at: nat, code': seq<Op>, pos': seq<nat>, b: nat)
    requires b < |g.bb| == |pos| == |pos'| && |code'| == |code| && Copied(g, code, pos, b) && pos[b] + g.bb[b].len <= at
    requires pos'[b] == pos[b]
    requires forall i :: 0 <= i < |code| && i < at ==> code'[i] == code[i]
    ensures Copied(g, code', pos', b)
  {
    forall i | 0 <= i < g.bb[b].len ensures Corresponds(code', pos'[b], g.code, b, i) {
      assert Corresponds(code, pos[b], g.code, b, i);
    }
  }

  lemma MovedItself(g: Graph, code: seq<Op>, pos: seq<nat>, p: nat, at: nat, code': seq<Op>, pos': seq<nat>, q: nat)
    requires Moved(g, code, pos, p, at, code', pos', q) && Untouched(g, code, p)
    ensures Copied(g, code', pos', p)
  {
    forall i | 0 <= i < g.bb[p].len ensures Corresponds(code', pos'[p], g.code, p, i) {
      assert code'[at + i] == code[p + i];
    }
  }

  lemma MovedBehind(g: Graph, code: seq<Op>, pos: seq<nat>, p: nat, at: nat, code': seq<Op>, pos': seq<nat>, q: nat)
    requires Moved(g, code, pos, p, at, code', pos', q) && Behind(g, code, pos, p, at) && Untouched(g, code, p)
    ensures Behind(g, code', pos', q, at + g.bb[p].len)
  {
    forall b | 0 <= b < q && g.bb[b].used
      ensures Copied(g, code', pos', b) && pos'[b] + g.bb[b].len <= at + g.bb[p].len
    {
      if b < p {
        CopiedStays(g, code, pos, at, code', pos', b);
      } else {
        MovedItself(g, code, pos, p, at, code', pos', q);
      }
    }
  }

  lemma MovedOrdered(g: Graph, code: seq<Op>, pos: seq<nat>, p: nat, at: nat, code': seq<Op>, pos': seq<nat>, q: nat)
    requires Moved(g, code, pos, p, at, code', pos', q) && Behind(g, code, pos, p, at) && Ordered(g, pos, p)
    ensures Ordered(g, pos', q)
  {
    forall b, c | 0 <= b < c < q && g.bb[b].used && g.bb[c].used ensures pos'[b] + g.bb[b].len <= pos'[c] {
      assert c <= p;
    }
  }

  lemma MovedTight(g: Graph, code: seq<Op>, pos: seq<nat>, p: nat, at: nat, code': seq<Op>, pos': seq<nat>, q: nat)
    requires Moved(g, code, pos, p, at, code', pos', q) && Tight(g, pos, p, at)
    ensures Tight(g, pos', q, at + g.bb[p].len)
  {
    forall b: nat, f: nat | b < |g.bb| && b < q && g.bb[b].used && NextUsed(g.bb, b, Some(f)) && g.bb[f].used
      ensures pos'[b] + g.bb[b].len == if f < q then pos'[f] else at + g.bb[p].len
    {
      assert b <= p;
      if b < p { assert f <= p; } else { assert f >= q; }
    }
  }

  lemma MovedAhead(g: Graph, code: seq<Op>, pos: seq<nat>, p: nat, at: nat, code': seq<Op>, pos': seq<nat>, q: nat)
    requires Moved(g, code, pos, p, at, code', pos', q) && Ahead(g, code, p, at) && InRange(g) && Disjoint(g)
    ensures Ahead(g, code', q, at + g.bb[p].len)
  {
    forall c | q <= c < |g.bb| && g.bb[c].used ensures at + g.bb[p].len <= c && Untouched(g, code', c) {
      assert Untouched(g, code, c);
      assert g.bb[p].len > 0 ==> p + g.bb[p].len <= c;
    }
  }

  lemma MovedFilled(g: Graph, code: seq<Op>, pos: seq<nat>, p: nat, at: nat, code': seq<Op>, pos': seq<nat>, q: nat)
    requires Moved(g, code, pos, p, at, code', pos', q) && Filled(g, pos, p, at)
    ensures Filled(g, pos', q, at + g.bb[p].len)
  {
    forall i: nat {:trigger LineFilled(g, pos', q, i)} | i < at + g.bb[p].len ensures LineFilled(g, pos', q, i) {
      if i < at {
        assert LineFilled(g, pos, p, i);
        var b: nat :| b < p && LineOf(g, pos, b, i);
        assert LineOf(g, pos', b, i);
      } else {
        assert LineOf(g, pos', p, i);
      }
    }
  }

  lemma MovedPacked(g: Graph, code: seq<Op>, pos: seq<nat>, p: nat, at: nat, code': seq<Op>, pos': seq<nat>, q: nat)
    requires Packed(g, code, pos, p, at) && Moved(g, code, pos, p, at, code', pos', q)
    ensures Packed(g, code', pos', q, at + g.bb[p].len)
  {
    MovedBehind(g, code, pos, p, at, code', pos', q);
    MovedOrdered(g, code, pos, p, at, code', pos', q);
    MovedTight(g, code, pos, p, at, code', pos', q);
    MovedAhead(g, code, pos, p, at, code', pos', q);
    MovedFilled(g, code, pos, p, at, code', pos', q);
    assert BlockInRange(g, p);
    assert g.bb[p].len == 0 ==> Untouched(g, code, p);
  }

  // An unused block is passed over.
  lemma SkippedPacked(g: Graph, code: seq<Op>, pos: seq<nat>, p: nat, at: nat, q: nat)
    requires Packed(g, code, pos, p, at) && p < q <= |g.bb| && forall c :: p <= c < q ==> !g.bb[c].used
    ensures Packed(g, code, pos, q, at)
  {
    forall i: nat {:trigger LineFilled(g, pos, q, i)} | i < at ensures LineFilled(g, pos, q, i) {
      assert LineFilled(g, pos, p, i);
      var b: nat :| b < p && LineOf(g, pos, b, i);
    }
  }

  // The walk goes from p to the next block of the list.
  lemma WalkPast(g: Graph, p: nat, q: nat)
    requires Layout(g) && p < |g.bb| && g.bb[p].start.Some? && q == if g.bb[p].next.Some? then g.bb[p].next.value
             else |g.bb|
    ensures p < q <= |g.bb| && (q < |g.bb| ==> g.bb[q].start.Some?) && forall c :: p < c < q ==> !g.bb[c].used
  {
    assert BlockInRange(g, p);
    forall c | p < c < q ensures !g.bb[c].used {
      assert Skipped(g.bb[p], c);
    }
  }

  // One block moves down.
  method MoveBlock(g: Graph, code: seq<Op>, pos: seq<nat>, p: nat, at: nat, ghost q: nat)
    returns (code': seq<Op>, pos': seq<nat>)
    requires Packed(g, code, pos, p, at) && p < q <= |g.bb| && g.bb[p].used && forall c :: p < c < q ==> !g.bb[c].used
    ensures Packed(g, code', pos', q, at + g.bb[p].len) && pos' == pos[p := at]
  {
    assert BlockInRange(g, p);
    code', pos' := code, pos[p := at];
    if g.bb[p].len > 0 {
      code' := Memmove(code, at, p, g.bb[p].len);
    }
    MovedPacked(g, code, pos, p, at, code', pos', q);
  }

  lemma NothingPacked(g: Graph, pos: seq<nat>)
    requires Layout(g) && |pos| == |g.bb|
    ensures Packed(g, g.code, pos, 0, 0)
  {
    forall c | 0 <= c < |g.bb| ensures Untouched(g, g.code, c) {
      assert BlockInRange(g, c);
    }
  }

  // Compacting Optimized Code
  method Compact(g: Graph) returns (code: seq<Op>, pos: seq<nat>, at: nat)
    requires Layout(g) && g.bb[0].used
    ensures Packed(g, code, pos, |g.bb|, at) && pos[0] == 0
  {
    code, at := g.code, 0;
    pos := seq(|g.bb|, _ => 0);
    var p := 0;
    assert BlockInRange(g, 0);
    NothingPacked(g, pos);
    while p < |g.bb|
      invariant Packed(g, code, pos, p, at) && (p < |g.bb| ==> g.bb[p].start.Some?)
      invariant p == 0 ==> at == 0
      invariant pos[0] == 0
      decreases |g.bb| - p
    {
      var q := if g.bb[p].next.Some? then g.bb[p].next.value else |g.bb|;
      WalkPast(g, p, q);
      if g.bb[p].used {
        code, pos := MoveBlock(g, code, pos, p, at, q);
        at := at + g.bb[p].len;
      } else {
        SkippedPacked(g, code, pos, p, at, q);
      }
      p := q;
    }
  }

  // ----- branch targets -----

  // Blocks before p have their targets set.
  ghost predicate Aimed(g: Graph, code: seq<Op>, pos: seq<nat>, p: nat)
    requires |pos| == |g.bb|
  {
    forall b :: 0 <= b < |g.bb| && b < p && g.bb[b].used && g.bb[b].len > 0 && pos[b] + g.bb[b].len <= |code| ==>
      var f := code[pos[b] + g.bb[b].len - 1];
      AimsAt(g.bb[b].jmp1, pos, f.to1) && AimsAt(g.bb[b].jmp2, pos, f.to2) && AimsAt(g.bb[b].ext, pos, f.ext)
  }

  ghost predicate AllCopied(g: Graph, code: seq<Op>, pos: seq<nat>)
    requires |pos| == |g.bb|
  {
    forall b :: 0 <= b < |g.bb| && g.bb[b].used ==> Copied(g, code, pos, b)
  }

  lemma AimOne(g: Graph, code: seq<Op>, pos: seq<nat>, p: nat, code': seq<Op>)
    requires InRange(g) && p < |g.bb| == |pos| && g.bb[p].used && 0 < g.bb[p].len && BlockInRange(g, p) && Shaped(g, p)
    requires AllCopied(g, code, pos) && Ordered(g, pos, |g.bb|) && Aimed(g, code, pos, p)
    requires pos[p] + g.bb[p].len <= |code|
    requires code' == code[pos[p] + g.bb[p].len - 1 := SetTargets(code[pos[p] + g.bb[p].len - 1], g.bb[p], pos)]
    ensures AllCopied(g, code', pos) && Aimed(g, code', pos, p + 1)
  {
    var l := pos[p] + g.bb[p].len - 1;
    assert Copied(g, code, pos, p) && Corresponds(code, pos[p], g.code, p, g.bb[p].len - 1);
    forall b | 0 <= b < |g.bb| && g.bb[b].used ensures Copied(g, code', pos, b) {
      assert Copied(g, code, pos, b);
      forall i | 0 <= i < g.bb[b].len ensures Corresponds(code', pos[b], g.code, b, i) {
        assert Corresponds(code, pos[b], g.code, b, i);
      }
    }
    assert forall t: nat :: HasEdge(g.bb[p], t) ==> t < |g.bb|;
    assert g.bb[p].jmp1.Some? ==> HasEdge(g.bb[p], g.bb[p].jmp1.value);
    assert g.bb[p].jmp2.Some? ==> HasEdge(g.bb[p], g.bb[p].jmp2.value);
    assert g.bb[p].ext.Some? ==> HasEdge(g.bb[p], g.bb[p].ext.value);
  }

  lemma AimedSkip(g: Graph, code: seq<Op>, pos: seq<nat>, p: nat, q: nat)
    requires |pos| == |g.bb| && Aimed(g, code, pos, p) && p <= q && forall c ::
               p <= c < q && c < |g.bb| ==> !g.bb[c].used || g.bb[c].len == 0
    ensures Aimed(g, code, pos, q)
  {
  }

  // Set Branch Targets
  method SetBranchTargets(g: Graph, code: seq<Op>, pos: seq<nat>) returns (out: seq<Op>)
    requires Layout(g) && |pos| == |g.bb| && g.bb[0].used && AllCopied(g, code, pos) && Ordered(g, pos, |g.bb|)
    ensures |out| == |code| && AllCopied(g, out, pos) && Aimed(g, out, pos, |g.bb|)
  {
    out := code;
    var p := 0;
    assert BlockInRange(g, 0);
    while p < |g.bb|
      invariant p <= |g.bb| && |out| == |code| && (p < |g.bb| ==> g.bb[p].start.Some?)
      invariant AllCopied(g, out, pos) && Aimed(g, out, pos, p)
      decreases |g.bb| - p
    {
      assert BlockInRange(g, p) && Shaped(g, p);
      var q := if g.bb[p].next.Some? then g.bb[p].next.value else |g.bb|;
      forall c | p < c < q ensures !g.bb[c].used {
        assert Skipped(g.bb[p], c);
      }
      if g.bb[p].used && g.bb[p].len > 0 {
        ghost var out0 := out;
        assert Copied(g, out, pos, p);
        var l := pos[p] + g.bb[p].len - 1;
        out := out[l := SetTargets(out[l], g.bb[p], pos)];
        AimOne(g, out0, pos, p, out);
        AimedSkip(g, out, pos, p + 1, q);
      } else {
        AimedSkip(g, out, pos, p, q);
      }
      p := q;
    }
  }

  lemma CutCopied(g: Graph, code: seq<Op>, pos: seq<nat>, at: nat)
    requires |pos| == |g.bb| && at <= |code| && Behind(g, code, pos, |g.bb|, at)
    ensures AllCopied(g, code[..at], pos)
  {
    forall b | 0 <= b < |g.bb| && g.bb[b].used ensures Copied(g, code[..at], pos, b) {
      assert Copied(g, code, pos, b);
      forall i | 0 <= i < g.bb[b].len ensures Corresponds(code[..at], pos[b], g.code, b, i) {
        assert Corresponds(code, pos[b], g.code, b, i);
      }
    }
  }

  // emit_cfg: the code it leaves is the graph laid out.
  method Emit(g: Graph) returns (out: seq<Op>, ghost pos: seq<nat>)
    requires Layout(g) && Closed(g.bb) && g.bb[0].used
    ensures LaidOut(g, out, pos) && Ordered(g, pos, |g.bb|) && Filled(g, pos, |g.bb|, |out|)
  {
    var code, ps, at := Compact(g);
    CutCopied(g, code, ps, at);
    out := SetBranchTargets(g, code[..at], ps);
    pos := ps;
    EmittedLaidOut(g, out, ps, at);
  }

  lemma EmittedLaidOut(g: Graph, out: seq<Op>, pos: seq<nat>, at: nat)
    requires Layout(g) && Closed(g.bb) && g.bb[0].used && |pos| == |g.bb| && pos[0] == 0
    requires AllCopied(g, out, pos) && Aimed(g, out, pos, |g.bb|) && Tight(g, pos, |g.bb|, at)
    ensures LaidOut(g, out, pos)
  {
    forall b: nat | b < |g.bb| && g.bb[b].used ensures LaidOutBlock(g, out, pos, b) {
      assert BlockInRange(g, b) && Placed(g, b) && Copied(g, out, pos, b);
      if FallsThrough(g, b) {
        assert NextUsed(g.bb, b, g.bb[b].follow);
        var f := g.bb[b].follow.value;
        assert HasEdge(g.bb[b], f);
      }
    }
  }
}
