// What optimize_jmp leaves, on code and pointers alone: when it stops by itself, no jump is left that could be spared.
module Polish {
  import opened Options
  import opened Opcodes
  import opened Graphs
  import opened Rewrites
  import opened JumpRules
  import opened Trails

  // The block is one JMP.
  predicate LoneJmp(g: Graph, r: Ref) {
    r.Some? && r.value < |g.bb| && r.value < |g.code| && g.bb[r.value].len == 1 && g.code[r.value].code.Jmp?
  }

  predicate Tester(c: Opcode) {
    c.Jmpz? || c.Jmpnz? || c.Jmpznz?
  }

  // The block is one test of x.
  predicate LoneTest(g: Graph, r: Ref, x: Operand) {
    && r.Some? && r.value < |g.bb| && r.value < |g.code| && g.bb[r.value].len == 1
    && Tester(g.code[r.value].code) && g.code[r.value].op1 == x
  }

  // The block is one test of x that keeps its outcome in x.
  predicate LoneKeep(g: Graph, r: Ref, x: Operand) {
    && r.Some? && r.value < |g.bb| && r.value < |g.code| && g.bb[r.value].len == 1
    && (g.code[r.value].code.JmpzEx? || g.code[r.value].code.JmpnzEx?)
    && g.code[r.value].op1 == x && g.code[r.value].res == x
  }

  // The block is one RETURN or EXIT.
  predicate LoneReturn(g: Graph, r: Ref) {
    && r.Some? && r.value < |g.bb| && r.value < |g.code| && g.bb[r.value].len == 1
    && (g.code[r.value].code.Return? || g.code[r.value].code.Exit?)
  }

  // The instruction at the end of b is op.  Nothing about its ways can be spared: ...
  predicate SparesWays(g: Graph, p: nat, b: Block, op: Op) {
    // a JMP does not lead to another JMP,
    && (op.code.Jmp? && LoneJmp(g, b.jmp1) ==> b.jmp1 == Some(p))
    // tests are of no constants, and the two ways lead to different blocks,
    && (Tester(op.code) ==> !op.op1.Const?)
    && (op.code.Jmpz? || op.code.Jmpnz? || op.code.JmpzEx? || op.code.JmpnzEx? ==> b.jmp2 != b.follow)
    && (op.code.Jmpznz? ==> b.jmp2 != b.ext)
    // no way leads to a JMP,
    && (op.code.Jmpznz? ==> !LoneJmp(g, b.jmp2) && !LoneJmp(g, b.ext))
    && (op.code.Jmpz? || op.code.Jmpnz? ==> !LoneJmp(g, b.jmp2) && !LoneJmp(g, b.follow))
    && (op.code.JmpzEx? || op.code.JmpnzEx? || op.code.New? || op.code.FeFetch? ==> !LoneJmp(g, b.jmp2))
    // and none to another test of the same temporary; ...
    && ((op.code.Jmpz? || op.code.Jmpnz?) && op.op1.Tmp? ==> !LoneTest(g, b.jmp2, op.op1))
    && ((op.code.JmpzEx? || op.code.JmpnzEx?) && op.res.Tmp? ==>
          !LoneTest(g, b.jmp2, op.res) && !LoneKeep(g, b.jmp2, op.res))
    && (op.code.Jmpznz? && op.op1.Tmp? ==>
          !LoneTest(g, b.jmp2, op.op1) && (Lone(g, b.jmp2) ==> !LoneTest(g, b.ext, op.op1)))
  }

  // ... and it does not jump to the next block where it could go on.
  predicate SparesNothing(g: Graph, p: nat, b: Block, op: Op) {
    && SparesWays(g, p, b, op)
    && (op.code.Jmp? ==> b.jmp1 != b.next)
    && (op.code.Jmpznz? ==> b.jmp2 != b.next && b.ext != b.next)
  }

  predicate Lone(g: Graph, r: Ref) {
    r.Some? && r.value < |g.bb| && g.bb[r.value].len == 1
  }

  predicate Polished(g: Graph, p: nat) {
    && p < |g.bb| && g.bb[p].len > 0 && p + g.bb[p].len <= |g.code|
    && SparesNothing(g, p, g.bb[p], g.code[p + g.bb[p].len - 1])
  }

  // No rule applies to the end of p, and no way out of it leads to a lone JMP.
  predicate Still(g: Graph, p: nat) {
    Ready(g, p) && Pick(g, p).None?
    && var c := Last(g, p).code;
       && (c.Jmp? ==> ThreadJmp1(g, p).None?)
       && (FollowsJmp2(c) ==> ThreadJmp2(g, p, Other(g, p)).None?)
       && (c.Jmpznz? ==> ThreadExt(g, p).None?)
  }

  // The block behind p on the list is in use and led to, ...
  predicate NextLedTo(g: Graph, p: nat)
    requires p < |g.bb|
  {
    g.bb[p].next.Some? ==>
      var q := g.bb[p].next.value; q < |g.bb| && g.bb[q].used && g.bb[q].pred != []
  }

  // ... and p is not the block behind its only predecessor, which goes there and nowhere else.
  predicate StandsAlone(g: Graph, p: nat)
    requires p < |g.bb|
  {
    forall x :: 0 <= x < |g.bb| && g.bb[p].pred == [x] && g.bb[x].used && g.bb[x].follow == g.bb[x].next == Some(p) ==>
      g.bb[x].jmp1.Some? || g.bb[x].jmp2.Some? || g.bb[x].ext.Some?
  }

  predicate RestsHere(g: Graph, p: nat)
    requires p < |g.bb|
  {
    NextLedTo(g, p) && StandsAlone(g, p) && (g.bb[p].len > 0 ==> Polished(g, p))
  }

  // p ends in a JMP to a RETURN or EXIT.
  predicate JumpsToReturn(g: Graph, p: nat) {
    && p < |g.bb| && g.bb[p].len > 0 && p + g.bb[p].len <= |g.code|
    && g.code[p + g.bb[p].len - 1].code.Jmp? && LoneReturn(g, g.bb[p].jmp1)
  }

  // Nothing in use can be spared, merged or unlinked.
  ghost predicate Rests(g: Graph) {
    forall p: nat {:trigger RestsHere(g, p)} :: p < |g.bb| && g.bb[p].used ==> RestsHere(g, p)
  }

  // ----- when each rule applies -----

  // A block in use that p leads to starts at its own line.
  lemma FirstIs(g: Graph, p: nat, r: Ref, T: nat, bools: set<nat>)
    requires Inv(g, T, bools) && p < |g.bb| && g.bb[p].used && (r.Some? ==> HasEdge(g.bb[p], r.value))
    ensures r.Some? ==> r.value < |g.bb| && r.value < |g.code| && First(g, r.value) == g.code[r.value]
    ensures r.Some? && Control(First(g, r.value).code) ==> g.bb[r.value].len == 1
    ensures IsJump(g, r) <==> LoneJmp(g, r)
    ensures Single(g, r) <==> Lone(g, r)
  {
    if r.Some? {
      PointsTo(g, p, r.value, T, bools);
      if Control(First(g, r.value).code) { JumpIsWhole(g, r.value); }
    }
  }

  lemma JmpApplies(g: Graph, p: nat, T: nat, bools: set<nat>)
    requires Inv(g, T, bools) && Ready(g, p) && g.bb[p].used && Last(g, p).code.Jmp?
    ensures JmpRule(g, p).Some? <==> g.bb[p].jmp1 == g.bb[p].next
    ensures ThreadJmp1(g, p).Some? <==> LoneJmp(g, g.bb[p].jmp1) && g.bb[p].jmp1 != Some(p)
  {
    FirstIs(g, p, g.bb[p].jmp1, T, bools);
  }

  lemma TestApplies(g: Graph, p: nat, T: nat, bools: set<nat>)
    requires Inv(g, T, bools) && Ready(g, p) && g.bb[p].used && (Last(g, p).code.Jmpz? || Last(g, p).code.Jmpnz?)
    ensures var b, x := g.bb[p], Last(g, p).op1;
            TestRule(g, p, Last(g, p).code.Jmpnz?).Some? <==>
              b.jmp2 == b.follow || x.Const? || LoneJmp(g, b.follow) || (x.Tmp? && LoneTest(g, b.jmp2, x))
  {
    FirstIs(g, p, g.bb[p].jmp2, T, bools);
    FirstIs(g, p, g.bb[p].follow, T, bools);
  }

  lemma ExApplies(g: Graph, p: nat, T: nat, bools: set<nat>)
    requires Inv(g, T, bools) && Ready(g, p) && g.bb[p].used && Ex(Last(g, p).code)
    ensures var b, x := g.bb[p], Last(g, p).res;
            ExRule(g, p, Last(g, p).code.JmpnzEx?).Some? <==>
              b.jmp2 == b.follow || (x.Tmp? && (LoneTest(g, b.jmp2, x) || LoneKeep(g, b.jmp2, x)))
  {
    FirstIs(g, p, g.bb[p].jmp2, T, bools);
  }

  lemma ZnzApplies(g: Graph, p: nat, T: nat, bools: set<nat>)
    requires Inv(g, T, bools) && Ready(g, p) && g.bb[p].used && Last(g, p).code.Jmpznz?
    ensures var b, x := g.bb[p], Last(g, p).op1;
            ZnzRule(g, p).Some? <==>
              || b.ext == b.jmp2 || x.Const? || b.ext == b.next || b.jmp2 == b.next
              || (x.Tmp? && (LoneTest(g, b.jmp2, x) || (Lone(g, b.jmp2) && LoneTest(g, b.ext, x))))
  {
    InvLast(g, p, T, bools);
    FirstIs(g, p, g.bb[p].jmp2, T, bools);
    FirstIs(g, p, g.bb[p].ext, T, bools);
  }

  lemma ReturnApplies(g: Graph, p: nat, T: nat, bools: set<nat>)
    requires Inv(g, T, bools) && Ready(g, p) && g.bb[p].used
    ensures ReturnRule(g, p).Some? <==> Last(g, p).code.Jmp? && LoneReturn(g, g.bb[p].jmp1)
  {
    FirstIs(g, p, g.bb[p].jmp1, T, bools);
  }

  lemma ThreadsApply(g: Graph, p: nat, other: Ref, T: nat, bools: set<nat>)
    requires Inv(g, T, bools) && Ready(g, p) && g.bb[p].used
    ensures ThreadJmp2(g, p, other).Some? <==> LoneJmp(g, g.bb[p].jmp2)
    ensures ThreadExt(g, p).Some? <==> LoneJmp(g, g.bb[p].ext)
  {
    FirstIs(g, p, g.bb[p].jmp2, T, bools);
    FirstIs(g, p, g.bb[p].ext, T, bools);
  }

  lemma TwoWayStill(g: Graph, p: nat, T: nat, bools: set<nat>)
    requires Inv(g, T, bools) && Ready(g, p) && g.bb[p].used && TwoWay(Last(g, p).code)
    ensures Still(g, p) <==> Polished(g, p)
  {
    var c := Last(g, p).code;
    ThreadsApply(g, p, Other(g, p), T, bools);
    if c.Jmpz? || c.Jmpnz? { TestApplies(g, p, T, bools); }
    else if Ex(c) { ExApplies(g, p, T, bools); }
  }

  lemma ZnzStill(g: Graph, p: nat, T: nat, bools: set<nat>)
    requires Inv(g, T, bools) && Ready(g, p) && g.bb[p].used && Last(g, p).code.Jmpznz?
    ensures Still(g, p) <==> Polished(g, p)
  {
    ThreadsApply(g, p, Other(g, p), T, bools);
    ZnzApplies(g, p, T, bools);
  }

  // No rule applies to a block exactly when nothing at its end can be spared.
  lemma StillExactly(g: Graph, p: nat, T: nat, bools: set<nat>)
    requires Inv(g, T, bools) && p < |g.bb| && g.bb[p].used && g.bb[p].len > 0
    ensures Still(g, p) <==> Polished(g, p)
  {
    assert BlockInRange(g, p);
    var c := Last(g, p).code;
    if c.Jmp? { JmpApplies(g, p, T, bools); }
    else if c.Jmpznz? { ZnzStill(g, p, T, bools); }
    else if TwoWay(c) { TwoWayStill(g, p, T, bools); }
  }
}
