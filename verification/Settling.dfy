// In flow without cycles optimize_jmp comes to rest by itself: every step brings the graph further down.
module Settling {
  import opened Options
  import opened Opcodes
  import opened Graphs
  import opened Preds
  import opened Rewrites
  import opened Ways
  import opened DeleteMerge
  import opened JumpRules
  import opened Trails
  import opened Polish

  // ----- how much is left to do -----

  // No block is ranked above `top`.
  ghost predicate Topped(rank: seq<nat>, top: nat) {
    forall b :: 0 <= b < |rank| ==> rank[b] <= top
  }

  // How far a way may still be moved on.
  function Room(rank: seq<nat>, top: nat, r: Ref): nat {
    if r.Some? && r.value < |rank| && rank[r.value] <= top then top + 1 - rank[r.value] else 0
  }

  function EdgeRoom(rank: seq<nat>, top: nat, e: Edges): nat {
    Room(rank, top, e.jmp1) + Room(rank, top, e.jmp2) + Room(rank, top, e.ext) + Room(rank, top, e.follow)
  }

  // How often a jump may still become a simpler one on the same ways.
  function OpRoom(op: Op): nat {
    if op.code.Jmpznz? then 2
    else if op.code.Jmpz? || op.code.Jmpnz? then 1
    else if op.code.Jmp? then (if op.ext == ZEND_BRK || op.ext == ZEND_CONT then 2 else 1)
    else 0
  }

  function NextRoom(n: nat, r: Ref): nat {
    if r.Some? && r.value <= n then n + 1 - r.value else 0
  }

  function TailRoom(g: Graph, b: nat): nat
    requires b < |g.bb|
  {
    if g.bb[b].len > 0 && b + g.bb[b].len <= |g.code| then OpRoom(g.code[b + g.bb[b].len - 1]) else 0
  }

  function BlockRoom(g: Graph, b: nat, rank: seq<nat>, top: nat): nat
    requires b < |g.bb|
  {
    NextRoom(|g.bb|, g.bb[b].next) + if g.bb[b].used then 3 * EdgeRoom(rank, top, EdgesOf(g.bb[b])) + TailRoom(g, b)
      else 0
  }

  function Rooms(g: Graph, rank: seq<nat>, top: nat): (r: seq<nat>)
    ensures |r| == |g.bb|
  {
    seq(|g.bb|, b requires 0 <= b < |g.bb| => BlockRoom(g, b, rank, top))
  }

  function Sum(s: seq<nat>): nat {
    if s == [] then 0 else Sum(s[..|s| - 1]) + s[|s| - 1]
  }

  function Left(g: Graph, rank: seq<nat>, top: nat): nat {
    Sum(Rooms(g, rank, top))
  }

  // ----- sums -----

  lemma {:induction false} SumLess(a: seq<nat>, b: seq<nat>)
    requires |a| == |b| && forall i :: 0 <= i < |a| ==> a[i] <= b[i]
    ensures Sum(a) <= Sum(b) && ((exists i :: 0 <= i < |a| && a[i] < b[i]) ==> Sum(a) < Sum(b))
    decreases |a|
  {
    if a != [] {
      var n := |a| - 1;
      SumLess(a[..n], b[..n]);
      if i :| 0 <= i < |a| && a[i] < b[i] { assert i < n ==> a[..n][i] < b[..n][i]; }
    }
  }

  lemma {:induction false} SumUpdate(a: seq<nat>, i: nat, x: nat)
    requires i < |a|
    ensures Sum(a[i := x]) == Sum(a) - a[i] + x
    decreases |a|
  {
    var n := |a| - 1;
    if i < n {
      SumUpdate(a[..n], i, x);
      assert a[i := x][..n] == a[..n][i := x];
    } else {
      assert a[i := x][..n] == a[..n];
    }
  }

  // Two of them change places in part.
  lemma SumLessByTwo(a: seq<nat>, b: seq<nat>, x: nat, y: nat)
    requires |a| == |b| && x < |a| && y < |a| && x != y && a[x] + a[y] < b[x] + b[y]
    requires forall i :: 0 <= i < |a| && i != x && i != y ==> a[i] <= b[i]
    ensures Sum(a) < Sum(b)
  {
    var c := b[x := a[x]][y := a[y]];
    SumUpdate(b, x, a[x]);
    SumUpdate(b[x := a[x]], y, a[y]);
    SumLess(a, c);
  }

  // ----- every rewrite lowers its block -----

  // The new way leads on from where the old one led.
  lemma Further(g: Graph, p: nat, t: nat, u: nat, rank: seq<nat>, top: nat)
    requires Uphill(g, rank) && Topped(rank, top) && Closed(g.bb) && p < |g.bb| && g.bb[p].used
    requires HasEdge(g.bb[p], t) && t < |g.bb| && HasEdge(g.bb[t], u)
    ensures u < |g.bb| && Room(rank, top, Some(u)) < Room(rank, top, Some(t))
  {
    assert g.bb[t].used;
  }

  lemma SomeRoom(g: Graph, p: nat, r: Ref, rank: seq<nat>, top: nat)
    requires Uphill(g, rank) && Topped(rank, top) && p < |g.bb| && g.bb[p].used && r.Some? && HasEdge(g.bb[p], r.value)
    ensures Room(rank, top, r) > 0
  {
  }

  // Where a block that is one test leads.
  lemma TestOut(g: Graph, t: nat)
    requires t < |g.bb| && BlockInRange(g, t) && Shaped(g, t) && g.bb[t].len == 1
    requires var c := First(g, t).code; c.Jmpz? || c.Jmpnz? || c.Jmpznz? || Ex(c)
    ensures var b, c := g.bb[t], First(g, t).code;
            && OnTrue(b, c).Some? && HasEdge(b, OnTrue(b, c).value) && OnFalse(b, c).Some?
            && HasEdge(b, OnFalse(b, c).value)
  {
  }

  ghost predicate Lower(g: Graph, p: nat, ed: Edit, rank: seq<nat>, top: nat)
    requires Ready(g, p)
  {
    3 * EdgeRoom(rank, top, ed.e)
      + (if ed.shrink then 0 else OpRoom(ed.op)) < 3 * EdgeRoom(rank, top, EdgesOf(g.bb[p])) + OpRoom(Last(g, p))
  }

  ghost predicate Sloping(g: Graph, p: nat, rank: seq<nat>, top: nat, T: nat, bools: set<nat>) {
    && Inv(g, T, bools) && Closed(g.bb) && Uphill(g, rank) && Topped(rank, top) && Ready(g, p) && g.bb[p].used
    && TailShape(Last(g, p).code, EdgesOf(g.bb[p]))
  }

  lemma JmpLower(g: Graph, p: nat, ed: Edit, rank: seq<nat>, top: nat, T: nat, bools: set<nat>)
    requires Sloping(g, p, rank, top, T, bools) && Last(g, p).code.Jmp?
    requires JmpRule(g, p) == Some(ed) || ThreadJmp1(g, p) == Some(ed) || ReturnRule(g, p) == Some(ed)
    ensures Lower(g, p, ed, rank, top)
  {
    var t := g.bb[p].jmp1;
    assert HasEdge(g.bb[p], t.value);
    SomeRoom(g, p, t, rank, top);
    PointsTo(g, p, t.value, T, bools);
    if IsJump(g, t) {
      JumpTarget(g, t.value);
      Further(g, p, t.value, g.bb[t.value].jmp1.value, rank, top);
    }
  }

  lemma ZnzLower(g: Graph, p: nat, ed: Edit, rank: seq<nat>, top: nat, T: nat, bools: set<nat>)
    requires Sloping(g, p, rank, top, T, bools) && Last(g, p).code.Jmpznz? && ZnzRule(g, p) == Some(ed)
    ensures Lower(g, p, ed, rank, top)
  {
    var b := g.bb[p];
    assert HasEdge(b, b.jmp2.value) && HasEdge(b, b.ext.value);
    SomeRoom(g, p, b.jmp2, rank, top);
    SomeRoom(g, p, b.ext, rank, top);
    if b.ext != b.jmp2 && !Last(g, p).op1.Const? && b.ext != b.next && b.jmp2 != b.next {
      ZnzThreadLower(g, p, ed, rank, top, T, bools);
    }
  }

  lemma ZnzThreadLower(g: Graph, p: nat, ed: Edit, rank: seq<nat>, top: nat, T: nat, bools: set<nat>)
    requires Sloping(g, p, rank, top, T, bools) && Last(g, p).code.Jmpznz? && ZnzThread(g, p) == Some(ed)
    ensures Lower(g, p, ed, rank, top)
  {
    var b := g.bb[p];
    assert HasEdge(b, b.jmp2.value) && HasEdge(b, b.ext.value);
    PointsTo(g, p, b.jmp2.value, T, bools);
    PointsTo(g, p, b.ext.value, T, bools);
    var z, nz := First(g, b.jmp2.value), First(g, b.ext.value);
    if (z.code.Jmpz? || z.code.Jmpznz? || z.code.Jmpnz?) && Tests(z, Last(g, p).op1) {
      JumpIsWhole(g, b.jmp2.value);
      TestOut(g, b.jmp2.value);
      Further(g, p, b.jmp2.value, OnFalse(g.bb[b.jmp2.value], z.code).value, rank, top);
    } else {
      JumpIsWhole(g, b.ext.value);
      TestOut(g, b.ext.value);
      Further(g, p, b.ext.value, OnTrue(g.bb[b.ext.value], nz.code).value, rank, top);
    }
  }

  lemma ThreadLower(g: Graph, p: nat, ed: Edit, other: Ref, rank: seq<nat>, top: nat, T: nat, bools: set<nat>)
    requires Sloping(g, p, rank, top, T, bools) && (ThreadJmp2(g, p, other) == Some(ed) || ThreadExt(g, p) == Some(ed))
    ensures Lower(g, p, ed, rank, top)
  {
    var t := if ThreadJmp2(g, p, other) == Some(ed) then g.bb[p].jmp2 else g.bb[p].ext;
    assert HasEdge(g.bb[p], t.value);
    PointsTo(g, p, t.value, T, bools);
    JumpTarget(g, t.value);
    Further(g, p, t.value, g.bb[t.value].jmp1.value, rank, top);
  }

  lemma TestThreadLower(g: Graph, p: nat, x: Operand, taken: bool, ed: Edit, rank: seq<nat>, top: nat, T: nat,
                        bools: set<nat>)
    requires Sloping(g, p, rank, top, T, bools) && Single(g, g.bb[p].jmp2) && TestThread(g, p, x, taken) == Some(ed)
    ensures Lower(g, p, ed, rank, top)
  {
    var t := g.bb[p].jmp2;
    assert HasEdge(g.bb[p], t.value);
    PointsTo(g, p, t.value, T, bools);
    TestOut(g, t.value);
    var u := if taken then OnTrue(g.bb[t.value], First(g, t.value).code)
      else OnFalse(g.bb[t.value], First(g, t.value).code);
    Further(g, p, t.value, u.value, rank, top);
  }

  lemma TestLower(g: Graph, p: nat, ed: Edit, rank: seq<nat>, top: nat, T: nat, bools: set<nat>)
    requires Sloping(g, p, rank, top, T, bools) && (Last(g, p).code.Jmpz? || Last(g, p).code.Jmpnz?)
    requires TestRule(g, p, Last(g, p).code.Jmpnz?) == Some(ed)
    ensures Lower(g, p, ed, rank, top)
  {
    var b, op := g.bb[p], Last(g, p);
    assert HasEdge(b, b.jmp2.value) && HasEdge(b, b.follow.value);
    SomeRoom(g, p, b.jmp2, rank, top);
    SomeRoom(g, p, b.follow, rank, top);
    if b.follow != b.jmp2 && !op.op1.Const? {
      if IsJump(g, b.follow) {
        PointsTo(g, p, b.follow.value, T, bools);
        JumpTarget(g, b.follow.value);
        Further(g, p, b.follow.value, g.bb[b.follow.value].jmp1.value, rank, top);
      } else {
        TestThreadLower(g, p, op.op1, op.code.Jmpnz?, ed, rank, top, T, bools);
      }
    }
  }

  lemma ExLower(g: Graph, p: nat, ed: Edit, rank: seq<nat>, top: nat, T: nat, bools: set<nat>)
    requires Sloping(g, p, rank, top, T, bools) && Ex(Last(g, p).code)
    requires ExRule(g, p, Last(g, p).code.JmpnzEx?) == Some(ed)
    ensures Lower(g, p, ed, rank, top)
  {
    var b, op := g.bb[p], Last(g, p);
    assert HasEdge(b, b.jmp2.value);
    SomeRoom(g, p, b.jmp2, rank, top);
    if b.follow != b.jmp2 { TestThreadLower(g, p, op.res, op.code.JmpnzEx?, ed, rank, top, T, bools); }
  }

  lemma ChosenLower(g: Graph, p: nat, ed: Edit, rank: seq<nat>, top: nat, T: nat, bools: set<nat>)
    requires Sloping(g, p, rank, top, T, bools) && Chosen(g, p, ed)
    ensures Lower(g, p, ed, rank, top)
  {
    var c := Last(g, p).code;
    if Pick(g, p) == Some(ed) {
      if c.Jmp? { JmpLower(g, p, ed, rank, top, T, bools); }
      else if c.Jmpznz? { ZnzLower(g, p, ed, rank, top, T, bools); }
      else if c.Jmpz? || c.Jmpnz? { TestLower(g, p, ed, rank, top, T, bools); }
      else { ExLower(g, p, ed, rank, top, T, bools); }
    } else if c.Jmp? {
      JmpLower(g, p, ed, rank, top, T, bools);
    } else {
      ThreadLower(g, p, ed, Other(g, p), rank, top, T, bools);
    }
  }

  // ----- every step lowers the graph -----

  // A block elsewhere, whose last line is as it was or a NOP.
  lemma OtherRoom(g: Graph, g': Graph, b: nat, rank: seq<nat>, top: nat)
    requires b < |g.bb| == |g'.bb| && |g'.code| == |g.code| && g'.bb[b].next == g.bb[b].next
    requires (g'.bb[b].used ==> g.bb[b].used)
    requires g'.bb[b].used ==>
               EdgesOf(g'.bb[b]) == EdgesOf(g.bb[b]) && g'.bb[b].len == g.bb[b].len && TailRoom(g', b) <= TailRoom(g, b)
    ensures BlockRoom(g', b, rank, top) <= BlockRoom(g, b, rank, top)
  {
  }

  // The last lines of two blocks are different ones.
  lemma LastLines(g: Graph, b: nat, p: nat)
    requires InRange(g) && Disjoint(g) && b < |g.bb| && p < |g.bb| && b != p && g.bb[b].len > 0 && g.bb[p].len > 0
    ensures b + g.bb[b].len != p + g.bb[p].len
  {
  }

  lemma RewrittenRoom(g: Graph, g': Graph, p: nat, ed: Edit, rank: seq<nat>, top: nat)
    requires Ready(g, p) && g.bb[p].used && BlockInRange(g, p) && Shaped(g, p)
    requires Rewritten(g, g', p, ed.op, ed.shrink, ed.e)
    requires Lower(g, p, ed, rank, top)
    ensures BlockRoom(g', p, rank, top) < BlockRoom(g, p, rank, top)
  {
    var n := g.bb[p].len;
    if ed.shrink && n > 1 {
      assert g.code[p .. p + n - 1][n - 2] == g.code[p + n - 2] == g'.code[p + n - 2];
    }
    assert g'.bb[p].next == g.bb[p].next && EdgesOf(g'.bb[p]) == ed.e;
  }

  lemma RuleLess(g: Graph, prev: Option<Move>, p: nat, ed: Edit, rank: seq<nat>, top: nat, T: nat, bools: set<nat>)
    requires Inv(g, T, bools) && Allowed(g, prev, Rule(p, ed)) && InUse(g, prev) && Uphill(g, rank) && Topped(rank, top)
    ensures Left(Edited(g, p, ed), rank, top) < Left(g, rank, top)
  {
    var g' := Edited(g, p, ed);
    InvClosed(g, T, bools);
    RuleOnward(g, prev, p, ed, T, bools);
    assert BlockInRange(g, p) && Shaped(g, p);
    ChosenLower(g, p, ed, rank, top, T, bools);
    RewrittenRoom(g, g', p, ed, rank, top);
    forall b | 0 <= b < |g.bb| && b != p ensures BlockRoom(g', b, rank, top) <= BlockRoom(g, b, rank, top) {
      RuleOther(g, g', p, ed, b, rank, top);
    }
    SumLess(Rooms(g', rank, top), Rooms(g, rank, top));
    assert Rooms(g', rank, top)[p] < Rooms(g, rank, top)[p];
  }

  lemma RuleOther(g: Graph, g': Graph, p: nat, ed: Edit, b: nat, rank: seq<nat>, top: nat)
    requires InRange(g) && Disjoint(g) && Rewritten(g, g', p, ed.op, ed.shrink, ed.e) && b < |g.bb| && b != p
    ensures BlockRoom(g', b, rank, top) <= BlockRoom(g, b, rank, top)
  {
    if g.bb[b].len > 0 { LastLines(g, b, p); }
    OtherRoom(g, g', b, rank, top);
  }

  lemma UnlinkLess(g: Graph, p: nat, q: nat, rank: seq<nat>, top: nat, T: nat, bools: set<nat>)
    requires Inv(g, T, bools) && CanDelete(g, p, q)
    ensures Left(DeleteNext(g, p, q), rank, top) < Left(g, rank, top)
  {
    var g' := DeleteNext(g, p, q);
    DeleteBlocks(g, p, q);
    forall b | 0 <= b < |g.bb| ensures BlockRoom(g', b, rank, top) <= BlockRoom(g, b, rank, top)
      && (b == p ==> BlockRoom(g', b, rank, top) < BlockRoom(g, b, rank, top)) {
      UnlinkOther(g, g', p, q, b, rank, top);
    }
    SumLess(Rooms(g', rank, top), Rooms(g, rank, top));
    assert Rooms(g', rank, top)[p] < Rooms(g, rank, top)[p];
  }

  lemma UnlinkOther(g: Graph, g': Graph, p: nat, q: nat, b: nat, rank: seq<nat>, top: nat)
    requires InRange(g) && Deleted(g, g', p, q) && g.bb[p].start.Some? && g.bb[p].next == Some(q) && b < |g.bb|
    ensures BlockRoom(g', b, rank, top) <= BlockRoom(g, b, rank, top)
    ensures b == p ==> BlockRoom(g', b, rank, top) < BlockRoom(g, b, rank, top)
  {
    assert BlockInRange(g, p) && BlockInRange(g, q);
    var bb := g.bb[q := g.bb[q].(len := 0)][p := g.bb[p].(next := g.bb[q].next)];
    assert g'.bb[b] == bb[b].(pred := g'.bb[b].pred, used := g'.bb[b].used);
    if b != q { assert TailRoom(g', b) <= TailRoom(g, b); }
    if b == p {
      assert NextRoom(|g.bb|, g'.bb[p].next) < NextRoom(|g.bb|, g.bb[p].next);
    }
  }

  lemma JoinLess(g: Graph, x: nat, p: nat, rank: seq<nat>, top: nat, T: nat, bools: set<nat>)
    requires Inv(g, T, bools) && CanMerge(g, x, p) && Uphill(g, rank) && Topped(rank, top)
    ensures Left(Merge(g, x, p), rank, top) < Left(g, rank, top)
  {
    var g' := Merge(g, x, p);
    MergeBlocks(g, x, p);
    assert HasEdge(g.bb[x], p);
    SomeRoom(g, x, Some(p), rank, top);
    JoinTwo(g, g', x, p, rank, top);
    forall b | 0 <= b < |g.bb| && b != x && b != p ensures BlockRoom(g', b, rank, top) <= BlockRoom(g, b, rank, top) {
      JoinOther(g, g', x, p, b, rank, top);
    }
    SumLessByTwo(Rooms(g', rank, top), Rooms(g, rank, top), x, p);
  }

  lemma JoinTwo(g: Graph, g': Graph, x: nat, p: nat, rank: seq<nat>, top: nat)
    requires CanMerge(g, x, p) && Merged(g, g', x, p) && Room(rank, top, Some(p)) > 0
    ensures BlockRoom(g', x, rank, top) + BlockRoom(g', p, rank, top) < BlockRoom(g, x, rank, top)
            + BlockRoom(g, p, rank, top)
  {
    var bb := g.bb[x := WithEdges(g.bb[x].(len := p + g.bb[p].len - x), EdgesOf(g.bb[p]))][p := g.bb[p].(len := 0)];
    assert g'.bb[x] == bb[x].(pred := g'.bb[x].pred, used := g'.bb[x].used);
    assert g'.bb[p] == bb[p].(pred := g'.bb[p].pred, used := g'.bb[p].used);
    assert EdgesOf(g'.bb[x]) == EdgesOf(g.bb[p]) && TailRoom(g', x) <= TailRoom(g, p) + 2;
  }

  lemma JoinOther(g: Graph, g': Graph, x: nat, p: nat, b: nat, rank: seq<nat>, top: nat)
    requires Merged(g, g', x, p) && b < |g.bb| && b != x && b != p
    ensures BlockRoom(g', b, rank, top) <= BlockRoom(g, b, rank, top)
  {
    var bb := g.bb[x := WithEdges(g.bb[x].(len := p + g.bb[p].len - x), EdgesOf(g.bb[p]))][p := g.bb[p].(len := 0)];
    assert g'.bb[b] == bb[b].(pred := g'.bb[b].pred, used := g'.bb[b].used);
  }

  lemma MoveLess(g: Graph, prev: Option<Move>, m: Move, rank: seq<nat>, top: nat, T: nat, bools: set<nat>)
    requires Inv(g, T, bools) && Allowed(g, prev, m) && InUse(g, prev) && Uphill(g, rank) && Topped(rank, top)
    ensures Left(Result(g, prev, m), rank, top) < Left(g, rank, top)
  {
    match m
    case Rule(p, ed) => RuleLess(g, prev, p, ed, rank, top, T, bools);
    case Unlink(p, q) => UnlinkLess(g, p, q, rank, top, T, bools);
    case Join(x, p) => JoinLess(g, x, p, rank, top, T, bools);
  }

  // No run has more steps than there was room for, and it leaves the ways uphill.
  lemma {:induction false} TrailLess(g: Graph, prev: Option<Move>, ms: seq<Move>, g': Graph, rank: seq<nat>, top: nat,
                                     T: nat, bools: set<nat>)
    requires Inv(g, T, bools) && InUse(g, prev) && Trail(g, prev, ms, g') && Uphill(g, rank) && Topped(rank, top)
    ensures |ms| + Left(g', rank, top) <= Left(g, rank, top) && Uphill(g', rank)
    decreases |ms|
  {
    if ms != [] {
      var g1 := Result(g, prev, ms[0]);
      MoveKeeps(g, prev, ms[0], T, bools);
      assert NoCycle(g);
      UphillStep(g, prev, ms[0], T, bools);
      MoveOnward(g, prev, ms[0], T, bools);
      InvClosed(g, T, bools);
      UphillOnward(g, g1, rank);
      MoveLess(g, prev, ms[0], rank, top, T, bools);
      TrailLess(g1, Some(ms[0]), ms[1..], g', rank, top, T, bools);
    }
  }

  // ----- a bound -----

  lemma {:induction false} SumAtMost(s: seq<nat>, each: nat)
    requires forall i :: 0 <= i < |s| ==> s[i] <= each
    ensures Sum(s) <= |s| * each
    decreases |s|
  {
    if s != [] {
      SumAtMost(s[..|s| - 1], each);
      assert (|s| - 1) * each + each == |s| * each;
    }
  }

  lemma LeftAtMost(g: Graph, rank: seq<nat>, top: nat)
    requires Topped(rank, top)
    ensures Left(g, rank, top) <= |g.bb| * (|g.bb| + 12 * top + 15)
  {
    forall b | 0 <= b < |g.bb| ensures Rooms(g, rank, top)[b] <= |g.bb| + 12 * top + 15 {
    }
    SumAtMost(Rooms(g, rank, top), |g.bb| + 12 * top + 15);
  }

  // ----- what a run means for the budget -----

  // g' goes uphill wherever g does.
  ghost predicate SameRanks(g: Graph, g': Graph) {
    forall rank: seq<nat> :: Uphill(g, rank) ==> Uphill(g', rank)
  }

  function Highest(rank: seq<nat>): (top: nat)
    ensures forall b :: 0 <= b < |rank| ==> rank[b] <= top
  {
    if rank == [] then 0
    else
      var n, top := |rank| - 1, Highest(rank[..|rank| - 1]);
      assert forall b :: 0 <= b < n ==> rank[..n][b] == rank[b];
      if rank[n] > top then rank[n] else top
  }

  lemma TrailRanks(g: Graph, ms: seq<Move>, g': Graph, T: nat, bools: set<nat>)
    requires Inv(g, T, bools) && Trail(g, None, ms, g')
    ensures SameRanks(g, g')
  {
    forall rank: seq<nat> | Uphill(g, rank) ensures Uphill(g', rank) {
      TrailLess(g, None, ms, g', rank, Highest(rank), T, bools);
    }
  }

  lemma OnwardRanks(g: Graph, g': Graph)
    requires Closed(g.bb) && AllOnward(g, g')
    ensures SameRanks(g, g')
  {
    forall rank: seq<nat> | Uphill(g, rank) ensures Uphill(g', rank) { UphillOnward(g, g', rank); }
  }

  // Any run has fewer steps than this, in flow without cycles.
  ghost predicate FewSteps(g: Graph, n: nat) {
    forall rank: seq<nat>, top: nat {:trigger Left(g, rank, top)} ::
      Uphill(g, rank) && Topped(rank, top) ==> n <= Left(g, rank, top)
  }

  lemma TrailFew(g: Graph, ms: seq<Move>, g': Graph, T: nat, bools: set<nat>)
    requires Inv(g, T, bools) && Trail(g, None, ms, g')
    ensures FewSteps(g, |ms|)
  {
    forall rank: seq<nat>, top: nat {:trigger Left(g, rank, top)} | Uphill(g, rank) && Topped(rank, top)
      ensures |ms| <= Left(g, rank, top)
    {
      TrailLess(g, None, ms, g', rank, top, T, bools);
    }
  }

  // ----- where the loop does not end -----

  // A way out of p leads to a block that is one JMP to itself.
  ghost predicate Spins(g: Graph, p: nat) {
    && Ready(g, p) && g.bb[p].used && FollowsJmp2(Last(g, p).code) && LoneJmp(g, g.bb[p].jmp2)
    && g.bb[g.bb[p].jmp2.value].jmp1 == g.bb[p].jmp2
  }

  // Following that JMP leads nowhere else: the loop that follows it can go on for ever.
  lemma SpinsOn(g: Graph, prev: Option<Move>, p: nat, T: nat, bools: set<nat>) returns (ed: Edit)
    requires Inv(g, T, bools) && Spins(g, p)
    ensures Allowed(g, prev, Rule(p, ed)) && Inv(Edited(g, p, ed), T, bools) && Spins(Edited(g, p, ed), p)
  {
    var t := g.bb[p].jmp2.value;
    InvLast(g, p, T, bools);
    assert HasEdge(g.bb[p], t);
    FirstIs(g, p, Some(t), T, bools);
    ed := ThreadJmp2(g, p, Other(g, p)).value;
    assert ed.e == EdgesOf(g.bb[p]) && ed.op == Last(g, p) && !ed.shrink;
    ChosenSound(g, prev, p, ed, T, bools);
    EditKeeps(g, p, ed, T, bools);
    EditUses(g, p, ed);
    SpinsStill(g, Edited(g, p, ed), p, ed, T, bools);
  }

  lemma SpinsStill(g: Graph, g': Graph, p: nat, ed: Edit, T: nat, bools: set<nat>)
    requires Inv(g, T, bools) && Spins(g, p) && Rewritten(g, g', p, ed.op, ed.shrink, ed.e) && g'.bb[p].used
    requires ed.e == EdgesOf(g.bb[p]) && ed.op == Last(g, p) && !ed.shrink
    ensures Spins(g', p)
  {
    var t := g.bb[p].jmp2.value;
    assert BlockInRange(g, p) && BlockInRange(g, t);
    assert g'.code == g.code;
    assert p != t;
  }

  // However many steps are taken there, the graph is not at rest.
  lemma {:induction false} NeverEnds(g: Graph, prev: Option<Move>, p: nat, n: nat, T: nat, bools: set<nat>)
    returns (ms: seq<Move>, g': Graph)
    requires Inv(g, T, bools) && Spins(g, p)
    ensures |ms| == n && Trail(g, prev, ms, g') && !Rests(g')
    decreases n
  {
    if n == 0 {
      ms, g' := [], g;
      assert !Polished(g, p);
      assert !RestsHere(g, p);
    } else {
      var ed := SpinsOn(g, prev, p, T, bools);
      var rest;
      rest, g' := NeverEnds(Edited(g, p, ed), Some(Rule(p, ed)), p, n - 1, T, bools);
      ms := [Rule(p, ed)] + rest;
      assert ms[1..] == rest;
    }
  }
}
