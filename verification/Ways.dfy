// Where a jump can come to lead.  Threading sends it on through blocks of one jump, so it stays among the blocks that
// jumps alone lead to; a test whose other way is not among them always has two ways.
module Ways {
  import opened Options
  import opened Opcodes
  import opened Graphs
  import opened Preds

  // Block t is one jump.
  predicate OneJump(g: Graph, t: nat) {
    t < |g.bb| && t < |g.code| && g.bb[t].len == 1 && Control(g.code[t].code)
  }

  // S has every block that jumps alone lead to from a block of S.
  ghost predicate WaysIn(g: Graph, S: set<nat>) {
    forall t: nat, u: nat {:trigger HasEdge(g.bb[t], u), t in S} ::
      t < |g.bb| && g.bb[t].used && t in S && OneJump(g, t) && HasEdge(g.bb[t], u) ==> u in S
  }

  // The test at the end of p jumps to where jumps alone do not lead to the block after it.
  ghost predicate StaysApart(g: Graph, p: nat)
    requires p < |g.bb|
  {
    g.bb[p].jmp2.Some? && g.bb[p].follow.Some?
    && exists S: set<nat> :: WaysIn(g, S) && g.bb[p].jmp2.value in S && g.bb[p].follow.value !in S
  }

  // p ends in a test that keeps its outcome where it found it.
  predicate TestsItself(g: Graph, p: nat) {
    p < |g.bb| && 0 < g.bb[p].len && p + g.bb[p].len <= |g.code| && SelfTest(g.code[p + g.bb[p].len - 1])
  }

  // The temporary it tests.
  function Tested(g: Graph, p: nat): nat
    requires TestsItself(g, p)
  {
    g.code[p + g.bb[p].len - 1].res.n
  }

  ghost predicate ApartAt(g: Graph, p: nat, bools: set<nat>)
    requires p < |g.bb|
  {
    TestsItself(g, p) && Tested(g, p) !in bools ==> StaysApart(g, p)
  }

  // Every such test is of a Boolean or stays apart.
  ghost predicate TestsApart(g: Graph, bools: set<nat>) {
    forall p: nat {:trigger ApartAt(g, p, bools)} :: p < |g.bb| && g.bb[p].used ==> ApartAt(g, p, bools)
  }

  // ----- a change of the graph -----

  // From s one goes to u, or to a block that is one jump and from there to u.
  ghost predicate Leading(g: Graph, s: nat, u: nat) {
    s < |g.bb| && (HasEdge(g.bb[s], u) || exists t: nat :: Over(g, s, t, u))
  }

  ghost predicate Over(g: Graph, s: nat, t: nat, u: nat) {
    s < |g.bb| && HasEdge(g.bb[s], t) && OneJump(g, t) && HasEdge(g.bb[t], u)
  }

  // A pointer stays or goes on over one jump.
  ghost predicate GoesOn(g: Graph, r: Ref, r': Ref) {
    r' == r || (r.Some? && r'.Some? && OneJump(g, r.value) && HasEdge(g.bb[r.value], r'.value))
  }

  // b of g' leads where s of g did, or further over one jump; s is b itself or where b went on.
  ghost predicate Onward(g: Graph, g': Graph, b: nat, s: nat) {
    && b < |g'.bb| == |g.bb| && s < |g.bb| && g.bb[s].used && g.bb[b].used && (s == b || HasEdge(g.bb[b], s))
    && (OneJump(g', b) ==> s == b && OneJump(g, b))
    && (forall u: nat {:trigger HasEdge(g'.bb[b], u)} :: HasEdge(g'.bb[b], u) ==> Leading(g, s, u))
    && (TestsItself(g', b) ==>
          && TestsItself(g, s) && Tested(g, s) == Tested(g', b) && g'.bb[b].follow == g.bb[s].follow
          && GoesOn(g, g.bb[s].jmp2, g'.bb[b].jmp2))
  }

  ghost predicate AllOnward(g: Graph, g': Graph) {
    |g'.bb| == |g.bb| && forall b: nat {:trigger OnwardFrom(g, g', b)} :: b < |g'.bb| && g'.bb[b].used ==>
        OnwardFrom(g, g', b)
  }

  ghost predicate OnwardFrom(g: Graph, g': Graph, b: nat) {
    exists s: nat :: Onward(g, g', b, s)
  }

  lemma WaysStayIn(g: Graph, g': Graph, S: set<nat>)
    requires WaysIn(g, S) && Closed(g.bb) && AllOnward(g, g')
    ensures WaysIn(g', S)
  {
    forall b: nat, u: nat {:trigger HasEdge(g'.bb[b], u), b in S} | b < |g'.bb| && g'.bb[b].used && b in S
      && OneJump(g', b) && HasEdge(g'.bb[b], u)
      ensures u in S
    {
      assert OnwardFrom(g, g', b);
      var s: nat :| Onward(g, g', b, s);
      assert Leading(g, s, u);
      if !HasEdge(g.bb[s], u) {
        var t: nat :| Over(g, s, t, u);
        assert t in S;
      }
    }
  }

  lemma StaysApartStill(g: Graph, g': Graph, b: nat, s: nat)
    requires Closed(g.bb) && AllOnward(g, g') && Onward(g, g', b, s) && TestsItself(g', b) && StaysApart(g, s)
    ensures StaysApart(g', b)
  {
    var S: set<nat> :| WaysIn(g, S) && g.bb[s].jmp2.value in S && g.bb[s].follow.value !in S;
    WaysStayIn(g, g', S);
    assert HasEdge(g.bb[s], g.bb[s].jmp2.value);
  }

  lemma TestsApartStill(g: Graph, g': Graph, bools: set<nat>)
    requires TestsApart(g, bools) && Closed(g.bb) && AllOnward(g, g')
    ensures TestsApart(g', bools)
  {
    forall b: nat {:trigger ApartAt(g', b, bools)} | b < |g'.bb| && g'.bb[b].used ensures ApartAt(g', b, bools) {
      assert OnwardFrom(g, g', b);
      var s: nat :| Onward(g, g', b, s);
      assert ApartAt(g, s, bools);
      if TestsItself(g', b) && Tested(g', b) !in bools { StaysApartStill(g, g', b, s); }
    }
  }

  // The blocks in use are among the old ones, with the same pointers; their last instructions are the same or no such
  // test.
  lemma SameOnward(g: Graph, g': Graph, b: nat)
    requires b < |g.bb| == |g'.bb| && |g'.code| == |g.code| && g.bb[b].used && EdgesOf(g'.bb[b]) == EdgesOf(g.bb[b])
    requires g'.bb[b].len == g.bb[b].len
    requires OneJump(g', b) ==> OneJump(g, b)
    requires TestsItself(g', b) ==> TestsItself(g, b) && Tested(g, b) == Tested(g', b)
    ensures OnwardFrom(g, g', b)
  {
    assert forall u: nat :: HasEdge(g'.bb[b], u) == HasEdge(g.bb[b], u);
    assert Onward(g, g', b, b);
  }

  // Fewer blocks in use, the same everything else.
  lemma FewerOnward(g: Graph, bb': seq<Block>)
    requires Fewer(g.bb, bb')
    ensures AllOnward(g, Graph(g.code, bb'))
  {
    var g' := Graph(g.code, bb');
    forall b: nat {:trigger OnwardFrom(g, g', b)} | b < |bb'| && bb'[b].used ensures OnwardFrom(g, g', b) {
      SameOnward(g, g', b);
    }
  }
}
