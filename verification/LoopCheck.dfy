// The condition for the one-block loop as a check on the block before the pass, in finitely many rounds.
module LoopCheck {
  import opened Opcodes
  import opened LiveVars
  import opened LiveLoops

  // The instruction is left out when nobody wants its result.
  predicate Goes(op: Op, after: set<nat>) {
    Defines(op) && op.res.n !in after && !Stays(op)
  }

  // Instructions that keep their result whether it is wanted or not.
  predicate Stays(op: Op) {
    op.code.Recv? || op.code.Effect? || op.code.Ask? || op.code.New? || op.code.FeFetch? || op.code.DeclareInherited?
    || op.code.Assign? || op.code.DoFcall?
  }

  // The temporaries that some instruction that stays reads, before they are made again.
  function Wanted(ops: seq<Op>): set<nat> {
    if ops == [] then {} else WantedBefore(ops[0], Wanted(ops[1..]))
  }

  function WantedBefore(op: Op, after: set<nat>): set<nat> {
    if Goes(op, after) then
      // of these only the tests in them are left
      if op.code.JmpzEx? || op.code.JmpnzEx? || op.code.Unset? then LiveBefore(Unneeded(op), after) else after
    else LiveBefore(CleanOp(op, [], after), after)
  }

  lemma {:induction false} WantedIsLive(ops: seq<Op>)
    ensures Wanted(ops) == Clean(ops, []).1
    decreases |ops|
  {
    if ops != [] { WantedIsLive(ops[1..]); }
  }

  lemma {:induction false} CleanedIs(ops: seq<Op>, i: nat)
    requires i < |ops|
    ensures Clean(ops, []).0[i] == CleanOp(ops[i], [], Clean(ops[i + 1..], []).1)
    decreases i
  {
    if i > 0 {
      CleanedIs(ops[1..], i - 1);
      assert ops[1..][i..] == ops[i + 1..];
    }
  }

  // The last definition of r is of a kind that stays, or r is wanted behind it.
  predicate LastStays(ops: seq<Op>, i: nat, r: nat)
    requires i < |ops|
  {
    !Defines(ops[i]) || Stays(ops[i]) || r in Wanted(ops[i + 1..])
  }

  lemma StaysIs(op: Op, live: set<nat>, r: nat)
    requires Writes(op, r)
    ensures Writes(CleanOp(op, [], live), r) <==> !Defines(op) || Stays(op) || r in live
  {
  }

  lemma LastStaysIs(ops: seq<Op>, i: nat, r: nat)
    requires i < |ops| && Writes(ops[i], r)
    ensures Writes(Clean(ops, []).0[i], r) <==> LastStays(ops, i, r)
  {
    CleanedIs(ops, i);
    WantedIsLive(ops[i + 1..]);
    StaysIs(ops[i], Clean(ops[i + 1..], []).1, r);
  }

  // ----- finitely many rounds -----

  lemma {:induction false} ReachingGrows(ops: seq<Op>, out: set<nat>, out': set<nat>)
    requires out <= out'
    ensures Reaching(ops, out) <= Reaching(ops, out')
    decreases |ops|
  {
    if ops != [] { ReachingGrows(ops[1..], out, out'); }
  }

  lemma {:induction false} NeededGrows(ops: seq<Op>, k: nat)
    ensures Needed(ops, k) <= Needed(ops, k + 1)
    decreases k
  {
    if k > 0 {
      NeededGrows(ops, k - 1);
      ReachingGrows(ops, Needed(ops, k - 1), Needed(ops, k));
    }
  }

  function Temps(T: nat): (s: set<nat>)
    ensures |s| == T && forall r: nat :: r in s <==> r < T
  {
    if T == 0 then {} else Temps(T - 1) + {T - 1}
  }

  lemma {:induction false} ReachingBelow(ops: seq<Op>, out: set<nat>, T: nat)
    requires AllBelow(ops, T) && out <= Temps(T)
    ensures Reaching(ops, out) <= Temps(T)
    decreases |ops|
  {
    if ops != [] {
      assert Below(ops[0], T) && AllBelow(ops[1..], T);
      ReachingBelow(ops[1..], out, T);
    }
  }

  lemma {:induction false} NeededBelow(ops: seq<Op>, k: nat, T: nat)
    requires AllBelow(ops, T)
    ensures Needed(ops, k) <= Temps(T)
    decreases k
  {
    if k > 0 {
      NeededBelow(ops, k - 1, T);
      ReachingBelow(ops, Needed(ops, k - 1), T);
    }
  }

  lemma {:induction false} SettledFrom(ops: seq<Op>, k: nat, j: nat)
    requires Needed(ops, k + 1) == Needed(ops, k) && k <= j
    ensures Needed(ops, j) == Needed(ops, k)
    decreases j
  {
    if k < j { SettledFrom(ops, k, j - 1); }
  }

  lemma Smaller(a: set<nat>, b: set<nat>)
    requires a <= b
    ensures |a| <= |b| && (a != b ==> |a| < |b|)
  {
    assert b == a + (b - a);
    if a != b { assert b - a != {}; }
  }

  // After k rounds nothing new is needed, or k temporaries are.
  lemma {:induction false} NeededCounts(ops: seq<Op>, k: nat)
    ensures |Needed(ops, k)| >= k || exists j: nat :: j < k && Needed(ops, j + 1) == Needed(ops, j)
    decreases k
  {
    if k > 0 {
      NeededCounts(ops, k - 1);
      NeededGrows(ops, k - 1);
      Smaller(Needed(ops, k - 1), Needed(ops, k));
      if Needed(ops, k) == Needed(ops, k - 1) { assert Needed(ops, (k - 1) + 1) == Needed(ops, k - 1); }
    }
  }

  // What any number of rounds needs, T rounds need.
  lemma NeededSoon(ops: seq<Op>, k: nat, T: nat)
    requires AllBelow(ops, T)
    ensures Needed(ops, k) <= Needed(ops, T + 1)
  {
    NeededCounts(ops, T + 1);
    NeededBelow(ops, T + 1, T);
    Smaller(Needed(ops, T + 1), Temps(T));
    var j: nat :| j < T + 1 && Needed(ops, j + 1) == Needed(ops, j);
    SettledFrom(ops, j, T + 1);
    if j <= k { SettledFrom(ops, j, k); } else { NeededUpTo(ops, k, j); }
  }

  lemma {:induction false} NeededUpTo(ops: seq<Op>, k: nat, j: nat)
    requires k <= j
    ensures Needed(ops, k) <= Needed(ops, j)
    decreases j
  {
    if k < j {
      NeededUpTo(ops, k, j - 1);
      NeededGrows(ops, j - 1);
    }
  }

  // The last definition of a temporary that some round needs.
  predicate MakesNeeded(ops: seq<Op>, i: nat, T: nat)
    requires i < |ops|
  {
    Slot(ops[i].res) && ops[i].res.n in Needed(ops, T + 1) && forall j :: i < j < |ops| ==>
        !Writes(ops[j], ops[i].res.n)
  }

  // What can be looked up before the pass.
  predicate Checked(ops: seq<Op>, T: nat) {
    forall i :: 0 <= i < |ops| && MakesNeeded(ops, i, T) ==> LastStays(ops, i, ops[i].res.n)
  }

  lemma CheckIsExact(ops: seq<Op>, T: nat)
    requires AllBelow(ops, T)
    ensures RoundsKept(ops) <==> Checked(ops, T)
  {
    if Checked(ops, T) {
      forall k: nat, r: nat, i: nat | r in Needed(ops, k) && LastWrite(ops, i, r)
        ensures Writes(Clean(ops, []).0[i], r)
      {
        NeededSoon(ops, k, T);
        LastStaysIs(ops, i, r);
      }
    }
    if RoundsKept(ops) {
      forall i | 0 <= i < |ops| && MakesNeeded(ops, i, T) ensures LastStays(ops, i, ops[i].res.n) {
        var r := ops[i].res.n;
        assert KeepsLast(ops, r);
        assert LastWrite(ops, i, r);
        LastStaysIs(ops, i, r);
      }
    }
  }
}
