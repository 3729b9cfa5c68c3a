// Orderly code is what the compiler emits:
//   foreach ($a as $b) echo $b() && $c();
//   if ($i == 1 && f()) echo 2;
//   echo $i++ && f();
module OrderlySample {
  import opened Options
  import opened Opcodes
  import opened Preds
  import opened BuildCfg
  import opened Renumber
  import opened Splits
  import opened OrderlyCode

  const N := 20
  const TEMPS := 8

  function Line(c: Opcode, v: Operand, res: Operand, to1: nat, to2: nat): Op {
    Op(c, v, Unused, res, false, to1, to2, 0)
  }

  // The temporary 2 is made by JMPZ_EX or, if that does not jump, by BOOL; 4 by the comparison, 6 by POST_INC, and each
  // of these is tested into itself.
  function LineAt(i: nat): Op {
    if i == 0 then Line(FeReset, Unused, Var(0), 0, 7)
    else if i == 1 then Line(FeFetch, Var(0), Var(1), 0, 7)
    else if i == 2 then Line(JmpzEx, Var(1), Tmp(2), 0, 5)
    else if i == 3 then Line(Effect(1), Unused, Tmp(3), 0, 0)
    else if i == 4 then Line(Bool, Tmp(3), Tmp(2), 0, 0)
    else if i == 5 then Line(Effect(2), Tmp(2), Unused, 0, 0)
    else if i == 6 then Line(Jmp, Unused, Unused, 1, 0)
    else if i == 7 then Line(Test(3), Const(1), Tmp(4), 0, 0)
    else if i == 8 then Line(JmpzEx, Tmp(4), Tmp(4), 0, 11)
    else if i == 9 then Line(DoFcall(4), Unused, Var(5), 0, 0)
    else if i == 10 then Line(Bool, Var(5), Tmp(4), 0, 0)
    else if i == 11 then Line(Jmpz, Tmp(4), Unused, 0, 13)
    else if i == 12 then Line(Effect(5), Const(2), Unused, 0, 0)
    else if i == 13 then Line(Assign(6), Unused, Tmp(6), 0, 0)
    else if i == 14 then Line(JmpzEx, Tmp(6), Tmp(6), 0, 17)
    else if i == 15 then Line(DoFcall(7), Unused, Var(7), 0, 0)
    else if i == 16 then Line(Bool, Var(7), Tmp(6), 0, 0)
    else if i == 17 then Line(Effect(8), Tmp(6), Unused, 0, 0)
    else if i == 18 then Line(Return, Unused, Unused, 0, 0)
    else Line(HandleException, Unused, Unused, 0, 0)
  }

  ghost predicate Sample(code: seq<Op>) {
    |code| == N && forall i: nat :: i < N ==> code[i] == LineAt(i)
  }

  function Code(): (code: seq<Op>)
    ensures Sample(code)
  {
    seq(N, i requires 0 <= i < N => LineAt(i))
  }

  // What has been written before each line.
  function WrittenAt(i: nat): set<nat> {
    if i == 1 then {0} else if i == 2 || i == 6 then {0, 1} else if i == 3 || i == 5 then {0, 1, 2}
      else if i == 4 then {0, 1, 2, 3}
    else if i == 8 || i == 9 || i == 11 then {4} else if i == 10 then {4, 5}
    else if i == 14 || i == 15 || i == 17 then {6} else if i == 16 then {6, 7} else {}
  }

  lemma LineWritten(i: nat)
    requires i < N
    ensures Needs([LineAt(i)]) <= WrittenAt(i)
    ensures forall j: nat ::
              j < N && InEdges(EdgesFor(LineAt(i), i + 1, N), j) ==> WrittenAt(j) <= WrittenAt(i) + MadeBy([LineAt(i)])
  {
    One(LineAt(i));
    assert Needs([LineAt(i)][1..]) == {};
  }

  lemma SampleWritten(code: seq<Op>, D: seq<set<nat>>)
    requires Sample(code) && |D| == N && forall i: nat :: i < N ==> D[i] == WrittenAt(i)
    ensures WrittenBy(code, D)
  {
    forall i: nat, j: nat {:trigger GoesTo(code, i, j)} | GoesTo(code, i, j)
      ensures D[j] <= D[i] + MadeBy([code[i]])
    {
      LineWritten(i);
    }
    forall i | 0 <= i < N ensures Needs([code[i]]) <= D[i] { LineWritten(i); }
    assert D[0] == {};
  }

  // ----- the tests -----

  lemma SmallWays(code: seq<Op>, S: set<nat>)
    requires Sample(code) && (S == {11, 12, 13} || S == {9} || S == {15} || S == {17})
    ensures LinesIn(code, S)
  {
  }

  lemma SampleTests(code: seq<Op>)
    requires Sample(code)
    ensures SelfTestsOk(code, {})
  {
    forall i: nat {:trigger LineApart(code, i)} | i < |code| && SelfTest(code[i]) ensures LineApart(code, i) {
      assert code[i] == LineAt(i);
      var S := if i == 8 then {11, 12, 13} else {17};
      SmallWays(code, S);
      assert code[i].to2 in S && i + 1 !in S;
    }
  }

  // Nothing jumps in between POST_INC and its test.
  lemma NoneBetween(code: seq<Op>)
    requires Sample(code)
    ensures !Leader(code, N, 14)
  {
    forall j: nat | j < N ensures !LeadsTo(code[j], j, 14) {
      assert code[j] == LineAt(j);
    }
  }

  lemma SampleSplit(code: seq<Op>)
    requires Sample(code)
    ensures (13, 14) in SplitLines(code)
  {
    NoneBetween(code);
    SmallWays(code, {17});
    SmallWays(code, {15});
    assert LinesPart(code, {17}, {15});
    assert code[14] == LineAt(14);
    assert LineSplit(code, 13, 14);
  }

  // ----- and the rest -----

  lemma LinesApart(k: nat, i: nat)
    requires k < i < N && MayClose(LineAt(i))
    ensures Yields(LineAt(k), LineAt(i).res.n, LineAt(i).code.Recv?) || (k == 13 && i == 16)
  {
  }

  lemma SampleMadeFirst(code: seq<Op>)
    requires Sample(code)
    ensures MadeFirst(code, SplitLines(code))
  {
    SampleSplit(code);
    forall k: nat, i: nat | k < i < N && MayClose(code[i])
      ensures Yields(code[k], code[i].res.n, code[i].code.Recv?) || SplitBefore(SplitLines(code), k, i)
    {
      LinesApart(k, i);
    }
    forall i | 0 <= i < N ensures MakesOnly(code[i]) && Quiet(code[i]) { LineQuiet(i); }
  }

  lemma LineQuiet(i: nat)
    requires i < N
    ensures MakesOnly(LineAt(i)) && Quiet(LineAt(i)) && !Flagged(LineAt(i)) && OpOk(LineAt(i), TEMPS, {})
    ensures TargetsInside(LineAt(i), N)
    ensures LineAt(i).code.FeReset? ==> i == 0
  {
  }

  lemma SampleIsOrderly()
    ensures Compiled(Code()) && CodeOk(Code(), TEMPS, {}) && SelfTestsOk(Code(), {}) && Orderly(Code())
  {
    var code := Code();
    SampleWritten(code, seq(N, i requires 0 <= i < N => WrittenAt(i)));
    SampleMadeFirst(code);
    SampleTests(code);
    forall i | 0 <= i < N
      ensures !Flagged(code[i]) && OpOk(code[i], TEMPS, {}) && TargetsInside(code[i], N)
      ensures (code[i].code.FeReset? ==> i == 0)
    {
      LineQuiet(i);
    }
    assert code[0] == LineAt(0) && code[1] == LineAt(1) && code[N - 2] == LineAt(N - 2) && code[N - 1] == LineAt(N - 1);
  }
}
