// Optional values; None plays the part of a NULL pointer or an unset field.
module Options {
  datatype Option<+T> = None | Some(value: T)
}

// Zend opcodes as the optimizer sees them, and what executing one of them means.
//
// Only the opcodes that optimize.c looks at have names.  Everything else falls in one of a few
// families: `Effect`, `Assign`, `Unset`, `DoFcall`, `Recv` and `DeclareInherited` are observable (they append an event
// to the trace), `Pure` only computes its result.  `Test` (a comparison, a negation, an isset) and `Ask` (a print) are
// like `Pure` and `Effect` with a result that is a Boolean.
module Opcodes {
  datatype Operand = Unused | Const(value: int) | Tmp(n: nat) | Var(n: nat)

  datatype Opcode =
    | Nop
    | Jmp | Jmpz | Jmpnz | Jmpznz | JmpzEx | JmpnzEx
    | Return | Exit | HandleException
    | New | FeFetch | FeReset
    | DoFcall(id: nat) | Assign(id: nat) | Unset(id: nat) | Recv(id: nat) | Effect(id: nat) | DeclareInherited
    | AddArrayElement(id: nat) | Bool | Pure(id: nat)
    | Test(id: nat) | Ask(id: nat)

  // `to1` and `to2` are the line numbers that op1 and op2 hold in jump instructions; `ext` is extended_value.
  datatype Op = Op(code: Opcode, op1: Operand, op2: Operand, res: Operand, resUnused: bool, to1: nat, to2: nat, ext: nat)

  // SET_TO_NOP
  function SetToNop(op: Op): Op {
    op.(code := Nop, op1 := Unused, op2 := Unused, res := Unused)
  }

  // One observable action: the opcode and the values it read.
  datatype Event = Event(code: Opcode, v1: int, v2: int, v3: int)

  // The rest of the world.  What an observable instruction returns, and whether it branches, may depend
  // on everything observed so far; a pure instruction is a function of its operands.
  datatype World = World(result: seq<Event> -> int, branch: seq<Event> -> bool, pure: (Opcode, int, int, int) -> int)

  // The temporaries T[0..] and the trace.
  datatype State = State(tm: seq<int>, tr: seq<Event>)

  // Where control goes after one instruction.
  datatype Dest = Next | To1 | To2 | ToExt | Halt

  predicate Slot(o: Operand) {
    o.Tmp? || o.Var?
  }

  function Value(o: Operand, tm: seq<int>): int {
    match o
    case Unused => 0
    case Const(v) => v
    case Tmp(n) => if n < |tm| then tm[n] else 0
    case Var(n) => if n < |tm| then tm[n] else 0
  }

  function Put(o: Operand, tm: seq<int>, v: int): (r: seq<int>)
    ensures |r| == |tm|
  {
    if Slot(o) && o.n < |tm| then tm[o.n := v] else tm
  }

  predicate Truth(v: int) {
    v != 0
  }

  function ToBool(v: int): int {
    if Truth(v) then 1 else 0
  }

  // The third value an instruction reads: ADD_ARRAY_ELEMENT extends its own result,
  // DECLARE_INHERITED_CLASS names a temporary in extended_value.
  function Extra(op: Op, tm: seq<int>): int {
    if op.code.AddArrayElement? then Value(op.res, tm)
    else if op.code.DeclareInherited? then Value(Var(op.ext), tm)
    else 0
  }

  // Instructions after which control may go somewhere other than the next instruction.
  predicate Control(c: Opcode) {
    c.Jmp? || c.Jmpz? || c.Jmpnz? || c.Jmpznz? || c.JmpzEx? || c.JmpnzEx? || Forks(c)
  }

  // Observable instructions that may jump to op2's line.
  predicate Forks(c: Opcode) {
    c.New? || c.FeFetch? || c.FeReset?
  }

  // A second target in op2 and fall-through otherwise.
  predicate TwoWay(c: Opcode) {
    c.Jmpz? || c.Jmpnz? || c.JmpzEx? || c.JmpnzEx? || Forks(c)
  }

  predicate Stops(c: Opcode) {
    c.Return? || c.Exit? || c.HandleException?
  }

  predicate Computes(c: Opcode) {
    c.Pure? || c.AddArrayElement?
  }

  function Exec(w: World, op: Op, s: State): (r: (Dest, State))
    ensures |r.1.tm| == |s.tm|
  {
    var v1 := Value(op.op1, s.tm);
    var e := s.tr + [Event(op.code, v1, Value(op.op2, s.tm), Extra(op, s.tm))];
    match op.code
    case Nop => (Next, s)
    case Jmp => (To1, s)
    case Jmpz => (if Truth(v1) then Next else To2, s)
    case Jmpnz => (if Truth(v1) then To2 else Next, s)
    case Jmpznz => (if Truth(v1) then ToExt else To2, s)
    case JmpzEx => (if Truth(v1) then Next else To2, s.(tm := Put(op.res, s.tm, ToBool(v1))))
    case JmpnzEx => (if Truth(v1) then To2 else Next, s.(tm := Put(op.res, s.tm, ToBool(v1))))
    case Bool => (Next, s.(tm := Put(op.res, s.tm, ToBool(v1))))
    case Test(_) => (Next, s.(tm := Put(op.res, s.tm, ToBool(w.pure(op.code, v1, Value(op.op2, s.tm), 0)))))
    case Ask(_) => (Next, State(Put(op.res, s.tm, ToBool(w.result(e))), e))
    case _ =>
      if Stops(op.code) then (Halt, State(s.tm, e))
      else if Computes(op.code) then
        (Next, s.(tm := Put(op.res, s.tm, w.pure(op.code, v1, Value(op.op2, s.tm), Extra(op, s.tm)))))
      else
        (if Forks(op.code) && w.branch(e) then To2 else Next, State(Put(op.res, s.tm, w.result(e)), e))
  }

  lemma ExecShows(w: World, op: Op, s: State)
    ensures s.tr <= Exec(w, op, s).1.tr
  {
  }

  // Jumps and returns have no result; ADD_ARRAY_ELEMENT works on a TMP.
  predicate WellTyped(op: Op) {
    && (Slot(op.res) ==> !(op.code.Nop? || op.code.Jmp? || op.code.Jmpz? || op.code.Jmpnz? || op.code.Jmpznz?
                           || Stops(op.code)))
    && (op.code.AddArrayElement? ==> op.res.Tmp?)
  }

  // Temporaries in `bools` only ever receive Booleans.  All temporaries are below T, and results are where they can be.
  predicate OpOk(op: Op, T: nat, bools: set<nat>) {
    && (Slot(op.op1) ==> op.op1.n < T)
    && (Slot(op.op2) ==> op.op2.n < T)
    && (Slot(op.res) ==> op.res.n < T)
    && (op.code.DeclareInherited? ==> op.ext < T)
    && (Slot(op.res) && op.res.n in bools ==> BoolResult(op.code))
    && WellTyped(op)
  }

  predicate BoolResult(c: Opcode) {
    c.Bool? || c.Test? || c.Ask? || c.JmpzEx? || c.JmpnzEx? || c.Nop? || c.Jmp? || c.Jmpz? || c.Jmpnz? || c.Jmpznz?
      || Stops(c)
  }

  predicate SelfTest(op: Op) {
    (op.code.JmpzEx? || op.code.JmpnzEx?) && op.op1.Tmp? && op.res.Tmp? && op.op1.n == op.res.n
  }

  predicate CodeOk(code: seq<Op>, T: nat, bools: set<nat>) {
    forall i :: 0 <= i < |code| ==> OpOk(code[i], T, bools)
  }

  // The states such code runs in.
  predicate StateOk(s: State, T: nat, bools: set<nat>) {
    && |s.tm| == T
    && forall n :: n in bools && n < T ==> s.tm[n] == 0 || s.tm[n] == 1
  }

  lemma ExecKeepsStateOk(w: World, op: Op, s: State, T: nat, bools: set<nat>)
    requires OpOk(op, T, bools) && StateOk(s, T, bools)
    ensures StateOk(Exec(w, op, s).1, T, bools)
  {
  }
}
