// Op arrays in the image: stored, moved, fixed up and restored.
module ImageCode {
  import opened Options
  import opened Image
  import opened Requests
  import opened ImageStore
  import S = ScriptSize
  import opened ImageFixup
  import opened ImageRestore


  // An operand: a constant, a jump to an opcode of the same array, or anything else.
  datatype Arg = Lit(v: Value) | Jump(i: nat) | Raw(n: int)

  // op1 and op2 of opcode k are args[2k] and args[2k + 1].
  datatype Code = Code(name: Option<string>, file: Option<string>, codes: seq<nat>, args: seq<Arg>, statics: Option<Table>)

  datatype CodeLay = CodeLay(self: int, name: Lay, file: Lay, ops: int, subs: seq<Lay>, ends: seq<int>, statics: Lay)

  // ----- memory that holds an op array -----

  predicate NameHeld(mem: Memory, d: int, p: int, s: Option<string>, lay: Lay) {
    match s
    case None => lay == LNone && p == 0
    case Some(str) => lay.LStr? && p == lay.p - d && Nonzero(lay.p, d) && lay.p in mem && mem[lay.p] == Text(str)
  }

  // A jump leads to the opcode with the same number, at its new place.
  ghost predicate ArgHeld(mem: Memory, d: int, ops: int, cell: ArgCell, arg: Arg, lay: Lay) {
    match arg
    case Lit(v) => cell.Literal? && Holds(mem, d, cell.c, v, lay)
    case Jump(i) => lay == LNone && cell == Address(ops + i * SIZEOF_OP - d) && Nonzero(ops + i * SIZEOF_OP, d)
    case Raw(n) => lay == LNone && cell == Plain(n)
  }

  ghost predicate ArgsHeld(mem: Memory, d: int, ops: int, cells: seq<ArgCell>, args: seq<Arg>, subs: seq<Lay>) {
    && |subs| == |args| <= |cells|
    && forall k {:trigger ArgHeld(mem, d, ops, cells[k], args[k], subs[k])} ::
         0 <= k < |args| ==> ArgHeld(mem, d, ops, cells[k], args[k], subs[k])
  }

  function Start(ends: seq<int>, k: nat, lo: int): int
    requires k <= |ends|
  {
    if k == 0 then lo else ends[k - 1]
  }

  // The constants' data lie one after the other.
  ghost predicate ArgsPlaced(subs: seq<Lay>, ends: seq<int>, lo: int, hi: int) {
    && |subs| == |ends| && Start(ends, |ends|, lo) <= hi
    && forall k {:trigger Fits(subs[k], Start(ends, k, lo), ends[k])} ::
         0 <= k < |subs| ==> Fits(subs[k], Start(ends, k, lo), ends[k])
  }

  lemma FitsRange(lay: Lay, lo: int, hi: int)
    requires Fits(lay, lo, hi)
    ensures lo <= hi
  {
    if lay.LArr? && lay.subs != [] { PlacedFacts(lay.bs, lay.zs, lay.ends, lay.subs, lay.slots, hi); }
  }

  lemma {:induction false} ArgOrder(subs: seq<Lay>, ends: seq<int>, lo: int, hi: int, i: nat, k: nat)
    requires ArgsPlaced(subs, ends, lo, hi) && i <= k <= |subs|
    ensures Start(ends, i, lo) <= Start(ends, k, lo)
    decreases k
  {
    if i < k {
      ArgOrder(subs, ends, lo, hi, i, k - 1);
      assert Fits(subs[k - 1], Start(ends, k - 1, lo), ends[k - 1]);
      FitsRange(subs[k - 1], Start(ends, k - 1, lo), ends[k - 1]);
    }
  }

  lemma ArgRange(subs: seq<Lay>, ends: seq<int>, lo: int, hi: int, k: nat)
    requires ArgsPlaced(subs, ends, lo, hi) && k < |subs|
    ensures lo <= Start(ends, k, lo) <= ends[k] <= hi && Fits(subs[k], Start(ends, k, lo), ends[k])
  {
    ArgOrder(subs, ends, lo, hi, 0, k);
    ArgOrder(subs, ends, lo, hi, k, k + 1);
    ArgOrder(subs, ends, lo, hi, k + 1, |subs|);
    assert Fits(subs[k], Start(ends, k, lo), ends[k]);
  }

  ghost predicate StaticsHeld(mem: Memory, d: int, p: int, t: Option<Table>, lay: Lay) {
    match t
    case None => lay == LNone && p == 0
    case Some(table) => lay.LArr? && p == lay.tab - d && Nonzero(lay.tab, d) && TableHeld(mem, d, table, lay)
  }

  predicate CodeCells(mem: Memory, d: int, v: Code, lay: CodeLay) {
    && lay.self in mem && mem[lay.self].OpArray? && mem[lay.self].opcodes == lay.ops - d && Nonzero(lay.ops, d)
    && lay.ops in mem && mem[lay.ops].Ops? && mem[lay.ops].codes == v.codes && |mem[lay.ops].args| == |v.args|
  }

  ghost predicate CodeHeld(mem: Memory, d: int, v: Code, lay: CodeLay) {
    && CodeCells(mem, d, v, lay)
    && NameHeld(mem, d, mem[lay.self].name, v.name, lay.name) && NameHeld(mem, d, mem[lay.self].file, v.file, lay.file)
    && ArgsHeld(mem, d, lay.ops, mem[lay.ops].args, v.args, lay.subs)
    && StaticsHeld(mem, d, mem[lay.self].statics, v.statics, lay.statics)
  }

  // The op array, its opcodes, the constants' data, the static variables' table.
  ghost predicate CodePlaced(lay: CodeLay, lo: int, hi: int) {
    && lo <= lay.self < lay.ops && ArgsPlaced(lay.subs, lay.ends, lay.ops + 1, hi)
    && Fits(lay.statics, Start(lay.ends, |lay.ends|, lay.ops + 1), hi)
  }

  // ----- cells that do not matter, and moving -----

  lemma ArgElsewhere(mem: Memory, mem': Memory, d: int, ops: int, cell: ArgCell, arg: Arg, lay: Lay, lo: int, hi: int)
    requires ArgHeld(mem, d, ops, cell, arg, lay) && Fits(lay, lo, hi) && SameIn(mem, mem', lo, hi)
    ensures ArgHeld(mem', d, ops, cell, arg, lay)
  {
    if arg.Lit? { HoldsElsewhere(mem, mem', d, cell.c, arg.v, lay, lo, hi); }
  }

  lemma ArgsElsewhere(mem: Memory, mem': Memory, d: int, ops: int, cells: seq<ArgCell>, args: seq<Arg>, subs: seq<Lay>,
                      ends: seq<int>, lo: int, hi: int)
    requires ArgsHeld(mem, d, ops, cells, args, subs) && ArgsPlaced(subs, ends, lo, hi) && SameIn(mem, mem', lo, hi)
    ensures ArgsHeld(mem', d, ops, cells, args, subs)
  {
    forall k {:trigger ArgHeld(mem', d, ops, cells[k], args[k], subs[k])} | 0 <= k < |args|
      ensures ArgHeld(mem', d, ops, cells[k], args[k], subs[k])
    {
      assert ArgHeld(mem, d, ops, cells[k], args[k], subs[k]);
      ArgRange(subs, ends, lo, hi, k);
      SameInside(mem, mem', lo, hi, Start(ends, k, lo), ends[k]);
      ArgElsewhere(mem, mem', d, ops, cells[k], args[k], subs[k], Start(ends, k, lo), ends[k]);
    }
  }

  lemma SameInside(mem: Memory, mem': Memory, lo: int, hi: int, lo': int, hi': int)
    requires SameIn(mem, mem', lo, hi) && lo <= lo' && hi' <= hi
    ensures SameIn(mem, mem', lo', hi')
  {
  }

  function ShiftCode(lay: CodeLay, d: int): CodeLay {
    CodeLay(lay.self + d, Shift(lay.name, d), Shift(lay.file, d), lay.ops + d, ShiftAll(lay.subs, d),
            AddAll(lay.ends, d), Shift(lay.statics, d))
  }

  lemma {:induction false} ShiftAllAt(subs: seq<Lay>, d: int, k: nat)
    requires k < |subs|
    ensures ShiftAll(subs, d)[k] == Shift(subs[k], d)
    decreases |subs|
  {
    if k < |subs| - 1 { ShiftAllAt(subs[..|subs| - 1], d, k); }
  }

  lemma ArgMoved(mem: Memory, mem': Memory, d: int, ops: int, cell: ArgCell, arg: Arg, lay: Lay)
    requires ArgHeld(mem, 0, ops, cell, arg, lay) && MovedBy(mem, mem', d) && ops + d > 0
    ensures ArgHeld(mem', d, ops + d, cell, arg, Shift(lay, d))
  {
    if arg.Lit? { HoldsMoved(mem, mem', d, cell.c, arg.v, lay); }
  }

  lemma ArgsMoved(mem: Memory, mem': Memory, d: int, ops: int, cells: seq<ArgCell>, args: seq<Arg>, subs: seq<Lay>)
    requires ArgsHeld(mem, 0, ops, cells, args, subs) && MovedBy(mem, mem', d) && ops + d > 0
    ensures ArgsHeld(mem', d, ops + d, cells, args, ShiftAll(subs, d))
  {
    var subs' := ShiftAll(subs, d);
    forall k {:trigger ArgHeld(mem', d, ops + d, cells[k], args[k], subs'[k])} | 0 <= k < |args|
      ensures ArgHeld(mem', d, ops + d, cells[k], args[k], subs'[k])
    {
      assert ArgHeld(mem, 0, ops, cells[k], args[k], subs[k]);
      ShiftAllAt(subs, d, k);
      ArgMoved(mem, mem', d, ops, cells[k], args[k], subs[k]);
    }
  }

  lemma ShiftArgs(subs: seq<Lay>, ends: seq<int>, lo: int, hi: int, d: int)
    requires ArgsPlaced(subs, ends, lo, hi)
    ensures ArgsPlaced(ShiftAll(subs, d), AddAll(ends, d), lo + d, hi + d)
  {
    var subs', ends' := ShiftAll(subs, d), AddAll(ends, d);
    forall k {:trigger Fits(subs'[k], Start(ends', k, lo + d), ends'[k])} | 0 <= k < |subs'|
      ensures Fits(subs'[k], Start(ends', k, lo + d), ends'[k])
    {
      assert Fits(subs[k], Start(ends, k, lo), ends[k]);
      ShiftAllAt(subs, d, k);
      ShiftFits(subs[k], Start(ends, k, lo), ends[k], d);
    }
  }

  lemma CodeHeldMoved(mem: Memory, mem': Memory, d: int, v: Code, lay: CodeLay)
    requires CodeHeld(mem, 0, v, lay) && MovedBy(mem, mem', d) && lay.ops + d > 0
    ensures CodeHeld(mem', d, v, ShiftCode(lay, d))
  {
    ArgsMoved(mem, mem', d, lay.ops, mem[lay.ops].args, v.args, lay.subs);
    if v.statics.Some? { TableMoved(mem, mem', d, v.statics.value, lay.statics); }
  }

  lemma CodePlacedMoved(lay: CodeLay, lo: int, hi: int, d: int)
    requires CodePlaced(lay, lo, hi)
    ensures CodePlaced(ShiftCode(lay, d), lo + d, hi + d)
  {
    ShiftArgs(lay.subs, lay.ends, lay.ops + 1, hi, d);
    ShiftFits(lay.statics, Start(lay.ends, |lay.ends|, lay.ops + 1), hi, d);
  }

  lemma CodeMoved(mem: Memory, mem': Memory, d: int, v: Code, lay: CodeLay, lo: int, hi: int)
    requires CodeHeld(mem, 0, v, lay) && CodePlaced(lay, lo, hi) && MovedBy(mem, mem', d)
    ensures CodeHeld(mem', d, v, ShiftCode(lay, d)) && CodePlaced(ShiftCode(lay, d), lo + d, hi + d)
  {
    CodeHeldMoved(mem, mem', d, v, lay);
    CodePlacedMoved(lay, lo, hi, d);
  }

  // ----- what an op array asks for -----

  // The constants among the operands, in order.
  function Constants(args: seq<Arg>): seq<S.Zval> {
    if args == [] then []
    else
      var last := args[|args| - 1];
      Constants(args[..|args| - 1]) + if last.Lit? then [SizedZval(last.v)] else []
  }

  function SizedStatics(t: Option<Table>): Option<S.Table> {
    if t.Some? then Some(SizedTable(t.value, None)) else None
  }

  function SizedCode(v: Code): S.Code {
    S.Code(true, [], v.name, None, Some(S.Ops(|v.codes|, Constants(v.args))), None, None, SizedStatics(v.statics),
           None, v.file, None)
  }

  function OneArgReqs(arg: Arg): seq<Req> {
    if arg.Lit? then S.ZvalReqs(S.Store, SizedZval(arg.v)) else []
  }

  lemma ConstantsGrow(args: seq<Arg>, k: nat)
    requires k < |args|
    ensures S.ZvalsReqs(S.Store, Constants(args[..k + 1])) == S.ZvalsReqs(S.Store, Constants(args[..k]))
            + OneArgReqs(args[k])
  {
    var front, all := Constants(args[..k]), Constants(args[..k + 1]);
    assert args[..k + 1][..k] == args[..k];
    if args[k].Lit? {
      assert all[..|all| - 1] == front;
    } else {
      assert all == front;
    }
  }

  function PartReqs(v: Code): seq<Req> {
    var sized := SizedCode(v);
    S.Opt(v.name) + (S.OpsReqs(S.Store, sized.opcodes) + (S.StaticsReqs(S.Store, sized.statics) + S.Opt(v.file)))
  }

  lemma CodePartsAre(v: Code)
    ensures S.CodeReqs(S.Store, SizedCode(v)) == [Alloc(SIZEOF_OP_ARRAY)] + PartReqs(v)
  {
    var c := SizedCode(v);
    assert S.CodeHead(c) == [Alloc(SIZEOF_OP_ARRAY)] + S.Opt(v.name);
    assert S.FirstHalf(S.Store, c) == S.OpsReqs(S.Store, c.opcodes);
    assert S.SecondHalf(S.Store, c) == S.StaticsReqs(S.Store, c.statics) + S.Opt(v.file);
    PartsTogether([Alloc(SIZEOF_OP_ARRAY)], S.Opt(v.name), S.OpsReqs(S.Store, c.opcodes),
                  S.StaticsReqs(S.Store, c.statics) + S.Opt(v.file));
  }

  lemma PartsTogether(a: seq<Req>, b: seq<Req>, c: seq<Req>, d: seq<Req>)
    ensures (a + b) + (c + d) == a + (b + (c + d))
  {
  }

  // ----- storing -----

  predicate Wellformed(v: Code) {
    && |v.codes| > 0 && |v.args| == 2 * |v.codes|
    && (forall k :: 0 <= k < |v.args| && v.args[k].Lit? ==> Storable(v.args[k].v))
    && (v.statics.Some? ==> Storable(Arr(v.statics.value)))
  }

  method StoreName(w: Writer, s: Option<string>) returns (p: int, ghost lay: Lay)
    requires w.Ready()
    modifies w
    ensures w.Ready() && Extends(old(w.mem), w.mem) && old(w.at) <= w.at && NameHeld(w.mem, 0, p, s, lay)
    ensures Asked(old(w.reqs), w.reqs, S.Opt(s))
  {
    match s
    case None =>
      p, lay := 0, LNone;
      AskedNothing(w.reqs);
    case Some(str) =>
      p := w.StoreString(str);
      lay := LStr(p);
  }

  lemma ExtendsSame(mem: Memory, mem': Memory, lo: int, hi: int)
    requires Extends(mem, mem')
    ensures SameIn(mem, mem', lo, hi)
  {
  }

  // One operand, and the cell it takes.
  method StoreArg(w: Writer, arg: Arg, ops: int) returns (cell: ArgCell, ghost lay: Lay)
    requires w.Ready() && 0 < ops && (arg.Lit? ==> Storable(arg.v))
    modifies w
    ensures w.Ready() && Extends(old(w.mem), w.mem) && old(w.at) <= w.at
    ensures ArgHeld(w.mem, 0, ops, cell, arg, lay) && Fits(lay, old(w.at), w.at)
    ensures Asked(old(w.reqs), w.reqs, OneArgReqs(arg))
  {
    AskedNothing(w.reqs);
    match arg
    case Lit(v) =>
      var c;
      c, lay := w.StoreZval(v);
      cell := Literal(c);
    case Jump(i) => cell, lay := Address(ops + i * SIZEOF_OP), LNone;
    case Raw(n) => cell, lay := Plain(n), LNone;
  }

  lemma ArgsOneMore(mem: Memory, ops: int, cells: seq<ArgCell>, args: seq<Arg>, subs: seq<Lay>, ends: seq<int>,
                    lo: int, at: int,
                    k: nat, cell: ArgCell, sub: Lay, at': int)
    requires k < |args| == |cells| && |subs| == k && ArgsHeld(mem, 0, ops, cells, args[..k], subs)
    requires ArgsPlaced(subs, ends, lo, at)
    requires ArgHeld(mem, 0, ops, cell, args[k], sub) && Fits(sub, at, at')
    ensures ArgsHeld(mem, 0, ops, cells[k := cell], args[..k + 1], subs + [sub])
    ensures ArgsPlaced(subs + [sub], ends + [at'], lo, at')
  {
    var cells', args', subs', ends' := cells[k := cell], args[..k + 1], subs + [sub], ends + [at'];
    forall j {:trigger ArgHeld(mem, 0, ops, cells'[j], args'[j], subs'[j])} | 0 <= j <= k
      ensures ArgHeld(mem, 0, ops, cells'[j], args'[j], subs'[j])
    {
      if j < k { assert ArgHeld(mem, 0, ops, cells[j], args[..k][j], subs[j]); }
    }
    forall j {:trigger Fits(subs'[j], Start(ends', j, lo), ends'[j])} | 0 <= j <= k
      ensures Fits(subs'[j], Start(ends', j, lo), ends'[j])
    {
      if j < k {
        assert Fits(subs[j], Start(ends, j, lo), ends[j]);
      } else {
        FitsLower(sub, at, at', Start(ends, k, lo));
      }
    }
  }

  lemma FitsLower(lay: Lay, lo: int, hi: int, lo': int)
    requires Fits(lay, lo, hi) && lo' <= lo
    ensures Fits(lay, lo', hi)
  {
  }

  // The opcodes at ops, the first k operands done.
  ghost predicate OpsSoFar(mem: Memory, at: int, ops: int, codes: seq<nat>, args: seq<Arg>, subs: seq<Lay>,
                           ends: seq<int>, k: nat) {
    && k <= |args| && |subs| == k && 0 < ops < at
    && ops in mem && mem[ops].Ops? && mem[ops].codes == codes && |mem[ops].args| == |args|
    && ArgsHeld(mem, 0, ops, mem[ops].args, args[..k], subs) && ArgsPlaced(subs, ends, ops + 1, at)
  }

  // Operand k: its data, and its cell among the opcodes.
  method StoreOperand(w: Writer, ops: int, ghost codes: seq<nat>, args: seq<Arg>, k: nat, ghost subs: seq<Lay>,
                      ghost ends: seq<int>)
    returns (ghost sub: Lay)
    requires w.Ready() && k < |args| && (args[k].Lit? ==> Storable(args[k].v))
    requires OpsSoFar(w.mem, w.at, ops, codes, args, subs, ends, k)
    modifies w
    ensures w.Ready() && OpsSoFar(w.mem, w.at, ops, codes, args, subs + [sub], ends + [w.at], k + 1)
    ensures forall a :: a in old(w.mem) && a != ops ==> a in w.mem && w.mem[a] == old(w.mem)[a]
    ensures Asked(old(w.reqs), w.reqs, OneArgReqs(args[k]))
  {
    ghost var mem0, at0, cells := w.mem, w.at, w.mem[ops].args;
    var cell;
    cell, sub := StoreArg(w, args[k], ops);
    ghost var mem1 := w.mem;
    ExtendsSame(mem0, mem1, ops + 1, at0);
    ArgsElsewhere(mem0, mem1, 0, ops, cells, args[..k], subs, ends, ops + 1, at0);
    ArgsOneMore(mem1, ops, cells, args, subs, ends, ops + 1, at0, k, cell, sub, w.at);
    w.Put(ops, Ops(w.mem[ops].codes, w.mem[ops].args[k := cell]));
    ArgsElsewhere(mem1, w.mem, 0, ops, cells[k := cell], args[..k + 1], subs + [sub], ends + [w.at], ops + 1, w.at);
  }

  // The opcodes, with their constants behind them.
  method StoreOps(w: Writer, codes: seq<nat>, args: seq<Arg>)
    returns (ops: int, ghost subs: seq<Lay>, ghost ends: seq<int>)
    requires w.Ready() && |codes| > 0 && forall k :: 0 <= k < |args| && args[k].Lit? ==> Storable(args[k].v)
    modifies w
    ensures w.Ready() && Extends(old(w.mem), w.mem) && ops == old(w.at) < w.at && ops !in old(w.mem)
    ensures ops in w.mem && w.mem[ops].Ops? && w.mem[ops].codes == codes && |w.mem[ops].args| == |args|
    ensures ArgsHeld(w.mem, 0, ops, w.mem[ops].args, args, subs) && ArgsPlaced(subs, ends, ops + 1, w.at)
    ensures Asked(old(w.reqs), w.reqs, S.OpsReqs(S.Store, Some(S.Ops(|codes|, Constants(args)))))
  {
    ghost var reqs0 := w.reqs;
    ops := w.Allocate(|codes| * SIZEOF_OP, Ops(codes, seq(|args|, _ => Plain(0))));
    subs, ends := [], [];
    var k := 0;
    ghost var reqs1 := w.reqs;
    AskedNothing(w.reqs);
    while k < |args|
      invariant 0 <= k <= |args| && w.Ready() && Extends(old(w.mem), w.mem)
      invariant OpsSoFar(w.mem, w.at, ops, codes, args, subs, ends, k)
      invariant Asked(reqs1, w.reqs, S.ZvalsReqs(S.Store, Constants(args[..k])))
    {
      ghost var reqs2 := w.reqs;
      ghost var sub := StoreOperand(w, ops, codes, args, k, subs, ends);
      AskedOn(reqs1, reqs2, w.reqs, S.ZvalsReqs(S.Store, Constants(args[..k])), OneArgReqs(args[k]));
      ConstantsGrow(args, k);
      subs, ends, k := subs + [sub], ends + [w.at], k + 1;
    }
    assert args[..k] == args;
    AskedOn(reqs0, reqs1, w.reqs, [Alloc(|codes| * SIZEOF_OP)], S.ZvalsReqs(S.Store, Constants(args)));
  }

  method StoreStatics(w: Writer, t: Option<Table>) returns (p: int, ghost lay: Lay)
    requires w.Ready() && (t.Some? ==> Storable(Arr(t.value)))
    modifies w
    ensures w.Ready() && Extends(old(w.mem), w.mem) && old(w.at) <= w.at
    ensures StaticsHeld(w.mem, 0, p, t, lay) && Fits(lay, old(w.at), w.at)
    ensures Asked(old(w.reqs), w.reqs, S.StaticsReqs(S.Store, SizedStatics(t)))
  {
    match t
    case None =>
      p, lay := 0, LNone;
      AskedNothing(w.reqs);
    case Some(table) =>
      p, lay := w.StoreTable(table, None);
      AllKept(table);
  }

  // What an op array leads to, in the order of store_op_array, and memory at two points on the way.
  datatype Parts = Parts(name: Lay, subs: seq<Lay>, ends: seq<int>, mem1: Memory, at1: int, statics: Lay, mem2: Memory, at2: int, file: Lay)

  ghost predicate PartsHeld(v: Code, ps: Parts, name: int, ops: int, statics: int, file: int, at0: int, mem3: Memory) {
    && 0 < at0 <= ops < ps.at1 <= ps.at2 && Extends(ps.mem1, ps.mem2) && Extends(ps.mem2, mem3)
    && ArgsPlaced(ps.subs, ps.ends, ops + 1, ps.at1) && Fits(ps.statics, ps.at1, ps.at2)
    && ops in ps.mem1 && ps.mem1[ops].Ops? && ps.mem1[ops].codes == v.codes && |ps.mem1[ops].args| == |v.args|
    && ArgsHeld(ps.mem1, 0, ops, ps.mem1[ops].args, v.args, ps.subs) && NameHeld(ps.mem1, 0, name, v.name, ps.name)
    && StaticsHeld(ps.mem2, 0, statics, v.statics, ps.statics) && NameHeld(mem3, 0, file, v.file, ps.file)
  }

  method StoreParts(w: Writer, v: Code) returns (name: int, ops: int, statics: int, file: int, ghost ps: Parts)
    requires w.Ready() && Wellformed(v)
    modifies w
    ensures w.Ready() && Extends(old(w.mem), w.mem) && old(w.at) <= w.at
    ensures PartsHeld(v, ps, name, ops, statics, file, old(w.at), w.mem) && ps.at2 <= w.at
    ensures Asked(old(w.reqs), w.reqs, PartReqs(v))
  {
    ghost var lname, lfile, subs, ends, lstatics;
    ghost var reqs1 := w.reqs;
    name, lname := StoreName(w, v.name);
    ghost var reqs2 := w.reqs;
    ops, subs, ends := StoreOps(w, v.codes, v.args);
    ghost var mem1, at1, reqs3 := w.mem, w.at, w.reqs;
    statics, lstatics := StoreStatics(w, v.statics);
    ghost var mem2, at2, reqs4 := w.mem, w.at, w.reqs;
    file, lfile := StoreName(w, v.file);
    ps := Parts(lname, subs, ends, mem1, at1, lstatics, mem2, at2, lfile);
    PartsAsked(v, reqs1, reqs2, reqs3, reqs4, w.reqs);
  }

  // store_op_array
  method StoreCode(w: Writer, v: Code) returns (self: int, ghost lay: CodeLay)
    requires w.Ready() && Wellformed(v)
    modifies w
    ensures w.Ready() && Extends(old(w.mem), w.mem) && old(w.at) <= w.at
    ensures lay.self == self && CodeHeld(w.mem, 0, v, lay) && CodePlaced(lay, old(w.at), w.at)
    ensures Asked(old(w.reqs), w.reqs, S.CodeReqs(S.Store, SizedCode(v)))
  {
    ghost var reqs0 := w.reqs;
    self := w.Allocate(SIZEOF_OP_ARRAY, OpArray(0, 0, 0, 0));
    var name, file, ops, statics;
    ghost var ps;
    ghost var reqs1 := w.reqs;
    name, ops, statics, file, ps := StoreParts(w, v);
    ghost var mem3 := w.mem;
    w.Put(self, OpArray(name, file, ops, statics));
    lay := CodeLay(self, ps.name, ps.file, ops, ps.subs, ps.ends, ps.statics);
    FinishCode(ps.mem1, ps.mem2, mem3, w.mem, v, lay, ps.at1, ps.at2, w.at);
    AskedOn(reqs0, reqs1, w.reqs, [Alloc(SIZEOF_OP_ARRAY)], PartReqs(v));
    CodePartsAre(v);
  }

  lemma PartsAsked(v: Code, b: seq<Req>, c: seq<Req>, d: seq<Req>, e: seq<Req>, f: seq<Req>)
    requires Asked(b, c, S.Opt(v.name)) && Asked(c, d, S.OpsReqs(S.Store, Some(S.Ops(|v.codes|, Constants(v.args)))))
    requires Asked(d, e, S.StaticsReqs(S.Store, SizedStatics(v.statics))) && Asked(e, f, S.Opt(v.file))
    ensures Asked(b, f, PartReqs(v))
  {
    var sized := SizedCode(v);
    var x, y := S.OpsReqs(S.Store, sized.opcodes), S.StaticsReqs(S.Store, sized.statics);
    AskedOn(d, e, f, y, S.Opt(v.file));
    AskedOn(c, d, f, x, y + S.Opt(v.file));
    AskedOn(b, c, f, S.Opt(v.name), x + (y + S.Opt(v.file)));
  }

  lemma FinishCode(mem1: Memory, mem2: Memory, mem3: Memory, mem: Memory, v: Code, lay: CodeLay, at1: int, at2: int,
                   at: int)
    requires 0 < lay.self < lay.ops < at1 <= at2 <= at && Extends(mem1, mem2) && Extends(mem2, mem3)
    requires ArgsPlaced(lay.subs, lay.ends, lay.ops + 1, at1) && Fits(lay.statics, at1, at2)
    requires lay.ops in mem1 && mem1[lay.ops].Ops? && mem1[lay.ops].codes == v.codes && |mem1[lay.ops].args| == |v.args|
    requires ArgsHeld(mem1, 0, lay.ops, mem1[lay.ops].args, v.args, lay.subs)
    requires lay.self in mem3 && mem3[lay.self].OpArray? && mem.Keys == mem3.Keys && forall a ::
               a in mem3 && a != lay.self ==> mem[a] == mem3[a]
    requires mem[lay.self].OpArray? && mem[lay.self].opcodes == lay.ops
    requires NameHeld(mem1, 0, mem[lay.self].name, v.name, lay.name)
    requires NameHeld(mem3, 0, mem[lay.self].file, v.file, lay.file)
    requires StaticsHeld(mem2, 0, mem[lay.self].statics, v.statics, lay.statics)
    ensures CodeHeld(mem, 0, v, lay) && CodePlaced(lay, lay.self, at)
  {
    ArgsElsewhere(mem1, mem, 0, lay.ops, mem1[lay.ops].args, v.args, lay.subs, lay.ends, lay.ops + 1, at1);
    if v.statics.Some? { TableElsewhere(mem2, mem, 0, v.statics.value, lay.statics, at1, at2); }
    FitsBetween(lay.statics, at1, at2, Start(lay.ends, |lay.ends|, lay.ops + 1), at);
  }

  lemma FitsBetween(lay: Lay, lo: int, hi: int, lo': int, hi': int)
    requires Fits(lay, lo, hi) && lo' <= lo && hi <= hi'
    ensures Fits(lay, lo', hi')
  {
    if lay.LArr? && lay.subs != [] { PlacedHigher(lay.bs, lay.zs, lay.ends, lay.subs, lay.slots, hi, hi'); }
  }

  // ----- fixing up -----

  // Operands before k are done, the others still lag behind.
  ghost predicate ArgsFixedTo(mem: Memory, d: int, ops: int, cells: seq<ArgCell>, args: seq<Arg>, subs: seq<Lay>,
                              k: nat) {
    && |subs| == |args| == |cells|
    && forall j {:trigger ArgHeld(mem, Lag(j, k, d), ops, cells[j], args[j], subs[j])} :: 0 <= j < |args| ==>
         ArgHeld(mem, Lag(j, k, d), ops, cells[j], args[j], subs[j])
  }

  lemma ArgFixedOneMore(mem: Memory, mem': Memory, d: int, ops: int, cells: seq<ArgCell>, args: seq<Arg>,
                        subs: seq<Lay>, ends: seq<int>, lo: int, hi: int,
                        k: nat, cell: ArgCell)
    requires ArgsFixedTo(mem, d, ops, cells, args, subs, k) && k < |args| && ArgsPlaced(subs, ends, lo, hi)
    requires SameOut(mem, mem', Start(ends, k, lo), ends[k]) && ArgHeld(mem', 0, ops, cell, args[k], subs[k])
    ensures ArgsFixedTo(mem', d, ops, cells[k := cell], args, subs, k + 1)
  {
    var cells' := cells[k := cell];
    forall j {:trigger ArgHeld(mem', Lag(j, k + 1, d), ops, cells'[j], args[j], subs[j])} | 0 <= j < |args|
      ensures ArgHeld(mem', Lag(j, k + 1, d), ops, cells'[j], args[j], subs[j])
    {
      if j != k {
        assert ArgHeld(mem, Lag(j, k, d), ops, cells[j], args[j], subs[j]);
        ArgRange(subs, ends, lo, hi, j);
        ArgRange(subs, ends, lo, hi, k);
        if j < k { ArgOrder(subs, ends, lo, hi, j + 1, k); } else { ArgOrder(subs, ends, lo, hi, k + 1, j); }
        ArgElsewhere(mem, mem', Lag(j, k, d), ops, cells[j], args[j], subs[j], Start(ends, j, lo), ends[j]);
      }
    }
  }

  // Writing the opcodes' own cell changes no operand's data.
  lemma ArgsFixedKept(mem: Memory, mem': Memory, d: int, ops: int, cells: seq<ArgCell>, args: seq<Arg>, subs: seq<Lay>,
                      ends: seq<int>, lo: int, hi: int, k: nat)
    requires ArgsFixedTo(mem, d, ops, cells, args, subs, k) && ArgsPlaced(subs, ends, lo, hi)
    requires SameIn(mem, mem', lo, hi)
    ensures ArgsFixedTo(mem', d, ops, cells, args, subs, k)
  {
    forall j {:trigger ArgHeld(mem', Lag(j, k, d), ops, cells[j], args[j], subs[j])} | 0 <= j < |args|
      ensures ArgHeld(mem', Lag(j, k, d), ops, cells[j], args[j], subs[j])
    {
      assert ArgHeld(mem, Lag(j, k, d), ops, cells[j], args[j], subs[j]);
      ArgRange(subs, ends, lo, hi, j);
      SameInside(mem, mem', lo, hi, Start(ends, j, lo), ends[j]);
      ArgElsewhere(mem, mem', Lag(j, k, d), ops, cells[j], args[j], subs[j], Start(ends, j, lo), ends[j]);
    }
  }

  // One operand of fixup_op_array: constants through fixup_zval, jump addresses through FIXUP.
  method FixupArg(l: Loaded, cell: ArgCell, d: int, ops: int, ghost arg: Arg, ghost lay: Lay, ghost lo: int,
                  ghost hi: int)
    returns (cell': ArgCell)
    requires ArgHeld(l.mem, d, ops, cell, arg, lay) && Fits(lay, lo, hi) && 0 < lo
    modifies l
    ensures ArgHeld(l.mem, 0, ops, cell', arg, lay) && SameOut(old(l.mem), l.mem, lo, hi)
  {
    match cell
    case Literal(c) =>
      var c' := l.FixupContent(c, d, arg.v, lay, lo, hi);
      cell' := Literal(c');
    case Address(p) => cell' := Address(Fix(p, d));
    case Plain(n) => cell' := cell;
  }

  method FixupOps(l: Loaded, ops: int, d: int, ghost args: seq<Arg>, ghost subs: seq<Lay>, ghost ends: seq<int>,
                  ghost hi: int)
    requires 0 < ops && ops in l.mem && l.mem[ops].Ops? && |l.mem[ops].args| == |args|
    requires ArgsHeld(l.mem, d, ops, l.mem[ops].args, args, subs) && ArgsPlaced(subs, ends, ops + 1, hi)
    modifies l
    ensures ops in l.mem && l.mem[ops].Ops? && l.mem[ops].codes == old(l.mem[ops]).codes && |l.mem[ops].args| == |args|
    ensures ArgsHeld(l.mem, 0, ops, l.mem[ops].args, args, subs) && SameOut(old(l.mem), l.mem, ops, hi)
  {
    ghost var cells := l.mem[ops].args;
    forall j {:trigger ArgHeld(l.mem, Lag(j, 0, d), ops, cells[j], args[j], subs[j])} | 0 <= j < |args|
      ensures ArgHeld(l.mem, Lag(j, 0, d), ops, cells[j], args[j], subs[j])
    {
      assert ArgHeld(l.mem, d, ops, cells[j], args[j], subs[j]);
    }
    var k := 0;
    while k < |l.mem[ops].args|
      invariant 0 <= k <= |args| && ops in l.mem && l.mem[ops].Ops? && l.mem[ops].codes == old(l.mem[ops]).codes
      invariant |l.mem[ops].args| == |args|
      invariant ArgsFixedTo(l.mem, d, ops, l.mem[ops].args, args, subs, k) && SameOut(old(l.mem), l.mem, ops, hi)
    {
      ghost var mem0, now := l.mem, l.mem[ops].args;
      assert ArgHeld(l.mem, Lag(k, k, d), ops, now[k], args[k], subs[k]);
      ArgRange(subs, ends, ops + 1, hi, k);
      var cell := FixupArg(l, l.mem[ops].args[k], d, ops, args[k], subs[k], Start(ends, k, ops + 1), ends[k]);
      ghost var mem1 := l.mem;
      ArgFixedOneMore(mem0, mem1, d, ops, now, args, subs, ends, ops + 1, hi, k, cell);
      l.mem := l.mem[ops := Ops(l.mem[ops].codes, l.mem[ops].args[k := cell])];
      ArgsFixedKept(mem1, l.mem, d, ops, now[k := cell], args, subs, ends, ops + 1, hi, k + 1);
      SameOutWider(mem0, mem1, Start(ends, k, ops + 1), ends[k], ops, hi);
      k := k + 1;
    }
    ghost var last := l.mem[ops].args;
    forall j {:trigger ArgHeld(l.mem, 0, ops, last[j], args[j], subs[j])} | 0 <= j < |args|
      ensures ArgHeld(l.mem, 0, ops, last[j], args[j], subs[j])
    {
      assert ArgHeld(l.mem, Lag(j, k, d), ops, last[j], args[j], subs[j]);
    }
  }

  // An op array whose name, opcodes, static variables and file name lag behind by different amounts.
  ghost predicate CodeState(mem: Memory, v: Code, lay: CodeLay, dn: int, dp: int, ds: int, df: int) {
    && CodeCells(mem, dp, v, lay)
    && NameHeld(mem, dn, mem[lay.self].name, v.name, lay.name)
    && NameHeld(mem, df, mem[lay.self].file, v.file, lay.file)
    && ArgsHeld(mem, dp, lay.ops, mem[lay.ops].args, v.args, lay.subs)
    && StaticsHeld(mem, ds, mem[lay.self].statics, v.statics, lay.statics)
  }

  // Writing the op array's own cell.
  lemma SelfChange(mem: Memory, mem': Memory, v: Code, lay: CodeLay, dp: int, ds: int, lo: int, hi: int, cell: Cell)
    requires CodePlaced(lay, lo, hi) && lay.self in mem && mem[lay.self].OpArray? && mem' == mem[lay.self := cell]
    requires cell.OpArray?
    requires lay.ops in mem && mem[lay.ops].Ops? && ArgsHeld(mem, dp, lay.ops, mem[lay.ops].args, v.args, lay.subs)
    requires v.statics.Some? ==> lay.statics.LArr? && TableHeld(mem, ds, v.statics.value, lay.statics)
    ensures mem'[lay.ops] == mem[lay.ops] && ArgsHeld(mem', dp, lay.ops, mem'[lay.ops].args, v.args, lay.subs)
    ensures v.statics.Some? ==> TableHeld(mem', ds, v.statics.value, lay.statics)
  {
    var mid := Start(lay.ends, |lay.ends|, lay.ops + 1);
    ArgsElsewhere(mem, mem', dp, lay.ops, mem[lay.ops].args, v.args, lay.subs, lay.ends, lay.ops + 1, hi);
    StaticsStart(lay, lo, hi);
    if v.statics.Some? { TableElsewhere(mem, mem', ds, v.statics.value, lay.statics, mid, hi); }
  }

  lemma StaticsStart(lay: CodeLay, lo: int, hi: int)
    requires CodePlaced(lay, lo, hi)
    ensures lay.ops < Start(lay.ends, |lay.ends|, lay.ops + 1) <= hi
  {
    ArgOrder(lay.subs, lay.ends, lay.ops + 1, hi, 0, |lay.subs|);
  }

  method FixupOpcodes(l: Loaded, self: int, d: int, ghost v: Code, ghost lay: CodeLay, ghost lo: int, ghost hi: int)
    requires self == lay.self && CodeState(l.mem, v, lay, 0, d, d, d) && CodePlaced(lay, lo, hi) && 0 < lo
    modifies l
    ensures CodeState(l.mem, v, lay, 0, 0, d, d) && SameOut(old(l.mem), l.mem, lo, hi)
  {
    ghost var mem0, mid := l.mem, Start(lay.ends, |lay.ends|, lay.ops + 1);
    StaticsStart(lay, lo, hi);
    var ops := Fix(l.mem[self].opcodes, d);
    l.mem := l.mem[self := l.mem[self].(opcodes := ops)];
    ghost var mem1 := l.mem;
    SelfChange(mem0, mem1, v, lay, d, d, lo, hi, mem1[self]);
    assert ArgsPlaced(lay.subs, lay.ends, lay.ops + 1, mid);
    FixupOps(l, ops, d, v.args, lay.subs, lay.ends, mid);
    if v.statics.Some? { TableElsewhere(mem1, l.mem, d, v.statics.value, lay.statics, mid, hi); }
    SameOutWider(mem1, l.mem, ops, mid, lo, hi);
  }

  method FixupStatics(l: Loaded, self: int, d: int, ghost v: Code, ghost lay: CodeLay, ghost lo: int, ghost hi: int)
    requires self == lay.self && CodeState(l.mem, v, lay, 0, 0, d, d) && CodePlaced(lay, lo, hi) && 0 < lo
    modifies l
    ensures CodeState(l.mem, v, lay, 0, 0, 0, d) && SameOut(old(l.mem), l.mem, lo, hi)
  {
    if l.mem[self].statics != 0 {
      ghost var mem0, mid := l.mem, Start(lay.ends, |lay.ends|, lay.ops + 1);
      StaticsStart(lay, lo, hi);
      var statics := Fix(l.mem[self].statics, d);
      l.mem := l.mem[self := l.mem[self].(statics := statics)];
      ghost var mem1 := l.mem;
      SelfChange(mem0, mem1, v, lay, 0, d, lo, hi, mem1[self]);
      l.FixupTable(statics, d, v.statics.value, lay.statics, mid, hi);
      ArgsElsewhere(mem1, l.mem, 0, lay.ops, mem1[lay.ops].args, v.args, lay.subs, lay.ends, lay.ops + 1, mid);
      SameOutWider(mem1, l.mem, mid, hi, lo, hi);
    }
  }

  // fixup_op_array
  method FixupCode(l: Loaded, self: int, d: int, ghost v: Code, ghost lay: CodeLay, ghost lo: int, ghost hi: int)
    requires self == lay.self && CodeHeld(l.mem, d, v, lay) && CodePlaced(lay, lo, hi) && 0 < lo
    modifies l
    ensures CodeHeld(l.mem, 0, v, lay) && SameOut(old(l.mem), l.mem, lo, hi)
  {
    StaticsStart(lay, lo, hi);
    ghost var mem0 := l.mem;
    l.mem := l.mem[self := l.mem[self].(name := Fix(l.mem[self].name, d))];
    SelfChange(mem0, l.mem, v, lay, d, d, lo, hi, l.mem[self]);
    FixupOpcodes(l, self, d, v, lay, lo, hi);
    FixupStatics(l, self, d, v, lay, lo, hi);
    ghost var mem1 := l.mem;
    l.mem := l.mem[self := l.mem[self].(file := Fix(l.mem[self].file, d))];
    SelfChange(mem1, l.mem, v, lay, 0, 0, lo, hi, l.mem[self]);
  }

  // ----- restoring -----

  // What a zval means, read from the cells it leads to, ...
  method ReadZval(mem: Memory, c: Content, ghost v: Value, ghost lay: Lay) returns (r: Value)
    requires Holds(mem, 0, c, v, lay)
    ensures r == v
    decreases v, 1
  {
    match c
    case CScalar(n) => r := Scalar(n);
    case CStr(len, p) => r := if len == 0 then Str("") else Str(mem[p].s);
    case CArr(p) =>
      var t := ReadTable(mem, p, v.t, lay);
      r := Arr(t);
  }

  // ... a table along its list.
  method ReadTable(mem: Memory, tab: int, ghost t: Table, ghost lay: Lay) returns (r: Table)
    requires lay.LArr? && tab == lay.tab && TableHeld(mem, 0, t, lay)
    ensures r == t
    decreases t, 0
  {
    var items: seq<Item>, p := [], mem[tab].head;
    ghost var j := 0;
    assert t.items != [] ==> BucketHeld(mem, 0, t, lay.bs, lay.zs, |lay.bs|, 0);
    while p != 0
      invariant j <= |t.items| && items == t.items[..j] && p == (if j < |t.items| then lay.bs[j] else 0)
      invariant p != 0 <==> j < |t.items|
      decreases |t.items| - j
    {
      assert BucketHeld(mem, 0, t, lay.bs, lay.zs, |lay.bs|, j);
      DataEach(mem, 0, t.items, lay.zs, lay.subs, j);
      var v := ReadZval(mem, mem[mem[p].dataPtr].c, t.items[j].v, lay.subs[j]);
      items := items + [Item(mem[p].h, mem[p].key, v)];
      p := mem[p].listNext;
      j := j + 1;
      assert j < |t.items| ==> BucketHeld(mem, 0, t, lay.bs, lay.zs, |lay.bs|, j);
    }
    r := Table(mem[tab].size, items);
  }

  method ReadName(mem: Memory, p: int, ghost s: Option<string>, ghost lay: Lay) returns (r: Option<string>)
    requires NameHeld(mem, 0, p, s, lay)
    ensures r == s
  {
    r := if p == 0 then None else Some(mem[p].s);
  }

  // The opcodes run where they are: what an operand means to the engine, jump addresses counted in opcodes.
  method ReadArg(mem: Memory, ops: int, cell: ArgCell, ghost arg: Arg, ghost lay: Lay) returns (r: Arg)
    requires ArgHeld(mem, 0, ops, cell, arg, lay)
    ensures r == arg
  {
    match cell
    case Literal(c) =>
      var v := ReadZval(mem, c, arg.v, lay);
      r := Lit(v);
    case Address(p) =>
      assert p - ops == arg.i * SIZEOF_OP;
      r := Jump((p - ops) / SIZEOF_OP);
    case Plain(n) => r := Raw(n);
  }

  // The static variables get a table of their own in the request's heap.
  method RestoreStatics(w: Writer, mem: Memory, p: int, ghost t: Option<Table>, ghost lay: Lay)
    returns (r: Option<Table>)
    requires w.Ready() && StaticsHeld(mem, 0, p, t, lay)
    modifies w
    ensures w.Ready() && r == t
  {
    r := None;
    if p != 0 {
      ghost var lay';
      var tab;
      tab, lay' := RestoreTable(w, mem, p, t.value, lay);
      var table := ReadTable(w.mem, tab, t.value, lay');
      r := Some(table);
    }
  }

  // restore_op_array
  method RestoreCode(w: Writer, mem: Memory, self: int, ghost v: Code, ghost lay: CodeLay) returns (r: Code)
    requires w.Ready() && self == lay.self && CodeHeld(mem, 0, v, lay)
    modifies w
    ensures w.Ready() && r == v
  {
    var name := ReadName(mem, mem[self].name, v.name, lay.name);
    var file := ReadName(mem, mem[self].file, v.file, lay.file);
    var ops, args: seq<Arg>, k := mem[self].opcodes, [], 0;
    while k < |mem[ops].args|
      invariant 0 <= k <= |v.args| && args == v.args[..k]
      modifies {}
    {
      assert ArgHeld(mem, 0, ops, mem[ops].args[k], v.args[k], lay.subs[k]);
      var arg := ReadArg(mem, ops, mem[ops].args[k], v.args[k], lay.subs[k]);
      args := args + [arg];
      k := k + 1;
    }
    var statics := RestoreStatics(w, mem, mem[self].statics, v.statics, lay.statics);
    r := Code(name, file, mem[ops].codes, args, statics);
  }

  lemma CodeElsewhere(mem: Memory, mem': Memory, d: int, v: Code, lay: CodeLay, lo: int, hi: int)
    requires CodeHeld(mem, d, v, lay) && CodePlaced(lay, lo, hi) && SameIn(mem, mem', lo, hi)
    ensures CodeHeld(mem', d, v, lay)
  {
    StaticsStart(lay, lo, hi);
    var mid := Start(lay.ends, |lay.ends|, lay.ops + 1);
    ArgsElsewhere(mem, mem', d, lay.ops, mem[lay.ops].args, v.args, lay.subs, lay.ends, lay.ops + 1, hi);
    if v.statics.Some? { TableElsewhere(mem, mem', d, v.statics.value, lay.statics, mid, hi); }
  }
}
