// The whole way of a script: its entry with all its functions is stored, moved, fixed up and restored.
module ImageScript {
  import opened Image
  import opened Requests
  import opened ImageStore
  import S = ScriptSize
  import opened ScriptBill
  import ScriptPasses
  import opened ImageFixup
  import opened ImageCode

  const HEAP_BASE := 4096

  // A script under its file name: its functions by name, and its main op array.
  datatype Script = Script(key: string, functions: seq<(string, Code)>, main: Code)

  // Where the list nodes of the functions are, and the op arrays behind them, one after the other.
  datatype ScriptLay = ScriptLay(nodes: seq<int>, lays: seq<CodeLay>, ends: seq<int>, main: CodeLay)

  // ----- memory that holds a script -----

  function NextOf(nodes: seq<int>, k: nat, d: int): int {
    if k < |nodes| then nodes[k] - d else 0
  }

  // Node k, and the name at its end.
  predicate NodeHeld(mem: Memory, d: int, nodes: seq<int>, k: nat, name: string, code: int)
    requires k < |nodes|
  {
    && nodes[k] in mem && mem[nodes[k]] == Function(NextOf(nodes, k + 1, d), code)
    && nodes[k] + OFFSET_HTABKEY in mem && mem[nodes[k] + OFFSET_HTABKEY] == Text(name)
    && Nonzero(nodes[k], d) && (k + 1 < |nodes| ==> Nonzero(nodes[k + 1], d))
  }

  ghost predicate FunctionHeld(mem: Memory, d: int, f: (string, Code), nodes: seq<int>, k: nat, lay: CodeLay)
    requires k < |nodes|
  {
    NodeHeld(mem, d, nodes, k, f.0, lay.self - d) && Nonzero(lay.self, d) && CodeHeld(mem, d, f.1, lay)
  }

  // The functions before k are fixed up, the others lag behind.
  ghost predicate FunctionsHeld(mem: Memory, d: int, fs: seq<(string, Code)>, nodes: seq<int>, lays: seq<CodeLay>,
                                k: nat) {
    && |nodes| == |lays| == |fs|
    && forall j {:trigger FunctionHeld(mem, Lag(j, k, d), fs[j], nodes, j, lays[j])} :: 0 <= j < |fs| ==>
         FunctionHeld(mem, Lag(j, k, d), fs[j], nodes, j, lays[j])
  }

  predicate NodesPlaced(nodes: seq<int>, lo: int, hi: int) {
    && lo <= hi && (forall k :: 0 <= k < |nodes| ==> lo <= nodes[k] && nodes[k] + OFFSET_HTABKEY < hi)
    && forall i, k :: 0 <= i < k < |nodes| ==> nodes[i] + OFFSET_HTABKEY < nodes[k]
  }

  ghost predicate CodesPlaced(lays: seq<CodeLay>, ends: seq<int>, lo: int, hi: int) {
    && |lays| == |ends| && Start(ends, |ends|, lo) <= hi
    && forall k {:trigger CodePlaced(lays[k], Start(ends, k, lo), ends[k])} ::
         0 <= k < |lays| ==> CodePlaced(lays[k], Start(ends, k, lo), ends[k])
  }

  lemma {:induction false} CodesOrder(lays: seq<CodeLay>, ends: seq<int>, lo: int, hi: int, i: nat, k: nat)
    requires CodesPlaced(lays, ends, lo, hi) && i <= k <= |lays|
    ensures Start(ends, i, lo) <= Start(ends, k, lo)
    decreases k
  {
    if i < k {
      CodesOrder(lays, ends, lo, hi, i, k - 1);
      assert CodePlaced(lays[k - 1], Start(ends, k - 1, lo), ends[k - 1]);
      StaticsStart(lays[k - 1], Start(ends, k - 1, lo), ends[k - 1]);
    }
  }

  lemma CodesRange(lays: seq<CodeLay>, ends: seq<int>, lo: int, hi: int, k: nat)
    requires CodesPlaced(lays, ends, lo, hi) && k < |lays|
    ensures lo <= Start(ends, k, lo) <= ends[k] <= Start(ends, |ends|, lo) <= hi
    ensures CodePlaced(lays[k], Start(ends, k, lo), ends[k])
  {
    CodesOrder(lays, ends, lo, hi, 0, k);
    CodesOrder(lays, ends, lo, hi, k, k + 1);
    CodesOrder(lays, ends, lo, hi, k + 1, |lays|);
    assert CodePlaced(lays[k], Start(ends, k, lo), ends[k]);
  }

  // The entry, the list nodes up to mid, the functions' op arrays, and the main one.
  ghost predicate ScriptPlaced(lay: ScriptLay, p: int, mid: int, hi: int) {
    && 0 < p && NodesPlaced(lay.nodes, p + 1, mid)
    && CodesPlaced(lay.lays, lay.ends, mid, Start(lay.ends, |lay.ends|, mid))
    && CodePlaced(lay.main, Start(lay.ends, |lay.ends|, mid), hi)
  }

  // The script in memory that has moved by d.
  ghost predicate ScriptHeld(mem: Memory, d: int, p: int, s: Script, lay: ScriptLay) {
    && p in mem && mem[p] == Entry(p - d, lay.main.self - d, NextOf(lay.nodes, 0, d)) && p > d
    && p + OFFSET_REALFILENAME in mem && mem[p + OFFSET_REALFILENAME] == Text(s.key)
    && FunctionsHeld(mem, d, s.functions, lay.nodes, lay.lays, 0)
    && CodeHeld(mem, d, s.main, lay.main) && Nonzero(lay.main.self, d)
  }

  // ----- cells that do not matter -----

  lemma FunctionElsewhere(mem: Memory, mem': Memory, d: int, f: (string, Code), nodes: seq<int>, k: nat, lay: CodeLay,
                          lo: int, hi: int)
    requires k < |nodes| && FunctionHeld(mem, d, f, nodes, k, lay) && CodePlaced(lay, lo, hi)
    requires SameIn(mem, mem', lo, hi)
    requires nodes[k] in mem' && mem'[nodes[k]] == mem[nodes[k]]
    ensures FunctionHeld(mem', d, f, nodes, k, lay)
  {
    CodeElsewhere(mem, mem', d, f.1, lay, lo, hi);
  }

  // Only the cell at q and, texts apart, those in [lo, hi) may have changed.
  predicate Touched(mem: Memory, mem': Memory, q: int, lo: int, hi: int) {
    forall a :: a in mem && a != q && (!(lo <= a < hi) || mem[a].Text?) ==> a in mem' && mem'[a] == mem[a]
  }

  lemma FunctionsOneMore(mem: Memory, mem': Memory, d: int, fs: seq<(string, Code)>, nodes: seq<int>,
                         lays: seq<CodeLay>, ends: seq<int>,
                         lo: int, mid: int, hi: int, k: nat)
    requires FunctionsHeld(mem, d, fs, nodes, lays, k) && k < |fs| && NodesPlaced(nodes, lo, mid)
    requires CodesPlaced(lays, ends, mid, hi)
    requires Touched(mem, mem', nodes[k], Start(ends, k, mid), ends[k])
    requires FunctionHeld(mem', 0, fs[k], nodes, k, lays[k])
    ensures FunctionsHeld(mem', d, fs, nodes, lays, k + 1)
  {
    forall j {:trigger FunctionHeld(mem', Lag(j, k + 1, d), fs[j], nodes, j, lays[j])} | 0 <= j < |fs|
      ensures FunctionHeld(mem', Lag(j, k + 1, d), fs[j], nodes, j, lays[j])
    {
      if j != k { OtherFunctionKept(mem, mem', d, fs, nodes, lays, ends, lo, mid, hi, k, j); }
    }
  }

  lemma OtherFunctionKept(mem: Memory, mem': Memory, d: int, fs: seq<(string, Code)>, nodes: seq<int>,
                          lays: seq<CodeLay>, ends: seq<int>,
                          lo: int, mid: int, hi: int, k: nat, j: nat)
    requires FunctionsHeld(mem, d, fs, nodes, lays, k) && k < |fs| && j < |fs| && j != k && NodesPlaced(nodes, lo, mid)
    requires CodesPlaced(lays, ends, mid, hi)
    requires Touched(mem, mem', nodes[k], Start(ends, k, mid), ends[k])
    ensures FunctionHeld(mem', Lag(j, k + 1, d), fs[j], nodes, j, lays[j])
  {
    assert FunctionHeld(mem, Lag(j, k, d), fs[j], nodes, j, lays[j])
           && FunctionHeld(mem, Lag(k, k, d), fs[k], nodes, k, lays[k]);
    CodesRange(lays, ends, mid, hi, j);
    CodesRange(lays, ends, mid, hi, k);
    if j < k { CodesOrder(lays, ends, mid, hi, j + 1, k); } else { CodesOrder(lays, ends, mid, hi, k + 1, j); }
    assert nodes[j] != nodes[k] by { if j < k { assert nodes[j] + OFFSET_HTABKEY < nodes[k]; } else { assert nodes[k] + OFFSET_HTABKEY < nodes[j]; } }
    assert SameIn(mem, mem', Start(ends, j, mid), ends[j]);
    FunctionElsewhere(mem, mem', Lag(j, k, d), fs[j], nodes, j, lays[j], Start(ends, j, mid), ends[j]);
  }

  // ----- fixing up -----

  // One round of the loop over the functions.
  method FixupFunction(l: Loaded, q: int, d: int, ghost f: (string, Code), ghost nodes: seq<int>, ghost k: nat,
                       ghost lay: CodeLay, ghost lo: int, ghost hi: int)
    requires k < |nodes| && q == nodes[k] && 0 < q < lo && FunctionHeld(l.mem, d, f, nodes, k, lay)
    requires CodePlaced(lay, lo, hi)
    modifies l
    ensures FunctionHeld(l.mem, 0, f, nodes, k, lay) && Touched(old(l.mem), l.mem, q, lo, hi)
  {
    ghost var mem0 := l.mem;
    l.mem := l.mem[q := l.mem[q].(code := Fix(l.mem[q].code, d))];
    CodeElsewhere(mem0, l.mem, d, f.1, lay, lo, hi);
    FixupCode(l, l.mem[q].code, d, f.1, lay, lo, hi);
    ghost var mem1 := l.mem;
    l.mem := l.mem[q := Function(Fix(l.mem[q].nextNode, d), l.mem[q].code)];
    CodeElsewhere(mem1, l.mem, 0, f.1, lay, lo, hi);
  }

  method FixupFunctions(l: Loaded, head: int, d: int, ghost fs: seq<(string, Code)>, ghost nodes: seq<int>,
                        ghost lays: seq<CodeLay>, ghost ends: seq<int>,
                        ghost lo: int, ghost mid: int, ghost hi: int)
    requires head == NextOf(nodes, 0, 0) && FunctionsHeld(l.mem, d, fs, nodes, lays, 0)
    requires 0 < lo && NodesPlaced(nodes, lo, mid) && CodesPlaced(lays, ends, mid, hi)
    modifies l
    ensures FunctionsHeld(l.mem, 0, fs, nodes, lays, 0) && SameOut(old(l.mem), l.mem, lo, hi)
  {
    var q := head;
    ghost var k := 0;
    while q != 0
      invariant k <= |fs| && q == NextOf(nodes, k, 0) && FunctionsHeld(l.mem, d, fs, nodes, lays, k)
      invariant SameOut(old(l.mem), l.mem, lo, hi)
      decreases |fs| - k
    {
      ghost var mem0 := l.mem;
      assert FunctionHeld(l.mem, Lag(k, k, d), fs[k], nodes, k, lays[k]);
      CodesRange(lays, ends, mid, hi, k);
      FixupFunction(l, q, d, fs[k], nodes, k, lays[k], Start(ends, k, mid), ends[k]);
      FunctionsOneMore(mem0, l.mem, d, fs, nodes, lays, ends, lo, mid, hi, k);
      q := l.mem[q].nextNode;
      k := k + 1;
    }
    assert k == |fs|;
    forall j {:trigger FunctionHeld(l.mem, Lag(j, 0, 0), fs[j], nodes, j, lays[j])} | 0 <= j < |fs|
      ensures FunctionHeld(l.mem, Lag(j, 0, 0), fs[j], nodes, j, lays[j])
    {
      assert FunctionHeld(l.mem, Lag(j, k, d), fs[j], nodes, j, lays[j]);
    }
  }

  lemma FunctionsKept(mem: Memory, mem': Memory, d: int, fs: seq<(string, Code)>, nodes: seq<int>, lays: seq<CodeLay>,
                      ends: seq<int>,
                      lo: int, mid: int, hi: int)
    requires FunctionsHeld(mem, d, fs, nodes, lays, 0) && NodesPlaced(nodes, lo, mid)
    requires CodesPlaced(lays, ends, mid, hi) && SameIn(mem, mem', lo, hi)
    ensures FunctionsHeld(mem', d, fs, nodes, lays, 0)
  {
    forall j {:trigger FunctionHeld(mem', Lag(j, 0, d), fs[j], nodes, j, lays[j])} | 0 <= j < |fs|
      ensures FunctionHeld(mem', Lag(j, 0, d), fs[j], nodes, j, lays[j])
    {
      assert FunctionHeld(mem, Lag(j, 0, d), fs[j], nodes, j, lays[j]);
      CodesRange(lays, ends, mid, hi, j);
      SameInside(mem, mem', lo, hi, Start(ends, j, mid), ends[j]);
      FunctionElsewhere(mem, mem', Lag(j, 0, d), fs[j], nodes, j, lays[j], Start(ends, j, mid), ends[j]);
    }
  }

  // eaccelerator_fixup: the entry knows where it was written.
  method FixupEntry(l: Loaded, p: int, ghost d: int, ghost s: Script, ghost lay: ScriptLay, ghost mid: int,
                    ghost hi: int)
    requires ScriptHeld(l.mem, d, p, s, lay) && ScriptPlaced(lay, p, mid, hi)
    modifies l
    ensures p in l.mem && l.mem[p] == Entry(0, lay.main.self, NextOf(lay.nodes, 0, 0)) && ScriptRest(l.mem, p, s, lay)
  {
    ghost var mem0, end := l.mem, Start(lay.ends, |lay.ends|, mid);
    var base := p - l.mem[p].self;
    StaticsStart(lay.main, end, hi);
    CodesOrder(lay.lays, lay.ends, mid, end, 0, |lay.lays|);
    l.mem := l.mem[p := Entry(0, Fix(l.mem[p].opArray, base), Fix(l.mem[p].functions, base))];
    CodeElsewhere(mem0, l.mem, d, s.main, lay.main, end, hi);
    FunctionsKept(mem0, l.mem, d, s.functions, lay.nodes, lay.lays, lay.ends, p + 1, mid, end);
    ghost var mem1 := l.mem;
    FixupCode(l, l.mem[p].opArray, base, s.main, lay.main, end, hi);
    FunctionsKept(mem1, l.mem, d, s.functions, lay.nodes, lay.lays, lay.ends, p + 1, mid, end);
    ghost var mem2 := l.mem;
    FixupFunctions(l, l.mem[p].functions, base, s.functions, lay.nodes, lay.lays, lay.ends, p + 1, mid, end);
    CodeElsewhere(mem2, l.mem, 0, s.main, lay.main, end, hi);
  }

  // What the entry leads to, fixed up.
  ghost predicate ScriptRest(mem: Memory, p: int, s: Script, lay: ScriptLay) {
    && p + OFFSET_REALFILENAME in mem && mem[p + OFFSET_REALFILENAME] == Text(s.key)
    && FunctionsHeld(mem, 0, s.functions, lay.nodes, lay.lays, 0) && CodeHeld(mem, 0, s.main, lay.main)
  }

  // ----- moving -----

  function ShiftCodes(lays: seq<CodeLay>, d: int): seq<CodeLay> {
    seq(|lays|, k requires 0 <= k < |lays| => ShiftCode(lays[k], d))
  }

  function ShiftScript(lay: ScriptLay, d: int): ScriptLay {
    ScriptLay(AddAll(lay.nodes, d), ShiftCodes(lay.lays, d), AddAll(lay.ends, d), ShiftCode(lay.main, d))
  }

  lemma FunctionMoved(mem: Memory, mem': Memory, d: int, f: (string, Code), nodes: seq<int>, k: nat, lay: CodeLay,
                      lo: int, hi: int)
    requires k < |nodes| && FunctionHeld(mem, 0, f, nodes, k, lay) && CodePlaced(lay, lo, hi) && MovedBy(mem, mem', d)
    requires k + 1 < |nodes| ==> nodes[k + 1] in mem
    ensures FunctionHeld(mem', d, f, AddAll(nodes, d), k, ShiftCode(lay, d))
    ensures CodePlaced(ShiftCode(lay, d), lo + d, hi + d)
  {
    CodeMoved(mem, mem', d, f.1, lay, lo, hi);
    assert nodes[k] + d in mem' && mem'[nodes[k] + d] == mem[nodes[k]];
    assert nodes[k] + OFFSET_HTABKEY + d in mem';
  }

  lemma FunctionsMoved(mem: Memory, mem': Memory, d: int, fs: seq<(string, Code)>, nodes: seq<int>, lays: seq<CodeLay>,
                       ends: seq<int>, lo: int, hi: int)
    requires FunctionsHeld(mem, 0, fs, nodes, lays, 0) && CodesPlaced(lays, ends, lo, hi) && MovedBy(mem, mem', d)
    requires forall k :: 0 <= k < |nodes| ==> nodes[k] in mem
    ensures FunctionsHeld(mem', d, fs, AddAll(nodes, d), ShiftCodes(lays, d), 0)
    ensures CodesPlaced(ShiftCodes(lays, d), AddAll(ends, d), lo + d, hi + d)
  {
    var nodes', lays', ends' := AddAll(nodes, d), ShiftCodes(lays, d), AddAll(ends, d);
    forall k {:trigger FunctionHeld(mem', Lag(k, 0, d), fs[k], nodes', k, lays'[k])} | 0 <= k < |fs|
      ensures FunctionHeld(mem', Lag(k, 0, d), fs[k], nodes', k, lays'[k])
    {
      assert FunctionHeld(mem, Lag(k, 0, 0), fs[k], nodes, k, lays[k])
             && CodePlaced(lays[k], Start(ends, k, lo), ends[k]);
      FunctionMoved(mem, mem', d, fs[k], nodes, k, lays[k], Start(ends, k, lo), ends[k]);
    }
    forall k {:trigger CodePlaced(lays'[k], Start(ends', k, lo + d), ends'[k])} | 0 <= k < |lays'|
      ensures CodePlaced(lays'[k], Start(ends', k, lo + d), ends'[k])
    {
      assert CodePlaced(lays[k], Start(ends, k, lo), ends[k]);
      CodePlacedMoved(lays[k], Start(ends, k, lo), ends[k], d);
    }
  }

  // The bytes of an entry at another address.
  lemma ScriptMoved(mem: Memory, mem': Memory, d: int, p: int, s: Script, lay: ScriptLay, mid: int, hi: int)
    requires ScriptHeld(mem, 0, p, s, lay) && ScriptPlaced(lay, p, mid, hi) && MovedBy(mem, mem', d)
    ensures ScriptHeld(mem', d, p + d, s, ShiftScript(lay, d))
    ensures ScriptPlaced(ShiftScript(lay, d), p + d, mid + d, hi + d)
  {
    var end := Start(lay.ends, |lay.ends|, mid);
    forall k | 0 <= k < |lay.nodes| ensures lay.nodes[k] in mem {
      assert FunctionHeld(mem, Lag(k, 0, 0), s.functions[k], lay.nodes, k, lay.lays[k]);
    }
    FunctionsMoved(mem, mem', d, s.functions, lay.nodes, lay.lays, lay.ends, mid, end);
    CodeMoved(mem, mem', d, s.main, lay.main, end, hi);
    assert p + OFFSET_REALFILENAME + d in mem';
  }

  // The bytes written at one address, read back at another.
  function Load(mem: Memory, d: int): Memory {
    map b | b in Addresses(mem, d) :: mem[b - d]
  }

  function Addresses(mem: Memory, d: int): set<int> {
    set a | a in mem :: a + d
  }

  lemma LoadMoves(mem: Memory, d: int)
    requires forall a :: a in mem ==> a + d > 0
    ensures MovedBy(mem, Load(mem, d), d)
  {
  }

  // ----- what a script asks for -----

  function SizedFunctions(fs: seq<(string, Code)>): seq<(string, S.Code)> {
    seq(|fs|, k requires 0 <= k < |fs| => (fs[k].0, SizedCode(fs[k].1)))
  }

  function SizedScript(s: Script): S.Script {
    S.Script(s.key, [], SizedFunctions(s.functions), SizedCode(s.main))
  }

  lemma NodeAsked(a: seq<Req>, b: seq<Req>, c: seq<Req>, fs: seq<(string, Code)>, k: nat)
    requires k < |fs| && Asked(a, b, S.KeysReqs(S.Firsts(fs)[..k]))
    requires Asked(b, c, [Alloc(OFFSET_HTABKEY + |fs[k].0| + 1), Known(fs[k].0)])
    ensures Asked(a, c, S.KeysReqs(S.Firsts(fs)[..k + 1]))
  {
    AskedOn(a, b, c, S.KeysReqs(S.Firsts(fs)[..k]), [Alloc(OFFSET_HTABKEY + |fs[k].0| + 1), Known(fs[k].0)]);
    ScriptPasses.MoreKeys(S.Firsts(fs), k);
  }

  lemma FunctionAsked(a: seq<Req>, b: seq<Req>, c: seq<Req>, fs: seq<(string, Code)>, k: nat)
    requires k < |fs| && Asked(a, b, S.CodesReqs(S.Store, SizedFunctions(fs)[..k]))
    requires Asked(b, c, S.CodeReqs(S.Store, SizedCode(fs[k].1)))
    ensures Asked(a, c, S.CodesReqs(S.Store, SizedFunctions(fs)[..k + 1]))
  {
    AskedOn(a, b, c, S.CodesReqs(S.Store, SizedFunctions(fs)[..k]), S.CodeReqs(S.Store, SizedCode(fs[k].1)));
    ScriptPasses.MoreCodes(S.Store, SizedFunctions(fs), k);
  }

  lemma BodyAsked(s: Script, b: seq<Req>, c: seq<Req>, d: seq<Req>)
    requires Asked(b, c, S.CodesReqs(S.Store, SizedFunctions(s.functions)))
    requires Asked(c, d, S.CodeReqs(S.Store, SizedCode(s.main)))
    ensures Asked(b, d, S.BodyReqs(S.Store, SizedScript(s)))
  {
    var x, y := S.CodesReqs(S.Store, SizedFunctions(s.functions)), S.CodeReqs(S.Store, SizedCode(s.main));
    AskedOn(b, c, d, x, y);
    assert S.ClassesReqs(S.Store, SizedScript(s).classes) == [] && [] + x == x;
  }

  // All that StoreEntry asks for is what eaccelerator_store_int asks for, and calc_size has foreseen exactly that.
  lemma ScriptAsked(s: Script, a: seq<Req>, d: seq<Req>)
    requires Asked([], a, [Alloc(OFFSET_REALFILENAME + |s.key| + 1), Known(s.key)])
    requires BehindAsked(s, a, d)
    ensures d == S.ScriptReqs(S.Store, SizedScript(s)) && Cost(d) == Cost(S.ScriptReqs(S.Calc, SizedScript(s)))
  {
    var first, keys, body := [Alloc(OFFSET_REALFILENAME + |s.key| + 1), Known(s.key)],
      S.KeysReqs(S.Firsts(s.functions)), S.BodyReqs(S.Store, SizedScript(s));
    HeadIs(s, first, keys);
    AskedOn([], a, d, first, keys + body);
    assert [] + (first + (keys + body)) == first + keys + body;
    S.CalcIsEnough(SizedScript(s));
  }

  lemma HeadIs(s: Script, first: seq<Req>, keys: seq<Req>)
    requires first == [Alloc(OFFSET_REALFILENAME + |s.key| + 1), Known(s.key)]
    requires keys == S.KeysReqs(S.Firsts(s.functions))
    ensures S.HeadReqs(SizedScript(s)) == first + keys
  {
    var sized := SizedScript(s);
    assert S.Firsts(sized.functions) == S.Firsts(s.functions) && S.KeysReqs(S.Firsts(sized.classes)) == [];
    assert first + [] == first;
  }

  // ----- storing -----

  // The list nodes so far, their op arrays still to come.
  predicate NodesHeld(mem: Memory, nodes: seq<int>, fs: seq<(string, Code)>, from: nat) {
    |nodes| <= |fs| && forall k {:trigger NodeHeld(mem, 0, nodes, k, fs[k].0, 0)} :: from <= k < |nodes| ==>
        NodeHeld(mem, 0, nodes, k, fs[k].0, 0)
  }

  lemma NodeMore(mem: Memory, mem1: Memory, mem2: Memory, nodes: seq<int>, fs: seq<(string, Code)>, p: int, lo: int,
                 at: int)
    requires NodesHeld(mem, nodes, fs, 0) && |nodes| < |fs| && 0 < lo && NodesPlaced(nodes, lo, at) && at <= p
    requires mem1 == mem[p := Function(0, 0)][p + OFFSET_HTABKEY := Text(fs[|nodes|].0)]
    requires mem2 == if nodes == [] then mem1 else mem1[nodes[|nodes| - 1] := Function(p, 0)]
    ensures NodesHeld(mem2, nodes + [p], fs, 0)
  {
    var nodes' := nodes + [p];
    forall k {:trigger NodeHeld(mem2, 0, nodes', k, fs[k].0, 0)} | 0 <= k < |nodes'|
      ensures NodeHeld(mem2, 0, nodes', k, fs[k].0, 0)
    {
      if k < |nodes| {
        assert NodeHeld(mem, 0, nodes, k, fs[k].0, 0);
        if k + 1 < |nodes| { assert nodes[k] + OFFSET_HTABKEY < nodes[|nodes| - 1]; }
      }
    }
  }

  // One round of the first loop: a node with the name of function k, behind the one at q.
  method StoreNode(w: Writer, fs: seq<(string, Code)>, k: nat, q: int, ghost nodes: seq<int>, ghost lo: int)
    returns (fc: int)
    requires w.Ready() && k == |nodes| < |fs| && q == (if k == 0 then 0 else nodes[k - 1]) && 0 < lo
    requires NodesHeld(w.mem, nodes, fs, 0) && NodesPlaced(nodes, lo, w.at)
    modifies w
    ensures w.Ready() && NodesHeld(w.mem, nodes + [fc], fs, 0) && NodesPlaced(nodes + [fc], lo, w.at) && fc > 0
    ensures forall a :: a in old(w.mem) && a != q ==> a in w.mem && w.mem[a] == old(w.mem)[a]
    ensures Asked(old(w.reqs), w.reqs, [Alloc(OFFSET_HTABKEY + |fs[k].0| + 1), Known(fs[k].0)])
  {
    ghost var mem0, at0 := w.mem, w.at;
    fc := w.AllocateNamed(OFFSET_HTABKEY, fs[k].0, Function(0, 0));
    ghost var mem1 := w.mem;
    if q != 0 {
      assert NodeHeld(mem0, 0, nodes, k - 1, fs[k - 1].0, 0);
      w.Put(q, Function(fc, 0));
    }
    NodeMore(mem0, mem1, w.mem, nodes, fs, fc, lo, at0);
  }

  // The first loop over the functions: a node with the name for each, at the end of the list.
  method StoreNodes(w: Writer, fs: seq<(string, Code)>) returns (head: int, ghost nodes: seq<int>)
    requires w.Ready()
    modifies w
    ensures w.Ready() && Extends(old(w.mem), w.mem) && |nodes| == |fs| && head == NextOf(nodes, 0, 0)
    ensures NodesHeld(w.mem, nodes, fs, 0) && NodesPlaced(nodes, old(w.at), w.at)
    ensures Asked(old(w.reqs), w.reqs, S.KeysReqs(S.Firsts(fs)))
  {
    head, nodes := 0, [];
    var k, q := 0, 0;
    AskedNothing(w.reqs);
    while k < |fs|
      invariant k == |nodes| <= |fs| && w.Ready() && Extends(old(w.mem), w.mem)
      invariant head == NextOf(nodes, 0, 0) && q == (if k == 0 then 0 else nodes[k - 1])
      invariant NodesHeld(w.mem, nodes, fs, 0) && NodesPlaced(nodes, old(w.at), w.at)
      invariant Asked(old(w.reqs), w.reqs, S.KeysReqs(S.Firsts(fs)[..k]))
    {
      ghost var reqs0 := w.reqs;
      var fc := StoreNode(w, fs, k, q, nodes, old(w.at));
      NodeAsked(old(w.reqs), reqs0, w.reqs, fs, k);
      if q == 0 { head := fc; }
      q, nodes, k := fc, nodes + [fc], k + 1;
    }
    assert S.Firsts(fs)[..k] == S.Firsts(fs);
  }

  // The functions before k have their op arrays.
  ghost predicate StoredTo(mem: Memory, fs: seq<(string, Code)>, nodes: seq<int>, lays: seq<CodeLay>, k: nat) {
    && |lays| == k <= |nodes| == |fs| && NodesHeld(mem, nodes, fs, k)
    && forall j {:trigger FunctionHeld(mem, 0, fs[j], nodes, j, lays[j])} ::
         0 <= j < k ==> FunctionHeld(mem, 0, fs[j], nodes, j, lays[j])
  }

  lemma OtherStored(mem: Memory, mem1: Memory, mem2: Memory, fs: seq<(string, Code)>, nodes: seq<int>,
                    lays: seq<CodeLay>, ends: seq<int>,
                    lo: int, mid: int, k: nat, self: int, j: nat)
    requires StoredTo(mem, fs, nodes, lays, k) && j < k < |fs| && NodesPlaced(nodes, lo, mid)
    requires CodesPlaced(lays, ends, mid, Start(ends, |ends|, mid))
    requires Extends(mem, mem1) && mem2 == mem1[nodes[k] := Function(NextOf(nodes, k + 1, 0), self)]
    ensures FunctionHeld(mem2, 0, fs[j], nodes, j, lays[j])
  {
    assert FunctionHeld(mem, 0, fs[j], nodes, j, lays[j]) && NodeHeld(mem, 0, nodes, k, fs[k].0, 0);
    CodesRange(lays, ends, mid, Start(ends, |ends|, mid), j);
    assert nodes[j] + OFFSET_HTABKEY < nodes[k] < mid;
    FunctionElsewhere(mem, mem2, 0, fs[j], nodes, j, lays[j], Start(ends, j, mid), ends[j]);
  }

  lemma FunctionStored(mem: Memory, mem1: Memory, mem2: Memory, fs: seq<(string, Code)>, nodes: seq<int>,
                       lays: seq<CodeLay>, ends: seq<int>,
                       lo: int, mid: int, k: nat, lay: CodeLay, at: int)
    requires StoredTo(mem, fs, nodes, lays, k) && k < |fs| && NodesPlaced(nodes, lo, mid)
    requires CodesPlaced(lays, ends, mid, Start(ends, |ends|, mid)) && 0 < lo
    requires Extends(mem, mem1) && mem2 == mem1[nodes[k] := Function(NextOf(nodes, k + 1, 0), lay.self)]
    requires CodeHeld(mem1, 0, fs[k].1, lay) && CodePlaced(lay, Start(ends, |ends|, mid), at)
    ensures StoredTo(mem2, fs, nodes, lays + [lay], k + 1)
  {
    var lays' := lays + [lay];
    assert NodeHeld(mem, 0, nodes, k, fs[k].0, 0);
    CodesOrder(lays, ends, mid, Start(ends, |ends|, mid), 0, |lays|);
    CodeElsewhere(mem1, mem2, 0, fs[k].1, lay, Start(ends, |ends|, mid), at);
    assert FunctionHeld(mem2, 0, fs[k], nodes, k, lays'[k]);
    forall j {:trigger FunctionHeld(mem2, 0, fs[j], nodes, j, lays'[j])} | 0 <= j < k + 1
      ensures FunctionHeld(mem2, 0, fs[j], nodes, j, lays'[j])
    {
      if j < k { OtherStored(mem, mem1, mem2, fs, nodes, lays, ends, lo, mid, k, lay.self, j); }
    }
    forall j {:trigger NodeHeld(mem2, 0, nodes, j, fs[j].0, 0)} | k + 1 <= j < |nodes|
      ensures NodeHeld(mem2, 0, nodes, j, fs[j].0, 0)
    {
      assert NodeHeld(mem, 0, nodes, j, fs[j].0, 0) && nodes[k] + OFFSET_HTABKEY < nodes[j];
    }
  }

  lemma CodesOneMore(lays: seq<CodeLay>, ends: seq<int>, lo: int, lay: CodeLay, at: int)
    requires CodesPlaced(lays, ends, lo, Start(ends, |ends|, lo)) && CodePlaced(lay, Start(ends, |ends|, lo), at)
    ensures CodesPlaced(lays + [lay], ends + [at], lo, at)
  {
    var lays', ends' := lays + [lay], ends + [at];
    forall k {:trigger CodePlaced(lays'[k], Start(ends', k, lo), ends'[k])} | 0 <= k < |lays'|
      ensures CodePlaced(lays'[k], Start(ends', k, lo), ends'[k])
    {
      if k < |lays| { assert CodePlaced(lays[k], Start(ends, k, lo), ends[k]); }
    }
  }

  // One round of the second loop: the op array of function k, whose node is at q.
  method StoreFunction(w: Writer, q: int, fs: seq<(string, Code)>, ghost nodes: seq<int>, ghost lays: seq<CodeLay>,
                       ghost ends: seq<int>,
                       ghost lo: int, ghost mid: int, k: nat)
    returns (next: int, ghost lay: CodeLay)
    requires w.Ready() && k < |fs| && q == NextOf(nodes, k, 0) && StoredTo(w.mem, fs, nodes, lays, k) && 0 < lo
    requires NodesPlaced(nodes, lo, mid) && CodesPlaced(lays, ends, mid, w.at) && w.at == Start(ends, |ends|, mid)
    requires forall j :: 0 <= j < |fs| ==> Wellformed(fs[j].1)
    modifies w
    ensures w.Ready() && StoredTo(w.mem, fs, nodes, lays + [lay], k + 1)
    ensures CodesPlaced(lays + [lay], ends + [w.at], mid, w.at)
    ensures next == NextOf(nodes, k + 1, 0) && SameOut(old(w.mem), w.mem, lo, mid)
    ensures Asked(old(w.reqs), w.reqs, S.CodeReqs(S.Store, SizedCode(fs[k].1)))
  {
    ghost var mem0 := w.mem;
    assert NodeHeld(w.mem, 0, nodes, k, fs[k].0, 0);
    var code;
    code, lay := StoreCode(w, fs[k].1);
    ghost var mem1 := w.mem;
    w.Put(q, Function(w.mem[q].nextNode, code));
    FunctionStored(mem0, mem1, w.mem, fs, nodes, lays, ends, lo, mid, k, lay, w.at);
    CodesOneMore(lays, ends, mid, lay, w.at);
    next := w.mem[q].nextNode;
  }

  // The second loop: the op arrays, in the order of the list.
  method StoreFunctions(w: Writer, head: int, fs: seq<(string, Code)>, ghost nodes: seq<int>, ghost lo: int)
    returns (ghost lays: seq<CodeLay>, ghost ends: seq<int>)
    requires w.Ready() && |nodes| == |fs| && head == NextOf(nodes, 0, 0) && NodesHeld(w.mem, nodes, fs, 0)
    requires 0 < lo && NodesPlaced(nodes, lo, w.at) && forall k :: 0 <= k < |fs| ==> Wellformed(fs[k].1)
    modifies w
    ensures w.Ready() && SameOut(old(w.mem), w.mem, lo, old(w.at)) && StoredTo(w.mem, fs, nodes, lays, |fs|)
    ensures CodesPlaced(lays, ends, old(w.at), w.at) && w.at == Start(ends, |ends|, old(w.at))
    ensures Asked(old(w.reqs), w.reqs, S.CodesReqs(S.Store, SizedFunctions(fs)))
  {
    lays, ends := [], [];
    var k, q := 0, head;
    ghost var mid := w.at;
    AskedNothing(w.reqs);
    while q != 0
      invariant k <= |fs| && q == NextOf(nodes, k, 0) && w.Ready() && SameOut(old(w.mem), w.mem, lo, mid)
      invariant StoredTo(w.mem, fs, nodes, lays, k) && CodesPlaced(lays, ends, mid, w.at)
      invariant w.at == Start(ends, |ends|, mid)
      invariant Asked(old(w.reqs), w.reqs, S.CodesReqs(S.Store, SizedFunctions(fs)[..k]))
      decreases |fs| - k
    {
      ghost var lay;
      ghost var reqs0 := w.reqs;
      q, lay := StoreFunction(w, q, fs, nodes, lays, ends, lo, mid, k);
      FunctionAsked(old(w.reqs), reqs0, w.reqs, fs, k);
      lays, ends, k := lays + [lay], ends + [w.at], k + 1;
    }
    assert k == |fs| && SizedFunctions(fs)[..k] == SizedFunctions(fs);
  }

  // The entry's own cell is written last.
  lemma EntryStored(mem: Memory, mem1: Memory, mem2: Memory, p: int, s: Script, lay: ScriptLay, mid: int, hi: int)
    requires StoredTo(mem, s.functions, lay.nodes, lay.lays, |s.functions|) && ScriptPlaced(lay, p, mid, hi)
    requires Extends(mem, mem1) && CodeHeld(mem1, 0, s.main, lay.main)
    requires mem2 == mem1[p := Entry(p, lay.main.self, NextOf(lay.nodes, 0, 0))]
    requires p + OFFSET_REALFILENAME in mem1 && mem1[p + OFFSET_REALFILENAME] == Text(s.key) && p in mem
    requires !mem[p].Text?
    ensures ScriptHeld(mem2, 0, p, s, lay)
  {
    var end := Start(lay.ends, |lay.ends|, mid);
    forall j {:trigger FunctionHeld(mem, Lag(j, 0, 0), s.functions[j], lay.nodes, j,
                                    lay.lays[j])} | 0 <= j < |s.functions|
      ensures FunctionHeld(mem, Lag(j, 0, 0), s.functions[j], lay.nodes, j, lay.lays[j])
    {
      assert FunctionHeld(mem, 0, s.functions[j], lay.nodes, j, lay.lays[j]);
    }
    CodesOrder(lay.lays, lay.ends, mid, end, 0, |lay.lays|);
    FunctionsKept(mem, mem2, 0, s.functions, lay.nodes, lay.lays, lay.ends, p + 1, mid, end);
    CodeElsewhere(mem1, mem2, 0, s.main, lay.main, end, hi);
  }

  predicate StorableScript(s: Script) {
    Wellformed(s.main) && forall k :: 0 <= k < |s.functions| ==> Wellformed(s.functions[k].1)
  }

  // Everything behind the entry: the nodes, the functions, the main op array.
  ghost predicate BehindAsked(s: Script, a: seq<Req>, d: seq<Req>) {
    Asked(a, d, S.KeysReqs(S.Firsts(s.functions)) + S.BodyReqs(S.Store, SizedScript(s)))
  }

  lemma AllBehind(s: Script, a: seq<Req>, b: seq<Req>, c: seq<Req>, d: seq<Req>)
    requires Asked(a, b, S.KeysReqs(S.Firsts(s.functions)))
    requires Asked(b, c, S.CodesReqs(S.Store, SizedFunctions(s.functions)))
    requires Asked(c, d, S.CodeReqs(S.Store, SizedCode(s.main)))
    ensures BehindAsked(s, a, d)
  {
    BodyAsked(s, b, c, d);
    AskedOn(a, b, d, S.KeysReqs(S.Firsts(s.functions)), S.BodyReqs(S.Store, SizedScript(s)));
  }

  // The nodes, and the functions behind them.
  method StoreList(w: Writer, lo: int, fs: seq<(string, Code)>)
    returns (head: int, ghost nodes: seq<int>, ghost lays: seq<CodeLay>, ghost ends: seq<int>, ghost mid: int,
             ghost reqs: seq<Req>)
    requires w.Ready() && 0 < lo <= w.at && forall k :: 0 <= k < |fs| ==> Wellformed(fs[k].1)
    modifies w
    ensures w.Ready() && SameOut(old(w.mem), w.mem, old(w.at), w.at) && StoredTo(w.mem, fs, nodes, lays, |fs|)
    ensures head == NextOf(nodes, 0, 0) && NodesPlaced(nodes, lo, mid) && CodesPlaced(lays, ends, mid, w.at)
    ensures w.at == Start(ends, |ends|, mid)
    ensures Asked(old(w.reqs), reqs, S.KeysReqs(S.Firsts(fs)))
    ensures Asked(reqs, w.reqs, S.CodesReqs(S.Store, SizedFunctions(fs)))
  {
    ghost var at0 := w.at;
    head, nodes := StoreNodes(w, fs);
    mid, reqs := w.at, w.reqs;
    lays, ends := StoreFunctions(w, head, fs, nodes, at0);
    CodesOrder(lays, ends, mid, w.at, 0, |lays|);
  }

  method StoreBehind(w: Writer, entry: int, s: Script)
    returns (self: int, head: int, ghost lay: ScriptLay, ghost mid: int, ghost mem0: Memory)
    requires w.Ready() && StorableScript(s) && 0 < entry < w.at
    modifies w
    ensures w.Ready() && SameOut(old(w.mem), mem0, old(w.at), w.at) && Extends(mem0, w.mem)
    ensures StoredTo(mem0, s.functions, lay.nodes, lay.lays, |s.functions|) && ScriptPlaced(lay, entry, mid, w.at)
    ensures CodeHeld(w.mem, 0, s.main, lay.main) && self == lay.main.self && head == NextOf(lay.nodes, 0, 0)
    ensures BehindAsked(s, old(w.reqs), w.reqs)
  {
    ghost var nodes, lays, ends, main, reqs1, reqs2, reqs3;
    reqs1 := w.reqs;
    head, nodes, lays, ends, mid, reqs2 := StoreList(w, entry + 1, s.functions);
    mem0, reqs3 := w.mem, w.reqs;
    self, main := StoreCode(w, s.main);
    lay := ScriptLay(nodes, lays, ends, main);
    AllBehind(s, reqs1, reqs2, reqs3, w.reqs);
  }

  // From an aligned address on, as much as calc_size foresees.
  ghost predicate Foreseen(s: Script, base: int, hi: int) {
    base % ALIGN == 0 ==> hi == base + Bill(SizedScript(s), false)
  }

  lemma EntryForeseen(s: Script, base: int, at: int, strings: map<string, int>, a: seq<Req>, d: seq<Req>)
    requires Booked(base, at, strings, d) && BehindAsked(s, a, d)
    requires Asked([], a, [Alloc(OFFSET_REALFILENAME + |s.key| + 1), Known(s.key)])
    ensures Foreseen(s, base, at)
  {
    ScriptAsked(s, a, d);
    CostIsBill(S.Calc, SizedScript(s));
  }

  method FinishEntry(w: Writer, s: Script, self: int, head: int, ghost lay: ScriptLay, ghost mid: int,
                     ghost mem0: Memory)
    requires w.Ready() && StoredTo(mem0, s.functions, lay.nodes, lay.lays, |s.functions|)
    requires ScriptPlaced(lay, w.base, mid, w.at) && Extends(mem0, w.mem) && CodeHeld(w.mem, 0, s.main, lay.main)
    requires self == lay.main.self && head == NextOf(lay.nodes, 0, 0) && w.base in mem0 && mem0[w.base].Entry?
    requires w.base + OFFSET_REALFILENAME in w.mem && w.mem[w.base + OFFSET_REALFILENAME] == Text(s.key)
    modifies w`mem
    ensures w.Ready() && ScriptHeld(w.mem, 0, w.base, s, lay)
  {
    ghost var mem1 := w.mem;
    w.Put(w.base, Entry(w.base, self, head));
    EntryStored(mem0, mem1, w.mem, w.base, s, lay, mid, w.at);
  }

  lemma EntryKept(mem: Memory, mem0: Memory, mem1: Memory, lo: int, hi: int, base: int, key: string)
    requires SameOut(mem, mem0, lo, hi) && Extends(mem0, mem1) && base + OFFSET_REALFILENAME < lo && 0 < base
    requires base in mem && mem[base].Entry? && base + OFFSET_REALFILENAME in mem
    requires mem[base + OFFSET_REALFILENAME] == Text(key)
    ensures base in mem0 && mem0[base].Entry?
    ensures base + OFFSET_REALFILENAME in mem1 && mem1[base + OFFSET_REALFILENAME] == Text(key)
  {
  }

  // The entry itself, with its file name at the end.
  method OpenEntry(s: Script, base: int) returns (w: Writer)
    requires 0 < base
    ensures fresh(w) && w.Ready() && w.base == base < w.at && base in w.mem && w.mem[base].Entry?
    ensures base + OFFSET_REALFILENAME in w.mem && w.mem[base + OFFSET_REALFILENAME] == Text(s.key)
    ensures Asked([], w.reqs, [Alloc(OFFSET_REALFILENAME + |s.key| + 1), Known(s.key)])
  {
    w := new Writer(base);
    var _ := w.AllocateNamed(OFFSET_REALFILENAME, s.key, Entry(0, 0, 0));
  }

  // eaccelerator_store_int, and hash_add_file's p->next = p.  No two cells of the image overlap, and from an aligned
  // address on it fills exactly the space that calc_size foresees.
  method StoreEntry(s: Script, base: int) returns (mem: Memory, ghost lay: ScriptLay, ghost mid: int, ghost hi: int)
    requires StorableScript(s) && 0 < base
    ensures ScriptHeld(mem, 0, base, s, lay) && ScriptPlaced(lay, base, mid, hi) && forall a :: a in mem ==> base <= a
    ensures Separate(mem, hi) && Foreseen(s, base, hi)
  {
    var w := OpenEntry(s, base);
    ghost var mem0, mem1, at1, reqs1 := map[], w.mem, w.at, w.reqs;
    var self, head;
    self, head, lay, mid, mem0 := StoreBehind(w, base, s);
    EntryForeseen(s, base, w.at, w.strings, reqs1, w.reqs);
    EntryKept(mem1, mem0, w.mem, at1, w.at, base, s.key);
    FinishEntry(w, s, self, head, lay, mid, mem0);
    hi, mem := w.at, w.mem;
  }

  // ----- restoring -----

  // One node of the list, and the function behind it.
  method RestoreFunction(heap: Writer, mem: Memory, e: int, ghost f: (string, Code), ghost nodes: seq<int>,
                         ghost k: nat,
                         ghost lay: CodeLay)
    returns (r: (string, Code), next: int)
    requires heap.Ready() && k < |nodes| && e == nodes[k] && FunctionHeld(mem, 0, f, nodes, k, lay)
    modifies heap
    ensures heap.Ready() && r == f && next == NextOf(nodes, k + 1, 0)
  {
    var code := RestoreCode(heap, mem, mem[e].code, f.1, lay);
    r, next := (mem[e + OFFSET_HTABKEY].s, code), mem[e].nextNode;
  }

  // The list of functions, from its head on.
  method RestoreFunctions(heap: Writer, mem: Memory, head: int, ghost all: seq<(string, Code)>, ghost nodes: seq<int>,
                          ghost lays: seq<CodeLay>)
    returns (fs: seq<(string, Code)>)
    requires heap.Ready() && FunctionsHeld(mem, 0, all, nodes, lays, 0) && head == NextOf(nodes, 0, 0)
    modifies heap
    ensures heap.Ready() && fs == all
  {
    var e := head;
    fs := [];
    ghost var k := 0;
    while e != 0
      invariant k <= |all| && fs == all[..k] && e == NextOf(nodes, k, 0) && heap.Ready()
      decreases |all| - k
      modifies heap
    {
      assert FunctionHeld(mem, Lag(k, 0, 0), all[k], nodes, k, lays[k]);
      var f;
      f, e := RestoreFunction(heap, mem, e, all[k], nodes, k, lays[k]);
      fs, k := fs + [f], k + 1;
    }
    ListEnds(mem, all, nodes, lays, k);
  }

  lemma ListEnds(mem: Memory, all: seq<(string, Code)>, nodes: seq<int>, lays: seq<CodeLay>, k: nat)
    requires FunctionsHeld(mem, 0, all, nodes, lays, 0) && k <= |all|
    ensures NextOf(nodes, k, 0) == 0 ==> k == |all|
  {
    if k < |all| { assert FunctionHeld(mem, Lag(k, 0, 0), all[k], nodes, k, lays[k]); }
  }

  // hash_find_file and eaccelerator_restore: fix the loaded entry up, give its op arrays to the engine.
  method RestoreEntry(image: Memory, p: int, ghost d: int, ghost s: Script, ghost lay: ScriptLay, ghost mid: int,
                      ghost hi: int)
    returns (r: Script)
    requires ScriptHeld(image, d, p, s, lay) && ScriptPlaced(lay, p, mid, hi)
    ensures r == s
  {
    var l := new Loaded(image);
    FixupEntry(l, p, d, s, lay, mid, hi);
    var heap := new Writer(HEAP_BASE);
    var main := RestoreCode(heap, l.mem, l.mem[p].opArray, s.main, lay.main);
    var fs := RestoreFunctions(heap, l.mem, l.mem[p].functions, s.functions, lay.nodes, lay.lays);
    r := Script(l.mem[p + OFFSET_REALFILENAME].s, fs, main);
  }

  lemma LoadedBytes(mem: Memory, d: int, p: int)
    requires 0 < p + d && forall a :: a in mem ==> p <= a
    ensures MovedBy(mem, Load(mem, d), d)
  {
    forall a | a in mem ensures a + d > 0 { assert p <= a; }
    LoadMoves(mem, d);
  }

  lemma LoadedScript(mem: Memory, image: Memory, d: int, p: int, s: Script, lay: ScriptLay, mid: int, hi: int)
    requires ScriptHeld(mem, 0, p, s, lay) && ScriptPlaced(lay, p, mid, hi) && 0 < p + d && forall a ::
               a in mem ==> p <= a
    requires image == Load(mem, d)
    ensures ScriptHeld(image, d, p + d, s, ShiftScript(lay, d))
    ensures ScriptPlaced(ShiftScript(lay, d), p + d, mid + d, hi + d)
  {
    LoadedBytes(mem, d, p);
    ScriptMoved(mem, image, d, p, s, lay, mid, hi);
  }

  // The bytes of an entry, read at another address.
  method LoadEntry(mem: Memory, d: int, ghost p: int, ghost s: Script, ghost lay: ScriptLay, ghost mid: int,
                   ghost hi: int)
    returns (image: Memory, ghost lay': ScriptLay)
    requires ScriptHeld(mem, 0, p, s, lay) && ScriptPlaced(lay, p, mid, hi) && 0 < p + d && forall a ::
               a in mem ==> p <= a
    ensures ScriptHeld(image, d, p + d, s, lay') && ScriptPlaced(lay', p + d, mid + d, hi + d)
  {
    image := Load(mem, d);
    lay' := ShiftScript(lay, d);
    LoadedScript(mem, image, d, p, s, lay, mid, hi);
  }

  // Store a script at base, load its bytes at newBase: they hold the script, behind by the distance; and fixed up
  // and restored it is the same script.
  method RoundTrip(s: Script, base: int, newBase: int)
    returns (image: Memory, r: Script, ghost lay: ScriptLay, ghost mid: int, ghost hi: int)
    requires StorableScript(s) && 0 < base && 0 < newBase
    ensures ScriptHeld(image, newBase - base, newBase, s, lay) && ScriptPlaced(lay, newBase, mid, hi) && r == s
    ensures Foreseen(s, base, base + (hi - newBase))
  {
    var mem;
    ghost var lay0, mid0, hi0;
    mem, lay0, mid0, hi0 := StoreEntry(s, base);
    ghost var d := newBase - base;
    image, lay := LoadEntry(mem, newBase - base, base, s, lay0, mid0, hi0);
    mid, hi := mid0 + d, hi0 + d;
    r := RestoreEntry(image, newBase, d, s, lay, mid, hi);
  }
}
