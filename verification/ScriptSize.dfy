// calc_size and its helpers, against eaccelerator_store_int and its own: both passes go over a script in different
// orders and share short strings as they meet them, yet the first foresees what the second uses.
module ScriptSize {
  import opened Options
  import opened Requests

  const SIZEOF_INTERNAL_FUNCTION := 64
  const SIZEOF_ARG_INFO := 40
  const SIZEOF_PROPERTY_INFO := 56
  const SIZEOF_BRK_CONT := 16
  const SIZEOF_TRY_CATCH := 8
  const SIZEOF_VARIABLE := 24
  const SIZEOF_CLASS := 480

  datatype Zval = Plain | Text(s: string) | List(t: Table)
  datatype Table = Table(size: nat, buckets: seq<Bucket>)

  // kept: what the check function says, where there is one.
  datatype Bucket = Bucket(keyLength: nat, kept: bool, data: Data)
  datatype Data = Val(v: Zval) | Property(title: string, comment: Option<string>) | Function(code: Code)
  datatype Arg = Arg(argName: Option<string>, className: Option<string>)
  datatype Ops = Ops(last: nat, constants: seq<Zval>)
  datatype Code = Code(user: bool, args: seq<Arg>, name: Option<string>, scope: Option<string>, opcodes: Option<Ops>,
                       brks: Option<nat>, tries: Option<nat>, statics: Option<Table>, vars: Option<seq<string>>,
                       file: Option<string>, doc: Option<string>)
  datatype Class = Class(name: Option<string>, parent: Option<string>, file: Option<string>, doc: Option<string>,
                         constants: Table, properties: Table, defaults: Table, defaultStatics: Table,
                         statics: Option<Table>, methods: Table)
  datatype Script = Script(key: string, classes: seq<(string, Class)>, functions: seq<(string, Code)>, main: Code)

  // ----- what a pass asks for -----

  datatype Pass = Calc | Store

  // ----- what each part asks for -----

  predicate NoKnown(reqs: seq<Req>) {
    forall i :: 0 <= i < |reqs| ==> !reqs[i].Known?
  }

  predicate NoShare(reqs: seq<Req>) {
    forall i :: 0 <= i < |reqs| ==> !reqs[i].Share?
  }

  function Opt(s: Option<string>): (r: seq<Req>)
    ensures NoKnown(r)
  {
    if s.Some? then [Share(s.value)] else []
  }

  function OptAlloc(n: Option<nat>, size: nat): (r: seq<Req>)
    ensures NoKnown(r)
  {
    if n.Some? then [Alloc(n.value * size)] else []
  }

  // The passes meet these two in opposite order.
  function Either(pass: Pass, a: seq<Req>, b: seq<Req>): (r: seq<Req>)
    requires NoKnown(a) && NoKnown(b)
    ensures NoKnown(r)
  {
    if pass.Calc? then a + b else b + a
  }

  function ZvalReqs(pass: Pass, v: Zval): (r: seq<Req>)
    ensures NoKnown(r)
    decreases v, 1
  {
    match v
    case Plain => []
    case Text(s) => [Share(s)]
    case List(t) => [Alloc(SIZEOF_HASH)] + TableReqs(pass, t, false)
  }

  function TableReqs(pass: Pass, t: Table, check: bool): (r: seq<Req>)
    ensures NoKnown(r)
    decreases t, 1
  {
    if t.buckets == [] then [] else [Alloc(t.size * SIZEOF_PTR)] + BucketReqs(pass, t.buckets, check)
  }

  function BucketReqs(pass: Pass, bs: seq<Bucket>, check: bool): (r: seq<Req>)
    ensures NoKnown(r)
    decreases bs, 0
  {
    if bs == [] then [] else
      var n := |bs| - 1;
      BucketReqs(pass, bs[..n], check)
      + if check && !bs[n].kept then [] else BucketReq(pass, bs[n])
  }

  function BucketReq(pass: Pass, b: Bucket): (r: seq<Req>)
    ensures NoKnown(r)
    decreases b, 0
  {
    [Alloc(OFFSET_ARKEY + b.keyLength)] + DataReqs(pass, b.data)
  }

  function DataReqs(pass: Pass, data: Data): (r: seq<Req>)
    ensures NoKnown(r)
    decreases data, 1
  {
    match data
    case Val(v) => [Alloc(SIZEOF_ZVAL)] + ZvalReqs(pass, v)
    case Property(title, comment) => [Alloc(SIZEOF_PROPERTY_INFO), Share(title)] + Opt(comment)
    case Function(c) => CodeReqs(pass, c)
  }

  function ZvalsReqs(pass: Pass, vs: seq<Zval>): (r: seq<Req>)
    ensures NoKnown(r)
    decreases vs, 0
  {
    if vs == [] then [] else ZvalsReqs(pass, vs[..|vs| - 1]) + ZvalReqs(pass, vs[|vs| - 1])
  }

  function ArgReqs(a: Arg): (r: seq<Req>)
    ensures NoKnown(r)
  {
    Opt(a.argName) + Opt(a.className)
  }

  function ArgsReqs(args: seq<Arg>): (r: seq<Req>)
    ensures NoKnown(r)
  {
    if args == [] then [] else ArgsReqs(args[..|args| - 1]) + ArgReqs(args[|args| - 1])
  }

  function VarsReqs(vars: seq<string>): (r: seq<Req>)
    ensures NoKnown(r)
  {
    if vars == [] then [] else VarsReqs(vars[..|vars| - 1]) + [Share(vars[|vars| - 1])]
  }

  function CodeHead(c: Code): (r: seq<Req>)
    ensures NoKnown(r)
  {
    [Alloc(if c.user then SIZEOF_OP_ARRAY else SIZEOF_INTERNAL_FUNCTION)]
    + (if c.args == [] then [] else [Alloc(|c.args| * SIZEOF_ARG_INFO)] + ArgsReqs(c.args))
    + Opt(c.name) + Opt(c.scope)
  }

  function OpsReqs(pass: Pass, ops: Option<Ops>): (r: seq<Req>)
    ensures NoKnown(r)
    decreases ops, 1
  {
    if ops.None? then [] else [Alloc(ops.value.last * SIZEOF_OP)] + ZvalsReqs(pass, ops.value.constants)
  }

  function StaticsReqs(pass: Pass, t: Option<Table>): (r: seq<Req>)
    ensures NoKnown(r)
    decreases t, 2
  {
    if t.None? then [] else [Alloc(SIZEOF_HASH)] + TableReqs(pass, t.value, false)
  }

  function OptVars(vars: Option<seq<string>>): (r: seq<Req>)
    ensures NoKnown(r)
  {
    if vars.None? then [] else [Alloc(|vars.value| * SIZEOF_VARIABLE)] + VarsReqs(vars.value)
  }

  function FirstHalf(pass: Pass, c: Code): (r: seq<Req>)
    ensures NoKnown(r)
    decreases c, 0
  {
    OpsReqs(pass, c.opcodes) + Either(pass, OptAlloc(c.brks, SIZEOF_BRK_CONT), OptAlloc(c.tries, SIZEOF_TRY_CATCH))
  }

  function SecondHalf(pass: Pass, c: Code): (r: seq<Req>)
    ensures NoKnown(r)
    decreases c, 0
  {
    StaticsReqs(pass, c.statics) + OptVars(c.vars) + Either(pass, Opt(c.file), Opt(c.doc))
  }

  function CodeReqs(pass: Pass, c: Code): (r: seq<Req>)
    ensures NoKnown(r)
    decreases c, 1
  {
    CodeHead(c) + if !c.user then [] else FirstHalf(pass, c) + SecondHalf(pass, c)
  }

  function ClassHead(c: Class): (r: seq<Req>)
    ensures NoKnown(r)
  {
    [Alloc(SIZEOF_CLASS)] + Opt(c.name) + Opt(c.parent) + Opt(c.file) + Opt(c.doc)
  }

  // Static members that are not the default ones have a table of their own; only one of the two is checked.
  function StaticMembers(pass: Pass, c: Class): (r: seq<Req>)
    ensures NoKnown(r)
  {
    TableReqs(pass, c.defaultStatics, pass.Store? && c.statics.None?)
    + if c.statics.None? then [] else [Alloc(SIZEOF_HASH)] + TableReqs(pass, c.statics.value, pass.Store?)
  }

  function ClassReqs(pass: Pass, c: Class): (r: seq<Req>)
    ensures NoKnown(r)
  {
    (ClassHead(c) + TableReqs(pass, c.constants, false))
    + Either(pass, TableReqs(pass, c.properties, pass.Store?), TableReqs(pass, c.defaults, pass.Store?))
    + (StaticMembers(pass, c) + TableReqs(pass, c.methods, pass.Store?))
  }

  function KeysReqs(keys: seq<string>): (r: seq<Req>)
    ensures NoShare(r)
  {
    if keys == [] then [] else
      KeysReqs(keys[..|keys| - 1]) + [Alloc(OFFSET_HTABKEY + |keys[|keys| - 1]| + 1), Known(keys[|keys| - 1])]
  }

  function Firsts<T>(s: seq<(string, T)>): seq<string> {
    seq(|s|, i requires 0 <= i < |s| => s[i].0)
  }

  function HeadReqs(s: Script): (r: seq<Req>)
    ensures NoShare(r)
  {
    [Alloc(OFFSET_REALFILENAME + |s.key| + 1), Known(s.key)] + KeysReqs(Firsts(s.classes))
      + KeysReqs(Firsts(s.functions))
  }

  function ClassesReqs(pass: Pass, cs: seq<(string, Class)>): (r: seq<Req>)
    ensures NoKnown(r)
  {
    if cs == [] then [] else ClassesReqs(pass, cs[..|cs| - 1]) + ClassReqs(pass, cs[|cs| - 1].1)
  }

  function CodesReqs(pass: Pass, fs: seq<(string, Code)>): (r: seq<Req>)
    ensures NoKnown(r)
  {
    if fs == [] then [] else CodesReqs(pass, fs[..|fs| - 1]) + CodeReqs(pass, fs[|fs| - 1].1)
  }

  function BodyReqs(pass: Pass, s: Script): (r: seq<Req>)
    ensures NoKnown(r)
  {
    ClassesReqs(pass, s.classes) + CodesReqs(pass, s.functions) + CodeReqs(pass, s.main)
  }

  function ScriptReqs(pass: Pass, s: Script): seq<Req> {
    HeadReqs(s) + BodyReqs(pass, s)
  }

  // ----- a bill that does not depend on the order -----

  function Fixed(reqs: seq<Req>): nat {
    if reqs == [] then 0 else
      Fixed(reqs[..|reqs| - 1]) + match reqs[|reqs| - 1]
                                  case Alloc(n) => Align(n)
                                  case Share(s) => if Long(s) then Size(s) else 0
                                  case Known(_) => 0
  }

  function Shorts(reqs: seq<Req>): set<string> {
    if reqs == [] then {} else
      Shorts(reqs[..|reqs| - 1]) + match reqs[|reqs| - 1] { case Alloc(_) => {} case Share(s) => if Long(s) then {} else {s} case Known(_) => {} }
  }

  ghost function Total(ss: set<string>): nat {
    if ss == {} then 0 else var s :| s in ss; Size(s) + Total(ss - {s})
  }

  lemma {:induction false} TotalWithout(ss: set<string>, s: string)
    requires s in ss
    ensures Total(ss) == Size(s) + Total(ss - {s})
    decreases |ss|
  {
    var first :| first in ss && Total(ss) == Size(first) + Total(ss - {first});
    if first != s {
      TotalWithout(ss - {first}, s);
      TotalWithout(ss - {s}, first);
      assert ss - {first} - {s} == ss - {s} - {first};
    }
  }

  lemma {:induction false} TotalGrows(a: set<string>, b: set<string>)
    requires a <= b
    ensures Total(a) <= Total(b)
    decreases |b|
  {
    if a != b {
      var s :| s in b && s !in a;
      TotalWithout(b, s);
      TotalGrows(a, b - {s});
    }
  }

  lemma {:induction false} BillPlus(a: seq<Req>, b: seq<Req>)
    ensures Fixed(a + b) == Fixed(a) + Fixed(b) && Shorts(a + b) == Shorts(a) + Shorts(b)
    decreases |b|
  {
    if b == [] {
      assert a + b == a;
    } else {
      assert (a + b)[..|a + b| - 1] == a + b[..|b| - 1];
      BillPlus(a, b[..|b| - 1]);
    }
  }

  // What one more request costs.
  lemma CostOne(head: seq<Req>, before: seq<Req>, last: Req, all: seq<Req>)
    requires all == head + before + [last]
    ensures all[..|all| - 1] == head + before && all[|all| - 1] == last && all != []
  {
  }

  lemma TotalOne(known: set<string>, shorts: set<string>, s: string)
    ensures Total(shorts + {s} - known) == Total(shorts - known) + if s in known + shorts then 0 else Size(s)
  {
    if s in known + shorts {
      assert shorts + {s} - known == shorts - known;
    } else {
      assert shorts + {s} - known - {s} == shorts - known;
      TotalWithout(shorts + {s} - known, s);
    }
  }

  // Once the names are known, the order of what follows does not matter.
  lemma {:induction false} CostIs(head: seq<Req>, body: seq<Req>)
    requires NoShare(head) && NoKnown(body)
    ensures Cost(head + body) == Cost(head) + Fixed(body) + Total(Shorts(body) - Strings(head))
    ensures Strings(head + body) == Strings(head) + Shorts(body)
    decreases |body|
  {
    if body == [] {
      assert head + body == head;
    } else {
      var before, last := body[..|body| - 1], body[|body| - 1];
      CostIs(head, before);
      CostOne(head, before, last, head + body);
      if last.Share? && !Long(last.s) {
        TotalOne(Strings(head), Shorts(before), last.s);
      } else {
        assert Shorts(body) == Shorts(before);
      }
    }
  }

  // ----- the two passes, part by part -----

  // a uses no more than b: the same if `same`, and less otherwise.
  ghost predicate Under(a: seq<Req>, b: seq<Req>, same: bool) {
    Shorts(a) <= Shorts(b) && if same then Fixed(a) == Fixed(b) && Shorts(a) == Shorts(b) else Fixed(a) < Fixed(b)
  }

  lemma Plus(a: seq<Req>, b: seq<Req>, p: bool, a': seq<Req>, b': seq<Req>, q: bool)
    requires Under(a, b, p) && Under(a', b', q)
    ensures Under(a + a', b + b', p && q)
  {
    BillPlus(a, a');
    BillPlus(b, b');
  }

  lemma EitherUnder(a: seq<Req>, b: seq<Req>, p: bool, a': seq<Req>, b': seq<Req>, q: bool)
    requires Under(a, b, p) && Under(a', b', q) && NoKnown(a) && NoKnown(b) && NoKnown(a') && NoKnown(b')
    ensures Under(Either(Store, a, a'), Either(Calc, b, b'), p && q)
  {
    BillPlus(a', a);
    BillPlus(b, b');
  }

  predicate AllKept(bs: seq<Bucket>) {
    forall i :: 0 <= i < |bs| ==> bs[i].kept
  }

  lemma {:induction false} ZvalSame(v: Zval)
    ensures Under(ZvalReqs(Store, v), ZvalReqs(Calc, v), true)
    decreases v, 1
  {
    if v.List? {
      TableUnder(v.t, false);
      var p := [Alloc(SIZEOF_HASH)];
      Plus(p, p, true, TableReqs(Store, v.t, false), TableReqs(Calc, v.t, false), true);
    }
  }

  lemma {:induction false} TableUnder(t: Table, check: bool)
    ensures Under(TableReqs(Store, t, check), TableReqs(Calc, t, false), !check || AllKept(t.buckets))
    decreases t, 1
  {
    if t.buckets != [] {
      BucketsUnder(t.buckets, check);
      var p := [Alloc(t.size * SIZEOF_PTR)];
      Plus(p, p, true, BucketReqs(Store, t.buckets, check), BucketReqs(Calc, t.buckets, false),
           !check || AllKept(t.buckets));
    }
  }

  lemma {:induction false} BucketsUnder(bs: seq<Bucket>, check: bool)
    ensures Under(BucketReqs(Store, bs, check), BucketReqs(Calc, bs, false), !check || AllKept(bs))
    decreases bs, 0
  {
    if bs != [] {
      var front, last := bs[..|bs| - 1], bs[|bs| - 1];
      BucketsUnder(front, check);
      BucketUnder(last, check);
      Plus(BucketReqs(Store, front, check), BucketReqs(Calc, front, false), !check || AllKept(front),
           if check && !last.kept then [] else BucketReq(Store, last), BucketReq(Calc, last), !check || last.kept);
    }
  }

  lemma {:induction false} BucketUnder(b: Bucket, check: bool)
    ensures Under(if check && !b.kept then [] else BucketReq(Store, b), BucketReq(Calc, b), !check || b.kept)
    decreases b, 0
  {
    var p := [Alloc(OFFSET_ARKEY + b.keyLength)];
    DataSame(b.data);
    Plus(p, p, true, DataReqs(Store, b.data), DataReqs(Calc, b.data), true);
    BillPlus(p, DataReqs(Calc, b.data));
  }

  lemma {:induction false} DataSame(data: Data)
    ensures Under(DataReqs(Store, data), DataReqs(Calc, data), true)
    decreases data, 1
  {
    match data
    case Val(v) =>
      ZvalSame(v);
      var p := [Alloc(SIZEOF_ZVAL)];
      Plus(p, p, true, ZvalReqs(Store, v), ZvalReqs(Calc, v), true);
    case Property(_, _) =>
    case Function(c) => CodeSame(c);
  }

  lemma {:induction false} ZvalsSame(vs: seq<Zval>)
    ensures Under(ZvalsReqs(Store, vs), ZvalsReqs(Calc, vs), true)
    decreases vs, 0
  {
    if vs != [] {
      ZvalsSame(vs[..|vs| - 1]);
      ZvalSame(vs[|vs| - 1]);
      Plus(ZvalsReqs(Store, vs[..|vs| - 1]), ZvalsReqs(Calc, vs[..|vs| - 1]), true, ZvalReqs(Store, vs[|vs| - 1]),
           ZvalReqs(Calc, vs[|vs| - 1]), true);
    }
  }

  lemma {:induction false} OpsSame(ops: Option<Ops>)
    ensures Under(OpsReqs(Store, ops), OpsReqs(Calc, ops), true)
    decreases ops, 1
  {
    if ops.Some? {
      ZvalsSame(ops.value.constants);
      var p := [Alloc(ops.value.last * SIZEOF_OP)];
      Plus(p, p, true, ZvalsReqs(Store, ops.value.constants), ZvalsReqs(Calc, ops.value.constants), true);
    }
  }

  lemma {:induction false} StaticsSame(t: Option<Table>)
    ensures Under(StaticsReqs(Store, t), StaticsReqs(Calc, t), true)
    decreases t, 2
  {
    if t.Some? {
      TableUnder(t.value, false);
      var p := [Alloc(SIZEOF_HASH)];
      Plus(p, p, true, TableReqs(Store, t.value, false), TableReqs(Calc, t.value, false), true);
    }
  }

  lemma {:induction false} CodeSame(c: Code)
    ensures Under(CodeReqs(Store, c), CodeReqs(Calc, c), true)
    decreases c, 1
  {
    if c.user {
      OpsSame(c.opcodes);
      StaticsSame(c.statics);
      CodeSum(c, CodeHead(c), OptAlloc(c.brks, SIZEOF_BRK_CONT), OptAlloc(c.tries, SIZEOF_TRY_CATCH), OptVars(c.vars),
              Opt(c.file), Opt(c.doc));
    }
  }

  lemma CodeSum(c: Code, h: seq<Req>, a: seq<Req>, b: seq<Req>, v: seq<Req>, f: seq<Req>, d: seq<Req>)
    requires Under(OpsReqs(Store, c.opcodes), OpsReqs(Calc, c.opcodes), true)
    requires Under(StaticsReqs(Store, c.statics), StaticsReqs(Calc, c.statics), true)
    requires NoKnown(a) && NoKnown(b) && NoKnown(f) && NoKnown(d)
    ensures Under(h + ((OpsReqs(Store, c.opcodes) + Either(Store, a, b))
                       + (StaticsReqs(Store, c.statics) + v + Either(Store, f, d))),
                  h + ((OpsReqs(Calc, c.opcodes) + Either(Calc, a, b))
                       + (StaticsReqs(Calc, c.statics) + v + Either(Calc, f, d))), true)
  {
    var o, o' := OpsReqs(Store, c.opcodes), OpsReqs(Calc, c.opcodes);
    var s, s' := StaticsReqs(Store, c.statics), StaticsReqs(Calc, c.statics);
    EitherUnder(a, a, true, b, b, true);
    EitherUnder(f, f, true, d, d, true);
    Plus(o, o', true, Either(Store, a, b), Either(Calc, a, b), true);
    Plus(s, s', true, v, v, true);
    Plus(s + v, s' + v, true, Either(Store, f, d), Either(Calc, f, d), true);
    Plus(o + Either(Store, a, b), o' + Either(Calc, a, b), true,
         s + v + Either(Store, f, d), s' + v + Either(Calc, f, d), true);
    Plus(h, h, true, (o + Either(Store, a, b)) + (s + v + Either(Store, f, d)),
         (o' + Either(Calc, a, b)) + (s' + v + Either(Calc, f, d)), true);
  }

  // None of the checks takes anything out of the class.
  predicate ClassKept(c: Class) {
    && AllKept(c.properties.buckets) && AllKept(c.defaults.buckets) && AllKept(c.methods.buckets)
    && AllKept(if c.statics.None? then c.defaultStatics.buckets else c.statics.value.buckets)
  }

  lemma StaticMembersUnder(c: Class)
    ensures Under(StaticMembers(Store, c), StaticMembers(Calc, c),
                  AllKept(if c.statics.None? then c.defaultStatics.buckets else c.statics.value.buckets))
  {
    TableUnder(c.defaultStatics, c.statics.None?);
    var a, a' := TableReqs(Store, c.defaultStatics, c.statics.None?), TableReqs(Calc, c.defaultStatics, false);
    if c.statics.Some? {
      TableUnder(c.statics.value, true);
      var b, b' := TableReqs(Store, c.statics.value, true), TableReqs(Calc, c.statics.value, false);
      var p, kept := [Alloc(SIZEOF_HASH)], AllKept(c.statics.value.buckets);
      Plus(p, p, true, b, b', kept);
      Plus(a, a', true, p + b, p + b', kept);
    } else {
      assert a + [] == a && a' + [] == a';
    }
  }

  lemma ClassUnder(c: Class)
    ensures Under(ClassReqs(Store, c), ClassReqs(Calc, c), ClassKept(c))
  {
    StaticMembersUnder(c);
    TableUnder(c.constants, false);
    TableUnder(c.properties, true);
    TableUnder(c.defaults, true);
    TableUnder(c.methods, true);
    var sm, sm' := StaticMembers(Store, c), StaticMembers(Calc, c);
    var k, k' := TableReqs(Store, c.constants, false), TableReqs(Calc, c.constants, false);
    var p, p' := TableReqs(Store, c.properties, true), TableReqs(Calc, c.properties, false);
    var d, d' := TableReqs(Store, c.defaults, true), TableReqs(Calc, c.defaults, false);
    var m, m' := TableReqs(Store, c.methods, true), TableReqs(Calc, c.methods, false);
    var ps, ds, ms := AllKept(c.properties.buckets), AllKept(c.defaults.buckets), AllKept(c.methods.buckets);
    var ss := AllKept(if c.statics.None? then c.defaultStatics.buckets else c.statics.value.buckets);
    EitherUnder(p, p', ps, d, d', ds);
    Plus(ClassHead(c), ClassHead(c), true, k, k', true);
    Plus(ClassHead(c) + k, ClassHead(c) + k', true, Either(Store, p, d), Either(Calc, p', d'), ps && ds);
    Plus(sm, sm', ss, m, m', ms);
    Plus((ClassHead(c) + k) + Either(Store, p, d), (ClassHead(c) + k') + Either(Calc, p', d'), ps && ds, sm + m,
         sm' + m', ss && ms);
  }

  predicate ClassesKept(cs: seq<(string, Class)>) {
    forall i :: 0 <= i < |cs| ==> ClassKept(cs[i].1)
  }

  lemma KeptFront(cs: seq<(string, Class)>)
    requires cs != []
    ensures ClassesKept(cs) <==> ClassesKept(cs[..|cs| - 1]) && ClassKept(cs[|cs| - 1].1)
  {
    forall i | 0 <= i < |cs| - 1 ensures cs[..|cs| - 1][i] == cs[i] { }
  }

  lemma {:induction false} ClassesUnder(cs: seq<(string, Class)>)
    ensures Under(ClassesReqs(Store, cs), ClassesReqs(Calc, cs), ClassesKept(cs))
    decreases |cs|
  {
    if cs != [] {
      var front, last := cs[..|cs| - 1], cs[|cs| - 1].1;
      ClassesUnder(front);
      ClassesStep(front, last);
      KeptFront(cs);
    }
  }

  lemma ClassesStep(front: seq<(string, Class)>, last: Class)
    requires Under(ClassesReqs(Store, front), ClassesReqs(Calc, front), ClassesKept(front))
    ensures Under(ClassesReqs(Store, front) + ClassReqs(Store, last),
                  ClassesReqs(Calc, front) + ClassReqs(Calc, last), ClassesKept(front) && ClassKept(last))
  {
    ClassUnder(last);
    Plus(ClassesReqs(Store, front), ClassesReqs(Calc, front), ClassesKept(front), ClassReqs(Store, last),
         ClassReqs(Calc, last), ClassKept(last));
  }

  lemma {:induction false} CodesSame(fs: seq<(string, Code)>)
    ensures Under(CodesReqs(Store, fs), CodesReqs(Calc, fs), true)
    decreases |fs|
  {
    if fs != [] {
      var front, last := fs[..|fs| - 1], fs[|fs| - 1].1;
      CodesSame(front);
      CodeSame(last);
      Plus(CodesReqs(Store, front), CodesReqs(Calc, front), true, CodeReqs(Store, last), CodeReqs(Calc, last), true);
    }
  }

  lemma BodyUnder(s: Script)
    ensures Under(BodyReqs(Store, s), BodyReqs(Calc, s), ClassesKept(s.classes))
  {
    ClassesUnder(s.classes);
    CodesSame(s.functions);
    CodeSame(s.main);
    var k := ClassesKept(s.classes);
    Plus(ClassesReqs(Store, s.classes), ClassesReqs(Calc, s.classes), k, CodesReqs(Store, s.functions),
         CodesReqs(Calc, s.functions), true);
    Plus(ClassesReqs(Store, s.classes) + CodesReqs(Store, s.functions),
         ClassesReqs(Calc, s.classes) + CodesReqs(Calc, s.functions), k,
         CodeReqs(Store, s.main), CodeReqs(Calc, s.main), true);
  }

  // The space foreseen is enough, and exact just when no bucket is left out.
  lemma CalcIsEnough(s: Script)
    ensures Cost(ScriptReqs(Store, s)) <= Cost(ScriptReqs(Calc, s))
    ensures Cost(ScriptReqs(Store, s)) == Cost(ScriptReqs(Calc, s)) <==> ClassesKept(s.classes)
  {
    var head, a, b := HeadReqs(s), BodyReqs(Store, s), BodyReqs(Calc, s);
    BodyUnder(s);
    CostIs(head, a);
    CostIs(head, b);
    TotalGrows(Shorts(a) - Strings(head), Shorts(b) - Strings(head));
  }
}
