// What a script takes in memory, read off the script: the bytes of its structures, the long strings each time they are
// mentioned, and every short string once.
module ScriptBill {
  import opened Options
  import opened Requests
  import opened ScriptSize

  // ----- the strings a script mentions -----

  function Maybe(s: Option<string>): seq<string> {
    if s.Some? then [s.value] else []
  }

  function ValueWords(v: Zval): seq<string>
    decreases v, 1
  {
    match v
    case Plain => []
    case Text(s) => [s]
    case List(t) => BucketsWords(t.buckets, false)
  }

  // `check`: those that a check function takes out are left out.
  function BucketsWords(bs: seq<Bucket>, check: bool): seq<string>
    decreases bs, 0
  {
    if bs == [] then [] else
      var n := |bs| - 1;
      BucketsWords(bs[..n], check) + if check && !bs[n].kept then [] else BucketWords(bs[n])
  }

  function BucketWords(b: Bucket): seq<string>
    decreases b, 0
  {
    DataWords(b.data)
  }

  function DataWords(data: Data): seq<string>
    decreases data, 1
  {
    match data
    case Val(v) => ValueWords(v)
    case Property(title, comment) => [title] + Maybe(comment)
    case Function(c) => CodeWords(c)
  }

  function ValuesWords(vs: seq<Zval>): seq<string>
    decreases vs, 0
  {
    if vs == [] then [] else ValuesWords(vs[..|vs| - 1]) + ValueWords(vs[|vs| - 1])
  }

  function ArgsWords(args: seq<Arg>): seq<string> {
    if args == [] then [] else
      var a := args[|args| - 1];
      ArgsWords(args[..|args| - 1]) + (Maybe(a.argName) + Maybe(a.className))
  }

  function CodeWords(c: Code): seq<string>
    decreases c, 1
  {
    ArgsWords(c.args) + Maybe(c.name) + Maybe(c.scope) + if !c.user then [] else BodyWords(c)
  }

  function BodyWords(c: Code): seq<string>
    decreases c, 0
  {
    (if c.opcodes.None? then [] else ValuesWords(c.opcodes.value.constants))
    + ((if c.statics.None? then [] else BucketsWords(c.statics.value.buckets, false))
       + (if c.vars.None? then [] else c.vars.value) + (Maybe(c.file) + Maybe(c.doc)))
  }

  function ClassWords(c: Class, check: bool): seq<string> {
    (Maybe(c.name) + Maybe(c.parent) + Maybe(c.file) + Maybe(c.doc) + BucketsWords(c.constants.buckets, false))
    + (BucketsWords(c.properties.buckets, check) + BucketsWords(c.defaults.buckets, check))
    + (BucketsWords(c.defaultStatics.buckets, check && c.statics.None?)
       + (if c.statics.None? then [] else BucketsWords(c.statics.value.buckets, check))
       + BucketsWords(c.methods.buckets, check))
  }

  function ClassesWords(cs: seq<(string, Class)>, check: bool): seq<string> {
    if cs == [] then [] else ClassesWords(cs[..|cs| - 1], check) + ClassWords(cs[|cs| - 1].1, check)
  }

  function CodesWords(fs: seq<(string, Code)>): seq<string> {
    if fs == [] then [] else CodesWords(fs[..|fs| - 1]) + CodeWords(fs[|fs| - 1].1)
  }

  function ScriptWords(s: Script, check: bool): seq<string> {
    ClassesWords(s.classes, check) + CodesWords(s.functions) + CodeWords(s.main)
  }

  // The names that are there for everybody.
  function Names(s: Script): set<string> {
    {s.key} + (set k | k in Firsts(s.classes)) + (set k | k in Firsts(s.functions))
  }

  // ----- the bytes of its structures -----

  function ValueBytes(v: Zval): nat
    decreases v, 1
  {
    if v.List? then Align(SIZEOF_HASH) + TableBytes(v.t, false) else 0
  }

  // An array of slots for any table with buckets, whatever is taken out.
  function TableBytes(t: Table, check: bool): nat
    decreases t, 1
  {
    if t.buckets == [] then 0 else Align(t.size * SIZEOF_PTR) + BucketsBytes(t.buckets, check)
  }

  function BucketsBytes(bs: seq<Bucket>, check: bool): nat
    decreases bs, 0
  {
    if bs == [] then 0 else
      var n := |bs| - 1;
      BucketsBytes(bs[..n], check)
      + if check && !bs[n].kept then 0 else BucketBytes(bs[n])
  }

  function BucketBytes(b: Bucket): nat
    decreases b, 0
  {
    Align(OFFSET_ARKEY + b.keyLength) + DataBytes(b.data)
  }

  function DataBytes(data: Data): nat
    decreases data, 1
  {
    match data
    case Val(v) => Align(SIZEOF_ZVAL) + ValueBytes(v)
    case Property(_, _) => Align(SIZEOF_PROPERTY_INFO)
    case Function(c) => CodeBytes(c)
  }

  function ValuesBytes(vs: seq<Zval>): nat
    decreases vs, 0
  {
    if vs == [] then 0 else ValuesBytes(vs[..|vs| - 1]) + ValueBytes(vs[|vs| - 1])
  }

  function ArrayBytes(n: Option<nat>, size: nat): nat {
    if n.None? then 0 else Align(n.value * size)
  }

  function CodeBytes(c: Code): nat
    decreases c, 1
  {
    Align(if c.user then SIZEOF_OP_ARRAY else SIZEOF_INTERNAL_FUNCTION)
    + (if c.args == [] then 0 else Align(|c.args| * SIZEOF_ARG_INFO)) + if !c.user then 0 else BodyBytes(c)
  }

  function BodyBytes(c: Code): nat
    decreases c, 0
  {
    (if c.opcodes.None? then 0 else Align(c.opcodes.value.last * SIZEOF_OP) + ValuesBytes(c.opcodes.value.constants))
    + (ArrayBytes(c.brks, SIZEOF_BRK_CONT) + ArrayBytes(c.tries, SIZEOF_TRY_CATCH))
    + (if c.statics.None? then 0 else Align(SIZEOF_HASH) + TableBytes(c.statics.value, false))
    + if c.vars.None? then 0 else Align(|c.vars.value| * SIZEOF_VARIABLE)
  }

  function ClassBytes(c: Class, check: bool): nat {
    Align(SIZEOF_CLASS) + TableBytes(c.constants, false)
    + (TableBytes(c.properties, check) + TableBytes(c.defaults, check))
    + (TableBytes(c.defaultStatics, check && c.statics.None?)
       + (if c.statics.None? then 0 else Align(SIZEOF_HASH) + TableBytes(c.statics.value, check))
       + TableBytes(c.methods, check))
  }

  function ClassesBytes(cs: seq<(string, Class)>, check: bool): nat {
    if cs == [] then 0 else ClassesBytes(cs[..|cs| - 1], check) + ClassBytes(cs[|cs| - 1].1, check)
  }

  function CodesBytes(fs: seq<(string, Code)>): nat {
    if fs == [] then 0 else CodesBytes(fs[..|fs| - 1]) + CodeBytes(fs[|fs| - 1].1)
  }

  function KeysBytes(keys: seq<string>): nat {
    if keys == [] then 0 else KeysBytes(keys[..|keys| - 1]) + Align(OFFSET_HTABKEY + |keys[|keys| - 1]| + 1)
  }

  function ScriptBytes(s: Script, check: bool): nat {
    Align(OFFSET_REALFILENAME + |s.key| + 1) + KeysBytes(Firsts(s.classes)) + KeysBytes(Firsts(s.functions))
    + (ClassesBytes(s.classes, check) + CodesBytes(s.functions) + CodeBytes(s.main))
  }

  // ----- what it comes to -----

  function LongBytes(words: seq<string>): nat {
    if words == [] then 0 else
      LongBytes(words[..|words| - 1]) + if Long(words[|words| - 1]) then Size(words[|words| - 1]) else 0
  }

  function ShortOnes(words: seq<string>): set<string> {
    set w | w in words && !Long(w)
  }

  // The structures, the long strings as often as they are mentioned, and each short one once, but for the names.
  ghost function Bill(s: Script, check: bool): nat {
    var words := ScriptWords(s, check);
    ScriptBytes(s, check) + LongBytes(words) + Total(ShortOnes(words) - Names(s))
  }

  // ----- the requests of a part come to its bytes and its words -----

  ghost predicate Comes(reqs: seq<Req>, bytes: nat, words: seq<string>) {
    Fixed(reqs) == bytes + LongBytes(words) && Shorts(reqs) == ShortOnes(words)
  }

  lemma {:induction false} WordsPlus(a: seq<string>, b: seq<string>)
    ensures LongBytes(a + b) == LongBytes(a) + LongBytes(b)
    decreases |b|
  {
    if b == [] {
      assert a + b == a;
    } else {
      assert (a + b)[..|a + b| - 1] == a + b[..|b| - 1];
      WordsPlus(a, b[..|b| - 1]);
    }
  }

  lemma Both(a: seq<Req>, n: nat, v: seq<string>, b: seq<Req>, m: nat, w: seq<string>)
    requires Comes(a, n, v) && Comes(b, m, w)
    ensures Comes(a + b, n + m, v + w)
  {
    BillPlus(a, b);
    WordsPlus(v, w);
    assert ShortOnes(v + w) == ShortOnes(v) + ShortOnes(w);
  }

  // The passes may meet two parts in either order.
  lemma EitherWay(pass: Pass, a: seq<Req>, n: nat, v: seq<string>, b: seq<Req>, m: nat, w: seq<string>)
    requires Comes(a, n, v) && Comes(b, m, w) && NoKnown(a) && NoKnown(b)
    ensures Comes(Either(pass, a, b), n + m, v + w)
  {
    Both(a, n, v, b, m, w);
    Both(b, m, w, a, n, v);
    WordsPlus(v, w);
    WordsPlus(w, v);
    assert ShortOnes(w + v) == ShortOnes(v + w);
  }

  lemma NoneComes()
    ensures Comes([], 0, [])
  {
  }

  lemma OneBlock(n: nat)
    ensures Comes([Alloc(n)], Align(n), [])
  {
    assert [Alloc(n)][..0] == [];
  }

  lemma OneWord(s: string)
    ensures Comes([Share(s)], 0, [s])
  {
    assert [Share(s)][..0] == [] && [s][..0] == [];
    assert ShortOnes([s]) == if Long(s) then {} else {s};
  }

  // A block, and what is behind it.
  lemma Behind(n: nat, b: seq<Req>, m: nat, w: seq<string>)
    requires Comes(b, m, w)
    ensures Comes([Alloc(n)] + b, Align(n) + m, w)
  {
    OneBlock(n);
    Both([Alloc(n)], Align(n), [], b, m, w);
    assert [] + w == w;
  }

  lemma OptComes(s: Option<string>)
    ensures Comes(Opt(s), 0, Maybe(s))
  {
    if s.Some? { OneWord(s.value); } else { NoneComes(); }
  }

  lemma OptsCome(s: Option<string>, t: Option<string>)
    ensures Comes(Opt(s) + Opt(t), 0, Maybe(s) + Maybe(t))
  {
    OptComes(s);
    OptComes(t);
    Both(Opt(s), 0, Maybe(s), Opt(t), 0, Maybe(t));
  }

  lemma OneMore(a: seq<Req>, n: nat, w: seq<string>, s: Option<string>)
    requires Comes(a, n, w)
    ensures Comes(a + Opt(s), n, w + Maybe(s))
  {
    OptComes(s);
    Both(a, n, w, Opt(s), 0, Maybe(s));
  }

  lemma ArrayComes(n: Option<nat>, size: nat)
    ensures Comes(OptAlloc(n, size), ArrayBytes(n, size), [])
  {
    if n.Some? { OneBlock(n.value * size); } else { NoneComes(); }
  }

  lemma {:induction false} ValueComes(pass: Pass, v: Zval)
    ensures Comes(ZvalReqs(pass, v), ValueBytes(v), ValueWords(v))
    decreases v, 1
  {
    match v
    case Plain => NoneComes();
    case Text(s) => OneWord(s);
    case List(t) =>
      TableComes(pass, t, false);
      Behind(SIZEOF_HASH, TableReqs(pass, t, false), TableBytes(t, false), BucketsWords(t.buckets, false));
  }

  lemma {:induction false} TableComes(pass: Pass, t: Table, check: bool)
    ensures Comes(TableReqs(pass, t, check), TableBytes(t, check), BucketsWords(t.buckets, check))
    decreases t, 1
  {
    if t.buckets == [] {
      NoneComes();
    } else {
      BucketsCome(pass, t.buckets, check);
      Behind(t.size * SIZEOF_PTR, BucketReqs(pass, t.buckets, check), BucketsBytes(t.buckets, check),
             BucketsWords(t.buckets, check));
    }
  }

  lemma {:induction false} BucketsCome(pass: Pass, bs: seq<Bucket>, check: bool)
    ensures Comes(BucketReqs(pass, bs, check), BucketsBytes(bs, check), BucketsWords(bs, check))
    decreases bs, 0
  {
    NoneComes();
    if bs != [] {
      var n := |bs| - 1;
      BucketsCome(pass, bs[..n], check);
      BucketComes(pass, bs[n]);
      Both(BucketReqs(pass, bs[..n], check), BucketsBytes(bs[..n], check), BucketsWords(bs[..n], check),
           if check && !bs[n].kept then [] else BucketReq(pass, bs[n]),
           if check && !bs[n].kept then 0 else BucketBytes(bs[n]),
           if check && !bs[n].kept then [] else BucketWords(bs[n]));
    }
  }

  lemma {:induction false} BucketComes(pass: Pass, b: Bucket)
    ensures Comes(BucketReq(pass, b), BucketBytes(b), BucketWords(b))
    decreases b, 0
  {
    DataComes(pass, b.data);
    Behind(OFFSET_ARKEY + b.keyLength, DataReqs(pass, b.data), DataBytes(b.data), DataWords(b.data));
  }

  lemma {:induction false} DataComes(pass: Pass, data: Data)
    ensures Comes(DataReqs(pass, data), DataBytes(data), DataWords(data))
    decreases data, 1
  {
    match data
    case Val(v) =>
      ValueComes(pass, v);
      Behind(SIZEOF_ZVAL, ZvalReqs(pass, v), ValueBytes(v), ValueWords(v));
    case Property(title, comment) =>
      OneWord(title);
      OptComes(comment);
      Both([Share(title)], 0, [title], Opt(comment), 0, Maybe(comment));
      Behind(SIZEOF_PROPERTY_INFO, [Share(title)] + Opt(comment), 0, [title] + Maybe(comment));
      assert [Alloc(SIZEOF_PROPERTY_INFO)] + ([Share(title)] + Opt(comment)) == DataReqs(pass, data);
    case Function(c) => CodeComes(pass, c);
  }

  lemma {:induction false} ValuesCome(pass: Pass, vs: seq<Zval>)
    ensures Comes(ZvalsReqs(pass, vs), ValuesBytes(vs), ValuesWords(vs))
    decreases vs, 0
  {
    if vs == [] {
      NoneComes();
    } else {
      var front, last := vs[..|vs| - 1], vs[|vs| - 1];
      ValuesCome(pass, front);
      ValueComes(pass, last);
      Both(ZvalsReqs(pass, front), ValuesBytes(front), ValuesWords(front), ZvalReqs(pass, last), ValueBytes(last),
           ValueWords(last));
    }
  }

  lemma {:induction false} ArgsCome(args: seq<Arg>)
    ensures Comes(ArgsReqs(args), 0, ArgsWords(args))
    decreases |args|
  {
    if args == [] {
      NoneComes();
    } else {
      var front, a := args[..|args| - 1], args[|args| - 1];
      ArgsCome(front);
      OptsCome(a.argName, a.className);
      Both(ArgsReqs(front), 0, ArgsWords(front), ArgReqs(a), 0, Maybe(a.argName) + Maybe(a.className));
    }
  }

  lemma {:induction false} VarsCome(vars: seq<string>)
    ensures Comes(VarsReqs(vars), 0, vars)
    decreases |vars|
  {
    if vars == [] {
      NoneComes();
    } else {
      var front, last := vars[..|vars| - 1], vars[|vars| - 1];
      VarsCome(front);
      OneWord(last);
      Both(VarsReqs(front), 0, front, [Share(last)], 0, [last]);
      assert vars == front + [last];
    }
  }

  lemma HeadComes(c: Code)
    ensures Comes(CodeHead(c), Align(if c.user then SIZEOF_OP_ARRAY else SIZEOF_INTERNAL_FUNCTION)
                               + (if c.args == [] then 0 else Align(|c.args| * SIZEOF_ARG_INFO)),
                  ArgsWords(c.args) + Maybe(c.name) + Maybe(c.scope))
  {
    var size := if c.user then SIZEOF_OP_ARRAY else SIZEOF_INTERNAL_FUNCTION;
    var args := if c.args == [] then [] else [Alloc(|c.args| * SIZEOF_ARG_INFO)] + ArgsReqs(c.args);
    var n := if c.args == [] then 0 else Align(|c.args| * SIZEOF_ARG_INFO);
    NoneComes();
    ArgsCome(c.args);
    Behind(|c.args| * SIZEOF_ARG_INFO, ArgsReqs(c.args), 0, ArgsWords(c.args));
    Behind(size, args, n, ArgsWords(c.args));
    OneMore([Alloc(size)] + args, Align(size) + n, ArgsWords(c.args), c.name);
    OneMore([Alloc(size)] + args + Opt(c.name), Align(size) + n, ArgsWords(c.args) + Maybe(c.name), c.scope);
  }

  lemma {:induction false} FirstComes(pass: Pass, c: Code)
    ensures Comes(FirstHalf(pass, c),
                  (if c.opcodes.None? then 0
                   else Align(c.opcodes.value.last * SIZEOF_OP) + ValuesBytes(c.opcodes.value.constants))
                  + (ArrayBytes(c.brks, SIZEOF_BRK_CONT) + ArrayBytes(c.tries, SIZEOF_TRY_CATCH)),
                  if c.opcodes.None? then [] else ValuesWords(c.opcodes.value.constants))
    decreases c, 0, 0
  {
    var n := if c.opcodes.None? then 0
      else Align(c.opcodes.value.last * SIZEOF_OP) + ValuesBytes(c.opcodes.value.constants);
    var w := if c.opcodes.None? then [] else ValuesWords(c.opcodes.value.constants);
    NoneComes();
    if c.opcodes.Some? {
      var ops := c.opcodes.value;
      ValuesCome(pass, ops.constants);
      Behind(ops.last * SIZEOF_OP, ZvalsReqs(pass, ops.constants), ValuesBytes(ops.constants), w);
    }
    var a, b := OptAlloc(c.brks, SIZEOF_BRK_CONT), OptAlloc(c.tries, SIZEOF_TRY_CATCH);
    ArrayComes(c.brks, SIZEOF_BRK_CONT);
    ArrayComes(c.tries, SIZEOF_TRY_CATCH);
    EitherWay(pass, a, ArrayBytes(c.brks, SIZEOF_BRK_CONT), [], b, ArrayBytes(c.tries, SIZEOF_TRY_CATCH), []);
    Both(OpsReqs(pass, c.opcodes), n, w, Either(pass, a, b),
         ArrayBytes(c.brks, SIZEOF_BRK_CONT) + ArrayBytes(c.tries, SIZEOF_TRY_CATCH), [] + []);
    assert w + ([] + []) == w;
  }

  lemma {:induction false} SecondComes(pass: Pass, c: Code)
    ensures Comes(SecondHalf(pass, c),
                  (if c.statics.None? then 0 else Align(SIZEOF_HASH) + TableBytes(c.statics.value, false))
                  + (if c.vars.None? then 0 else Align(|c.vars.value| * SIZEOF_VARIABLE)),
                  (if c.statics.None? then [] else BucketsWords(c.statics.value.buckets, false))
                  + (if c.vars.None? then [] else c.vars.value) + (Maybe(c.file) + Maybe(c.doc)))
    decreases c, 0, 0
  {
    var n := if c.statics.None? then 0 else Align(SIZEOF_HASH) + TableBytes(c.statics.value, false);
    var v := if c.statics.None? then [] else BucketsWords(c.statics.value.buckets, false);
    var m := if c.vars.None? then 0 else Align(|c.vars.value| * SIZEOF_VARIABLE);
    var w := if c.vars.None? then [] else c.vars.value;
    NoneComes();
    if c.statics.Some? {
      TableComes(pass, c.statics.value, false);
      Behind(SIZEOF_HASH, TableReqs(pass, c.statics.value, false), TableBytes(c.statics.value, false), v);
    }
    if c.vars.Some? {
      VarsCome(c.vars.value);
      Behind(|c.vars.value| * SIZEOF_VARIABLE, VarsReqs(c.vars.value), 0, w);
    }
    OptComes(c.file);
    OptComes(c.doc);
    EitherWay(pass, Opt(c.file), 0, Maybe(c.file), Opt(c.doc), 0, Maybe(c.doc));
    Both(StaticsReqs(pass, c.statics), n, v, OptVars(c.vars), m, w);
    Both(StaticsReqs(pass, c.statics) + OptVars(c.vars), n + m, v + w, Either(pass, Opt(c.file), Opt(c.doc)), 0,
         Maybe(c.file) + Maybe(c.doc));
  }

  lemma {:induction false} CodeComes(pass: Pass, c: Code)
    ensures Comes(CodeReqs(pass, c), CodeBytes(c), CodeWords(c))
    decreases c, 1
  {
    HeadComes(c);
    var n := Align(if c.user then SIZEOF_OP_ARRAY else SIZEOF_INTERNAL_FUNCTION)
             + (if c.args == [] then 0 else Align(|c.args| * SIZEOF_ARG_INFO));
    var w := ArgsWords(c.args) + Maybe(c.name) + Maybe(c.scope);
    if c.user {
      BodyComes(pass, c);
      Both(CodeHead(c), n, w, FirstHalf(pass, c) + SecondHalf(pass, c), BodyBytes(c), BodyWords(c));
    } else {
      NoneComes();
      Both(CodeHead(c), n, w, [], 0, []);
    }
  }

  lemma {:induction false} BodyComes(pass: Pass, c: Code)
    ensures Comes(FirstHalf(pass, c) + SecondHalf(pass, c), BodyBytes(c), BodyWords(c))
    decreases c, 0, 1
  {
    FirstComes(pass, c);
    SecondComes(pass, c);
    Both(FirstHalf(pass, c),
         (if c.opcodes.None? then 0
          else Align(c.opcodes.value.last * SIZEOF_OP) + ValuesBytes(c.opcodes.value.constants))
         + (ArrayBytes(c.brks, SIZEOF_BRK_CONT) + ArrayBytes(c.tries, SIZEOF_TRY_CATCH)),
         if c.opcodes.None? then [] else ValuesWords(c.opcodes.value.constants),
         SecondHalf(pass, c),
         (if c.statics.None? then 0 else Align(SIZEOF_HASH) + TableBytes(c.statics.value, false))
         + (if c.vars.None? then 0 else Align(|c.vars.value| * SIZEOF_VARIABLE)),
         (if c.statics.None? then [] else BucketsWords(c.statics.value.buckets, false))
         + (if c.vars.None? then [] else c.vars.value) + (Maybe(c.file) + Maybe(c.doc)));
  }

  // ----- classes and scripts -----

  lemma ClassHeadComes(c: Class)
    ensures Comes(ClassHead(c), Align(SIZEOF_CLASS), Maybe(c.name) + Maybe(c.parent) + Maybe(c.file) + Maybe(c.doc))
  {
    OptComes(c.name);
    Behind(SIZEOF_CLASS, Opt(c.name), 0, Maybe(c.name));
    OneMore([Alloc(SIZEOF_CLASS)] + Opt(c.name), Align(SIZEOF_CLASS), Maybe(c.name), c.parent);
    OneMore([Alloc(SIZEOF_CLASS)] + Opt(c.name) + Opt(c.parent), Align(SIZEOF_CLASS), Maybe(c.name) + Maybe(c.parent),
            c.file);
    OneMore([Alloc(SIZEOF_CLASS)] + Opt(c.name) + Opt(c.parent) + Opt(c.file), Align(SIZEOF_CLASS),
            Maybe(c.name) + Maybe(c.parent) + Maybe(c.file), c.doc);
  }

  lemma MembersCome(pass: Pass, c: Class)
    ensures Comes(StaticMembers(pass, c),
                  TableBytes(c.defaultStatics, pass.Store? && c.statics.None?)
                  + (if c.statics.None? then 0 else Align(SIZEOF_HASH) + TableBytes(c.statics.value, pass.Store?)),
                  BucketsWords(c.defaultStatics.buckets, pass.Store? && c.statics.None?)
                  + (if c.statics.None? then [] else BucketsWords(c.statics.value.buckets, pass.Store?)))
  {
    var check := pass.Store? && c.statics.None?;
    TableComes(pass, c.defaultStatics, check);
    var a, n, w := TableReqs(pass, c.defaultStatics, check), TableBytes(c.defaultStatics,
          check), BucketsWords(c.defaultStatics.buckets, check);
    if c.statics.Some? {
      var t := c.statics.value;
      TableComes(pass, t, pass.Store?);
      Behind(SIZEOF_HASH, TableReqs(pass, t, pass.Store?), TableBytes(t, pass.Store?),
             BucketsWords(t.buckets, pass.Store?));
      Both(a, n, w, [Alloc(SIZEOF_HASH)] + TableReqs(pass, t, pass.Store?),
           Align(SIZEOF_HASH) + TableBytes(t, pass.Store?),
           BucketsWords(t.buckets, pass.Store?));
    } else {
      NoneComes();
      Both(a, n, w, [], 0, []);
    }
  }

  lemma ClassComes(pass: Pass, c: Class)
    ensures Comes(ClassReqs(pass, c), ClassBytes(c, pass.Store?), ClassWords(c, pass.Store?))
  {
    var k := pass.Store?;
    ClassHeadComes(c);
    TableComes(pass, c.constants, false);
    TableComes(pass, c.properties, k);
    TableComes(pass, c.defaults, k);
    TableComes(pass, c.methods, k);
    MembersCome(pass, c);
    ClassSum(pass, c, StaticMembers(pass, c),
             TableBytes(c.defaultStatics, k && c.statics.None?)
               + (if c.statics.None? then 0 else Align(SIZEOF_HASH) + TableBytes(c.statics.value, k)),
             BucketsWords(c.defaultStatics.buckets, k && c.statics.None?)
               + (if c.statics.None? then [] else BucketsWords(c.statics.value.buckets, k)),
             TableReqs(pass, c.properties, k), TableReqs(pass, c.defaults, k));
  }

  lemma ClassSum(pass: Pass, c: Class, sm: seq<Req>, n: nat, w: seq<string>, p: seq<Req>, d: seq<Req>)
    requires Comes(ClassHead(c), Align(SIZEOF_CLASS), Maybe(c.name) + Maybe(c.parent) + Maybe(c.file) + Maybe(c.doc))
    requires Comes(TableReqs(pass, c.constants, false), TableBytes(c.constants, false),
                   BucketsWords(c.constants.buckets, false))
    requires Comes(p, TableBytes(c.properties, pass.Store?), BucketsWords(c.properties.buckets, pass.Store?))
    requires NoKnown(p)
    requires Comes(d, TableBytes(c.defaults, pass.Store?), BucketsWords(c.defaults.buckets, pass.Store?)) && NoKnown(d)
    requires Comes(TableReqs(pass, c.methods, pass.Store?), TableBytes(c.methods, pass.Store?),
                   BucketsWords(c.methods.buckets, pass.Store?))
    requires Comes(sm, n, w)
    ensures Comes((ClassHead(c) + TableReqs(pass, c.constants, false)) + Either(pass, p, d)
                  + (sm + TableReqs(pass, c.methods, pass.Store?)),
                  Align(SIZEOF_CLASS) + TableBytes(c.constants, false)
                    + (TableBytes(c.properties, pass.Store?) + TableBytes(c.defaults, pass.Store?))
                  + (n + TableBytes(c.methods, pass.Store?)),
                  (Maybe(c.name) + Maybe(c.parent) + Maybe(c.file) + Maybe(c.doc)
                   + BucketsWords(c.constants.buckets, false))
                  + (BucketsWords(c.properties.buckets, pass.Store?) + BucketsWords(c.defaults.buckets, pass.Store?))
                  + (w + BucketsWords(c.methods.buckets, pass.Store?)))
  {
    var head := Maybe(c.name) + Maybe(c.parent) + Maybe(c.file) + Maybe(c.doc);
    var x, i, u := TableReqs(pass, c.constants, false), TableBytes(c.constants,
                                                                   false), BucketsWords(c.constants.buckets, false);
    var j, v := TableBytes(c.properties, pass.Store?), BucketsWords(c.properties.buckets, pass.Store?);
    var k, y := TableBytes(c.defaults, pass.Store?), BucketsWords(c.defaults.buckets, pass.Store?);
    var m, q, z := TableReqs(pass, c.methods, pass.Store?), TableBytes(c.methods,
          pass.Store?), BucketsWords(c.methods.buckets, pass.Store?);
    EitherWay(pass, p, j, v, d, k, y);
    Both(ClassHead(c), Align(SIZEOF_CLASS), head, x, i, u);
    Both(ClassHead(c) + x, Align(SIZEOF_CLASS) + i, head + u, Either(pass, p, d), j + k, v + y);
    Both(sm, n, w, m, q, z);
    Both((ClassHead(c) + x) + Either(pass, p, d), Align(SIZEOF_CLASS) + i + (j + k), (head + u) + (v + y), sm + m,
         n + q, w + z);
  }

  lemma {:induction false} ClassesCome(pass: Pass, cs: seq<(string, Class)>)
    ensures Comes(ClassesReqs(pass, cs), ClassesBytes(cs, pass.Store?), ClassesWords(cs, pass.Store?))
    decreases |cs|
  {
    if cs == [] {
      NoneComes();
    } else {
      var front, last := cs[..|cs| - 1], cs[|cs| - 1].1;
      ClassesCome(pass, front);
      ClassComes(pass, last);
      Both(ClassesReqs(pass, front), ClassesBytes(front, pass.Store?), ClassesWords(front, pass.Store?),
           ClassReqs(pass, last), ClassBytes(last, pass.Store?), ClassWords(last, pass.Store?));
    }
  }

  lemma {:induction false} CodesCome(pass: Pass, fs: seq<(string, Code)>)
    ensures Comes(CodesReqs(pass, fs), CodesBytes(fs), CodesWords(fs))
    decreases |fs|
  {
    if fs == [] {
      NoneComes();
    } else {
      var front, last := fs[..|fs| - 1], fs[|fs| - 1].1;
      CodesCome(pass, front);
      CodeComes(pass, last);
      Both(CodesReqs(pass, front), CodesBytes(front), CodesWords(front), CodeReqs(pass, last), CodeBytes(last),
           CodeWords(last));
    }
  }

  // ----- the names -----

  lemma OneName(before: seq<Req>, n: nat, name: string)
    ensures Cost(before + [Alloc(n), Known(name)]) == Cost(before) + Align(n)
    ensures Strings(before + [Alloc(n), Known(name)]) == Strings(before) + {name}
  {
    AskedOne(before, Alloc(n));
    AskedOne(before + [Alloc(n)], Known(name));
    assert before + [Alloc(n), Known(name)] == before + [Alloc(n)] + [Known(name)];
  }

  lemma {:induction false} KeysCost(before: seq<Req>, keys: seq<string>)
    ensures Cost(before + KeysReqs(keys)) == Cost(before) + KeysBytes(keys)
    ensures Strings(before + KeysReqs(keys)) == Strings(before) + set k | k in keys
    decreases |keys|
  {
    if keys == [] {
      assert before + KeysReqs(keys) == before;
    } else {
      var front, last := keys[..|keys| - 1], keys[|keys| - 1];
      KeysCost(before, front);
      OneName(before + KeysReqs(front), OFFSET_HTABKEY + |last| + 1, last);
      assert before + KeysReqs(keys) == before + KeysReqs(front) + [Alloc(OFFSET_HTABKEY + |last| + 1), Known(last)];
      assert (set k | k in keys) == (set k | k in front) + {last};
    }
  }

  lemma HeadCost(s: Script)
    ensures Cost(HeadReqs(s)) == Align(OFFSET_REALFILENAME + |s.key| + 1) + KeysBytes(Firsts(s.classes))
            + KeysBytes(Firsts(s.functions))
    ensures Strings(HeadReqs(s)) == Names(s)
  {
    var n := OFFSET_REALFILENAME + |s.key| + 1;
    OneName([], n, s.key);
    assert [] + [Alloc(n), Known(s.key)] == [Alloc(n), Known(s.key)];
    KeysCost([Alloc(n), Known(s.key)], Firsts(s.classes));
    KeysCost([Alloc(n), Known(s.key)] + KeysReqs(Firsts(s.classes)), Firsts(s.functions));
  }

  // Either pass takes what the script bills for, with or without what the checks take out.
  lemma CostIsBill(pass: Pass, s: Script)
    ensures Cost(ScriptReqs(pass, s)) == Bill(s, pass.Store?)
  {
    var k := pass.Store?;
    ClassesCome(pass, s.classes);
    CodesCome(pass, s.functions);
    CodeComes(pass, s.main);
    var a, b, c := ClassesReqs(pass, s.classes), CodesReqs(pass, s.functions), CodeReqs(pass, s.main);
    Both(a, ClassesBytes(s.classes, k), ClassesWords(s.classes, k), b, CodesBytes(s.functions),
         CodesWords(s.functions));
    Both(a + b, ClassesBytes(s.classes, k) + CodesBytes(s.functions),
         ClassesWords(s.classes, k) + CodesWords(s.functions),
         c, CodeBytes(s.main), CodeWords(s.main));
    HeadCost(s);
    CostIs(HeadReqs(s), BodyReqs(pass, s));
  }
}
