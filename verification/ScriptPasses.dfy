// The two passes over a script as they run: calc_size adds up, eaccelerator_store_int moves a bump pointer.  Both walk
// over the same parts; where they differ, in the order of two parts or in a check, the method asks which pass it is.
module ScriptPasses {
  import opened Options
  import opened Requests
  import opened ScriptSize
  import opened ScriptBill

  // The bytes that one request takes when the strings in `known` are there already.
  function Price(known: set<string>, r: Req): nat {
    match r
    case Alloc(n) => Align(n)
    case Share(s) => if Long(s) || s !in known then Size(s) else 0
    case Known(_) => 0
  }

  // The strings that are there afterwards because of it.
  function Learned(r: Req): set<string> {
    match r
    case Alloc(_) => {}
    case Share(s) => if Long(s) then {} else {s}
    case Known(s) => {s}
  }

  function Bytes(known: set<string>, reqs: seq<Req>): nat {
    if reqs == [] then 0
    else Bytes(known, reqs[..|reqs| - 1]) + Price(known + Strings(reqs[..|reqs| - 1]), reqs[|reqs| - 1])
  }

  lemma {:induction false} BytesFromNothing(reqs: seq<Req>)
    ensures Bytes({}, reqs) == Cost(reqs)
    decreases |reqs|
  {
    if reqs != [] {
      BytesFromNothing(reqs[..|reqs| - 1]);
      assert {} + Strings(reqs[..|reqs| - 1]) == Strings(reqs[..|reqs| - 1]);
    }
  }

  // How far the pass has come: the sum or the bump pointer, and the strings met.
  datatype Mark = Mark(at: nat, known: set<string>)

  // From m to m' these requests were met.
  predicate Took(m: Mark, m': Mark, reqs: seq<Req>) {
    m'.at == m.at + Bytes(m.known, reqs) && m'.known == m.known + Strings(reqs)
  }

  lemma {:induction false} BytesPlus(known: set<string>, x: seq<Req>, y: seq<Req>)
    ensures Bytes(known, x + y) == Bytes(known, x) + Bytes(known + Strings(x), y)
    ensures Strings(x + y) == Strings(x) + Strings(y)
    decreases |y|
  {
    if y == [] {
      assert x + y == x;
    } else {
      var front := y[..|y| - 1];
      assert (x + y)[..|x + y| - 1] == x + front;
      BytesPlus(known, x, front);
      assert known + (Strings(x) + Strings(front)) == known + Strings(x) + Strings(front);
    }
  }

  // One part after the other.
  lemma Chain(a: Mark, b: Mark, c: Mark, x: seq<Req>, y: seq<Req>)
    requires Took(a, b, x) && Took(b, c, y)
    ensures Took(a, c, x + y)
  {
    BytesPlus(a.known, x, y);
  }

  lemma Regroup(a: seq<Req>, b: seq<Req>, c: seq<Req>, d: seq<Req>, e: seq<Req>)
    ensures a + b + c + d + e == a + (b + c) + (d + e) && a + b + (c + d) == a + b + c + d
  {
  }

  lemma Nothing(m: Mark)
    ensures Took(m, m, [])
  {
  }

  lemma BytesOfOne(known: set<string>, r: Req)
    ensures Bytes(known, [r]) == Price(known, r) && Strings([r]) == Learned(r)
  {
    assert [r][..0] == [];
    assert known + Strings([]) == known;
  }

  lemma MoreBuckets(pass: Pass, bs: seq<Bucket>, check: bool, i: nat)
    requires i < |bs|
    ensures BucketReqs(pass, bs[..i + 1], check) == BucketReqs(pass, bs[..i],
                                                               check) + if check && !bs[i].kept then []
                                                                 else BucketReq(pass, bs[i])
  {
    assert bs[..i + 1][..i] == bs[..i];
  }

  lemma MoreArgs(args: seq<Arg>, i: nat)
    requires i < |args|
    ensures ArgsReqs(args[..i + 1]) == ArgsReqs(args[..i]) + ArgReqs(args[i])
  {
    assert args[..i + 1][..i] == args[..i];
  }

  lemma MoreValues(pass: Pass, vs: seq<Zval>, i: nat)
    requires i < |vs|
    ensures ZvalsReqs(pass, vs[..i + 1]) == ZvalsReqs(pass, vs[..i]) + ZvalReqs(pass, vs[i])
  {
    assert vs[..i + 1][..i] == vs[..i];
  }

  lemma MoreVars(vars: seq<string>, i: nat)
    requires i < |vars|
    ensures VarsReqs(vars[..i + 1]) == VarsReqs(vars[..i]) + [Share(vars[i])]
  {
    assert vars[..i + 1][..i] == vars[..i];
  }

  lemma MoreKeys(keys: seq<string>, i: nat)
    requires i < |keys|
    ensures KeysReqs(keys[..i + 1]) == KeysReqs(keys[..i]) + [Alloc(OFFSET_HTABKEY + |keys[i]| + 1), Known(keys[i])]
  {
    assert keys[..i + 1][..i] == keys[..i];
  }

  lemma MoreClasses(pass: Pass, cs: seq<(string, Class)>, i: nat)
    requires i < |cs|
    ensures ClassesReqs(pass, cs[..i + 1]) == ClassesReqs(pass, cs[..i]) + ClassReqs(pass, cs[i].1)
  {
    assert cs[..i + 1][..i] == cs[..i];
  }

  lemma MoreCodes(pass: Pass, fs: seq<(string, Code)>, i: nat)
    requires i < |fs|
    ensures CodesReqs(pass, fs[..i + 1]) == CodesReqs(pass, fs[..i]) + CodeReqs(pass, fs[i].1)
  {
    assert fs[..i + 1][..i] == fs[..i];
  }

  // ADDSIZE and calc_string, or ALLOCATE and store_string.  What the sizing functions return is added up in one place.
  class Walker {
    const pass: Pass
    var at: nat
    var strings: map<string, nat>

    ghost predicate Valid()
      reads this
    {
      at % ALIGN == 0
    }

    ghost function Now(): Mark
      reads this
    {
      Mark(at, strings.Keys)
    }

    constructor (pass: Pass, start: nat)
      requires start % ALIGN == 0
      ensures Valid() && this.pass == pass && Now() == Mark(start, {})
    {
      this.pass, at, strings := pass, start, map[];
    }

    method Allocate(n: nat) returns (p: nat)
      requires Valid()
      modifies this
      ensures Valid() && p == old(at) && Took(old(Now()), Now(), [Alloc(n)])
    {
      p := at;
      Aligned(at, n);
      BytesOfOne(strings.Keys, Alloc(n));
      at := Align(at + n);
    }

    method PutString(s: string) returns (p: nat)
      requires Valid()
      modifies this
      ensures Valid() && Took(old(Now()), Now(), [Share(s)])
      ensures p == if !Long(s) && s in old(strings) then old(strings[s]) else old(at)
    {
      BytesOfOne(strings.Keys, Share(s));
      p := at;
      if !Long(s) && s in strings {
        p := strings[s];
      } else {
        if !Long(s) { strings := strings[s := at]; }
        Aligned(at, |s| + 1);
        at := Align(at + |s| + 1);
      }
    }

    // zend_hash_add
    method Note(s: string, p: nat)
      requires Valid()
      modifies this`strings
      ensures Valid() && Took(old(Now()), Now(), [Known(s)]) && (s in old(strings) ==> strings == old(strings))
    {
      BytesOfOne(strings.Keys, Known(s));
      if s !in strings { strings := strings[s := p]; }
    }

    method Optional(s: Option<string>)
      requires Valid()
      modifies this
      ensures Valid() && Took(old(Now()), Now(), Opt(s))
    {
      Nothing(Now());
      if s.Some? { var p := PutString(s.value); }
    }

    method OptionalArray(n: Option<nat>, size: nat)
      requires Valid()
      modifies this
      ensures Valid() && Took(old(Now()), Now(), OptAlloc(n, size))
    {
      Nothing(Now());
      if n.Some? { var p := Allocate(n.value * size); }
    }

    method PutZval(v: Zval)
      requires Valid()
      modifies this
      ensures Valid() && Took(old(Now()), Now(), ZvalReqs(pass, v))
      decreases v, 1
    {
      match v
      case Plain =>
        Nothing(Now());
      case Text(s) =>
        var p := PutString(s);
      case List(t) =>
        PutHashAndTable(t, false);
    }

    // A table that is not part of something larger.
    method PutHashAndTable(t: Table, check: bool)
      requires Valid()
      modifies this
      ensures Valid() && Took(old(Now()), Now(), [Alloc(SIZEOF_HASH)] + TableReqs(pass, t, check))
      decreases t, 2
    {
      var p := Allocate(SIZEOF_HASH);
      ghost var mid := Now();
      PutTable(t, check);
      Chain(old(Now()), mid, Now(), [Alloc(SIZEOF_HASH)], TableReqs(pass, t, check));
    }

    // calc_hash_int or store_hash_int
    method PutTable(t: Table, check: bool)
      requires Valid()
      modifies this
      ensures Valid() && Took(old(Now()), Now(), TableReqs(pass, t, check))
      decreases t, 1
    {
      Nothing(Now());
      if t.buckets != [] {
        var p := Allocate(t.size * SIZEOF_PTR);
        ghost var mid := Now();
        PutBuckets(t.buckets, check);
        Chain(old(Now()), mid, Now(), [Alloc(t.size * SIZEOF_PTR)], BucketReqs(pass, t.buckets, check));
      }
    }

    method PutBuckets(bs: seq<Bucket>, check: bool)
      requires Valid()
      modifies this
      ensures Valid() && Took(old(Now()), Now(), BucketReqs(pass, bs, check))
      decreases bs, 0
    {
      var i := 0;
      Nothing(Now());
      while i < |bs|
        invariant 0 <= i <= |bs| && Valid() && Took(old(Now()), Now(), BucketReqs(pass, bs[..i], check))
      {
        ghost var before := Now();
        PutChecked(bs[i], check);
        MoreBuckets(pass, bs, check, i);
        Chain(old(Now()), before, Now(), BucketReqs(pass, bs[..i], check),
              if check && !bs[i].kept then [] else BucketReq(pass, bs[i]));
        i := i + 1;
      }
      assert bs[..|bs|] == bs;
    }

    // A bucket that the check refuses is left out.
    method PutChecked(b: Bucket, check: bool)
      requires Valid()
      modifies this
      ensures Valid() && Took(old(Now()), Now(), if check && !b.kept then [] else BucketReq(pass, b))
      decreases b, 1
    {
      Nothing(Now());
      if !check || b.kept { PutBucket(b); }
    }

    method PutBucket(b: Bucket)
      requires Valid()
      modifies this
      ensures Valid() && Took(old(Now()), Now(), BucketReq(pass, b))
      decreases b, 0
    {
      var p := Allocate(OFFSET_ARKEY + b.keyLength);
      ghost var mid := Now();
      PutData(b.data);
      Chain(old(Now()), mid, Now(), [Alloc(OFFSET_ARKEY + b.keyLength)], DataReqs(pass, b.data));
    }

    // calc_zval_ptr, calc_property_info or calc_op_array; store_zval_ptr, store_property_info or store_op_array
    method PutData(data: Data)
      requires Valid()
      modifies this
      ensures Valid() && Took(old(Now()), Now(), DataReqs(pass, data))
      decreases data, 1
    {
      match data
      case Val(v) =>
        var p := Allocate(SIZEOF_ZVAL);
        ghost var mid := Now();
        PutZval(v);
        Chain(old(Now()), mid, Now(), [Alloc(SIZEOF_ZVAL)], ZvalReqs(pass, v));
      case Property(title, comment) =>
        PutProperty(title, comment);
      case Function(c) => PutCode(c);
    }

    method PutProperty(title: string, comment: Option<string>)
      requires Valid()
      modifies this
      ensures Valid() && Took(old(Now()), Now(), [Alloc(SIZEOF_PROPERTY_INFO), Share(title)] + Opt(comment))
    {
      var p := Allocate(SIZEOF_PROPERTY_INFO);
      ghost var mid := Now();
      p := PutString(title);
      ghost var end := Now();
      Optional(comment);
      Chain(old(Now()), mid, end, [Alloc(SIZEOF_PROPERTY_INFO)], [Share(title)]);
      assert [Alloc(SIZEOF_PROPERTY_INFO)] + [Share(title)] == [Alloc(SIZEOF_PROPERTY_INFO), Share(title)];
      Chain(old(Now()), end, Now(), [Alloc(SIZEOF_PROPERTY_INFO), Share(title)], Opt(comment));
    }

    // Two strings that may be missing, in this order.
    method Two(a: Option<string>, b: Option<string>)
      requires Valid()
      modifies this
      ensures Valid() && Took(old(Now()), Now(), Opt(a) + Opt(b))
    {
      Optional(a);
      ghost var mid := Now();
      Optional(b);
      Chain(old(Now()), mid, Now(), Opt(a), Opt(b));
    }

    method PutArgs(args: seq<Arg>)
      requires Valid()
      modifies this
      ensures Valid() && Took(old(Now()), Now(), ArgsReqs(args))
    {
      var i := 0;
      Nothing(Now());
      while i < |args|
        invariant 0 <= i <= |args| && Valid() && Took(old(Now()), Now(), ArgsReqs(args[..i]))
      {
        ghost var before := Now();
        Two(args[i].argName, args[i].className);
        MoreArgs(args, i);
        Chain(old(Now()), before, Now(), ArgsReqs(args[..i]), ArgReqs(args[i]));
        i := i + 1;
      }
      assert args[..|args|] == args;
    }

    method PutArgInfo(args: seq<Arg>)
      requires Valid()
      modifies this
      ensures Valid()
      ensures Took(old(Now()), Now(), if args == [] then [] else [Alloc(|args| * SIZEOF_ARG_INFO)] + ArgsReqs(args))
    {
      Nothing(Now());
      if args != [] {
        var p := Allocate(|args| * SIZEOF_ARG_INFO);
        ghost var mid := Now();
        PutArgs(args);
        Chain(old(Now()), mid, Now(), [Alloc(|args| * SIZEOF_ARG_INFO)], ArgsReqs(args));
      }
    }

    method PutCodeHead(c: Code)
      requires Valid()
      modifies this
      ensures Valid() && Took(old(Now()), Now(), CodeHead(c))
    {
      ghost var x := [Alloc(if c.user then SIZEOF_OP_ARRAY else SIZEOF_INTERNAL_FUNCTION)];
      ghost var args := if c.args == [] then [] else [Alloc(|c.args| * SIZEOF_ARG_INFO)] + ArgsReqs(c.args);
      var p := Allocate(if c.user then SIZEOF_OP_ARRAY else SIZEOF_INTERNAL_FUNCTION);
      ghost var l1 := Now();
      PutArgInfo(c.args);
      ghost var l2 := Now();
      Two(c.name, c.scope);
      Chain(old(Now()), l1, l2, x, args);
      Chain(old(Now()), l2, Now(), x + args, Opt(c.name) + Opt(c.scope));
      Regroup(x, args, Opt(c.name), Opt(c.scope), []);
    }

    method PutValues(vs: seq<Zval>)
      requires Valid()
      modifies this
      ensures Valid() && Took(old(Now()), Now(), ZvalsReqs(pass, vs))
      decreases vs, 0
    {
      var i := 0;
      Nothing(Now());
      while i < |vs|
        invariant 0 <= i <= |vs| && Valid() && Took(old(Now()), Now(), ZvalsReqs(pass, vs[..i]))
      {
        ghost var before := Now();
        PutZval(vs[i]);
        MoreValues(pass, vs, i);
        Chain(old(Now()), before, Now(), ZvalsReqs(pass, vs[..i]), ZvalReqs(pass, vs[i]));
        i := i + 1;
      }
      assert vs[..|vs|] == vs;
    }

    method PutOps(ops: Option<Ops>)
      requires Valid()
      modifies this
      ensures Valid() && Took(old(Now()), Now(), OpsReqs(pass, ops))
      decreases ops, 1
    {
      Nothing(Now());
      if ops.Some? {
        var p := Allocate(ops.value.last * SIZEOF_OP);
        ghost var mid := Now();
        PutValues(ops.value.constants);
        Chain(old(Now()), mid, Now(), [Alloc(ops.value.last * SIZEOF_OP)], ZvalsReqs(pass, ops.value.constants));
      }
    }

    method PutStatics(t: Option<Table>)
      requires Valid()
      modifies this
      ensures Valid() && Took(old(Now()), Now(), StaticsReqs(pass, t))
      decreases t, 2
    {
      Nothing(Now());
      if t.Some? { PutHashAndTable(t.value, false); }
    }

    method PutVars(vars: Option<seq<string>>)
      requires Valid()
      modifies this
      ensures Valid() && Took(old(Now()), Now(), OptVars(vars))
    {
      Nothing(Now());
      if vars.Some? {
        var p := Allocate(|vars.value| * SIZEOF_VARIABLE);
        ghost var mid, vs := Now(), vars.value;
        Nothing(mid);
        var i := 0;
        while i < |vars.value|
          invariant 0 <= i <= |vs| && Valid() && Took(mid, Now(), VarsReqs(vs[..i]))
        {
          ghost var before := Now();
          p := PutString(vars.value[i]);
          MoreVars(vs, i);
          Chain(mid, before, Now(), VarsReqs(vs[..i]), [Share(vs[i])]);
          i := i + 1;
        }
        assert vs[..|vs|] == vs;
        Chain(old(Now()), mid, Now(), [Alloc(|vs| * SIZEOF_VARIABLE)], VarsReqs(vs));
      }
    }

    // calc_op_array or store_op_array
    method PutCode(c: Code)
      requires Valid()
      modifies this
      ensures Valid() && Took(old(Now()), Now(), CodeReqs(pass, c))
      decreases c, 1
    {
      PutCodeHead(c);
      ghost var mid := Now();
      Nothing(mid);
      if c.user {
        PutFirstHalf(c);
        ghost var half := Now();
        PutSecondHalf(c);
        Chain(mid, half, Now(), FirstHalf(pass, c), SecondHalf(pass, c));
      }
      Chain(old(Now()), mid, Now(), CodeHead(c), if !c.user then [] else FirstHalf(pass, c) + SecondHalf(pass, c));
    }

    // The break table comes first when sizing, the try table when storing.
    method PutBreaksAndTries(c: Code)
      requires Valid()
      modifies this
      ensures Valid() && Took(old(Now()), Now(),
                              Either(pass, OptAlloc(c.brks, SIZEOF_BRK_CONT), OptAlloc(c.tries, SIZEOF_TRY_CATCH)))
    {
      ghost var brks, tries := OptAlloc(c.brks, SIZEOF_BRK_CONT), OptAlloc(c.tries, SIZEOF_TRY_CATCH);
      if pass.Calc? {
        OptionalArray(c.brks, SIZEOF_BRK_CONT);
        ghost var mid := Now();
        OptionalArray(c.tries, SIZEOF_TRY_CATCH);
        Chain(old(Now()), mid, Now(), brks, tries);
      } else {
        OptionalArray(c.tries, SIZEOF_TRY_CATCH);
        ghost var mid := Now();
        OptionalArray(c.brks, SIZEOF_BRK_CONT);
        Chain(old(Now()), mid, Now(), tries, brks);
      }
    }

    method PutFirstHalf(c: Code)
      requires Valid()
      modifies this
      ensures Valid() && Took(old(Now()), Now(), FirstHalf(pass, c))
      decreases c, 0
    {
      PutOps(c.opcodes);
      ghost var mid := Now();
      PutBreaksAndTries(c);
      Chain(old(Now()), mid, Now(), OpsReqs(pass, c.opcodes),
            Either(pass, OptAlloc(c.brks, SIZEOF_BRK_CONT), OptAlloc(c.tries, SIZEOF_TRY_CATCH)));
    }

    // The file comes first when sizing, the doc comment when storing.
    method PutSecondHalf(c: Code)
      requires Valid()
      modifies this
      ensures Valid() && Took(old(Now()), Now(), SecondHalf(pass, c))
      decreases c, 0
    {
      PutStatics(c.statics);
      ghost var l1 := Now();
      PutVars(c.vars);
      ghost var l2 := Now();
      if pass.Calc? { Two(c.file, c.doc); } else { Two(c.doc, c.file); }
      Chain(old(Now()), l1, l2, StaticsReqs(pass, c.statics), OptVars(c.vars));
      Chain(old(Now()), l2, Now(), StaticsReqs(pass, c.statics) + OptVars(c.vars),
            Either(pass, Opt(c.file), Opt(c.doc)));
    }

    method PutClassHead(c: Class)
      requires Valid()
      modifies this
      ensures Valid() && Took(old(Now()), Now(), ClassHead(c))
    {
      ghost var x := [Alloc(SIZEOF_CLASS)];
      var p := Allocate(SIZEOF_CLASS);
      ghost var l1 := Now();
      Two(c.name, c.parent);
      ghost var l2 := Now();
      Two(c.file, c.doc);
      Chain(old(Now()), l1, l2, x, Opt(c.name) + Opt(c.parent));
      Chain(old(Now()), l2, Now(), x + (Opt(c.name) + Opt(c.parent)), Opt(c.file) + Opt(c.doc));
      Regroup(x, Opt(c.name), Opt(c.parent), Opt(c.file), Opt(c.doc));
    }

    method PutStaticMembers(c: Class)
      requires Valid()
      modifies this
      ensures Valid() && Took(old(Now()), Now(), StaticMembers(pass, c))
    {
      PutTable(c.defaultStatics, pass.Store? && c.statics.None?);
      ghost var mid := Now();
      Nothing(mid);
      if c.statics.Some? { PutHashAndTable(c.statics.value, pass.Store?); }
      Chain(old(Now()), mid, Now(), TableReqs(pass, c.defaultStatics, pass.Store? && c.statics.None?),
            if c.statics.None? then [] else [Alloc(SIZEOF_HASH)] + TableReqs(pass, c.statics.value, pass.Store?));
    }

    // The properties come first when sizing, their default values when storing; only storing checks them.
    method PutMembers(c: Class)
      requires Valid()
      modifies this
      ensures Valid() && Took(old(Now()), Now(),
                              Either(pass, TableReqs(pass, c.properties, pass.Store?),
                                     TableReqs(pass, c.defaults, pass.Store?)))
    {
      ghost var p, d := TableReqs(pass, c.properties, pass.Store?), TableReqs(pass, c.defaults, pass.Store?);
      if pass.Calc? {
        PutTable(c.properties, false);
        ghost var mid := Now();
        PutTable(c.defaults, false);
        Chain(old(Now()), mid, Now(), p, d);
      } else {
        PutTable(c.defaults, true);
        ghost var mid := Now();
        PutTable(c.properties, true);
        Chain(old(Now()), mid, Now(), d, p);
      }
    }

    // calc_class_entry or store_class_entry: the bytes taken are those of the class's requests, given the strings met
    // before.
    method PutClass(c: Class)
      requires Valid()
      modifies this
      ensures Valid() && Took(old(Now()), Now(), ClassReqs(pass, c))
    {
      ghost var h, k, s := ClassHead(c), TableReqs(pass, c.constants, false), StaticMembers(pass, c);
      ghost var pd, m := Either(pass, TableReqs(pass, c.properties, pass.Store?),
                                TableReqs(pass, c.defaults, pass.Store?)), TableReqs(pass, c.methods, pass.Store?);
      PutClassHead(c);
      ghost var l1 := Now();
      PutTable(c.constants, false);
      ghost var l2 := Now();
      PutMembers(c);
      ghost var l3 := Now();
      PutStaticMembers(c);
      ghost var l4 := Now();
      PutTable(c.methods, pass.Store?);
      Chain(old(Now()), l1, l2, h, k);
      Chain(old(Now()), l2, l3, h + k, pd);
      Chain(l3, l4, Now(), s, m);
      Chain(old(Now()), l3, Now(), (h + k) + pd, s + m);
    }

    // The list entry of a class, or of a function; its name is there for everybody.
    method PutKey(key: string)
      requires Valid()
      modifies this
      ensures Valid() && Took(old(Now()), Now(), [Alloc(OFFSET_HTABKEY + |key| + 1), Known(key)])
    {
      PutNamed(OFFSET_HTABKEY, key);
    }

    // A structure that ends in a name.
    method PutNamed(offset: nat, name: string)
      requires Valid()
      modifies this
      ensures Valid() && Took(old(Now()), Now(), [Alloc(offset + |name| + 1), Known(name)])
    {
      var p := Allocate(offset + |name| + 1);
      ghost var mid := Now();
      Note(name, p + offset);
      Chain(old(Now()), mid, Now(), [Alloc(offset + |name| + 1)], [Known(name)]);
      assert [Alloc(offset + |name| + 1)] + [Known(name)] == [Alloc(offset + |name| + 1), Known(name)];
    }

    method PutKeys(keys: seq<string>)
      requires Valid()
      modifies this
      ensures Valid() && Took(old(Now()), Now(), KeysReqs(keys))
    {
      var i := 0;
      Nothing(Now());
      while i < |keys|
        invariant 0 <= i <= |keys| && Valid() && Took(old(Now()), Now(), KeysReqs(keys[..i]))
      {
        ghost var before := Now();
        PutKey(keys[i]);
        MoreKeys(keys, i);
        Chain(old(Now()), before, Now(), KeysReqs(keys[..i]), [Alloc(OFFSET_HTABKEY + |keys[i]| + 1), Known(keys[i])]);
        i := i + 1;
      }
      assert keys[..|keys|] == keys;
    }

    method PutHead(s: Script)
      requires Valid()
      modifies this
      ensures Valid() && Took(old(Now()), Now(), HeadReqs(s))
    {
      ghost var x := [Alloc(OFFSET_REALFILENAME + |s.key| + 1), Known(s.key)];
      PutNamed(OFFSET_REALFILENAME, s.key);
      ghost var l1 := Now();
      PutKeys(Firsts(s.classes));
      ghost var l2 := Now();
      PutKeys(Firsts(s.functions));
      Chain(old(Now()), l1, l2, x, KeysReqs(Firsts(s.classes)));
      Chain(old(Now()), l2, Now(), x + KeysReqs(Firsts(s.classes)), KeysReqs(Firsts(s.functions)));
    }

    method PutClasses(cs: seq<(string, Class)>)
      requires Valid()
      modifies this
      ensures Valid() && Took(old(Now()), Now(), ClassesReqs(pass, cs))
    {
      var i := 0;
      Nothing(Now());
      while i < |cs|
        invariant 0 <= i <= |cs| && Valid() && Took(old(Now()), Now(), ClassesReqs(pass, cs[..i]))
      {
        ghost var before := Now();
        PutClass(cs[i].1);
        MoreClasses(pass, cs, i);
        Chain(old(Now()), before, Now(), ClassesReqs(pass, cs[..i]), ClassReqs(pass, cs[i].1));
        i := i + 1;
      }
      assert cs[..|cs|] == cs;
    }

    method PutCodes(fs: seq<(string, Code)>)
      requires Valid()
      modifies this
      ensures Valid() && Took(old(Now()), Now(), CodesReqs(pass, fs))
    {
      var i := 0;
      Nothing(Now());
      while i < |fs|
        invariant 0 <= i <= |fs| && Valid() && Took(old(Now()), Now(), CodesReqs(pass, fs[..i]))
      {
        ghost var before := Now();
        PutCode(fs[i].1);
        MoreCodes(pass, fs, i);
        Chain(old(Now()), before, Now(), CodesReqs(pass, fs[..i]), CodeReqs(pass, fs[i].1));
        i := i + 1;
      }
      assert fs[..|fs|] == fs;
    }

    // A whole script: calc_size or eaccelerator_store_int.
    method PutScript(s: Script)
      requires Valid()
      modifies this
      ensures Valid() && Took(old(Now()), Now(), ScriptReqs(pass, s))
    {
      PutHead(s);
      ghost var l1 := Now();
      PutClasses(s.classes);
      ghost var l2 := Now();
      PutCodes(s.functions);
      ghost var l3 := Now();
      PutCode(s.main);
      Chain(l1, l2, l3, ClassesReqs(pass, s.classes), CodesReqs(pass, s.functions));
      Chain(l1, l3, Now(), ClassesReqs(pass, s.classes) + CodesReqs(pass, s.functions), CodeReqs(pass, s.main));
      Chain(old(Now()), l1, Now(), HeadReqs(s), BodyReqs(pass, s));
    }
  }

  // calc_size
  method CalcSize(s: Script) returns (size: nat)
    ensures size == Cost(ScriptReqs(Calc, s)) == Bill(s, false)
  {
    var walker := new Walker(Calc, 0);
    walker.PutScript(s);
    BytesFromNothing(ScriptReqs(Calc, s));
    CostIsBill(Calc, s);
    size := walker.at;
  }

  // eaccelerator_store_int, from where the entry is to where the bump pointer ends up
  method StoreScript(s: Script, entry: nat) returns (end: nat)
    requires entry % ALIGN == 0
    ensures end == entry + Cost(ScriptReqs(Store, s)) == entry + Bill(s, true)
  {
    var walker := new Walker(Store, entry);
    walker.PutScript(s);
    BytesFromNothing(ScriptReqs(Store, s));
    CostIsBill(Store, s);
    end := walker.at;
  }

  // eaccelerator_store: what is written stays in the space that was asked for, and fills it just when nothing is left
  // out.
  method StoreInSpace(s: Script, entry: nat) returns (size: nat, end: nat)
    requires entry % ALIGN == 0
    ensures entry <= end <= entry + size && (end == entry + size <==> ClassesKept(s.classes))
    ensures size == Bill(s, false) && end == entry + Bill(s, true)
  {
    size := CalcSize(s);
    end := StoreScript(s, entry);
    CalcIsEnough(s);
  }
}
