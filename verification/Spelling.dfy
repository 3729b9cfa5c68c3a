// How patterns are written.  Every pattern is the text of a list of pieces, and it matches what the pieces stand for.
module Spelling {
  import opened Options
  import opened Glob

  // A character as written, behind a backslash or not.
  datatype Spelled = Spelled(c: char, esc: bool)

  // What a bracket lists: single characters, and spans with a '-' between their ends.
  datatype Member = One(x: Spelled) | Span(lo: Spelled, hi: Spelled)

  // ?, *, a character, a bracket with or without a mark of negation, and a bracket that is never closed.
  datatype Piece = Single | Many | Plain(x: Spelled) | Bracket(mark: Option<char>, members: seq<Member>) | Unclosed(text: string)

  // ----- the text -----

  function Show(x: Spelled): string {
    if x.esc then ['\\', x.c] else [x.c]
  }

  function ShowMember(m: Member): string {
    match m
    case One(x) => Show(x)
    case Span(lo, hi) => Show(lo) + ("-" + Show(hi))
  }

  function ShowMembers(ms: seq<Member>): string {
    if ms == [] then "" else ShowMember(ms[0]) + ShowMembers(ms[1..])
  }

  function ShowPiece(x: Piece): string {
    match x
    case Single => "?"
    case Many => "*"
    case Plain(c) => Show(c)
    case Bracket(mark, ms) => "[" + (ShowMark(mark) + (ShowMembers(ms) + "]"))
    case Unclosed(text) => "[" + text
  }

  function ShowMark(mark: Option<char>): string {
    if mark.Some? then [mark.value] else ""
  }

  function Render(xs: seq<Piece>): string {
    if xs == [] then "" else ShowPiece(xs[0]) + Render(xs[1..])
  }

  // ----- what may be written without a backslash -----

  predicate PlainOk(x: Spelled) {
    x.esc || (x.c != '?' && x.c != '*' && x.c != '[' && x.c != '\\')
  }

  predicate InsideOk(x: Spelled) {
    x.esc || (x.c != ']' && x.c != '\\')
  }

  predicate MemberOk(m: Member) {
    match m
    case One(x) => InsideOk(x)
    case Span(lo, hi) => InsideOk(lo) && InsideOk(hi)
  }

  function FirstOf(m: Member): Spelled {
    if m.One? then m.x else m.lo
  }

  predicate Dash(x: Spelled) {
    x.c == '-' && !x.esc
  }

  // A '-' behind a single character would make a span of it, unless the bracket ends there.
  predicate MembersOk(ms: seq<Member>) {
    ms == [] ||
    (MemberOk(ms[0]) && MembersOk(ms[1..])
     && (ms[0].One? && |ms| > 1 && Dash(FirstOf(ms[1])) ==> |ms| == 2 && ms[1].One?))
  }

  predicate Mark(c: char) {
    c == '!' || c == '^'
  }

  // A mark in front of the members is one of negation.
  predicate MarkOk(mark: Option<char>, ms: seq<Member>) {
    if mark.Some? then Mark(mark.value) else ms == [] || FirstOf(ms[0]).esc || !Mark(FirstOf(ms[0]).c)
  }

  // No ']' but behind a backslash.
  predicate NeverCloses(text: string) {
    if text == "" then true
    else if text[0] == '\\' then |text| == 1 || NeverCloses(text[2..])
    else text[0] != ']' && NeverCloses(text[1..])
  }

  predicate PieceOk(x: Piece, last: bool) {
    match x
    case Plain(c) => PlainOk(c) || (last && c == Spelled('\\', false))
    case Bracket(mark, ms) => MarkOk(mark, ms) && MembersOk(ms)
    case Unclosed(text) => last && NeverCloses(text)
    case _ => true
  }

  // A lone backslash and a bracket that is not closed only stand at the end.
  predicate WellSpelled(xs: seq<Piece>) {
    forall i :: 0 <= i < |xs| ==> PieceOk(xs[i], i == |xs| - 1)
  }

  // ----- what pieces stand for -----

  predicate Covers(m: Member, c: char) {
    match m
    case One(x) => c == x.c
    case Span(lo, hi) => lo.c <= c <= hi.c
  }

  predicate StandsFor(x: Piece, c: char) {
    match x
    case Single => true
    case Many => true
    case Plain(d) => c == d.c
    case Bracket(mark, ms) => (exists m :: m in ms && Covers(m, c)) <==> mark.None?
    case Unclosed(_) => false
  }

  // A star stands for any string, every other piece for strings of one character.
  predicate PieceFits(x: Piece, s: string) {
    x.Many? || (|s| == 1 && StandsFor(x, s[0]))
  }

  predicate PiecesFit(xs: seq<Piece>, parts: seq<string>) {
    |parts| == |xs| && forall i :: 0 <= i < |xs| ==> PieceFits(xs[i], parts[i])
  }

  ghost predicate Spells(xs: seq<Piece>, s: string) {
    exists parts :: PiecesFit(xs, parts) && Concat(parts) == s
  }

  // ----- reading the text -----

  // The text s at position i of p.
  predicate TextAt(p: string, i: nat, s: string) {
    i + |s| <= |p| && forall k {:trigger s[k]} :: 0 <= k < |s| ==> p[i + k] == s[k]
  }

  lemma TextSplit(p: string, i: nat, s: string, t: string)
    ensures TextAt(p, i, s + t) <==> TextAt(p, i, s) && TextAt(p, i + |s|, t)
  {
    var u := s + t;
    assert forall k {:trigger s[k]} :: 0 <= k < |s| ==> u[k] == s[k];
    assert forall k {:trigger t[k]} :: 0 <= k < |t| ==> u[|s| + k] == t[k];
  }

  lemma CharRead(p: string, i: nat, x: Spelled)
    requires TextAt(p, i, Show(x)) && (x.esc || x.c != '\\')
    ensures CharAt(p, i) == Some((x.c, i + |Show(x)|))
  {
    var s := Show(x);
    assert p[i] == s[0];
    if x.esc { assert p[i + 1] == s[1]; }
  }

  function Sense(m: Member): Range {
    match m
    case One(x) => Range(x.c, x.c)
    case Span(lo, hi) => Range(lo.c, hi.c)
  }

  function Senses(ms: seq<Member>): (r: seq<Range>)
    ensures |r| == |ms| && forall i :: 0 <= i < |ms| ==> r[i] == Sense(ms[i])
  {
    if ms == [] then [] else [Sense(ms[0])] + Senses(ms[1..])
  }

  // Behind a single character no '-' leads on.
  predicate EndsHere(p: string, n: nat) {
    !(n < |p| && p[n] == '-' && n + 1 < |p| && p[n + 1] != ']')
  }

  lemma MemberRead(p: string, i: nat, m: Member, shown: string)
    requires shown == ShowMember(m) && TextAt(p, i, shown) && MemberOk(m) && (m.One? ==> EndsHere(p, i + |shown|))
    ensures RangeAt(p, i) == Some((Sense(m), i + |shown|))
  {
    match m
    case One(x) => CharRead(p, i, x);
    case Span(lo, hi) =>
      TextSplit(p, i, Show(lo), "-" + Show(hi));
      var j := i + |Show(lo)|;
      TextSplit(p, j, "-", Show(hi));
      CharRead(p, i, lo);
      CharRead(p, j + 1, hi);
      assert p[j] == "-"[0] && p[j + 1] == Show(hi)[0];
  }

  // The first character of what a bracket lists.
  lemma FirstRead(p: string, n: nat, ms: seq<Member>)
    requires TextAt(p, n, ShowMembers(ms) + "]")
    ensures n < |p| && p[n] == if ms == [] then ']' else if FirstOf(ms[0]).esc then '\\' else FirstOf(ms[0]).c
  {
    var text := ShowMembers(ms) + "]";
    assert text[0] == p[n];
    if ms != [] { assert text[0] == ShowMember(ms[0])[0] == Show(FirstOf(ms[0]))[0]; }
  }

  lemma MemberEnds(p: string, n: nat, ms: seq<Member>, rest: string)
    requires ms != [] && ms[0].One? && MembersOk(ms) && rest == ShowMembers(ms[1..]) && TextAt(p, n, rest + "]")
    ensures EndsHere(p, n)
  {
    FirstRead(p, n, ms[1..]);
    if |ms| > 1 && Dash(FirstOf(ms[1])) {
      assert ms[1..] == [ms[1]] && [ms[1]][1..] == [] && ShowMembers(ms[1..]) == Show(ms[1].x) + "";
      assert p[n + 1] == (ShowMembers(ms[1..]) + "]")[1];
    }
  }

  lemma TextThree(p: string, i: nat, a: string, b: string, c: string)
    requires TextAt(p, i, (a + b) + c)
    ensures TextAt(p, i, a) && TextAt(p, i + |a|, b + c)
  {
    assert (a + b) + c == a + (b + c);
    TextSplit(p, i, a, b + c);
  }

  lemma DashAt(p: string, j: nat)
    requires j < |p| && p[j] == '-'
    ensures TextAt(p, j, "-")
  {
  }

  lemma HeadShown(ms: seq<Member>, first: string, rest: string)
    requires ms != [] && first == ShowMember(ms[0]) && rest == ShowMembers(ms[1..])
    ensures ShowMembers(ms) + "]" == (first + rest) + "]"
  {
  }

  lemma HeadText(p: string, i: nat, ms: seq<Member>, first: string, rest: string)
    requires ms != [] && TextAt(p, i, ShowMembers(ms) + "]")
    requires first == ShowMember(ms[0]) && rest == ShowMembers(ms[1..])
    ensures TextAt(p, i, first) && TextAt(p, i + |first|, rest + "]")
  {
    HeadShown(ms, first, rest);
    TextThree(p, i, first, rest, "]");
  }

  lemma HeadRead(p: string, i: nat, ms: seq<Member>, first: string, rest: string)
    requires ms != [] && TextAt(p, i, ShowMembers(ms) + "]") && MembersOk(ms)
    requires first == ShowMember(ms[0]) && rest == ShowMembers(ms[1..])
    ensures i < |p| && p[i] != ']' && RangeAt(p, i) == Some((Sense(ms[0]), i + |first|))
            && TextAt(p, i + |first|, rest + "]")
  {
    FirstRead(p, i, ms);
    HeadText(p, i, ms, first, rest);
    if ms[0].One? { MemberEnds(p, i + |first|, ms, rest); }
    MemberRead(p, i, ms[0], first);
  }

  predicate ReadTo(p: string, i: nat, items: seq<Range>, end: nat) {
    Items(p, i) == Some((items, end))
  }

  lemma HeadSense(ms: seq<Member>, shown: string, first: string, rest: string)
    requires ms != [] && shown == ShowMembers(ms) && first == ShowMember(ms[0]) && rest == ShowMembers(ms[1..])
    ensures Senses(ms) == [Sense(ms[0])] + Senses(ms[1..]) && |shown| == |first| + |rest|
  {
  }

  lemma NoneFrom(p: string, i: nat)
    requires i < |p| && p[i] == ']'
    ensures ReadTo(p, i, [], i + 1)
  {
  }

  lemma ItemsFrom(p: string, i: nat, range: Range, n: nat, items: seq<Range>, end: nat)
    requires i < |p| && p[i] != ']' && RangeAt(p, i) == Some((range, n)) && ReadTo(p, n, items, end)
    ensures ReadTo(p, i, [range] + items, end)
  {
  }

  // A bracket is read as it was written.
  lemma {:induction false} MembersRead(p: string, i: nat, ms: seq<Member>, shown: string)
    returns (items: seq<Range>, end: nat)
    requires shown == ShowMembers(ms) && TextAt(p, i, shown + "]") && MembersOk(ms)
    ensures ReadTo(p, i, items, end) && items == Senses(ms) && end == i + |shown| + 1
    decreases |ms|
  {
    if ms == [] {
      FirstRead(p, i, ms);
      NoneFrom(p, i);
      items, end := [], i + 1;
    } else {
      var first, rest := ShowMember(ms[0]), ShowMembers(ms[1..]);
      HeadRead(p, i, ms, first, rest);
      HeadSense(ms, shown, first, rest);
      items, end := MembersRead(p, i + |first|, ms[1..], rest);
      ItemsFrom(p, i, Sense(ms[0]), i + |first|, items, end);
      items := [Sense(ms[0])] + items;
    }
  }

  function Meaning(x: Piece): Token {
    match x
    case Single => Any
    case Many => Star
    case Plain(c) => Lit(c.c)
    case Bracket(mark, ms) => Set(mark.Some?, Senses(ms))
    case Unclosed(_) => Never
  }

  function Meanings(xs: seq<Piece>): (r: seq<Token>)
    ensures |r| == |xs| && forall i :: 0 <= i < |xs| ==> r[i] == Meaning(xs[i])
  {
    if xs == [] then [] else [Meaning(xs[0])] + Meanings(xs[1..])
  }

  lemma BracketParts(q: string, mark: string, inner: string, rest: string)
    requires q == "[" + (mark + (inner + "]")) + rest
    ensures TextAt(q, 1, mark) && TextAt(q, 1 + |mark|, inner + "]") && q[|mark| + |inner| + 2..] == rest
  {
    TextSplit(q, 0, "[", mark + (inner + "]"));
    TextSplit(q, 1, mark, inner + "]");
  }

  lemma BracketRead(q: string, mark: Option<char>, ms: seq<Member>, rest: string)
    requires q == ShowPiece(Bracket(mark, ms)) + rest && MarkOk(mark, ms) && MembersOk(ms)
    ensures Negates(q, 1) == mark.Some?
    ensures var n := |ShowPiece(Bracket(mark, ms))|; Items(q, Inside(q)) == Some((Senses(ms), n)) && q[n..] == rest
  {
    var text, inner := ShowMark(mark), ShowMembers(ms);
    assert q == "[" + (text + (inner + "]")) + rest;
    BracketParts(q, text, inner, rest);
    FirstRead(q, 1 + |text|, ms);
    if mark.Some? { assert q[1] == text[0]; }
    var _, _ := MembersRead(q, 1 + |text|, ms, inner);
  }

  // A bracket without a closing ']' is no bracket.
  lemma {:induction false} NeverRead(p: string, i: nat)
    requires i <= |p| && NeverCloses(p[i..])
    ensures Items(p, i) == None
    decreases |p| - i
  {
    if i < |p| {
      var text := p[i..];
      match RangeAt(p, i)
      case None =>
      case Some((_, k)) =>
        NeverOn(p, i);
        NeverRead(p, k);
    }
  }

  lemma CharOn(p: string, i: nat)
    requires i < |p| && NeverCloses(p[i..]) && CharAt(p, i).Some?
    ensures p[i] != ']' && NeverCloses(p[CharAt(p, i).value.1..])
  {
    var text := p[i..];
    assert |text| > 1 ==> text[2..] == p[i + 2..];
    assert text[1..] == p[i + 1..];
  }

  lemma NeverOn(p: string, i: nat)
    requires i < |p| && NeverCloses(p[i..]) && RangeAt(p, i).Some?
    ensures NeverCloses(p[RangeAt(p, i).value.1..])
  {
    CharOn(p, i);
    var j := CharAt(p, i).value.1;
    if j < |p| && p[j] == '-' && j + 1 < |p| && p[j + 1] != ']' {
      CharOn(p, j);
      CharOn(p, j + 1);
    }
  }

  lemma PieceRead(x: Piece, rest: string)
    requires PieceOk(x, rest == "") && (x.Unclosed? ==> rest == "")
    ensures Parse(ShowPiece(x) + rest) == [Meaning(x)] + Parse(rest)
  {
    var q := ShowPiece(x) + rest;
    match x
    case Single => assert q[1..] == rest;
    case Many => assert q[1..] == rest;
    case Plain(c) => assert q[|Show(c)|..] == rest;
    case Bracket(mark, ms) => BracketRead(q, mark, ms, rest);
    case Unclosed(text) =>
      assert q == "[" + text && q[1..] == text;
      if Negates(q, 1) { assert q[2..] == text[1..]; }
      NeverRead(q, Inside(q));
  }

  lemma WellRest(xs: seq<Piece>)
    requires xs != [] && WellSpelled(xs)
    ensures WellSpelled(xs[1..]) && PieceOk(xs[0], xs[1..] == [])
  {
    forall i | 0 <= i < |xs[1..]| ensures PieceOk(xs[1..][i], i == |xs[1..]| - 1) { assert xs[1..][i] == xs[i + 1]; }
  }

  // Every pattern is read as it was written.
  lemma {:induction false} ReadsAsWritten(xs: seq<Piece>)
    requires WellSpelled(xs)
    ensures Parse(Render(xs)) == Meanings(xs)
    decreases |xs|
  {
    if xs != [] {
      WellRest(xs);
      PieceRead(xs[0], Render(xs[1..]));
      ReadsAsWritten(xs[1..]);
    }
  }

  // ----- every text is written -----

  lemma CharWritten(p: string, i: nat) returns (x: Spelled)
    requires i < |p| && p[i] != ']' && CharAt(p, i).Some?
    ensures InsideOk(x) && CharAt(p, i) == Some((x.c, i + |Show(x)|)) && TextAt(p, i, Show(x))
    ensures x.esc <==> p[i] == '\\'
  {
    x := if p[i] == '\\' then Spelled(p[i + 1], true) else Spelled(p[i], false);
    if x.esc { assert p[i..i + 2] == [p[i], p[i + 1]]; } else { assert p[i..i + 1] == [p[i]]; }
  }

  lemma MemberWritten(p: string, i: nat) returns (m: Member)
    requires i < |p| && p[i] != ']' && RangeAt(p, i).Some?
    ensures MemberOk(m) && RangeAt(p, i) == Some((Sense(m), i + |ShowMember(m)|)) && TextAt(p, i, ShowMember(m))
    ensures m.One? ==> EndsHere(p, i + |ShowMember(m)|)
    ensures FirstOf(m).esc <==> p[i] == '\\'
    ensures !FirstOf(m).esc ==> FirstOf(m).c == p[i]
  {
    var lo := CharWritten(p, i);
    var j := i + |Show(lo)|;
    if EndsHere(p, j) {
      m := One(lo);
    } else {
      var hi := CharWritten(p, j + 1);
      m := Span(lo, hi);
      DashAt(p, j);
      TextSplit(p, j, "-", Show(hi));
      TextSplit(p, i, Show(lo), "-" + Show(hi));
    }
  }

  // The members of a closed bracket.
  lemma {:induction false} MembersWritten(p: string, i: nat) returns (ms: seq<Member>)
    requires i <= |p| && Items(p, i).Some?
    ensures MembersOk(ms) && TextAt(p, i, ShowMembers(ms) + "]") && i + |ShowMembers(ms)| + 1 == Items(p, i).value.1
    ensures ms != [] ==> p[i] != ']' && (FirstOf(ms[0]).esc <==> p[i] == '\\') && (!FirstOf(ms[0]).esc ==> FirstOf(ms[0]).c == p[i])
    ensures ms == [] <==> p[i] == ']'
    decreases |p| - i
  {
    if p[i] == ']' {
      ms := [];
      assert p[i..i + 1] == "]" && ShowMembers(ms) + "]" == "]";
    } else {
      var m := MemberWritten(p, i);
      var n := i + |ShowMember(m)|;
      var rest := MembersWritten(p, n);
      ms := [m] + rest;
      MembersText(p, i, m, rest);
      DashEnds(p, n, m, rest);
    }
  }

  lemma MembersText(p: string, i: nat, m: Member, rest: seq<Member>)
    requires TextAt(p, i, ShowMember(m)) && TextAt(p, i + |ShowMember(m)|, ShowMembers(rest) + "]")
    ensures ([m] + rest)[1..] == rest && TextAt(p, i, ShowMembers([m] + rest) + "]")
  {
    assert ([m] + rest)[1..] == rest;
    assert ShowMembers([m] + rest) + "]" == ShowMember(m) + (ShowMembers(rest) + "]");
    TextSplit(p, i, ShowMember(m), ShowMembers(rest) + "]");
  }

  lemma DashEnds(p: string, n: nat, m: Member, rest: seq<Member>)
    requires m.One? ==> EndsHere(p, n)
    requires MembersOk(rest) && TextAt(p, n, ShowMembers(rest) + "]")
    ensures m.One? && rest != [] && Dash(FirstOf(rest[0])) ==> |rest| == 1 && rest[0].One?
  {
    if rest != [] && Dash(FirstOf(rest[0])) { DashGoesOn(p, n, rest); }
  }

  // A '-' at the start leads on, unless it is all there is.
  lemma DashGoesOn(p: string, n: nat, ms: seq<Member>)
    requires ms != [] && MembersOk(ms) && TextAt(p, n, ShowMembers(ms) + "]") && Dash(FirstOf(ms[0]))
    ensures (|ms| == 1 && ms[0].One?) || !EndsHere(p, n)
  {
    var first := ShowMember(ms[0]);
    FirstRead(p, n, ms);
    HeadText(p, n, ms, first, ShowMembers(ms[1..]));
    if ms[0].Span? {
      assert first[1] == '-' && p[n + 1] == first[1];
    } else {
      FirstRead(p, n + 1, ms[1..]);
    }
  }

  lemma {:induction false} NeverWritten(p: string, i: nat)
    requires i <= |p| && Items(p, i) == None
    ensures NeverCloses(p[i..])
    decreases |p| - i, 1
  {
    if i < |p| {
      if CharAt(p, i).None? { assert p[i..] == "\\"; }
      else { NeverBehind(p, i); }
    }
  }

  // Past the first character the bracket is still not closed.
  lemma {:induction false} NeverBehind(p: string, i: nat)
    requires i < |p| && Items(p, i) == None && CharAt(p, i).Some?
    ensures NeverCloses(p[i..])
    decreases |p| - i, 0
  {
    var j := CharAt(p, i).value.1;
    ItemsClose(p, i);
    ItemsClose(p, j);
    NeverWritten(p, j);
    assert p[i..][j - i..] == p[j..];
  }

  // One piece, and what is left of the text.
  lemma PieceWritten(p: string) returns (x: Piece, n: nat)
    requires p != ""
    ensures 0 < n <= |p| && PieceOk(x, n == |p|) && p == ShowPiece(x) + p[n..]
  {
    if p[0] == '?' {
      x, n := Single, 1;
    } else if p[0] == '*' {
      x, n := Many, 1;
    } else if p[0] == '[' {
      x, n := BracketWritten(p);
    } else if p[0] == '\\' && |p| > 1 {
      x, n := Plain(Spelled(p[1], true)), 2;
    } else {
      x, n := Plain(Spelled(p[0], false)), 1;
    }
  }

  lemma BracketWritten(p: string) returns (x: Piece, n: nat)
    requires p != "" && p[0] == '['
    ensures 0 < n <= |p| && PieceOk(x, n == |p|) && p == ShowPiece(x) + p[n..]
  {
    var i := Inside(p);
    if Items(p, i) == None {
      x, n := Unclosed(p[1..]), |p|;
      NeverWritten(p, i);
      if i == 2 { assert p[1..][1..] == p[2..]; }
    } else {
      var ms := MembersWritten(p, i);
      var mark := if i == 2 then Some(p[1]) else None;
      x, n := Bracket(mark, ms), Items(p, i).value.1;
      assert i == 2 ==> p[1..2] == [p[1]];
      BracketText(p, ShowMark(mark), ShowMembers(ms) + "]", n);
    }
  }

  lemma BracketText(p: string, mark: string, body: string, n: nat)
    requires p != "" && p[0] == '[' && TextAt(p, 1, mark) && TextAt(p, 1 + |mark|, body) && n == 1 + |mark| + |body|
    ensures p == "[" + (mark + body) + p[n..]
  {
    TextSplit(p, 1, mark, body);
    assert p == p[..1] + p[1..n] + p[n..];
  }

  // Every string is the text of pieces, so that what is said of pieces is said of all patterns.
  lemma {:induction false} EveryPatternIsWritten(p: string) returns (xs: seq<Piece>)
    ensures WellSpelled(xs) && Render(xs) == p
    decreases |p|
  {
    if p == "" {
      xs := [];
    } else {
      var x, n := PieceWritten(p);
      var rest := EveryPatternIsWritten(p[n..]);
      xs := [x] + rest;
      assert xs[1..] == rest;
      forall i | 0 <= i < |xs| ensures PieceOk(xs[i], i == |xs| - 1) {
        if i > 0 { assert xs[i] == rest[i - 1]; }
      }
    }
  }

  // ----- what a written pattern matches -----

  lemma SensesCover(ms: seq<Member>, c: char)
    ensures InItems(Senses(ms), c) <==> exists m :: m in ms && Covers(m, c)
  {
    forall i | 0 <= i < |ms| ensures Covers(ms[i], c) <==> Senses(ms)[i].lo <= c <= Senses(ms)[i].hi {
    }
    if m :| m in ms && Covers(m, c) {
      var i :| 0 <= i < |ms| && ms[i] == m;
    }
  }

  lemma FitsIsDenotes(x: Piece, s: string)
    ensures PieceFits(x, s) <==> Denotes(Meaning(x), s)
  {
    if x.Bracket? && |s| == 1 { SensesCover(x.members, s[0]); }
  }

  // A written pattern matches exactly the strings its pieces stand for, one after the other.
  lemma MatchesAsWritten(xs: seq<Piece>, s: string)
    requires WellSpelled(xs)
    ensures Matches(Parse(Render(xs)), s) <==> Spells(xs, s)
  {
    ReadsAsWritten(xs);
    MatchesInLanguage(Meanings(xs), s);
    forall parts: seq<string> ensures Fit(Meanings(xs), parts) <==> PiecesFit(xs, parts) {
      if |parts| == |xs| {
        forall i | 0 <= i < |xs| ensures PieceFits(xs[i], parts[i]) <==> Denotes(Meanings(xs)[i], parts[i]) {
          FitsIsDenotes(xs[i], parts[i]);
        }
      }
    }
  }

  lemma OnePiece(x: Piece, s: string)
    ensures Spells([x], s) <==> PieceFits(x, s)
  {
    if PieceFits(x, s) {
      assert PiecesFit([x], [s]) && [s][1..] == [] && Concat([s]) == s;
    }
    if Spells([x], s) {
      var parts :| PiecesFit([x], parts) && Concat(parts) == s;
      assert PieceFits([x][0], parts[0]) && parts[1..] == [];
      assert Concat(parts) == parts[0] + "" == parts[0];
    }
  }

  // [a-b] matches exactly the strings of one character from a to b, [!a-b] and [^a-b] those of any other.
  lemma SpanBracket(mark: Option<char>, a: char, b: char, p: string, s: string)
    requires a != ']' && a != '\\' && b != ']' && b != '\\' && !Mark(a) && (mark.Some? ==> Mark(mark.value))
    requires p == "[" + ShowMark(mark) + [a, '-', b, ']']
    ensures Matches(Parse(p), s) <==> |s| == 1 && ((a <= s[0] <= b) <==> mark.None?)
  {
    var m := Span(Spelled(a, false), Spelled(b, false));
    SpanShown(mark, m, p);
    MatchesAsWritten([Bracket(mark, [m])], s);
    OnePiece(Bracket(mark, [m]), s);
    if |s| == 1 { assert Covers(m, s[0]) <==> exists k :: k in [m] && Covers(k, s[0]); }
  }

  lemma SpanShown(mark: Option<char>, m: Member, p: string)
    requires m.Span? && MemberOk(m) && !m.lo.esc && !m.hi.esc && !Mark(m.lo.c) && (mark.Some? ==> Mark(mark.value))
    requires p == "[" + ShowMark(mark) + [m.lo.c, '-', m.hi.c, ']']
    ensures WellSpelled([Bracket(mark, [m])]) && Render([Bracket(mark, [m])]) == p
  {
    var x := Bracket(mark, [m]);
    assert [m][1..] == [] && ShowMembers([m]) == [m.lo.c, '-', m.hi.c] && MembersOk([m]);
    assert [x][1..] == [] && Render([x]) == ShowPiece(x) == p;
  }
}
