// fnmatch with flags 0, against the language of a pattern.
module Glob {
  import opened Options

  datatype Range = Range(lo: char, hi: char)

  // What a pattern is made of.  Never stands for a bracket that is not closed.
  datatype Token = Any | Star | Lit(c: char) | Set(neg: bool, items: seq<Range>) | Never

  // ----- the language -----

  predicate InItems(items: seq<Range>, c: char) {
    exists i :: 0 <= i < |items| && items[i].lo <= c <= items[i].hi
  }

  // The single characters a token stands for.
  predicate Accepts(t: Token, c: char) {
    match t
    case Any => true
    case Star => true
    case Lit(d) => c == d
    case Set(neg, items) => InItems(items, c) != neg
    case Never => false
  }

  // The strings a token stands for.
  predicate Denotes(t: Token, s: string) {
    t.Star? || (|s| == 1 && Accepts(t, s[0]))
  }

  function Concat(parts: seq<string>): string {
    if parts == [] then "" else parts[0] + Concat(parts[1..])
  }

  predicate Fit(ts: seq<Token>, parts: seq<string>) {
    |parts| == |ts| && forall i :: 0 <= i < |ts| ==> Denotes(ts[i], parts[i])
  }

  // s is a string of the first token, followed by one of the second, and so on.
  ghost predicate InLanguage(ts: seq<Token>, s: string) {
    exists parts :: Fit(ts, parts) && Concat(parts) == s
  }

  // The same from left to right.
  ghost predicate Matches(ts: seq<Token>, s: string)
    decreases |ts|
  {
    if ts == [] then s == ""
    else if ts[0].Star? then exists k :: 0 <= k <= |s| && Matches(ts[1..], s[k..])
    else s != "" && Accepts(ts[0], s[0]) && Matches(ts[1..], s[1..])
  }

  lemma {:induction false} MatchesInLanguage(ts: seq<Token>, s: string)
    ensures Matches(ts, s) <==> InLanguage(ts, s)
    decreases |ts|
  {
    if Matches(ts, s) {
      var parts := Parts(ts, s);
    }
    if InLanguage(ts, s) {
      var parts :| Fit(ts, parts) && Concat(parts) == s;
      PartsMatch(ts, parts);
    }
  }

  lemma {:induction false} Parts(ts: seq<Token>, s: string) returns (parts: seq<string>)
    requires Matches(ts, s)
    ensures Fit(ts, parts) && Concat(parts) == s
    decreases |ts|
  {
    if ts == [] {
      parts := [];
    } else {
      var k :| 0 <= k <= |s| && Matches(ts[1..], s[k..])
        && (!ts[0].Star? ==> k == 1 && s != "" && Accepts(ts[0], s[0]));
      var rest := Parts(ts[1..], s[k..]);
      parts := [s[..k]] + rest;
      assert parts[1..] == rest;
      assert forall i :: 0 < i < |ts| ==> ts[i] == ts[1..][i - 1] && parts[i] == rest[i - 1];
    }
  }

  lemma {:induction false} PartsMatch(ts: seq<Token>, parts: seq<string>)
    requires Fit(ts, parts)
    ensures Matches(ts, Concat(parts))
    decreases |ts|
  {
    if ts != [] {
      var s := Concat(parts);
      assert forall i :: 0 <= i < |ts[1..]| ==> ts[1..][i] == ts[i + 1] && parts[1..][i] == parts[i + 1];
      PartsMatch(ts[1..], parts[1..]);
      assert s[|parts[0]|..] == Concat(parts[1..]);
      assert Denotes(ts[0], parts[0]);
    }
  }

  // ----- patterns -----

  // A character at i, escaped or not, and where it ends.
  function CharAt(p: string, i: nat): (r: Option<(char, nat)>)
    ensures r.Some? ==> i < r.value.1 <= |p|
  {
    if i >= |p| then None
    else if p[i] == '\\' then (if i + 1 < |p| then Some((p[i + 1], i + 2)) else None)
    else Some((p[i], i + 1))
  }

  // The range at i: one character, or two with a '-' between them; and the position after it.
  function RangeAt(p: string, i: nat): (r: Option<(Range, nat)>)
    ensures r.Some? ==> i < r.value.1 <= |p|
  {
    match CharAt(p, i)
    case None => None
    case Some((c, j)) =>
      if j < |p| && p[j] == '-' && j + 1 < |p| && p[j + 1] != ']' then
        match CharAt(p, j + 1)
        case None => None
        case Some((c2, k)) => Some((Range(c, c2), k))
      else Some((Range(c, c), j))
  }

  // The inside of a bracket from i on: its ranges, and the position after ']'.
  function Items(p: string, i: nat): (r: Option<(seq<Range>, nat)>)
    ensures r.Some? ==> i < r.value.1 <= |p|
    decreases |p| - i
  {
    if i < |p| && p[i] == ']' then Some(([], i + 1))
    else match RangeAt(p, i)
      case None => None
      case Some((range, k)) => Prefix(range, Items(p, k))
  }

  function Prefix(r: Range, rest: Option<(seq<Range>, nat)>): (q: Option<(seq<Range>, nat)>)
    ensures q.Some? <==> rest.Some?
    ensures q.Some? ==> q.value.1 == rest.value.1
  {
    match rest
    case None => None
    case Some((items, n)) => Some(([r] + items, n))
  }

  predicate Negates(p: string, i: nat) {
    i < |p| && (p[i] == '!' || p[i] == '^')
  }

  function Parse(p: string): seq<Token>
    decreases |p|
  {
    if p == "" then []
    else if p[0] == '?' then [Any] + Parse(p[1..])
    else if p[0] == '*' then [Star] + Parse(p[1..])
    else if p[0] == '[' then
      match Items(p, Inside(p))
      case None => [Never]
      case Some((items, n)) => [Set(Negates(p, 1), items)] + Parse(p[n..])
    else if p[0] == '\\' && |p| > 1 then [Lit(p[1])] + Parse(p[2..])
    else [Lit(p[0])] + Parse(p[1..])
  }

  // ----- rangematch -----

  // One round of the loop: the range at i.
  method NextRange(p: string, i: nat) returns (r: Option<(Range, nat)>)
    requires i < |p|
    ensures r == RangeAt(p, i)
  {
    var c, j := p[i], i + 1;
    if c == '\\' {
      if j == |p| { return None; }
      c := p[j];
      j := j + 1;
    }
    if j < |p| && p[j] == '-' && j + 1 < |p| && p[j + 1] != ']' {
      var c2 := p[j + 1];
      j := j + 2;
      if c2 == '\\' {
        if j == |p| { return None; }
        c2 := p[j];
        j := j + 1;
      }
      return Some((Range(c, c2), j));
    }
    return Some((Range(c, c), j));
  }

  // `pattern` after the bracket if `test` is in it, NULL otherwise.
  method Rangematch(p: string, start: nat, test: char) returns (r: Option<nat>)
    requires start <= |p|
    ensures var neg := Negates(p, start);
            match Items(p, if neg then start + 1 else start)
            case None => r == None
            case Some((items, n)) => r == if InItems(items, test) != neg then Some(n) else None
  {
    var negate := start < |p| && (p[start] == '!' || p[start] == '^');
    var i := if negate then start + 1 else start;
    ghost var all := Items(p, i);
    var ok := false;
    while i < |p| && p[i] != ']'
      invariant i <= |p|
      invariant all.Some? <==> Items(p, i).Some?
      invariant all.Some? ==> all.value.1 == Items(p, i).value.1 && (InItems(all.value.0, test) <==> ok || InItems(Items(p, i).value.0, test))
      decreases |p| - i
    {
      var next := NextRange(p, i);
      if next == None { return None; }
      var (range, k) := next.value;
      PrefixMeans(range, Items(p, k), test);
      if range.lo <= test && test <= range.hi { ok := true; }
      i := k;
    }
    if i == |p| { return None; }
    r := if ok == negate then None else Some(i + 1);
  }

  lemma PrefixMeans(r: Range, rest: Option<(seq<Range>, nat)>, test: char)
    ensures rest.Some? ==>
              (InItems(Prefix(r, rest).value.0, test) <==> (r.lo <= test <= r.hi) || InItems(rest.value.0, test))
  {
    if rest.Some? {
      var items := rest.value.0;
      var all := [r] + items;
      if InItems(items, test) {
        var i :| 0 <= i < |items| && items[i].lo <= test <= items[i].hi;
        assert all[i + 1] == items[i];
      }
      if r.lo <= test <= r.hi { assert all[0] == r; }
      if InItems(all, test) {
        var i :| 0 <= i < |all| && all[i].lo <= test <= all[i].hi;
        assert i > 0 ==> items[i - 1] == all[i];
      }
    }
  }

  // ----- fnmatch -----

  // Stars in a row are one star.
  lemma StarStar(ts: seq<Token>, s: string)
    ensures Matches([Star, Star] + ts, s) <==> Matches([Star] + ts, s)
  {
    assert ([Star, Star] + ts)[1..] == [Star] + ts && ([Star] + ts)[1..] == ts;
    if Matches([Star, Star] + ts, s) {
      var k :| 0 <= k <= |s| && Matches([Star] + ts, s[k..]);
      var j :| 0 <= j <= |s[k..]| && Matches(ts, s[k..][j..]);
      assert s[k..][j..] == s[k + j..];
    }
    if Matches([Star] + ts, s) {
      assert s[0..] == s;
      assert Matches(([Star, Star] + ts)[1..], s[0..]);
    }
  }

  // A pattern that starts with anything but a star does not match the empty string.
  predicate NeedsOne(ts: seq<Token>) {
    ts != [] && !ts[0].Star?
  }

  lemma ParseNeedsOne(p: string)
    requires p != "" && p[0] != '*'
    ensures NeedsOne(Parse(p))
  {
  }

  // fnmatch(pattern, string, 0) == 0
  method Fnmatch(pattern: string, str: string) returns (r: bool)
    ensures r <==> Matches(Parse(pattern), str)
    decreases |pattern|, 2
  {
    var p, s := 0, 0;
    assert pattern[0..] == pattern && str[0..] == str;
    while p < |pattern|
      invariant p <= |pattern| && s <= |str|
      invariant Matches(Parse(pattern), str) <==> Matches(Parse(pattern[p..]), str[s..])
      decreases |pattern| - p
    {
      ghost var pat, rest := pattern[p..], str[s..];
      var c := pattern[p];
      p := p + 1;
      assert pat[1..] == pattern[p..];
      if c == '?' {
        if s == |str| { return false; }
        assert Parse(pat)[1..] == Parse(pattern[p..]) && rest[1..] == str[s + 1..];
        s := s + 1;
      } else if c == '*' {
        r := MatchStar(pattern, p, str, s);
        return;
      } else if c == '[' {
        if s == |str| { return false; }
        var q := Rangematch(pattern, p, str[s]);
        BracketSuffix(pattern, p);
        if q.None? {
          return false;
        }
        assert rest[1..] == str[s + 1..];
        assert Parse(pat)[1..] == Parse(pattern[q.value..]);
        p := q.value;
        s := s + 1;
      } else {
        if c == '\\' && p < |pattern| {
          c := pattern[p];
          p := p + 1;
          assert pat[2..] == pattern[p..];
        }
        if s == |str| || c != str[s] { return false; }
        assert Parse(pat)[1..] == Parse(pattern[p..]) && rest[1..] == str[s + 1..];
        s := s + 1;
      }
    }
    r := s == |str|;
  }

  lemma StarHit(ts: seq<Token>, s: string, k: nat)
    requires k <= |s| && Matches(ts, s[k..])
    ensures Matches([Star] + ts, s)
  {
    assert ([Star] + ts)[1..] == ts;
  }

  lemma StarMiss(ts: seq<Token>, s: string)
    requires NeedsOne(ts) && forall k :: 0 <= k < |s| ==> !Matches(ts, s[k..])
    ensures !Matches([Star] + ts, s)
  {
    assert ([Star] + ts)[1..] == ts;
    assert s[|s|..] == "" && !Matches(ts, "");
  }

  lemma NextStar(pattern: string, p: nat, s: string)
    requires p < |pattern| && pattern[p] == '*'
    ensures Matches([Star] + Parse(pattern[p..]), s) <==> Matches([Star] + Parse(pattern[p + 1..]), s)
  {
    assert pattern[p..][1..] == pattern[p + 1..];
    var ts := Parse(pattern[p + 1..]);
    assert [Star] + Parse(pattern[p..]) == [Star, Star] + ts;
    StarStar(ts, s);
  }

  // Collapse multiple stars.
  method SkipStars(pattern: string, start: nat, ghost s: string) returns (p: nat)
    requires 0 < start <= |pattern| && pattern[start - 1] == '*'
    ensures start <= p <= |pattern| && (p < |pattern| ==> pattern[p] != '*')
    ensures Matches(Parse(pattern[start - 1..]), s) <==> Matches([Star] + Parse(pattern[p..]), s)
  {
    p := start;
    assert Parse(pattern[start - 1..]) == [Star] + Parse(pattern[start..]) by { assert pattern[start - 1..][1..] == pattern[start..]; }
    while p < |pattern| && pattern[p] == '*'
      invariant start <= p <= |pattern|
      invariant Matches(Parse(pattern[start - 1..]), s) <==> Matches([Star] + Parse(pattern[p..]), s)
    {
      NextStar(pattern, p, s);
      p := p + 1;
    }
  }

  // The star case: collapse, accept at the end of the pattern, else try every rest of the string.
  method MatchStar(pattern: string, start: nat, str: string, from: nat) returns (r: bool)
    requires 0 < start <= |pattern| && pattern[start - 1] == '*' && from <= |str|
    ensures r <==> Matches(Parse(pattern[start - 1..]), str[from..])
    decreases |pattern|, 1
  {
    var p := SkipStars(pattern, start, str[from..]);
    if p == |pattern| {
      assert str[from..][|str| - from..] == "";
      StarHit(Parse(pattern[p..]), str[from..], |str| - from);
      return true;
    }
    r := TryRests(pattern, p, str, from);
  }

  // General case, use recursion.
  method TryRests(pattern: string, p: nat, str: string, from: nat) returns (r: bool)
    requires 0 < p < |pattern| && pattern[p] != '*' && from <= |str|
    ensures r <==> Matches([Star] + Parse(pattern[p..]), str[from..])
    decreases |pattern|, 0
  {
    ghost var ts, rest := Parse(pattern[p..]), str[from..];
    ParseNeedsOne(pattern[p..]);
    var s := from;
    while s < |str|
      invariant from <= s <= |str|
      invariant forall k :: 0 <= k < s - from ==> !Matches(ts, rest[k..])
    {
      assert rest[s - from..] == str[s..];
      var m := Fnmatch(pattern[p..], str[s..]);
      if m {
        StarHit(ts, rest, s - from);
        return true;
      }
      s := s + 1;
    }
    StarMiss(ts, rest);
    return false;
  }

  // Parsing a bracket inside the pattern and at the start of its suffix is the same.
  lemma BracketSuffix(p: string, i: nat)
    requires 0 < i <= |p|
    ensures Negates(p, i) == Negates(p[i - 1..], 1)
    ensures var neg := Negates(p, i);
            var a, b := Items(p, if neg then i + 1 else i), Items(p[i - 1..], if neg then 2 else 1);
            && (a.Some? <==> b.Some?)
            && (a.Some? ==> a.value.0 == b.value.0 && a.value.1 == b.value.1 + i - 1 && p[i - 1..][b.value.1..] == p[a.value.1..])
  {
    var neg := Negates(p, i);
    ItemsSuffix(p, i - 1, p[i - 1..], if neg then 2 else 1);
  }

  // q is p without its first d characters.
  predicate Suffix(p: string, d: nat, q: string) {
    |p| == d + |q| && forall i :: 0 <= i < |q| ==> q[i] == p[d + i]
  }

  lemma CharSuffix(p: string, d: nat, q: string, i: nat)
    requires Suffix(p, d, q)
    ensures CharAt(p, d + i) == match CharAt(q, i) case None => None case Some((c, j)) => Some((c, d + j))
  {
  }

  lemma RangeSuffix(p: string, d: nat, q: string, i: nat)
    requires Suffix(p, d, q)
    ensures RangeAt(p, d + i) == match RangeAt(q, i) case None => None case Some((range, k)) => Some((range, d + k))
  {
    CharSuffix(p, d, q, i);
    match CharAt(q, i)
    case None =>
    case Some((_, j)) => CharSuffix(p, d, q, j + 1);
  }

  lemma {:induction false} ItemsSuffix(p: string, d: nat, q: string, i: nat)
    requires Suffix(p, d, q)
    ensures Items(p, d + i) == match Items(q, i) case None => None case Some((items, n)) => Some((items, d + n))
    decreases |q| - i
  {
    RangeSuffix(p, d, q, i);
    if !(i < |q| && q[i] == ']') {
      match RangeAt(q, i)
      case None =>
      case Some((range, k)) =>
        ItemsSuffix(p, d, q, k);
        PrefixSuffix(range, Items(q, k), Items(p, d + k), d);
    }
  }

  lemma PrefixSuffix(r: Range, rest: Option<(seq<Range>, nat)>, rest': Option<(seq<Range>, nat)>, d: nat)
    requires rest' == match rest case None => None case Some((items, n)) => Some((items, d + n))
    ensures Prefix(r, rest') == match Prefix(r, rest) case None => None case Some((items, n)) => Some((items, d + n))
  {
  }

  // ----- brackets that open with ']' -----

  // Section 3.13 of POSIX 1003.2-1992 makes the first character of a bracket a member even if it is a ']'.  These two
  // are the code's parser with that one rule; what else the standard says of brackets (classes, a '[' that opens none)
  // is not in them.
  function MemberItems(p: string, i: nat): (r: Option<(seq<Range>, nat)>)
    ensures r.Some? ==> i < r.value.1 <= |p|
  {
    match RangeAt(p, i)
    case None => None
    case Some((range, k)) => Prefix(range, Items(p, k))
  }

  function MemberParse(p: string): seq<Token>
    decreases |p|
  {
    if p == "" then []
    else if p[0] == '?' then [Any] + MemberParse(p[1..])
    else if p[0] == '*' then [Star] + MemberParse(p[1..])
    else if p[0] == '[' then
      match MemberItems(p, Inside(p))
      case None => [Never]
      case Some((items, n)) => [Set(Negates(p, 1), items)] + MemberParse(p[n..])
    else if p[0] == '\\' && |p| > 1 then [Lit(p[1])] + MemberParse(p[2..])
    else [Lit(p[0])] + MemberParse(p[1..])
  }

  // Where the members of a bracket at the start of p begin.
  function Inside(p: string): nat {
    if Negates(p, 1) then 2 else 1
  }

  // Some bracket of p opens with a ']', right after '[' or after the negation.
  predicate OpensClosed(p: string)
    decreases |p|
  {
    if p == "" then false
    else if p[0] == '[' then
      (Inside(p) < |p| && p[Inside(p)] == ']')
      || (match Items(p, Inside(p)) case None => false case Some((_, n)) => OpensClosed(p[n..]))
    else if p[0] == '\\' && |p| > 1 then OpensClosed(p[2..])
    else OpensClosed(p[1..])
  }

  lemma Cons<T>(a: T, tail: seq<T>, b: T, tail': seq<T>)
    ensures [a] + tail == [b] + tail' <==> a == b && tail == tail'
  {
    if [a] + tail == [b] + tail' {
      assert ([a] + tail)[0] == a && ([b] + tail')[0] == b && ([a] + tail)[1..] == tail && ([b] + tail')[1..] == tail';
    }
  }

  lemma ClosedAtOnce(p: string)
    requires p != "" && p[0] == '[' && Inside(p) < |p| && p[Inside(p)] == ']'
    ensures Parse(p) != MemberParse(p)
  {
    var i := Inside(p);
    assert Items(p, i) == Some(([], i + 1));
    assert Parse(p)[0] == Set(Negates(p, 1), []);
  }

  // The rule makes no difference to how a pattern is read exactly when none of its brackets opens with a ']'.
  lemma {:induction false} SameReadingExactly(p: string)
    ensures Parse(p) == MemberParse(p) <==> !OpensClosed(p)
    decreases |p|
  {
    if p == "" {
    } else if p[0] == '[' {
      var i := Inside(p);
      if i < |p| && p[i] == ']' {
        ClosedAtOnce(p);
      } else {
        assert MemberItems(p, i) == Items(p, i);
        match Items(p, i)
        case None =>
        case Some((items, n)) =>
          SameReadingExactly(p[n..]);
          Cons(Set(Negates(p, 1), items), Parse(p[n..]), Set(Negates(p, 1), items), MemberParse(p[n..]));
      }
    } else {
      var n := if p[0] == '\\' && |p| > 1 then 2 else 1;
      SameReadingExactly(p[n..]);
      var t := if p[0] == '?' then Any else if p[0] == '*' then Star else Lit(p[n - 1]);
      Cons(t, Parse(p[n..]), t, MemberParse(p[n..]));
    }
  }

  // And then it makes none to the strings matched.
  lemma SameLanguage(p: string, s: string)
    requires !OpensClosed(p)
    ensures Matches(Parse(p), s) <==> InLanguage(MemberParse(p), s)
  {
    SameReadingExactly(p);
    MatchesInLanguage(Parse(p), s);
  }

  // A bracket without a negation opens with a ']'.
  predicate OpensEmpty(p: string)
    decreases |p|
  {
    if p == "" then false
    else if p[0] == '[' then
      (!Negates(p, 1) && Inside(p) < |p| && p[Inside(p)] == ']')
      || (match Items(p, Inside(p)) case None => false case Some((_, n)) => OpensEmpty(p[n..]))
    else if p[0] == '\\' && |p| > 1 then OpensEmpty(p[2..])
    else OpensEmpty(p[1..])
  }

  lemma {:induction false} EmptyMatchesNothing(p: string, s: string)
    requires OpensEmpty(p)
    ensures !Matches(Parse(p), s)
    decreases |p|, |s|
  {
    var n := if p[0] != '[' then (if p[0] == '\\' && |p| > 1 then 2 else 1)
             else match Items(p, Inside(p)) case None => |p| case Some((_, n)) => n;
    if p[0] == '[' && !Negates(p, 1) && Inside(p) < |p| && p[Inside(p)] == ']' {
      assert Items(p, Inside(p)) == Some(([], Inside(p) + 1));
      assert Parse(p)[0] == Set(false, []);
    } else {
      assert Parse(p)[1..] == Parse(p[n..]);
      forall k | 0 <= k <= |s| ensures !Matches(Parse(p[n..]), s[k..]) { EmptyMatchesNothing(p[n..], s[k..]); }
    }
  }

  // ----- what difference the rule makes to the strings matched -----

  ghost predicate LiveToken(t: Token) {
    exists c: char :: Accepts(t, c)
  }

  // Every token stands for something.
  ghost predicate Live(ts: seq<Token>) {
    forall i :: 0 <= i < |ts| ==> LiveToken(ts[i])
  }

  // The tokens that stand for one character each.
  function Fixed(ts: seq<Token>): nat {
    if ts == [] then 0 else (if ts[0].Star? then 0 else 1) + Fixed(ts[1..])
  }

  lemma {:induction false} MatchesLive(ts: seq<Token>, s: string)
    requires Matches(ts, s)
    ensures Live(ts) && Fixed(ts) <= |s|
    decreases |ts|
  {
    if ts != [] {
      if ts[0].Star? {
        var k :| 0 <= k <= |s| && Matches(ts[1..], s[k..]);
        MatchesLive(ts[1..], s[k..]);
        assert Accepts(ts[0], 'a');
      } else {
        MatchesLive(ts[1..], s[1..]);
      }
      LiveCons(ts);
    }
  }

  lemma LiveCons(ts: seq<Token>)
    requires ts != [] && Live(ts[1..]) && LiveToken(ts[0])
    ensures Live(ts)
  {
    forall i | 0 <= i < |ts| ensures LiveToken(ts[i]) {
      if i > 0 { assert ts[1..][i - 1] == ts[i]; }
    }
  }

  lemma LiveRest(ts: seq<Token>)
    requires ts != [] && Live(ts)
    ensures Live(ts[1..]) && LiveToken(ts[0])
  {
    forall i | 0 <= i < |ts[1..]| ensures LiveToken(ts[1..][i]) {
      assert ts[1..][i] == ts[i + 1];
    }
  }

  // The shortest string that is matched: nothing for the stars.
  lemma {:induction false} Shortest(ts: seq<Token>) returns (s: string)
    requires Live(ts)
    ensures Matches(ts, s) && |s| == Fixed(ts)
    decreases |ts|
  {
    if ts == [] {
      s := "";
    } else {
      LiveRest(ts);
      var rest := Shortest(ts[1..]);
      if ts[0].Star? {
        s := rest;
        assert s[0..] == rest;
      } else {
        var c: char :| Accepts(ts[0], c);
        s := [c] + rest;
        assert s[1..] == rest;
      }
    }
  }

  // The position after the first ']' from k on that is not escaped.
  function Close(p: string, k: nat): Option<nat>
    decreases |p| - k
  {
    if k < |p| && p[k] == ']' then Some(k + 1)
    else match CharAt(p, k)
      case None => None
      case Some((_, j)) => Close(p, j)
  }

  // A range does not reach over a ']'.
  lemma RangeBeforeClose(p: string, k: nat)
    requires !(k < |p| && p[k] == ']')
    ensures match RangeAt(p, k) case None => Close(p, k) == None case Some((_, j)) => Close(p, j) == Close(p, k)
  {
    match CharAt(p, k)
    case None =>
    case Some((_, j)) =>
      if j < |p| && p[j] == '-' && j + 1 < |p| && p[j + 1] != ']' {
        assert CharAt(p, j) == Some(('-', j + 1));
        assert Close(p, j) == Close(p, j + 1);
      }
  }

  // A bracket ends at the first ']' that is not escaped.
  lemma {:induction false} ItemsClose(p: string, k: nat)
    ensures match Items(p, k) case None => Close(p, k) == None case Some((_, m)) => Close(p, k) == Some(m)
    decreases |p| - k
  {
    if !(k < |p| && p[k] == ']') {
      RangeBeforeClose(p, k);
      match RangeAt(p, k)
      case None =>
      case Some((_, j)) => ItemsClose(p, j);
    }
  }

  // Read as a pattern, what comes before the ']' and the ']' take at least one character more than what follows.
  lemma {:induction false} MoreBefore(p: string, k: nat, m: nat)
    requires Close(p, k) == Some(m) && k <= |p| && Live(Parse(p[k..]))
    ensures m <= |p| && Live(Parse(p[m..])) && Fixed(Parse(p[k..])) >= 1 + Fixed(Parse(p[m..]))
    decreases |p| - k
  {
    var q := p[k..];
    var ts := Parse(q);
    assert q != "" && q[0] == p[k];
    LiveRest(ts);
    if p[k] == ']' {
      assert q[1..] == p[m..];
      ParsePlain(q, 1);
    } else if p[k] == '[' {
      BracketBefore(p, k, m);
    } else {
      var n := if p[k] == '\\' then 2 else 1;
      assert q[n..] == p[k + n..];
      ParsePlain(q, n);
      MoreBefore(p, k + n, m);
    }
  }

  // One token that is no bracket.
  lemma ParsePlain(q: string, n: nat)
    requires q != "" && q[0] != '[' && n == (if q[0] == '\\' && |q| > 1 then 2 else 1)
    ensures Parse(q) != [] && Parse(q)[1..] == Parse(q[n..])
    ensures Fixed(Parse(q)) == (if q[0] == '*' then 0 else 1) + Fixed(Parse(q[n..]))
  {
  }

  lemma CloseInside(p: string, k: nat)
    requires k < |p| && p[k] == '['
    ensures Close(p, k + Inside(p[k..])) == Close(p, k)
  {
    assert CharAt(p, k) == Some(('[', k + 1));
    assert Close(p, k) == Close(p, k + 1);
    if Negates(p[k..], 1) { assert CharAt(p, k + 1) == Some((p[k + 1], k + 2)); }
  }

  lemma BracketBefore(p: string, k: nat, m: nat)
    requires k < |p| && p[k] == '[' && Close(p, k) == Some(m) && Live(Parse(p[k..]))
    ensures m <= |p| && Live(Parse(p[m..])) && Fixed(Parse(p[k..])) >= 1 + Fixed(Parse(p[m..]))
  {
    var q := p[k..];
    var i := Inside(q);
    LiveRest(Parse(q));
    CloseInside(p, k);
    ItemsClose(p, k + i);
    ItemsSuffix(p, k, q, i);
    match Items(q, i)
    case None =>
    case Some((_, n)) => OneBracket(q, n, p, m, k);
  }

  lemma OneBracket(q: string, n: nat, p: string, m: nat, k: nat)
    requires q != "" && q[0] == '[' && n <= |q| && (exists items :: Items(q, Inside(q)) == Some((items, n)))
    requires k <= |p| && q == p[k..] && m == k + n
    ensures m <= |p| && Parse(q) != [] && Parse(q)[1..] == Parse(p[m..]) && Fixed(Parse(q)) == 1 + Fixed(Parse(p[m..]))
  {
    assert q[n..] == p[m..];
    var rest := Parse(p[m..]);
    var items :| Items(q, Inside(q)) == Some((items, n));
    assert Parse(q) == [Set(Negates(q, 1), items)] + rest;
    assert Parse(q)[1..] == rest;
  }

  // A bracket that opens with ']' takes less under the rule.
  lemma ClosedTakesMore(p: string)
    requires p != "" && p[0] == '[' && Inside(p) < |p| && p[Inside(p)] == ']' && Live(Parse(p)) && Live(MemberParse(p))
    ensures MemberItems(p, Inside(p)).Some?
    ensures var m := MemberItems(p, Inside(p)).value.1;
            && Live(Parse(p[m..])) && Live(MemberParse(p[m..])) && Fixed(Parse(p)) >= 2 + Fixed(Parse(p[m..]))
            && Fixed(MemberParse(p)) == 1 + Fixed(MemberParse(p[m..]))
  {
    var i := Inside(p);
    LiveRest(Parse(p));
    LiveRest(MemberParse(p));
    assert Items(p, i) == Some(([], i + 1));
    assert Parse(p)[1..] == Parse(p[i + 1..]);
    MemberClose(p, i);
    var m := MemberItems(p, i).value.1;
    assert MemberParse(p)[1..] == MemberParse(p[m..]);
    MoreBefore(p, i + 1, m);
  }

  lemma MemberClose(p: string, i: nat)
    requires i < |p| && p[i] == ']'
    ensures match MemberItems(p, i) case None => Close(p, i + 1) == None case Some((_, m)) => Close(p, i + 1) == Some(m)
  {
    var j := i + 1;
    if j < |p| && p[j] == '-' && j + 1 < |p| && p[j + 1] != ']' {
      assert CharAt(p, j) == Some(('-', j + 1));
      assert Close(p, j) == Close(p, j + 1);
    }
    match RangeAt(p, i)
    case None =>
    case Some((_, k)) => ItemsClose(p, k);
  }

  // The rule never makes a pattern take more characters, and one of whose brackets opens with a ']' fewer.
  lemma {:induction false} TakesLess(p: string)
    requires Live(Parse(p)) && Live(MemberParse(p))
    ensures Fixed(MemberParse(p)) <= Fixed(Parse(p)) && (OpensClosed(p) ==> Fixed(MemberParse(p)) < Fixed(Parse(p)))
    decreases |p|
  {
    if p == "" {
    } else if p[0] == '[' && Inside(p) < |p| && p[Inside(p)] == ']' {
      ClosedTakesMore(p);
      TakesLess(p[MemberItems(p, Inside(p)).value.1..]);
    } else {
      LiveRest(Parse(p));
      LiveRest(MemberParse(p));
      var n := if p[0] != '[' then (if p[0] == '\\' && |p| > 1 then 2 else 1)
               else match Items(p, Inside(p)) case None => |p| case Some((_, n)) => n;
      assert p[0] == '[' ==> MemberItems(p, Inside(p)) == Items(p, Inside(p)) && Items(p, Inside(p)).Some?;
      assert Parse(p)[1..] == Parse(p[n..]) && MemberParse(p)[1..] == MemberParse(p[n..]);
      TakesLess(p[n..]);
    }
  }

  // The rule makes a difference to some string exactly when a bracket opens with a ']' and any string is matched at
  // all, with the rule or without.
  lemma DiffersExactly(p: string)
    ensures (exists s: string :: Matches(Parse(p), s) != InLanguage(MemberParse(p), s))
            <==> OpensClosed(p) && exists s: string :: Matches(Parse(p), s) || InLanguage(MemberParse(p), s)
  {
    if !OpensClosed(p) {
      forall s: string ensures Matches(Parse(p), s) == InLanguage(MemberParse(p), s) { SameLanguage(p, s); }
    } else if s1: string, s2: string :| Matches(Parse(p), s1) && InLanguage(MemberParse(p), s2) {
      MatchesInLanguage(MemberParse(p), s2);
      MatchesLive(Parse(p), s1);
      MatchesLive(MemberParse(p), s2);
      TakesLess(p);
      var s := Shortest(MemberParse(p));
      MatchesInLanguage(MemberParse(p), s);
      if Matches(Parse(p), s) { MatchesLive(Parse(p), s); }
      assert Matches(Parse(p), s) != InLanguage(MemberParse(p), s);
    }
  }

  // A bracket that opens with ']' is closed by it: such a pattern matches nothing, and its negation is a '?'.
  lemma EmptyBracket(rest: string, s: string)
    ensures !Matches(Parse("[]" + rest), s)
    ensures Matches(Parse("[!]" + rest), s) <==> s != "" && Matches(Parse(rest), s[1..])
  {
    var p, q := "[]" + rest, "[!]" + rest;
    assert Items(p, 1) == Some(([], 2)) && Items(q, 2) == Some(([], 3));
    assert p[2..] == rest && q[3..] == rest;
    assert Parse(p) == [Set(false, [])] + Parse(rest) && Parse(q) == [Set(true, [])] + Parse(rest);
    assert Parse(p)[1..] == Parse(rest) && Parse(q)[1..] == Parse(rest);
  }
}
