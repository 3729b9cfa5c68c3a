// eaccelerator.filter: a list of patterns in one string, and what it says about a path.
module Filter {
  import opened Glob

  // ----- ea_parse_filter -----

  function Word(s: string, i: nat): (n: nat)
    requires i <= |s|
    ensures i <= n <= |s|
    ensures forall k :: i <= k < n ==> s[k] != ' '
    ensures n < |s| ==> s[n] == ' '
    decreases |s| - i
  {
    if i < |s| && s[i] != ' ' then Word(s, i + 1) else i
  }

  // The maximal runs of characters other than spaces, in order.
  function Words(s: string): seq<string>
    decreases |s|
  {
    if s == "" then []
    else if s[0] == ' ' then Words(s[1..])
    else [s[..Word(s, 0)]] + Words(s[Word(s, 0)..])
  }

  predicate Plain(w: string) {
    w != "" && forall k :: 0 <= k < |w| ==> w[k] != ' '
  }

  function Join(ws: seq<string>): string {
    if ws == [] then "" else if |ws| == 1 then ws[0] else ws[0] + " " + Join(ws[1..])
  }

  lemma {:induction false} WordEnds(s: string, i: nat, n: nat)
    requires i <= n <= |s| && (forall k :: i <= k < n ==> s[k] != ' ') && (n < |s| ==> s[n] == ' ')
    ensures Word(s, i) == n
    decreases n - i
  {
    if i < n { WordEnds(s, i + 1, n); }
  }

  // Words written with a space between them are read back.
  lemma {:induction false} WordsOfJoin(ws: seq<string>)
    requires forall w :: w in ws ==> Plain(w)
    ensures Words(Join(ws)) == ws
    decreases |ws|
  {
    if ws != [] {
      var w, s := ws[0], Join(ws);
      assert w in ws;
      WordEnds(s, 0, |w|);
      assert s[..|w|] == w;
      if |ws| == 1 {
        assert s[|w|..] == "";
      } else {
        assert forall v :: v in ws[1..] ==> v in ws;
        WordsOfJoin(ws[1..]);
        assert s[|w|..] == " " + Join(ws[1..]) && (" " + Join(ws[1..]))[1..] == Join(ws[1..]);
      }
    }
  }

  function Reversed(ws: seq<string>): (r: seq<string>)
    ensures |r| == |ws|
    ensures forall w :: w in r <==> w in ws
  {
    if ws == [] then [] else Reversed(ws[1..]) + [ws[0]]
  }

  // One token: strtok stops at the next space.
  method Token(s: string, i: nat) returns (j: nat)
    requires i < |s| && s[i] != ' '
    ensures i < j <= |s| && Plain(s[i..j]) && Words(s[i..]) == [s[i..j]] + Words(s[j..])
  {
    j := i;
    while j < |s| && s[j] != ' '
      invariant i <= j <= |s| && forall k :: i <= k < j ==> s[k] != ' '
    {
      j := j + 1;
    }
    WordEnds(s[i..], 0, j - i);
    assert s[i..][..j - i] == s[i..j] && s[i..][j - i..] == s[j..];
  }

  // Each token goes to the front of the list.
  method ParseFilter(filter: string) returns (list: seq<string>)
    ensures list == Reversed(Words(filter))
    ensures forall w :: w in list ==> Plain(w)
  {
    list := [];
    var i := 0;
    assert filter[0..] == filter;
    while i < |filter|
      invariant i <= |filter| && Reversed(Words(filter)) == Reversed(Words(filter[i..])) + list
      invariant forall w :: w in list ==> Plain(w)
      decreases |filter| - i
    {
      if filter[i] == ' ' {
        assert filter[i..][1..] == filter[i + 1..];
        i := i + 1;
      } else {
        var j := Token(filter, i);
        AddFront(filter[i..j], Words(filter[j..]), list);
        list := [filter[i..j]] + list;
        i := j;
      }
    }
    assert filter[i..] == "";
  }

  lemma AddFront(w: string, ws: seq<string>, list: seq<string>)
    ensures Reversed([w] + ws) + list == Reversed(ws) + ([w] + list)
  {
    assert ([w] + ws)[1..] == ws;
  }

  // ----- ea_match -----

  predicate Negative(w: string) {
    w != "" && w[0] == '!'
  }

  ghost predicate Hits(w: string, path: string) {
    Matches(Parse(if Negative(w) then w[1..] else w), path)
  }

  // A path is accepted when no pattern with a ! matches it, and a pattern without one matches or there is none.
  ghost predicate Accepted(list: seq<string>, path: string) {
    && (forall w :: w in list && Negative(w) ==> !Hits(w, path))
    && ((exists w :: w in list && !Negative(w) && Hits(w, path)) || (forall w :: w in list ==> Negative(w)))
  }

  method Match(list: seq<string>, path: string) returns (r: bool)
    ensures r <==> Accepted(list, path)
  {
    if list == [] { return true; }
    var result, positive, i := false, false, 0;
    while i < |list|
      invariant i <= |list|
      invariant forall j :: 0 <= j < i && Negative(list[j]) ==> !Hits(list[j], path)
      invariant result <==> exists j :: 0 <= j < i && !Negative(list[j]) && Hits(list[j], path)
      invariant positive <==> exists j :: 0 <= j < i && !Negative(list[j])
    {
      var w := list[i];
      if w != "" && w[0] == '!' {
        var m := Fnmatch(w[1..], path);
        if m {
          assert w in list && Negative(w) && Hits(w, path);
          return false;
        }
      } else {
        var m := Fnmatch(w, path);
        result := result || m;
        positive := true;
      }
      i := i + 1;
    }
    r := result || !positive;
  }

  // The order of the list does not matter, so neither does it that the filter is read back to front.
  lemma OrderFree(a: seq<string>, b: seq<string>, path: string)
    requires forall w :: w in a <==> w in b
    ensures Accepted(a, path) <==> Accepted(b, path)
  {
  }

  method Check(filter: string, path: string) returns (r: bool)
    ensures r <==> Accepted(Words(filter), path)
  {
    var list := ParseFilter(filter);
    r := Match(list, path);
    OrderFree(list, Words(filter), path);
  }
}
