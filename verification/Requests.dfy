// What the passes over a script ask a block of memory for, and the bytes that takes.
module Requests {
  const ALIGN := 8
  const MAX_DUP_STR_LEN := 256
  const SIZEOF_ZVAL := 24
  const SIZEOF_HASH := 72
  const SIZEOF_PTR := 8
  const SIZEOF_OP := 96
  const SIZEOF_OP_ARRAY := 200
  const OFFSET_ARKEY := 64 // offsetof(Bucket, arKey)
  const OFFSET_HTABKEY := 24
  const OFFSET_REALFILENAME := 96

  // EACCELERATOR_ALIGN
  function Align(n: nat): (r: nat)
    ensures n <= r < n + ALIGN && r % ALIGN == 0
  {
    (n + ALIGN - 1) / ALIGN * ALIGN
  }

  // Space for n bytes, space for a string unless it is there already, or word that a string is there.
  datatype Req = Alloc(n: nat) | Share(s: string) | Known(s: string)

  predicate Long(s: string) {
    |s| + 1 > MAX_DUP_STR_LEN
  }

  function Size(s: string): nat {
    Align(|s| + 1)
  }

  // The table of short strings after these requests, ...
  function Strings(reqs: seq<Req>): set<string> {
    if reqs == [] then {} else
      Strings(reqs[..|reqs| - 1]) + match reqs[|reqs| - 1] { case Alloc(_) => {} case Share(s) => if Long(s) then {} else {s} case Known(s) => {s} }
  }

  // ... and the bytes they took.
  function Cost(reqs: seq<Req>): nat {
    if reqs == [] then 0 else
      var before := reqs[..|reqs| - 1];
      Cost(before) + match reqs[|reqs| - 1]
                     case Alloc(n) => Align(n)
                     case Share(s) => if Long(s) || s !in Strings(before) then Size(s) else 0
                     case Known(_) => 0
  }

  // ----- a list that grows -----

  // Between the two lists these requests were made.
  predicate Asked(reqs: seq<Req>, reqs': seq<Req>, more: seq<Req>) {
    reqs' == reqs + more
  }

  lemma AskedOn(a: seq<Req>, b: seq<Req>, c: seq<Req>, x: seq<Req>, y: seq<Req>)
    requires Asked(a, b, x) && Asked(b, c, y)
    ensures Asked(a, c, x + y)
  {
    assert (a + x) + y == a + (x + y);
  }

  lemma AskedNothing(reqs: seq<Req>)
    ensures Asked(reqs, reqs, [])
  {
  }

  lemma AskedOne(reqs: seq<Req>, r: Req)
    ensures (reqs + [r])[..|reqs + [r]| - 1] == reqs && (reqs + [r])[|reqs + [r]| - 1] == r
  {
  }

  // Aligning after every step is the same as aligning every part.
  lemma Aligned(size: nat, n: nat)
    requires size % ALIGN == 0
    ensures Align(size + n) == size + Align(n)
  {
  }
}
