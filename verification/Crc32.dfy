// Registers that are stepped and fed bits, whatever they are made of.
module Feeding {
  function Iterate<T>(f: T -> T, c: T, n: nat): T
    decreases n
  {
    if n == 0 then c else Iterate(f, f(c), n - 1)
  }

  function Fold<T>(feed: (T, bool) -> T, c: T, bits: seq<bool>): T
    decreases |bits|
  {
    if bits == [] then c else Fold(feed, feed(c, bits[0]), bits[1..])
  }

  // The lowest n bits of a word.
  function Low<T>(bit: T -> bool, half: T -> T, w: T, n: nat): (s: seq<bool>)
    ensures |s| == n
    decreases n
  {
    if n == 0 then [] else [bit(w)] + Low(bit, half, half(w), n - 1)
  }

  // The bits of a sequence of letters.
  function Spell<A>(bits: A -> seq<bool>, p: seq<A>): seq<bool>
    decreases |p|
  {
    if p == [] then [] else bits(p[0]) + Spell(bits, p[1..])
  }

  lemma {:induction false} SpellAppend<A>(bits: A -> seq<bool>, p: seq<A>, q: seq<A>)
    ensures Spell(bits, p + q) == Spell(bits, p) + Spell(bits, q)
    decreases |p|
  {
    if p == [] {
      assert p + q == q;
    } else {
      SpellAppend(bits, p[1..], q);
      assert (p + q)[1..] == p[1..] + q;
    }
  }

  lemma {:induction false} SpellLength<A(!new)>(bits: A -> seq<bool>, n: nat, p: seq<A>)
    requires forall a: A :: |bits(a)| == n
    ensures |Spell(bits, p)| == n * |p|
    decreases |p|
  {
    if p != [] { SpellLength(bits, n, p[1..]); }
  }

  // Letters of equal length that differ in their bits are told apart.
  lemma {:induction false} SpellInjective<A(!new)>(bits: A -> seq<bool>, n: nat, p: seq<A>, q: seq<A>)
    requires (forall a: A :: |bits(a)| == n) && forall a: A, b: A :: bits(a) == bits(b) ==> a == b
    requires |p| == |q| && Spell(bits, p) == Spell(bits, q)
    ensures p == q
    decreases |p|
  {
    if p != [] {
      assert Spell(bits, p)[..n] == bits(p[0]) && Spell(bits, q)[..n] == bits(q[0]);
      assert Spell(bits, p)[n..] == Spell(bits, p[1..]) && Spell(bits, q)[n..] == Spell(bits, q[1..]);
      SpellInjective(bits, n, p[1..], q[1..]);
    }
  }

  // ----- laws -----

  ghost predicate Group<T(!new)>(xor: (T, T) -> T, zero: T) {
    && (forall a: T, b: T, c: T :: xor(xor(a, b), c) == xor(a, xor(b, c)))
    && (forall a: T, b: T :: xor(a, b) == xor(b, a))
    && (forall a: T :: xor(a, zero) == a) && (forall a: T :: xor(a, a) == zero)
  }

  ghost predicate Linear<T(!new)>(f: T -> T, xor: (T, T) -> T) {
    forall c: T, d: T :: f(xor(c, d)) == xor(f(c), f(d))
  }

  ghost predicate Injective<T(!new)>(f: T -> T) {
    forall c: T, d: T :: f(c) == f(d) ==> c == d
  }

  // A bit is fed by flipping the lowest bit of the register and stepping it.
  ghost predicate Feeds<T(!new)>(f: T -> T, feed: (T, bool) -> T, xor: (T, T) -> T, one: T) {
    forall c: T, b: bool :: feed(c, b) == f(if b then xor(c, one) else c)
  }

  // A word is its lowest bit and twice its half, and twice a word steps to it.
  ghost predicate Halves<T(!new)>(f: T -> T, xor: (T, T) -> T, one: T, bit: T -> bool, half: T -> T, even: T -> T) {
    forall w: T :: f(even(w)) == half(w) && w == if bit(w) then xor(one, even(w)) else even(w)
  }

  // ----- consequences -----

  lemma {:induction false} Eight<T>(f: T -> T, c: T)
    ensures Iterate(f, c, 8) == f(f(f(f(f(f(f(f(c))))))))
  {
    var d := f(f(f(f(c))));
    assert Iterate(f, c, 8) == Iterate(f, f(f(c)), 6) == Iterate(f, d, 4);
    assert Iterate(f, d, 4) == Iterate(f, f(f(d)), 2);
  }

  lemma {:induction false} IterateAdd<T>(f: T -> T, c: T, n: nat, m: nat)
    ensures Iterate(f, c, n + m) == Iterate(f, Iterate(f, c, n), m)
    decreases n
  {
    if n > 0 { IterateAdd(f, f(c), n - 1, m); }
  }

  lemma {:induction false} FoldAppend<T>(feed: (T, bool) -> T, c: T, a: seq<bool>, b: seq<bool>)
    ensures Fold(feed, c, a + b) == Fold(feed, Fold(feed, c, a), b)
    decreases |a|
  {
    if a == [] {
      assert a + b == b;
    } else {
      assert (a + b)[1..] == a[1..] + b;
      FoldAppend(feed, feed(c, a[0]), a[1..], b);
    }
  }

  lemma {:induction false} IterateLinear<T(!new)>(f: T -> T, xor: (T, T) -> T, c: T, d: T, n: nat)
    requires Linear(f, xor)
    ensures Iterate(f, xor(c, d), n) == xor(Iterate(f, c, n), Iterate(f, d, n))
    decreases n
  {
    if n > 0 {
      assert f(xor(c, d)) == xor(f(c), f(d));
      IterateLinear(f, xor, f(c), f(d), n - 1);
    }
  }

  lemma {:induction false} IterateInjective<T(!new)>(f: T -> T, c: T, d: T, n: nat)
    requires Injective(f) && Iterate(f, c, n) == Iterate(f, d, n)
    ensures c == d
    decreases n
  {
    if n > 0 { IterateInjective(f, f(c), f(d), n - 1); }
  }

  lemma {:induction false} IterateMonotone<T(!new)>(f: T -> T, above: (T, T) -> bool, c: T, d: T, n: nat)
    requires (forall x: T, y: T :: above(x, y) ==> above(f(x), f(y))) && above(c, d)
    ensures above(Iterate(f, c, n), Iterate(f, d, n))
    decreases n
  {
    if n > 0 { IterateMonotone(f, above, f(c), f(d), n - 1); }
  }

  lemma FeedOne<T(!new)>(f: T -> T, feed: (T, bool) -> T, xor: (T, T) -> T, zero: T, one: T, bit: T -> bool,
                         half: T -> T, even: T -> T, c: T, w: T)
    requires Group(xor, zero) && Linear(f, xor) && Feeds(f, feed, xor, one) && Halves(f, xor, one, bit, half, even)
    ensures f(xor(c, w)) == xor(feed(c, bit(w)), half(w))
  {
    var e := even(w);
    assert f(e) == half(w);
    if bit(w) {
      assert xor(c, xor(one, e)) == xor(xor(c, one), e);
      assert f(xor(xor(c, one), e)) == xor(f(xor(c, one)), f(e));
    } else {
      assert f(xor(c, e)) == xor(f(c), f(e));
    }
  }

  // A word xored into the register is fed bit by bit as the register steps; the rest is still to come.
  lemma {:induction false} FeedWord<T(!new)>(f: T -> T, feed: (T, bool) -> T, xor: (T, T) -> T, zero: T, one: T,
                                             bit: T -> bool, half: T -> T, even: T -> T,
                                             c: T, w: T, n: nat)
    requires Group(xor, zero) && Linear(f, xor) && Feeds(f, feed, xor, one) && Halves(f, xor, one, bit, half, even)
    ensures Iterate(f, xor(c, w), n) == xor(Fold(feed, c, Low(bit, half, w, n)), Iterate(half, w, n))
    decreases n
  {
    if n > 0 {
      FeedOne(f, feed, xor, zero, one, bit, half, even, c, w);
      FeedWord(f, feed, xor, zero, one, bit, half, even, feed(c, bit(w)), half(w), n - 1);
      assert Low(bit, half, w, n)[1..] == Low(bit, half, half(w), n - 1);
    }
  }

  // The difference of two registers is fed the difference of two bits.
  lemma FeedDifference<T(!new)>(f: T -> T, feed: (T, bool) -> T, xor: (T, T) -> T, zero: T, one: T, c: T, d: T,
                                a: bool, b: bool)
    requires Group(xor, zero) && Linear(f, xor) && Feeds(f, feed, xor, one)
    ensures xor(feed(c, a), feed(d, b)) == feed(xor(c, d), a != b)
  {
    var x, y := if a then xor(c, one) else c, if b then xor(d, one) else d;
    assert f(xor(x, y)) == xor(f(x), f(y));
    FlipBoth(xor, zero, one, c, d);
  }

  lemma FlipBoth<T(!new)>(xor: (T, T) -> T, zero: T, one: T, c: T, d: T)
    requires Group(xor, zero)
    ensures xor(xor(c, one), xor(d, one)) == xor(c, d)
    ensures xor(xor(c, one), d) == xor(xor(c, d), one) && xor(c, xor(d, one)) == xor(xor(c, d), one)
  {
    assert xor(xor(c, one), d) == xor(c, xor(one, d)) == xor(c, xor(d, one)) == xor(xor(c, d), one);
    assert xor(xor(c, one), xor(d, one)) == xor(c, xor(one, xor(d, one)));
    assert xor(one, xor(d, one)) == xor(xor(d, one), one) == xor(d, xor(one, one)) == d;
  }

  lemma FeedInjective<T(!new)>(f: T -> T, feed: (T, bool) -> T, xor: (T, T) -> T, zero: T, one: T, c: T, d: T, b: bool)
    requires Group(xor, zero) && Injective(f) && Feeds(f, feed, xor, one) && feed(c, b) == feed(d, b)
    ensures c == d
  {
    if b {
      assert xor(c, one) == xor(d, one);
      assert xor(xor(c, one), one) == xor(c, xor(one, one)) == c;
      assert xor(xor(d, one), one) == xor(d, xor(one, one)) == d;
    }
  }

  // A difference in the register never goes away while the messages agree.
  lemma {:induction false} TailKeepsDifference<T(!new)>(f: T -> T, feed: (T, bool) -> T, xor: (T, T) -> T, zero: T,
                                                        one: T, c: T, d: T, tail: seq<bool>)
    requires Group(xor, zero) && Injective(f) && Feeds(f, feed, xor, one) && c != d
    ensures Fold(feed, c, tail) != Fold(feed, d, tail)
    decreases |tail|
  {
    if tail != [] {
      if feed(c, tail[0]) == feed(d, tail[0]) {
        FeedInjective(f, feed, xor, zero, one, c, d, tail[0]);
      } else {
        TailKeepsDifference(f, feed, xor, zero, one, feed(c, tail[0]), feed(d, tail[0]), tail[1..]);
      }
    }
  }

  // While low bits are zero, stepping is halving.
  predicate EvenFor<T>(bit: T -> bool, half: T -> T, w: T, n: nat)
    decreases n
  {
    n == 0 || (!bit(w) && EvenFor(bit, half, half(w), n - 1))
  }

  lemma {:induction false} EvenSteps<T(!new)>(f: T -> T, xor: (T, T) -> T, one: T, bit: T -> bool, half: T -> T,
                                              even: T -> T, w: T, n: nat)
    requires Halves(f, xor, one, bit, half, even) && EvenFor(bit, half, w, n)
    ensures Iterate(f, w, n) == Iterate(half, w, n)
    decreases n
  {
    if n > 0 {
      assert f(even(w)) == half(w);
      EvenSteps(f, xor, one, bit, half, even, half(w), n - 1);
    }
  }

  // ----- differences that last -----

  // floor(c, k): a register that k more bits cannot bring to zero.
  ghost predicate Lasting<T(!new)>(feed: (T, bool) -> T, floor: (T, nat) -> bool, zero: T) {
    && (forall c: T, b: bool, k: nat {:trigger floor(feed(c, b), k)} :: floor(c, k + 1) ==> floor(feed(c, b), k))
    && !floor(zero, 0)
  }

  // The difference of two registers is a register of its own.
  ghost predicate Differences<T(!new)>(feed: (T, bool) -> T, xor: (T, T) -> T, zero: T) {
    && (forall c: T, d: T, a: bool, b: bool :: xor(feed(c, a), feed(d, b)) == feed(xor(c, d), a != b))
    && (forall c: T :: xor(c, c) == zero)
  }

  lemma DifferenceLaw<T(!new)>(f: T -> T, feed: (T, bool) -> T, xor: (T, T) -> T, zero: T, one: T)
    requires Group(xor, zero) && Linear(f, xor) && Feeds(f, feed, xor, one)
    ensures Differences(feed, xor, zero)
  {
    forall c: T, d: T, a: bool, b: bool ensures xor(feed(c, a), feed(d, b)) == feed(xor(c, d), a != b) {
      FeedDifference(f, feed, xor, zero, one, c, d, a, b);
    }
  }

  lemma {:induction false} FarStaysApart<T(!new)>(feed: (T, bool) -> T, xor: (T, T) -> T, zero: T,
                                                  floor: (T, nat) -> bool, c: T, d: T, a: seq<bool>, b: seq<bool>)
    requires Differences(feed, xor, zero) && Lasting(feed, floor, zero)
    requires |a| == |b| && floor(xor(c, d), |a|)
    ensures Fold(feed, c, a) != Fold(feed, d, b)
    decreases |a|
  {
    if a == [] {
      assert c == d ==> xor(c, d) == zero;
    } else {
      assert xor(feed(c, a[0]), feed(d, b[0])) == feed(xor(c, d), a[0] != b[0]);
      assert floor(feed(xor(c, d), a[0] != b[0]), |a| - 1);
      FarStaysApart(feed, xor, zero, floor, feed(c, a[0]), feed(d, b[0]), a[1..], b[1..]);
    }
  }

  // From the same register, different stretches of at most `width` bits lead to different registers.
  lemma {:induction false} BurstShows<T(!new)>(feed: (T, bool) -> T, xor: (T, T) -> T, zero: T,
                                               floor: (T, nat) -> bool, width: nat,
                                               c: T, a: seq<bool>, b: seq<bool>)
    requires Differences(feed, xor, zero) && Lasting(feed, floor, zero)
    requires forall k: nat :: k < width ==> floor(feed(zero, true), k)
    requires |a| == |b| <= width && a != b
    ensures Fold(feed, c, a) != Fold(feed, c, b)
    decreases |a|
  {
    if a[0] == b[0] {
      assert a == [a[0]] + a[1..] && b == [b[0]] + b[1..];
      BurstShows(feed, xor, zero, floor, width, feed(c, a[0]), a[1..], b[1..]);
    } else {
      assert xor(feed(c, a[0]), feed(c, b[0])) == feed(xor(c, c), a[0] != b[0]) == feed(zero, true);
      FarStaysApart(feed, xor, zero, floor, feed(c, a[0]), feed(c, b[0]), a[1..], b[1..]);
    }
  }
}

module Crc32 {
  import opened Feeding

  // ----- crc32tab, 32 entries at a time -----

  function Row0(i: bv8): bv32 {
    match i
    case 0 => 0x00000000 case 1 => 0x77073096 case 2 => 0xee0e612c case 3 => 0x990951ba
    case 4 => 0x076dc419 case 5 => 0x706af48f case 6 => 0xe963a535 case 7 => 0x9e6495a3
    case 8 => 0x0edb8832 case 9 => 0x79dcb8a4 case 10 => 0xe0d5e91e case 11 => 0x97d2d988
    case 12 => 0x09b64c2b case 13 => 0x7eb17cbd case 14 => 0xe7b82d07 case 15 => 0x90bf1d91
    case 16 => 0x1db71064 case 17 => 0x6ab020f2 case 18 => 0xf3b97148 case 19 => 0x84be41de
    case 20 => 0x1adad47d case 21 => 0x6ddde4eb case 22 => 0xf4d4b551 case 23 => 0x83d385c7
    case 24 => 0x136c9856 case 25 => 0x646ba8c0 case 26 => 0xfd62f97a case 27 => 0x8a65c9ec
    case 28 => 0x14015c4f case 29 => 0x63066cd9 case 30 => 0xfa0f3d63 case _ => 0x8d080df5
  }

  function Row1(i: bv8): bv32 {
    match i
    case 32 => 0x3b6e20c8 case 33 => 0x4c69105e case 34 => 0xd56041e4 case 35 => 0xa2677172
    case 36 => 0x3c03e4d1 case 37 => 0x4b04d447 case 38 => 0xd20d85fd case 39 => 0xa50ab56b
    case 40 => 0x35b5a8fa case 41 => 0x42b2986c case 42 => 0xdbbbc9d6 case 43 => 0xacbcf940
    case 44 => 0x32d86ce3 case 45 => 0x45df5c75 case 46 => 0xdcd60dcf case 47 => 0xabd13d59
    case 48 => 0x26d930ac case 49 => 0x51de003a case 50 => 0xc8d75180 case 51 => 0xbfd06116
    case 52 => 0x21b4f4b5 case 53 => 0x56b3c423 case 54 => 0xcfba9599 case 55 => 0xb8bda50f
    case 56 => 0x2802b89e case 57 => 0x5f058808 case 58 => 0xc60cd9b2 case 59 => 0xb10be924
    case 60 => 0x2f6f7c87 case 61 => 0x58684c11 case 62 => 0xc1611dab case _ => 0xb6662d3d
  }

  function Row2(i: bv8): bv32 {
    match i
    case 64 => 0x76dc4190 case 65 => 0x01db7106 case 66 => 0x98d220bc case 67 => 0xefd5102a
    case 68 => 0x71b18589 case 69 => 0x06b6b51f case 70 => 0x9fbfe4a5 case 71 => 0xe8b8d433
    case 72 => 0x7807c9a2 case 73 => 0x0f00f934 case 74 => 0x9609a88e case 75 => 0xe10e9818
    case 76 => 0x7f6a0dbb case 77 => 0x086d3d2d case 78 => 0x91646c97 case 79 => 0xe6635c01
    case 80 => 0x6b6b51f4 case 81 => 0x1c6c6162 case 82 => 0x856530d8 case 83 => 0xf262004e
    case 84 => 0x6c0695ed case 85 => 0x1b01a57b case 86 => 0x8208f4c1 case 87 => 0xf50fc457
    case 88 => 0x65b0d9c6 case 89 => 0x12b7e950 case 90 => 0x8bbeb8ea case 91 => 0xfcb9887c
    case 92 => 0x62dd1ddf case 93 => 0x15da2d49 case 94 => 0x8cd37cf3 case _ => 0xfbd44c65
  }

  function Row3(i: bv8): bv32 {
    match i
    case 96 => 0x4db26158 case 97 => 0x3ab551ce case 98 => 0xa3bc0074 case 99 => 0xd4bb30e2
    case 100 => 0x4adfa541 case 101 => 0x3dd895d7 case 102 => 0xa4d1c46d case 103 => 0xd3d6f4fb
    case 104 => 0x4369e96a case 105 => 0x346ed9fc case 106 => 0xad678846 case 107 => 0xda60b8d0
    case 108 => 0x44042d73 case 109 => 0x33031de5 case 110 => 0xaa0a4c5f case 111 => 0xdd0d7cc9
    case 112 => 0x5005713c case 113 => 0x270241aa case 114 => 0xbe0b1010 case 115 => 0xc90c2086
    case 116 => 0x5768b525 case 117 => 0x206f85b3 case 118 => 0xb966d409 case 119 => 0xce61e49f
    case 120 => 0x5edef90e case 121 => 0x29d9c998 case 122 => 0xb0d09822 case 123 => 0xc7d7a8b4
    case 124 => 0x59b33d17 case 125 => 0x2eb40d81 case 126 => 0xb7bd5c3b case _ => 0xc0ba6cad
  }

  function Row4(i: bv8): bv32 {
    match i
    case 128 => 0xedb88320 case 129 => 0x9abfb3b6 case 130 => 0x03b6e20c case 131 => 0x74b1d29a
    case 132 => 0xead54739 case 133 => 0x9dd277af case 134 => 0x04db2615 case 135 => 0x73dc1683
    case 136 => 0xe3630b12 case 137 => 0x94643b84 case 138 => 0x0d6d6a3e case 139 => 0x7a6a5aa8
    case 140 => 0xe40ecf0b case 141 => 0x9309ff9d case 142 => 0x0a00ae27 case 143 => 0x7d079eb1
    case 144 => 0xf00f9344 case 145 => 0x8708a3d2 case 146 => 0x1e01f268 case 147 => 0x6906c2fe
    case 148 => 0xf762575d case 149 => 0x806567cb case 150 => 0x196c3671 case 151 => 0x6e6b06e7
    case 152 => 0xfed41b76 case 153 => 0x89d32be0 case 154 => 0x10da7a5a case 155 => 0x67dd4acc
    case 156 => 0xf9b9df6f case 157 => 0x8ebeeff9 case 158 => 0x17b7be43 case _ => 0x60b08ed5
  }

  function Row5(i: bv8): bv32 {
    match i
    case 160 => 0xd6d6a3e8 case 161 => 0xa1d1937e case 162 => 0x38d8c2c4 case 163 => 0x4fdff252
    case 164 => 0xd1bb67f1 case 165 => 0xa6bc5767 case 166 => 0x3fb506dd case 167 => 0x48b2364b
    case 168 => 0xd80d2bda case 169 => 0xaf0a1b4c case 170 => 0x36034af6 case 171 => 0x41047a60
    case 172 => 0xdf60efc3 case 173 => 0xa867df55 case 174 => 0x316e8eef case 175 => 0x4669be79
    case 176 => 0xcb61b38c case 177 => 0xbc66831a case 178 => 0x256fd2a0 case 179 => 0x5268e236
    case 180 => 0xcc0c7795 case 181 => 0xbb0b4703 case 182 => 0x220216b9 case 183 => 0x5505262f
    case 184 => 0xc5ba3bbe case 185 => 0xb2bd0b28 case 186 => 0x2bb45a92 case 187 => 0x5cb36a04
    case 188 => 0xc2d7ffa7 case 189 => 0xb5d0cf31 case 190 => 0x2cd99e8b case _ => 0x5bdeae1d
  }

  function Row6(i: bv8): bv32 {
    match i
    case 192 => 0x9b64c2b0 case 193 => 0xec63f226 case 194 => 0x756aa39c case 195 => 0x026d930a
    case 196 => 0x9c0906a9 case 197 => 0xeb0e363f case 198 => 0x72076785 case 199 => 0x05005713
    case 200 => 0x95bf4a82 case 201 => 0xe2b87a14 case 202 => 0x7bb12bae case 203 => 0x0cb61b38
    case 204 => 0x92d28e9b case 205 => 0xe5d5be0d case 206 => 0x7cdcefb7 case 207 => 0x0bdbdf21
    case 208 => 0x86d3d2d4 case 209 => 0xf1d4e242 case 210 => 0x68ddb3f8 case 211 => 0x1fda836e
    case 212 => 0x81be16cd case 213 => 0xf6b9265b case 214 => 0x6fb077e1 case 215 => 0x18b74777
    case 216 => 0x88085ae6 case 217 => 0xff0f6a70 case 218 => 0x66063bca case 219 => 0x11010b5c
    case 220 => 0x8f659eff case 221 => 0xf862ae69 case 222 => 0x616bffd3 case _ => 0x166ccf45
  }

  function Row7(i: bv8): bv32 {
    match i
    case 224 => 0xa00ae278 case 225 => 0xd70dd2ee case 226 => 0x4e048354 case 227 => 0x3903b3c2
    case 228 => 0xa7672661 case 229 => 0xd06016f7 case 230 => 0x4969474d case 231 => 0x3e6e77db
    case 232 => 0xaed16a4a case 233 => 0xd9d65adc case 234 => 0x40df0b66 case 235 => 0x37d83bf0
    case 236 => 0xa9bcae53 case 237 => 0xdebb9ec5 case 238 => 0x47b2cf7f case 239 => 0x30b5ffe9
    case 240 => 0xbdbdf21c case 241 => 0xcabac28a case 242 => 0x53b39330 case 243 => 0x24b4a3a6
    case 244 => 0xbad03605 case 245 => 0xcdd70693 case 246 => 0x54de5729 case 247 => 0x23d967bf
    case 248 => 0xb3667a2e case 249 => 0xc4614ab8 case 250 => 0x5d681b02 case 251 => 0x2a6f2b94
    case 252 => 0xb40bbe37 case 253 => 0xc30c8ea1 case 254 => 0x5a05df1b case _ => 0x2d02ef8d
  }

  // crc32tab
  function Table(i: bv8): bv32 {
    if i < 32 then Row0(i) else if i < 64 then Row1(i) else if i < 96 then Row2(i) else if i < 128 then Row3(i)
    else if i < 160 then Row4(i) else if i < 192 then Row5(i) else if i < 224 then Row6(i) else Row7(i)
  }

  // ----- one bit at a time (section 8 of RFC 1952) -----

  const POLY: bv32 := 0xedb88320

  function Step(c: bv32): bv32 {
    if c & 1 == 1 then (c >> 1) ^ POLY else c >> 1
  }

  // Feed one bit of the message.
  function Feed(c: bv32, bit: bool): bv32 {
    Step(if bit then c ^ 1 else c)
  }

  function Xor(c: bv32, d: bv32): bv32 {
    c ^ d
  }

  function Half(w: bv32): bv32 {
    w >> 1
  }

  function Odd(w: bv32): bool {
    w & 1 == 1
  }

  function Even(w: bv32): bv32 {
    w & 0xfffffffe
  }

  // The bits of a byte, least significant first.
  function Bits(b: bv8): (s: seq<bool>)
    ensures |s| == 8
  {
    Low(Odd, Half, b as bv32, 8)
  }

  function Message(p: seq<bv8>): seq<bool> {
    Spell(Bits, p)
  }

  // The CRC-32 of a message.
  function Crc(message: seq<bool>): bv32 {
    !Fold(Feed, 0xffffffff, message)
  }

  // ----- the laws -----

  lemma Associates(a: bv32, b: bv32, c: bv32)
    ensures (a ^ b) ^ c == a ^ (b ^ c)
  {
  }

  lemma Commutes(a: bv32, b: bv32)
    ensures a ^ b == b ^ a && a ^ 0 == a && a ^ a == 0
  {
  }

  lemma XorIsGroup()
    ensures Group(Xor, 0)
  {
    forall a: bv32, b: bv32, c: bv32 ensures Xor(Xor(a, b), c) == Xor(a, Xor(b, c)) { Associates(a, b, c); }
    forall a: bv32, b: bv32 ensures Xor(a, b) == Xor(b, a) { Commutes(a, b); }
    forall a: bv32 ensures Xor(a, 0) == a && Xor(a, a) == 0 { Commutes(a, a); }
  }

  lemma ShiftXor(c: bv32, d: bv32)
    ensures (c ^ d) >> 1 == (c >> 1) ^ (d >> 1) && (c ^ d) & 1 == (c & 1) ^ (d & 1)
    ensures c & 1 == 0 || c & 1 == 1
  {
  }

  lemma XorMoves(a: bv32, b: bv32, p: bv32)
    ensures (a ^ p) ^ (b ^ p) == a ^ b && (a ^ p) ^ b == (a ^ b) ^ p && a ^ (b ^ p) == (a ^ b) ^ p
  {
  }

  lemma StepXor(c: bv32, d: bv32)
    ensures Step(c ^ d) == Step(c) ^ Step(d)
  {
    ShiftXor(c, d);
    ShiftXor(d, c);
    XorMoves(c >> 1, d >> 1, POLY);
    if c & 1 == 1 {
      if d & 1 == 1 { assert (c ^ d) & 1 == 0; } else { assert (c ^ d) & 1 == 1; }
    } else {
      if d & 1 == 1 { assert (c ^ d) & 1 == 1; } else { assert (c ^ d) & 1 == 0; }
    }
  }

  lemma StepIsLinear()
    ensures Linear(Step, Xor)
  {
    forall c: bv32, d: bv32 ensures Step(Xor(c, d)) == Xor(Step(c), Step(d)) { StepXor(c, d); }
  }

  lemma StepBack(c: bv32, d: bv32)
    requires Step(c) == Step(d)
    ensures c == d
  {
  }

  lemma StepIsInjective()
    ensures Injective(Step)
  {
    forall c: bv32, d: bv32 | Step(c) == Step(d) ensures c == d { StepBack(c, d); }
  }

  lemma FeedsBits()
    ensures Feeds(Step, Feed, Xor, 1)
  {
  }

  lemma EvenIsEven(w: bv32)
    ensures (w & 0xfffffffe) & 1 == 0 && (w & 0xfffffffe) >> 1 == w >> 1
  {
  }

  lemma OddSplits(w: bv32)
    requires w & 1 == 1
    ensures w == 1 ^ (w & 0xfffffffe)
  {
  }

  lemma EvenSplits(w: bv32)
    requires w & 1 != 1
    ensures w == w & 0xfffffffe
  {
  }

  lemma EvenSteps1(w: bv32)
    ensures Step(Even(w)) == Half(w)
  {
    EvenIsEven(w);
  }

  lemma WordSplits(w: bv32)
    ensures w == if Odd(w) then Xor(1, Even(w)) else Even(w)
  {
    if Odd(w) { OddSplits(w); } else { EvenSplits(w); }
  }

  lemma WordsHalve()
    ensures Halves(Step, Xor, 1, Odd, Half, Even)
  {
    forall w: bv32 ensures Step(Even(w)) == Half(w) { EvenSteps1(w); }
    forall w: bv32 ensures w == if Odd(w) then Xor(1, Even(w)) else Even(w) { WordSplits(w); }
  }

  // ----- the table -----

  function Step8(c: bv32): bv32 {
    Step(Step(Step(Step(Step(Step(Step(Step(c))))))))
  }

  lemma Row0Is(i: bv8)
    requires i < 32
    ensures Row0(i) == Step8(i as bv32)
  {
  }

  lemma Row1Is(i: bv8)
    requires 32 <= i < 64
    ensures Row1(i) == Step8(i as bv32)
  {
  }

  lemma Row2Is(i: bv8)
    requires 64 <= i < 96
    ensures Row2(i) == Step8(i as bv32)
  {
  }

  lemma Row3Is(i: bv8)
    requires 96 <= i < 128
    ensures Row3(i) == Step8(i as bv32)
  {
  }

  lemma Row4Is(i: bv8)
    requires 128 <= i < 160
    ensures Row4(i) == Step8(i as bv32)
  {
  }

  lemma Row5Is(i: bv8)
    requires 160 <= i < 192
    ensures Row5(i) == Step8(i as bv32)
  {
  }

  lemma Row6Is(i: bv8)
    requires 192 <= i < 224
    ensures Row6(i) == Step8(i as bv32)
  {
  }

  lemma Row7Is(i: bv8)
    requires 224 <= i
    ensures Row7(i) == Step8(i as bv32)
  {
  }

  lemma TableIsStep8(i: bv8)
    ensures Table(i) == Step8(i as bv32)
  {
    if i < 32 { Row0Is(i); } else if i < 64 { Row1Is(i); } else if i < 96 { Row2Is(i); } else if i < 128 { Row3Is(i); }
    else if i < 160 { Row4Is(i); } else if i < 192 { Row5Is(i); } else if i < 224 { Row6Is(i); } else { Row7Is(i); }
  }

  // Entry i of the table is i after eight steps.
  lemma TableIs(i: bv8)
    ensures Table(i) == Iterate(Step, i as bv32, 8)
  {
    TableIsStep8(i);
    Eight(Step, i as bv32);
  }

  // ----- one table step -----

  function Top(x: bv32): bv32 {
    (x >> 8) << 8
  }

  function Rest(x: bv32): bv32 {
    x >> 8
  }

  function Index(c: bv32): bv8 {
    (c & 0xff) as bv8
  }

  // EACCELERATOR_CRC32
  function Update(crc: bv32, ch: bv8): bv32 {
    Xor(Rest(crc), Table(Index(Xor(crc, ch as bv32))))
  }

  lemma TopEvens(x: bv32)
    ensures Top(x) & 1 == 0 && (Top(x) >> 1) & 1 == 0 && ((Top(x) >> 1) >> 1) & 1 == 0
    ensures (((Top(x) >> 1) >> 1) >> 1) & 1 == 0
    ensures ((((Top(x) >> 1) >> 1) >> 1) >> 1) & 1 == 0 && (((((Top(x) >> 1) >> 1) >> 1) >> 1) >> 1) & 1 == 0
    ensures ((((((Top(x) >> 1) >> 1) >> 1) >> 1) >> 1) >> 1) & 1 == 0
    ensures (((((((Top(x) >> 1) >> 1) >> 1) >> 1) >> 1) >> 1) >> 1) & 1 == 0
  {
  }

  lemma EightEven(w: bv32)
    requires !Odd(w) && !Odd(Half(w)) && !Odd(Half(Half(w))) && !Odd(Half(Half(Half(w))))
    requires !Odd(Half(Half(Half(Half(w))))) && !Odd(Half(Half(Half(Half(Half(w))))))
    requires !Odd(Half(Half(Half(Half(Half(Half(w))))))) && !Odd(Half(Half(Half(Half(Half(Half(Half(w))))))))
    ensures EvenFor(Odd, Half, w, 8)
  {
    var a := Half(Half(w));
    var b := Half(Half(a));
    var c := Half(Half(b));
    assert EvenFor(Odd, Half, c, 2);
    assert EvenFor(Odd, Half, b, 4);
    assert EvenFor(Odd, Half, a, 6);
  }

  lemma TopHalves(x: bv32)
    ensures ((((((((Top(x) >> 1) >> 1) >> 1) >> 1) >> 1) >> 1) >> 1) >> 1) == x >> 8
  {
  }

  // The upper bytes just move down, ...
  lemma TopSteps(x: bv32)
    ensures Iterate(Step, Top(x), 8) == Rest(x)
  {
    TopEvens(x);
    EightEven(Top(x));
    WordsHalve();
    EvenSteps(Step, Xor, 1, Odd, Half, Even, Top(x), 8);
    Eight(Half, Top(x));
    TopHalves(x);
  }

  lemma LowByte(x: bv32)
    ensures Index(x) as bv32 == x & 0xff
  {
  }

  lemma TopAndLow(x: bv32)
    ensures x == Xor(Top(x), x & 0xff)
  {
  }

  // ... the lowest one goes through the table.
  lemma TableSteps(x: bv32)
    ensures Xor(Rest(x), Table(Index(x))) == Iterate(Step, x, 8)
  {
    TopAndLow(x);
    StepIsLinear();
    IterateLinear(Step, Xor, Top(x), x & 0xff, 8);
    TopSteps(x);
    LowByte(x);
    TableIs(Index(x));
  }

  lemma ByteEnds(b: bv8)
    ensures ((((((((b as bv32) >> 1) >> 1) >> 1) >> 1) >> 1) >> 1) >> 1) >> 1 == 0
  {
  }

  lemma SameRest(c: bv32, b: bv8)
    ensures Rest(c) == Rest(Xor(c, b as bv32))
  {
  }

  lemma ByteUsedUp(b: bv8)
    ensures Iterate(Half, b as bv32, 8) == 0
  {
    Eight(Half, b as bv32);
    ByteEnds(b);
  }

  // One table step is eight bit steps.
  lemma UpdateIs(c: bv32, b: bv8)
    ensures Update(c, b) == Fold(Feed, c, Bits(b))
  {
    var w := b as bv32;
    TableSteps(Xor(c, w));
    SameRest(c, b);
    XorIsGroup(); StepIsLinear(); FeedsBits(); WordsHalve();
    FeedWord(Step, Feed, Xor, 0, 1, Odd, Half, Even, c, w, 8);
    ByteUsedUp(b);
    Commutes(Fold(Feed, c, Bits(b)), 0);
  }

  // eaccelerator_crc32
  method Checksum(p: seq<bv8>) returns (crc: bv32)
    ensures crc == Crc(Message(p))
  {
    crc := 0xffffffff;
    var i := 0;
    assert p[0..] == p;
    while i < |p|
      invariant i <= |p|
      invariant Fold(Feed, crc, Message(p[i..])) == Fold(Feed, 0xffffffff, Message(p))
    {
      UpdateIs(crc, p[i]);
      FoldAppend(Feed, crc, Bits(p[i]), Message(p[i + 1..]));
      assert p[i..][1..] == p[i + 1..];
      crc := Update(crc, p[i]);
      i := i + 1;
    }
    assert p[i..] == [];
    crc := !crc;
  }

  // ----- the check value -----

  lemma NextByte(c: bv32, p: seq<bv8>)
    requires p != []
    ensures Fold(Feed, c, Message(p)) == Fold(Feed, Update(c, p[0]), Message(p[1..]))
  {
    UpdateIs(c, p[0]);
    FoldAppend(Feed, c, Bits(p[0]), Message(p[1..]));
  }

  lemma FirstUpdates()
    ensures Update(0xffffffff, 0x31) == 0x7c231048 && Update(0x7c231048, 0x32) == 0xb0acbb32
    ensures Update(0xb0acbb32, 0x33) == 0x77b79c2d && Update(0x77b79c2d, 0x34) == 0x641c1f5c
  {
  }

  lemma LastUpdates()
    ensures Update(0x641c1f5c, 0x35) == 0x340ac5e3
    ensures Update(0x340ac5e3, 0x36) == 0xf68d2c9e && Update(0xf68d2c9e, 0x37) == 0xaffc9660
    ensures Update(0xaffc9660, 0x38) == 0x651f2550 && Update(0x651f2550, 0x39) == 0x340bc6d9
  {
  }

  lemma LastBytes(p: seq<bv8>)
    requires p == [0x35, 0x36, 0x37, 0x38, 0x39]
    ensures Fold(Feed, 0x641c1f5c, Message(p)) == 0x340bc6d9
  {
    LastUpdates();
    NextByte(0x641c1f5c, p);
    NextByte(0x340ac5e3, p[1..]);
    NextByte(0xf68d2c9e, p[2..]);
    NextByte(0xaffc9660, p[3..]);
    NextByte(0x651f2550, p[4..]);
  }

  // The checksum of "123456789" is the one that is listed for CRC-32.
  lemma CheckValue(p: seq<bv8>)
    requires p == [0x31, 0x32, 0x33, 0x34, 0x35, 0x36, 0x37, 0x38, 0x39]
    ensures Crc(Message(p)) == 0xcbf43926
  {
    FirstUpdates();
    NextByte(0xffffffff, p);
    NextByte(0x7c231048, p[1..]);
    NextByte(0xb0acbb32, p[2..]);
    NextByte(0x77b79c2d, p[3..]);
    LastBytes(p[4..]);
  }

  // ----- what the checksum notices -----

  // k more bits cannot bring the register to zero.
  predicate Floor(c: bv32, k: nat) {
    k < 32 && Iterate(Half, c, k) != 0
  }

  lemma StepCases(x: bv32)
    ensures Step(x) == Half(x) || Step(x) >= 0x80000000
  {
  }

  lemma FlipHalf(c: bv32)
    ensures Half(c ^ 1) == Half(c)
  {
  }

  lemma HalfMonotone(c: bv32, h: bv32)
    requires c >= h
    ensures Half(c) >= Half(h)
  {
  }

  predicate AtLeast(c: bv32, h: bv32) {
    c >= h
  }

  lemma TopLasts()
    ensures Iterate(Half, 0x80000000, 31) == 1
  {
    IterateAdd(Half, 0x80000000, 8, 23);
    Eight(Half, 0x80000000);
    IterateAdd(Half, 0x800000, 8, 15);
    Eight(Half, 0x800000);
    IterateAdd(Half, 0x8000, 8, 7);
    Eight(Half, 0x8000);
    assert Iterate(Half, 0x80, 7) == Iterate(Half, 0x20, 5) == Iterate(Half, 0x8, 3) == Iterate(Half, 0x2, 1) == 1;
  }

  lemma {:induction false} ZeroHalves(k: nat)
    ensures Iterate(Half, 0, k) == 0
    decreases k
  {
    if k > 0 { ZeroHalves(k - 1); }
  }

  // A register with its highest bit set outlasts 31 halvings.
  lemma HighFloor(c: bv32, k: nat)
    requires c >= 0x80000000 && k < 32
    ensures Floor(c, k)
  {
    forall x: bv32, y: bv32 | AtLeast(x, y) ensures AtLeast(Half(x), Half(y)) { HalfMonotone(x, y); }
    IterateMonotone(Half, AtLeast, c, 0x80000000, k);
    IterateAdd(Half, 0x80000000, k, 31 - k);
    TopLasts();
    ZeroHalves(31 - k);
  }

  lemma FloorStep(c: bv32, b: bool, k: nat)
    requires Floor(c, k + 1)
    ensures Floor(Feed(c, b), k)
  {
    var x := if b then c ^ 1 else c;
    FlipHalf(c);
    StepCases(x);
    if Step(x) >= 0x80000000 { HighFloor(Step(x), k); }
  }

  lemma FloorsLast()
    ensures Lasting(Feed, Floor, 0)
  {
    forall c: bv32, b: bool, k: nat {:trigger Floor(Feed(c, b), k)} | Floor(c, k + 1) ensures Floor(Feed(c, b), k) {
      FloorStep(c, b, k);
    }
    ZeroHalves(0);
  }

  lemma FirstDifference()
    ensures Feed(0, true) == POLY
  {
  }

  // Messages that differ, but only within 32 consecutive bits, have different checksums.
  lemma BurstDetected(before: seq<bool>, a: seq<bool>, b: seq<bool>, after: seq<bool>)
    requires |a| == |b| <= 32 && a != b
    ensures Crc(before + (a + after)) != Crc(before + (b + after))
  {
    var c := Fold(Feed, 0xffffffff, before);
    FoldAppend(Feed, 0xffffffff, before, a + after);
    FoldAppend(Feed, 0xffffffff, before, b + after);
    FoldAppend(Feed, c, a, after);
    FoldAppend(Feed, c, b, after);
    XorIsGroup(); StepIsLinear(); StepIsInjective(); FeedsBits(); FloorsLast();
    DifferenceLaw(Step, Feed, Xor, 0, 1);
    forall k: nat | k < 32 ensures Floor(Feed(0, true), k) {
      FirstDifference();
      HighFloor(POLY, k);
    }
    BurstShows(Feed, Xor, 0, Floor, 32, c, a, b);
    TailKeepsDifference(Step, Feed, Xor, 0, 1, Fold(Feed, c, a), Fold(Feed, c, b), after);
    Complement(Fold(Feed, Fold(Feed, c, a), after), Fold(Feed, Fold(Feed, c, b), after));
  }

  lemma Complement(x: bv32, y: bv32)
    requires x != y
    ensures !x != !y
  {
  }

  lemma BitsInjective(a: bv8, b: bv8)
    requires Bits(a) == Bits(b)
    ensures a == b
  {
    XorIsGroup(); StepIsLinear(); StepIsInjective(); FeedsBits(); WordsHalve();
    FeedWord(Step, Feed, Xor, 0, 1, Odd, Half, Even, 0, a as bv32, 8);
    FeedWord(Step, Feed, Xor, 0, 1, Odd, Half, Even, 0, b as bv32, 8);
    ByteUsedUp(a);
    ByteUsedUp(b);
    IterateInjective(Step, Xor(0, a as bv32), Xor(0, b as bv32), 8);
    SameByte(a, b);
  }

  lemma SameByte(a: bv8, b: bv8)
    requires Xor(0, a as bv32) == Xor(0, b as bv32)
    ensures a == b
  {
  }

  lemma MessageSplit(before: seq<bv8>, a: seq<bv8>, after: seq<bv8>)
    ensures Message(before + (a + after)) == Message(before) + (Message(a) + Message(after))
  {
    SpellAppend(Bits, before, a + after);
    SpellAppend(Bits, a, after);
  }

  lemma MessageInjective(p: seq<bv8>, q: seq<bv8>)
    requires |p| == |q| && Message(p) == Message(q)
    ensures p == q
  {
    forall a: bv8, b: bv8 | Bits(a) == Bits(b) ensures a == b { BitsInjective(a, b); }
    SpellInjective(Bits, 8, p, q);
  }

  // Two images of the same length that differ only within four consecutive bytes.
  lemma ImagesDiffer(before: seq<bv8>, a: seq<bv8>, b: seq<bv8>, after: seq<bv8>)
    requires |a| == |b| <= 4 && a != b
    ensures Crc(Message(before + (a + after))) != Crc(Message(before + (b + after)))
  {
    MessageSplit(before, a, after);
    MessageSplit(before, b, after);
    SpellLength(Bits, 8, a);
    SpellLength(Bits, 8, b);
    if Message(a) == Message(b) {
      MessageInjective(a, b);
    } else {
      BurstDetected(Message(before), Message(a), Message(b), Message(after));
    }
  }
}
