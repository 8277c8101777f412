/**
 CRC-32 (section 8.1.1.6.2 of ITU-T V.42): the shift register and what it promises.
 */
module Crc32Spec {
  import opened Folds

  const POLY: bv32 := 0xEDB88320
  const CRC32_NEGL: bv32 := 0xffffffff

  // One step of the shift register.
  function Shift(x: bv32): bv32 { if x & 1 == 1 then (x >> 1) ^ POLY else x >> 1 }

  // The register before the step: the polynomial's top bit tells which way it went.
  function Unshift(y: bv32): bv32 { if y & 0x80000000 != 0 then ((y ^ POLY) << 1) | 1 else y << 1 }

  function Xor(x: bv32, y: bv32): bv32 { x ^ y }

  function Low(w: bv32): bool { w & 1 == 1 }

  function Half(w: bv32): bv32 { w >> 1 }

  function Digit(b: bool): bv32 { if b then 1 else 0 }

  // Take in one bit.
  function BitStep(s: bv32, b: bool): bv32 { Shift(Xor(s, Digit(b))) }

  function BitsOf(o: bv8): (r: seq<bool>)
    ensures |r| == 8
  {
    [o & 1 != 0, o & 2 != 0, o & 4 != 0, o & 8 != 0, o & 16 != 0, o & 32 != 0, o & 64 != 0, o & 128 != 0]
  }

  // A message as bits, least significant bit of each octet first.
  function Bits(msg: seq<bv8>): (r: seq<bool>)
    ensures |r| == 8 * |msg|
  {
    FlattenLength(BitsOf, 8, msg);
    Flatten(BitsOf, msg)
  }

  // The checksum, bit by bit: all ones in the register before, complemented after.
  function Crc(msg: seq<bv8>): bv32 { Xor(Fold(BitStep, CRC32_NEGL, Bits(msg)), CRC32_NEGL) }

  lemma UnshiftShift(x: bv32)
    ensures Unshift(Shift(x)) == x
  {
  }

  lemma XorCancels(t: bv32, x: bv32, y: bv32)
    requires Xor(t, x) == Xor(t, y)
    ensures x == y
  {
    assert t ^ (t ^ x) == x && t ^ (t ^ y) == y;
  }

  lemma OddStep(x: bv32)
    requires Low(x)
    ensures Shift(x) == Xor(Half(x), POLY)
  {
  }

  lemma EvenStep(x: bv32)
    requires !Low(x)
    ensures Shift(x) == Half(x)
  {
  }

  lemma XorHalves(s: bv32, w: bv32, d: bv32)
    requires d == w & 1
    ensures Half(Xor(s, w)) == Xor(Half(Xor(s, d)), Half(w)) && Low(Xor(s, w)) == Low(Xor(s, d))
  {
  }

  lemma XorPolyLast(x: bv32, y: bv32)
    ensures Xor(Xor(x, y), POLY) == Xor(Xor(x, POLY), y)
  {
  }

  // The lowest bit alone decides the step; the bits above it just travel.
  lemma ShiftCarries(s: bv32, w: bv32, d: bv32)
    requires d == w & 1
    ensures Shift(Xor(s, w)) == Xor(Shift(Xor(s, d)), Half(w))
  {
    hide *;
    XorHalves(s, w, d);
    if Low(Xor(s, w)) {
      OddStep(Xor(s, w));
      OddStep(Xor(s, d));
      XorPolyLast(Half(Xor(s, d)), Half(w));
    } else {
      EvenStep(Xor(s, w));
      EvenStep(Xor(s, d));
    }
  }

  lemma DigitLow(w: bv32)
    ensures Digit(Low(w)) == w & 1
  {
  }

  lemma BitStepIs(s: bv32, b: bool)
    ensures BitStep(s, b) == Shift(Xor(s, Digit(b)))
  {
  }

  // Stepping with a whole word combined takes in its lowest bit and halves the rest.
  lemma ShiftPeels(s: bv32, w: bv32)
    ensures Shift(Xor(s, w)) == Xor(BitStep(s, Low(w)), Half(w))
  {
    hide *;
    DigitLow(w);
    BitStepIs(s, Low(w));
    ShiftCarries(s, w, Digit(Low(w)));
  }

  lemma WordIsBits(s: bv32, w: bv32, n: nat)
    ensures Iterate(Shift, Xor(s, w), n) == Xor(Fold(BitStep, s, Lows(Low, Half, w, n)), Iterate(Half, w, n))
  {
    forall u, v ensures Shift(Xor(u, v)) == Xor(BitStep(u, Low(v)), Half(v)) {
      ShiftPeels(u, v);
    }
    IterateIsFold(Shift, BitStep, Xor, Low, Half, s, w, n);
  }

  lemma BitStepIsInjective(s: bv32, t: bv32, b: bool)
    requires BitStep(s, b) == BitStep(t, b)
    ensures s == t
  {
    UnshiftShift(Xor(s, Digit(b)));
    UnshiftShift(Xor(t, Digit(b)));
    XorCancelsRight(Digit(b), s, t);
  }

  lemma XorCancelsRight(t: bv32, x: bv32, y: bv32)
    requires Xor(x, t) == Xor(y, t)
    ensures x == y
  {
    assert (x ^ t) ^ t == x && (y ^ t) ^ t == y;
  }

  lemma FeedBitsIsInjective(s: bv32, t: bv32, bits: seq<bool>)
    requires Fold(BitStep, s, bits) == Fold(BitStep, t, bits)
    ensures s == t
  {
    hide *;
    forall u, v, b | BitStep(u, b) == BitStep(v, b) ensures u == v {
      BitStepIsInjective(u, v, b);
    }
    FoldIsInjective(BitStep, s, t, bits);
  }

  lemma ShiftsAreInjective(x: bv32, y: bv32, n: nat)
    requires Iterate(Shift, x, n) == Iterate(Shift, y, n)
    ensures x == y
  {
    hide *;
    forall u, v | Shift(u) == Shift(v) ensures u == v {
      UnshiftShift(u);
      UnshiftShift(v);
    }
    IterateIsInjective(Shift, x, y, n);
  }

  // Four octets as a little-endian word.
  function Word(b0: bv8, b1: bv8, b2: bv8, b3: bv8): bv32 {
    b0 as bv32 | (b1 as bv32 << 8) | (b2 as bv32 << 16) | (b3 as bv32 << 24)
  }

  function Octet(w: bv32): bv8 { (w & 0xff) as bv8 }

  function Down8(w: bv32): bv32 { w >> 8 }

  lemma LowsOfOctet(w: bv32, n: nat)
    ensures Lows(Low, Half, w, n + 8) == BitsOf(Octet(w)) + Lows(Low, Half, Down8(w), n)
  {
    hide *;
    HalfHalves(w);
    LowsAreBits(w);
    var w4 := Half(Half(Half(Half(w))));
    LowsOfFour(Low, Half, w, n + 4);
    LowsOfFour(Low, Half, w4, n);
  }

  lemma HalfHalves(w: bv32)
    ensures Half(Half(Half(Half(Half(Half(Half(Half(w)))))))) == Down8(w)
  {
  }

  lemma LowsAreBits(w: bv32)
    ensures BitsOf(Octet(w)) == [Low(w), Low(Half(w)), Low(Half(Half(w))), Low(Half(Half(Half(w)))), Low(Half(Half(Half(Half(w))))),
                                Low(Half(Half(Half(Half(Half(w)))))), Low(Half(Half(Half(Half(Half(Half(w))))))),
                                Low(Half(Half(Half(Half(Half(Half(Half(w))))))))]
  {
  }

  // Eight steps.
  function Shift8(x: bv32): bv32 { Iterate(Shift, x, 8) }

  // Take in one octet: combine it, then take eight steps.
  function OctetStep(s: bv32, o: bv8): bv32 { Shift8(Xor(s, o as bv32)) }

  lemma XorZero(x: bv32)
    ensures Xor(x, 0) == x && Xor(0, x) == x
  {
  }

  lemma OctetFades(o: bv8)
    ensures Octet(o as bv32) == o && Down8(o as bv32) == 0
  {
  }

  lemma {:induction false} HalfToZero(n: nat)
    ensures Iterate(Half, 0, n) == 0
    decreases n
  {
    if n > 0 {
      HalfToZero(n - 1);
    }
  }

  // Eight steps from a combined word: its lowest octet bit by bit, the rest moved down.
  lemma Shift8Peels(s: bv32, w: bv32)
    ensures Shift8(Xor(s, w)) == Xor(Fold(BitStep, s, BitsOf(Octet(w))), Down8(w))
  {
    hide *;
    WordIsBits(s, w, 8);
    LowsOfOctet(w, 0);
    HalfEight(w);
    Shift8Is(Xor(s, w));
    LowsNone(Down8(w));
    assert BitsOf(Octet(w)) + [] == BitsOf(Octet(w));
  }

  lemma Shift8Is(x: bv32)
    ensures Shift8(x) == Iterate(Shift, x, 8)
  {
  }

  lemma LowsNone(w: bv32)
    ensures Lows(Low, Half, w, 0) == []
  {
  }

  lemma HalfEight(w: bv32)
    ensures Iterate(Half, w, 8) == Down8(w)
  {
    HalfHalves(w);
  }

  lemma OctetStepIs(s: bv32, o: bv8)
    ensures OctetStep(s, o) == Shift8(Xor(s, o as bv32))
  {
  }

  lemma OctetIsBits(s: bv32, o: bv8)
    ensures OctetStep(s, o) == Fold(BitStep, s, BitsOf(o))
  {
    hide *;
    OctetStepIs(s, o);
    Shift8Peels(s, o as bv32);
    OctetFades(o);
    XorZero(Fold(BitStep, s, BitsOf(o)));
  }

  // Octet by octet is bit by bit.
  lemma FeedIsBits(s: bv32, msg: seq<bv8>)
    ensures Fold(OctetStep, s, msg) == Fold(BitStep, s, Bits(msg))
  {
    hide *;
    forall u, o ensures OctetStep(u, o) == Fold(BitStep, u, BitsOf(o)) {
      OctetIsBits(u, o);
    }
    FoldFlatten(BitStep, OctetStep, BitsOf, s, msg);
    BitsIs(msg);
  }

  lemma BitsIs(msg: seq<bv8>)
    ensures Bits(msg) == Flatten(BitsOf, msg)
  {
  }

  // Four octets at once: combine them as a little-endian word, then take four times eight steps.
  lemma WordIsFourOctets(s: bv32, b0: bv8, b1: bv8, b2: bv8, b3: bv8)
    ensures OctetStep(OctetStep(OctetStep(OctetStep(s, b0), b1), b2), b3)
            == Shift8(Shift8(Shift8(Shift8(Xor(s, Word(b0, b1, b2, b3))))))
  {
    hide *;
    var w := Word(b0, b1, b2, b3);
    var s1 := OctetStep(s, b0);
    var s2 := OctetStep(s1, b1);
    var s3 := OctetStep(s2, b2);
    var s4 := OctetStep(s3, b3);
    WordDown(b0, b1, b2, b3);
    OctetIsBits(s, b0);
    Shift8Peels(s, w);
    OctetIsBits(s1, b1);
    Shift8Peels(s1, Down8(w));
    OctetIsBits(s2, b2);
    Shift8Peels(s2, Down8(Down8(w)));
    OctetIsBits(s3, b3);
    Shift8Peels(s3, Down8(Down8(Down8(w))));
    XorZero(s4);
  }

  lemma WordDown(b0: bv8, b1: bv8, b2: bv8, b3: bv8)
    ensures var w := Word(b0, b1, b2, b3);
            && Octet(w) == b0 && Octet(Down8(w)) == b1 && Octet(Down8(Down8(w))) == b2
            && Octet(Down8(Down8(Down8(w)))) == b3 && Down8(Down8(Down8(Down8(w)))) == 0
  {
  }

  // A word can be told from what it does to a register.
  lemma WordShows(t: bv32, x: seq<bv8>, y: seq<bv8>)
    requires |x| == |y| == 4 && Fold(OctetStep, t, x) == Fold(OctetStep, t, y)
    ensures x == y
  {
    hide *;
    var u, v := Word(x[0], x[1], x[2], x[3]), Word(y[0], y[1], y[2], y[3]);
    FoldOfFour(OctetStep, t, x);
    FoldOfFour(OctetStep, t, y);
    WordIsFourOctets(t, x[0], x[1], x[2], x[3]);
    WordIsFourOctets(t, y[0], y[1], y[2], y[3]);
    Shift8IsInjective(Shift8(Shift8(Shift8(Xor(t, u)))), Shift8(Shift8(Shift8(Xor(t, v)))));
    Shift8IsInjective(Shift8(Shift8(Xor(t, u))), Shift8(Shift8(Xor(t, v))));
    Shift8IsInjective(Shift8(Xor(t, u)), Shift8(Xor(t, v)));
    Shift8IsInjective(Xor(t, u), Xor(t, v));
    XorCancels(t, u, v);
    WordDown(x[0], x[1], x[2], x[3]);
    WordDown(y[0], y[1], y[2], y[3]);
  }

  lemma Shift8IsInjective(x: bv32, y: bv32)
    requires Shift8(x) == Shift8(y)
    ensures x == y
  {
    hide *;
    Shift8Is(x);
    Shift8Is(y);
    ShiftsAreInjective(x, y, 8);
  }

  // Eight bits as an octet, lowest first.
  function OctetOf(b: seq<bool>): bv8
    requires |b| == 8
  {
    (if b[0] then 1 else 0) | (if b[1] then 2 else 0) | (if b[2] then 4 else 0) | (if b[3] then 8 else 0)
    | (if b[4] then 16 else 0) | (if b[5] then 32 else 0) | (if b[6] then 64 else 0) | (if b[7] then 128 else 0)
  }

  lemma BitsOfOctetOf(b: seq<bool>)
    requires |b| == 8
    ensures BitsOf(OctetOf(b)) == b
  {
  }

  lemma BitsOfFour(x: seq<bool>)
    requires |x| == 32
    ensures Bits([OctetOf(x[..8]), OctetOf(x[8..16]), OctetOf(x[16..24]), OctetOf(x[24..])]) == x
  {
    hide *;
    var o0, o1, o2, o3 := OctetOf(x[..8]), OctetOf(x[8..16]), OctetOf(x[16..24]), OctetOf(x[24..]);
    BitsOfOctetOf(x[..8]);
    BitsOfOctetOf(x[8..16]);
    BitsOfOctetOf(x[16..24]);
    BitsOfOctetOf(x[24..]);
    BitsIs([o0, o1, o2, o3]);
    FlattenOfFour(BitsOf, o0, o1, o2, o3);
    assert x == x[..8] + (x[8..16] + (x[16..24] + x[24..]));
  }

  // Up to 32 bits can be told from what they do to a register.
  lemma WindowShows(t: bv32, x: seq<bool>, y: seq<bool>)
    requires |x| == |y| <= 32 && Fold(BitStep, t, x) == Fold(BitStep, t, y)
    ensures x == y
  {
    hide *;
    var pad := seq(32 - |x|, _ => false);
    FoldAppend(BitStep, t, x, pad);
    FoldAppend(BitStep, t, y, pad);
    var p, q := x + pad, y + pad;
    var a := [OctetOf(p[..8]), OctetOf(p[8..16]), OctetOf(p[16..24]), OctetOf(p[24..])];
    var b := [OctetOf(q[..8]), OctetOf(q[8..16]), OctetOf(q[16..24]), OctetOf(q[24..])];
    BitsOfFour(p);
    BitsOfFour(q);
    FeedIsBits(t, a);
    FeedIsBits(t, b);
    WordShows(t, a, b);
    assert x == p[..|x|] && y == q[..|x|];
  }

  // A burst of at most 32 bits always shows.
  lemma BurstShows(s: bv32, before: seq<bool>, x: seq<bool>, y: seq<bool>, after: seq<bool>)
    requires |x| == |y| <= 32 && x != y
    ensures Fold(BitStep, s, before + x + after) != Fold(BitStep, s, before + y + after)
  {
    hide *;
    var t := Fold(BitStep, s, before);
    FoldAppend(BitStep, s, before + x, after);
    FoldAppend(BitStep, s, before, x);
    FoldAppend(BitStep, s, before + y, after);
    FoldAppend(BitStep, s, before, y);
    if Fold(BitStep, s, before + x + after) == Fold(BitStep, s, before + y + after) {
      FeedBitsIsInjective(Fold(BitStep, t, x), Fold(BitStep, t, y), after);
      WindowShows(t, x, y);
    }
  }

  lemma OctetFromBits(o: bv8, p: bv8)
    requires BitsOf(o) == BitsOf(p)
    ensures o == p
  {
    var a, b := BitsOf(o), BitsOf(p);
    assert a[0] == b[0] && a[1] == b[1] && a[2] == b[2] && a[3] == b[3];
    assert a[4] == b[4] && a[5] == b[5] && a[6] == b[6] && a[7] == b[7];
  }

  lemma BitsAreInjective(a: seq<bv8>, b: seq<bv8>)
    requires |a| == |b| && Bits(a) == Bits(b)
    ensures a == b
  {
    hide *;
    forall o, p | BitsOf(o) == BitsOf(p) ensures o == p {
      OctetFromBits(o, p);
    }
    forall o ensures |BitsOf(o)| == 8 {
    }
    BitsIs(a);
    BitsIs(b);
    FlattenIsInjective(BitsOf, 8, a, b);
  }

  lemma CrcIs(msg: seq<bv8>)
    ensures Crc(msg) == Xor(Fold(BitStep, CRC32_NEGL, Bits(msg)), CRC32_NEGL)
  {
  }

  // Main result: two messages of one length that differ, but only inside a window of at most 32
  // consecutive bits, never have the same checksum.
  lemma BurstErrorsAreDetected(a: seq<bv8>, b: seq<bv8>, from: nat, len: nat)
    requires |a| == |b| && a != b
    requires len <= 32 && from + len <= 8 * |a|
    requires forall k :: 0 <= k < 8 * |a| && !(from <= k < from + len) ==> Bits(a)[k] == Bits(b)[k]
    ensures Crc(a) != Crc(b)
  {
    hide *;
    var p, q := Bits(a), Bits(b);
    var x, y := p[from..from + len], q[from..from + len];
    assert p[..from] == q[..from] && p[from + len..] == q[from + len..];
    assert p == p[..from] + x + p[from + len..];
    assert q == p[..from] + y + p[from + len..];
    if x == y {
      BitsAreInjective(a, b);
    }
    BurstShows(CRC32_NEGL, p[..from], x, y, p[from + len..]);
    CrcIs(a);
    CrcIs(b);
    if Crc(a) == Crc(b) {
      XorCancelsRight(CRC32_NEGL, Fold(BitStep, CRC32_NEGL, p), Fold(BitStep, CRC32_NEGL, q));
    }
  }
}

/** What the two tables of `crc32.c` hold, and what one table step does. */
module Crc32Steps {
  import opened Folds
  import opened Crc32Spec
  import opened Crc32Tables

  // The byte order change between the two builds.
  function Swap(c: bv32): bv32 {
    ((c & 0xff000000) >> 24) | ((c & 0x00ff0000) >> 8) | ((c & 0x0000ff00) << 8) | ((c & 0x000000ff) << 24)
  }

  // crc_tab[CRC32_INDEX(c)] ^ CRC32_SHIFTED(c), little-endian and big-endian.
  function TableStep(c: bv32): bv32 { Xor(CrcTab((c & 0xff) as bv8), c >> 8) }

  function TableStepBig(c: bv32): bv32 { Xor(CrcTabBig((c >> 24) as bv8), c << 8) }

  // crc_tab[CRC32_INDEX(c) ^ o] ^ CRC32_SHIFTED(c), little-endian and big-endian.
  function TableOctet(c: bv32, o: bv8): bv32 { Xor(CrcTab(((c & 0xff) as bv8) ^ o), c >> 8) }

  function TableOctetBig(c: bv32, o: bv8): bv32 { Xor(CrcTabBig(((c >> 24) as bv8) ^ o), c << 8) }

  lemma Row0(i: bv8)
    requires i >> 4 == 0
    ensures CrcTab(i) == Shift8(i as bv32) && CrcTabBig(i) == Swap(CrcTab(i))
  {
    match i & 0xf
    case 0 => case 1 => case 2 => case 3 => case 4 => case 5 => case 6 => case 7 =>
    case 8 => case 9 => case 10 => case 11 => case 12 => case 13 => case 14 => case _ =>
  }

  lemma Row1(i: bv8)
    requires i >> 4 == 1
    ensures CrcTab(i) == Shift8(i as bv32) && CrcTabBig(i) == Swap(CrcTab(i))
  {
    match i & 0xf
    case 0 => case 1 => case 2 => case 3 => case 4 => case 5 => case 6 => case 7 =>
    case 8 => case 9 => case 10 => case 11 => case 12 => case 13 => case 14 => case _ =>
  }

  lemma Row2(i: bv8)
    requires i >> 4 == 2
    ensures CrcTab(i) == Shift8(i as bv32) && CrcTabBig(i) == Swap(CrcTab(i))
  {
    match i & 0xf
    case 0 => case 1 => case 2 => case 3 => case 4 => case 5 => case 6 => case 7 =>
    case 8 => case 9 => case 10 => case 11 => case 12 => case 13 => case 14 => case _ =>
  }

  lemma Row3(i: bv8)
    requires i >> 4 == 3
    ensures CrcTab(i) == Shift8(i as bv32) && CrcTabBig(i) == Swap(CrcTab(i))
  {
    match i & 0xf
    case 0 => case 1 => case 2 => case 3 => case 4 => case 5 => case 6 => case 7 =>
    case 8 => case 9 => case 10 => case 11 => case 12 => case 13 => case 14 => case _ =>
  }

  lemma Row4(i: bv8)
    requires i >> 4 == 4
    ensures CrcTab(i) == Shift8(i as bv32) && CrcTabBig(i) == Swap(CrcTab(i))
  {
    match i & 0xf
    case 0 => case 1 => case 2 => case 3 => case 4 => case 5 => case 6 => case 7 =>
    case 8 => case 9 => case 10 => case 11 => case 12 => case 13 => case 14 => case _ =>
  }

  lemma Row5(i: bv8)
    requires i >> 4 == 5
    ensures CrcTab(i) == Shift8(i as bv32) && CrcTabBig(i) == Swap(CrcTab(i))
  {
    match i & 0xf
    case 0 => case 1 => case 2 => case 3 => case 4 => case 5 => case 6 => case 7 =>
    case 8 => case 9 => case 10 => case 11 => case 12 => case 13 => case 14 => case _ =>
  }

  lemma Row6(i: bv8)
    requires i >> 4 == 6
    ensures CrcTab(i) == Shift8(i as bv32) && CrcTabBig(i) == Swap(CrcTab(i))
  {
    match i & 0xf
    case 0 => case 1 => case 2 => case 3 => case 4 => case 5 => case 6 => case 7 =>
    case 8 => case 9 => case 10 => case 11 => case 12 => case 13 => case 14 => case _ =>
  }

  lemma Row7(i: bv8)
    requires i >> 4 == 7
    ensures CrcTab(i) == Shift8(i as bv32) && CrcTabBig(i) == Swap(CrcTab(i))
  {
    match i & 0xf
    case 0 => case 1 => case 2 => case 3 => case 4 => case 5 => case 6 => case 7 =>
    case 8 => case 9 => case 10 => case 11 => case 12 => case 13 => case 14 => case _ =>
  }

  lemma Row8(i: bv8)
    requires i >> 4 == 8
    ensures CrcTab(i) == Shift8(i as bv32) && CrcTabBig(i) == Swap(CrcTab(i))
  {
    match i & 0xf
    case 0 => case 1 => case 2 => case 3 => case 4 => case 5 => case 6 => case 7 =>
    case 8 => case 9 => case 10 => case 11 => case 12 => case 13 => case 14 => case _ =>
  }

  lemma Row9(i: bv8)
    requires i >> 4 == 9
    ensures CrcTab(i) == Shift8(i as bv32) && CrcTabBig(i) == Swap(CrcTab(i))
  {
    match i & 0xf
    case 0 => case 1 => case 2 => case 3 => case 4 => case 5 => case 6 => case 7 =>
    case 8 => case 9 => case 10 => case 11 => case 12 => case 13 => case 14 => case _ =>
  }

  lemma RowA(i: bv8)
    requires i >> 4 == 10
    ensures CrcTab(i) == Shift8(i as bv32) && CrcTabBig(i) == Swap(CrcTab(i))
  {
    match i & 0xf
    case 0 => case 1 => case 2 => case 3 => case 4 => case 5 => case 6 => case 7 =>
    case 8 => case 9 => case 10 => case 11 => case 12 => case 13 => case 14 => case _ =>
  }

  lemma RowB(i: bv8)
    requires i >> 4 == 11
    ensures CrcTab(i) == Shift8(i as bv32) && CrcTabBig(i) == Swap(CrcTab(i))
  {
    match i & 0xf
    case 0 => case 1 => case 2 => case 3 => case 4 => case 5 => case 6 => case 7 =>
    case 8 => case 9 => case 10 => case 11 => case 12 => case 13 => case 14 => case _ =>
  }

  lemma RowC(i: bv8)
    requires i >> 4 == 12
    ensures CrcTab(i) == Shift8(i as bv32) && CrcTabBig(i) == Swap(CrcTab(i))
  {
    match i & 0xf
    case 0 => case 1 => case 2 => case 3 => case 4 => case 5 => case 6 => case 7 =>
    case 8 => case 9 => case 10 => case 11 => case 12 => case 13 => case 14 => case _ =>
  }

  lemma RowD(i: bv8)
    requires i >> 4 == 13
    ensures CrcTab(i) == Shift8(i as bv32) && CrcTabBig(i) == Swap(CrcTab(i))
  {
    match i & 0xf
    case 0 => case 1 => case 2 => case 3 => case 4 => case 5 => case 6 => case 7 =>
    case 8 => case 9 => case 10 => case 11 => case 12 => case 13 => case 14 => case _ =>
  }

  lemma RowE(i: bv8)
    requires i >> 4 == 14
    ensures CrcTab(i) == Shift8(i as bv32) && CrcTabBig(i) == Swap(CrcTab(i))
  {
    match i & 0xf
    case 0 => case 1 => case 2 => case 3 => case 4 => case 5 => case 6 => case 7 =>
    case 8 => case 9 => case 10 => case 11 => case 12 => case 13 => case 14 => case _ =>
  }

  lemma RowF(i: bv8)
    requires i >> 4 == 15
    ensures CrcTab(i) == Shift8(i as bv32) && CrcTabBig(i) == Swap(CrcTab(i))
  {
    match i & 0xf
    case 0 => case 1 => case 2 => case 3 => case 4 => case 5 => case 6 => case 7 =>
    case 8 => case 9 => case 10 => case 11 => case 12 => case 13 => case 14 => case _ =>
  }

  // The table really is eight shift-and-xor steps of its index, and the other one the same in the
  // other byte order.
  lemma TablesHold(i: bv8)
    ensures CrcTab(i) == Shift8(i as bv32)
    ensures CrcTabBig(i) == Swap(CrcTab(i))
  {
    hide *;
    match i >> 4
    case 0 => Row0(i);
    case 1 => Row1(i);
    case 2 => Row2(i);
    case 3 => Row3(i);
    case 4 => Row4(i);
    case 5 => Row5(i);
    case 6 => Row6(i);
    case 7 => Row7(i);
    case 8 => Row8(i);
    case 9 => Row9(i);
    case 10 => RowA(i);
    case 11 => RowB(i);
    case 12 => RowC(i);
    case 13 => RowD(i);
    case 14 => RowE(i);
    case _ => RowF(i);
  }

  lemma TableStepIsShift8(c: bv32)
    ensures TableStep(c) == Shift8(c)
  {
    hide *;
    var low := Octet(c) as bv32;
    var bits := Fold(BitStep, 0, BitsOf(Octet(c)));
    Shift8Peels(0, c);
    Shift8Peels(0, low);
    OctetFades(Octet(c));
    XorZero(c);
    XorZero(low);
    XorZero(bits);
    TablesHold(Octet(c));
    TableStepIs(c);
  }

  lemma TableStepIs(c: bv32)
    ensures TableStep(c) == Xor(CrcTab(Octet(c)), Down8(c))
  {
    hide Xor, CrcTab;
  }

  lemma TableOctetIsStep(c: bv32, o: bv8)
    ensures TableOctet(c, o) == TableStep(Xor(c, o as bv32))
  {
    hide CrcTab;
    assert ((c ^ o as bv32) & 0xff) as bv8 == ((c & 0xff) as bv8) ^ o;
    assert (c ^ o as bv32) >> 8 == c >> 8;
  }

  lemma TableOctetIsOctetStep(c: bv32, o: bv8)
    ensures TableOctet(c, o) == OctetStep(c, o)
  {
    hide *;
    TableOctetIsStep(c, o);
    TableStepIsShift8(Xor(c, o as bv32));
    OctetStepIs(c, o);
  }

  lemma WordIsTableSteps(c: bv32, b0: bv8, b1: bv8, b2: bv8, b3: bv8)
    ensures TableStep(TableStep(TableStep(TableStep(Xor(c, Word(b0, b1, b2, b3))))))
            == OctetStep(OctetStep(OctetStep(OctetStep(c, b0), b1), b2), b3)
  {
    hide *;
    var x := Xor(c, Word(b0, b1, b2, b3));
    TableStepIsShift8(x);
    TableStepIsShift8(Shift8(x));
    TableStepIsShift8(Shift8(Shift8(x)));
    TableStepIsShift8(Shift8(Shift8(Shift8(x))));
    WordIsFourOctets(c, b0, b1, b2, b3);
  }

  lemma SwapXor(x: bv32, y: bv32)
    ensures Swap(Xor(x, y)) == Xor(Swap(x), Swap(y))
  {
  }

  lemma SwapSwap(x: bv32)
    ensures Swap(Swap(x)) == x
  {
  }

  function Up8(w: bv32): bv32 { w << 8 }

  function TopOctet(w: bv32): bv8 { (w >> 24) as bv8 }

  lemma SwapParts(c: bv32)
    ensures TopOctet(Swap(c)) == Octet(c) && Up8(Swap(c)) == Swap(Down8(c))
  {
  }

  lemma OctetStepsAre(c: bv32, o: bv8)
    ensures TableOctet(c, o) == Xor(CrcTab(Octet(c) ^ o), Down8(c))
    ensures TableStepBig(c) == Xor(CrcTabBig(TopOctet(c)), Up8(c))
    ensures TableOctetBig(c, o) == Xor(CrcTabBig(TopOctet(c) ^ o), Up8(c))
  {
    hide Xor, CrcTab, CrcTabBig;
  }

  // The big-endian build does the same steps on byte-swapped registers.
  lemma BigSteps(c: bv32, o: bv8)
    ensures TableStepBig(Swap(c)) == Swap(TableStep(c))
    ensures TableOctetBig(Swap(c), o) == Swap(TableOctet(c, o))
  {
    hide *;
    SwapParts(c);
    var i, j := Octet(c), Octet(c) ^ o;
    TableStepIs(c);
    OctetStepsAre(c, o);
    OctetStepsAre(Swap(c), o);
    TablesHold(i);
    TablesHold(j);
    SwapXor(CrcTab(i), Down8(c));
    SwapXor(CrcTab(j), Down8(c));
  }

  lemma SwapWord(b0: bv8, b1: bv8, b2: bv8, b3: bv8)
    ensures Word(b3, b2, b1, b0) == Swap(Word(b0, b1, b2, b3))
  {
  }
}
