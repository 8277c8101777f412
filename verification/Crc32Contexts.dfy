/**
 The three builds of `pj_crc32_context`: with tables on a little-endian machine, with tables on a
 big-endian machine, and bit by bit. `Feed` is what they all compute.
 */
module Crc32 {
  import opened Folds
  import opened Crc32Spec
  import opened Crc32Steps
  import opened Crc32Tables

  function Feed(s: bv32, data: seq<bv8>): bv32 { Fold(OctetStep, s, data) }

  lemma FeedIs(s: bv32, data: seq<bv8>)
    ensures Feed(s, data) == Fold(OctetStep, s, data)
  {
  }

  lemma FeedNone(s: bv32, data: seq<bv8>)
    ensures Feed(s, data[..0]) == s
  {
    hide *;
    FeedIs(s, data[..0]);
    FoldNone(OctetStep, s);
    assert data[..0] == [];
  }

  lemma FeedOctet(s: bv32, data: seq<bv8>, i: nat)
    requires i < |data|
    ensures Feed(s, data[..i + 1]) == OctetStep(Feed(s, data[..i]), data[i])
  {
    hide *;
    FeedIs(s, data[..i]);
    FeedIs(s, data[..i + 1]);
    FoldSnoc(OctetStep, s, data, i);
  }

  lemma FeedWord(s: bv32, data: seq<bv8>, i: nat)
    requires i + 4 <= |data|
    ensures Feed(s, data[..i + 4])
            == TableStep(TableStep(TableStep(TableStep(Xor(Feed(s, data[..i]), Word(data[i], data[i + 1], data[i + 2], data[i + 3]))))))
  {
    hide *;
    FeedOctet(s, data, i);
    FeedOctet(s, data, i + 1);
    FeedOctet(s, data, i + 2);
    FeedOctet(s, data, i + 3);
    WordIsTableSteps(Feed(s, data[..i]), data[i], data[i + 1], data[i + 2], data[i + 3]);
  }

  // A message fed in two pieces is fed at once.
  lemma FeedAppend(s: bv32, a: seq<bv8>, b: seq<bv8>)
    ensures Feed(s, a + b) == Feed(Feed(s, a), b)
  {
    hide *;
    FeedIs(s, a + b);
    FeedIs(s, a);
    FeedIs(Feed(s, a), b);
    FoldAppend(OctetStep, s, a, b);
  }

  function Join(pieces: seq<seq<bv8>>): seq<bv8> {
    if pieces == [] then [] else pieces[0] + Join(pieces[1..])
  }

  function FeedPieces(s: bv32, pieces: seq<seq<bv8>>): bv32
    decreases |pieces|
  {
    if pieces == [] then s else FeedPieces(Feed(s, pieces[0]), pieces[1..])
  }

  // So is a message fed in any number of pieces, empty ones among them.
  lemma {:induction false} FeedJoins(s: bv32, pieces: seq<seq<bv8>>)
    ensures FeedPieces(s, pieces) == Feed(s, Join(pieces))
    decreases |pieces|
  {
    hide Feed;
    if pieces == [] {
      FeedNone(s, []);
    } else {
      FeedJoins(Feed(s, pieces[0]), pieces[1..]);
      FeedAppend(s, pieces[0], Join(pieces[1..]));
    }
  }

  // The piece at `i`, fed behind those in front of it.
  lemma {:induction false} FeedNextPiece(s: bv32, pieces: seq<seq<bv8>>, i: nat)
    requires i < |pieces|
    ensures FeedPieces(s, pieces[..i + 1]) == Feed(FeedPieces(s, pieces[..i]), pieces[i])
    decreases i
  {
    hide Feed;
    if i > 0 {
      FeedNextPiece(Feed(s, pieces[0]), pieces[1..], i - 1);
      assert pieces[..i + 1][1..] == pieces[1..][..i] && pieces[..i][1..] == pieces[1..][..i - 1];
    }
  }

  lemma FeedIsCrc(data: seq<bv8>)
    ensures Xor(Feed(CRC32_NEGL, data), CRC32_NEGL) == Crc(data)
  {
    hide *;
    FeedIs(CRC32_NEGL, data);
    FeedIsBits(CRC32_NEGL, data);
    CrcIs(data);
  }

  // A checksum as octets, lowest first.
  function Trailer(c: bv32): seq<bv8> { [Octet(c), Octet(Down8(c)), Octet(Down8(Down8(c))), Octet(Down8(Down8(Down8(c))))] }

  lemma TrailerIs(c: bv32)
    ensures |Trailer(c)| == 4 && Word(Trailer(c)[0], Trailer(c)[1], Trailer(c)[2], Trailer(c)[3]) == c
  {
  }

  lemma OnesStepped()
    ensures TableStep(0xFFFFFFFF) == 0x2DFD1072
    ensures TableStep(0x2DFD1072) == 0xBE26ED00
    ensures TableStep(0xBE26ED00) == 0x00BE26ED
    ensures TableStep(0x00BE26ED) == 0xDEBB20E3
  {
    assert CrcTab(0xFF) == 0x2D02EF8D;
    assert CrcTab(0x72) == 0xBE0B1010;
    assert CrcTab(0x00) == 0x00000000;
    assert CrcTab(0xED) == 0xDEBB9EC5;
  }

  lemma XorWithSelf(s: bv32)
    ensures Xor(s, Xor(s, CRC32_NEGL)) == 0xffffffff
  {
  }

  // Main result for the receiver: a message with its checksum behind it leaves one and the same residue.
  lemma ResidueIsFixed(m: seq<bv8>)
    ensures Feed(CRC32_NEGL, m + Trailer(Crc(m))) == 0xDEBB20E3
    ensures Crc(m + Trailer(Crc(m))) == 0x2144DF1C
  {
    hide *;
    var s, t := Feed(CRC32_NEGL, m), Trailer(Crc(m));
    FeedIsCrc(m);
    FeedIsCrc(m + t);
    TrailerIs(Crc(m));
    FeedAppend(CRC32_NEGL, m, t);
    FeedWord(s, t, 0);
    FeedNone(s, t);
    assert t[..0 + 4] == t;
    XorWithSelf(s);
    OnesStepped();
    ResidueComplement();
  }

  lemma ResidueComplement()
    ensures Xor(0xDEBB20E3, CRC32_NEGL) == 0x2144DF1C
  {
  }

  // Octets in front of a message go unnoticed exactly when they lead the preset register back to itself.
  lemma PrefixShowsExactly(front: seq<bv8>, m: seq<bv8>)
    ensures Crc(front + m) == Crc(m) <==> Feed(CRC32_NEGL, front) == CRC32_NEGL
  {
    hide *;
    FeedIsCrc(front + m);
    FeedIsCrc(m);
    FeedAppend(CRC32_NEGL, front, m);
    var s := Feed(CRC32_NEGL, front);
    if Crc(front + m) == Crc(m) {
      XorCancelsRight(CRC32_NEGL, Feed(s, m), Feed(CRC32_NEGL, m));
      FeedIs(s, m);
      FeedIs(CRC32_NEGL, m);
      FeedIsBits(s, m);
      FeedIsBits(CRC32_NEGL, m);
      FeedBitsIsInjective(s, CRC32_NEGL, Bits(m));
    }
  }

  lemma ZerosFed()
    ensures Feed(CRC32_NEGL, [0]) == 0x2DFD1072
    ensures Feed(CRC32_NEGL, [0, 0]) == 0xBE26ED00
    ensures Feed(CRC32_NEGL, [0, 0, 0]) == 0x00BE26ED
    ensures Feed(CRC32_NEGL, [0, 0, 0, 0]) == 0xDEBB20E3
  {
    hide *;
    var z: seq<bv8> := [0, 0, 0, 0];
    OnesStepped();
    PresetIs();
    FeedNone(CRC32_NEGL, z);
    FeedOctet(CRC32_NEGL, z, 0);
    FeedOctet(CRC32_NEGL, z, 1);
    FeedOctet(CRC32_NEGL, z, 2);
    FeedOctet(CRC32_NEGL, z, 3);
    ZeroStep(CRC32_NEGL);
    ZeroStep(0x2DFD1072);
    ZeroStep(0xBE26ED00);
    ZeroStep(0x00BE26ED);
    assert z[..1] == [0] && z[..2] == [0, 0] && z[..3] == [0, 0, 0] && z[..4] == z;
  }

  lemma PresetIs()
    ensures CRC32_NEGL == 0xFFFFFFFF
  {
  }

  lemma ZeroStep(c: bv32)
    ensures OctetStep(c, 0) == TableStep(c)
  {
    hide *;
    TableOctetIsOctetStep(c, 0);
    TableOctetIsStep(c, 0);
    XorZero(c);
  }

  // Leading zeros show: one to four of them always change the checksum.
  lemma LeadingZerosShow(zeros: seq<bv8>, m: seq<bv8>)
    requires 1 <= |zeros| <= 4 && forall i :: 0 <= i < |zeros| ==> zeros[i] == 0
    ensures Crc(zeros + m) != Crc(m)
  {
    hide *;
    PrefixShowsExactly(zeros, m);
    ZerosFed();
    PresetIs();
    assert zeros == [0] || zeros == [0, 0] || zeros == [0, 0, 0] || zeros == [0, 0, 0, 0];
  }

  lemma CheckSteps123()
    ensures TableOctet(0xFFFFFFFF, 0x31) == 0x7C231048
    ensures TableOctet(0x7C231048, 0x32) == 0xB0ACBB32
    ensures TableOctet(0xB0ACBB32, 0x33) == 0x77B79C2D
  {
    assert CrcTab(0xCE) == 0x7CDCEFB7;
    assert CrcTab(0x7A) == 0xB0D09822;
    assert CrcTab(0x01) == 0x77073096;
  }

  lemma CheckSteps456()
    ensures TableOctet(0x77B79C2D, 0x34) == 0x641C1F5C
    ensures TableOctet(0x641C1F5C, 0x35) == 0x340AC5E3
    ensures TableOctet(0x340AC5E3, 0x36) == 0xF68D2C9E
  {
    assert CrcTab(0x19) == 0x646BA8C0;
    assert CrcTab(0x69) == 0x346ED9FC;
    assert CrcTab(0xD5) == 0xF6B9265B;
  }

  lemma CheckSteps789()
    ensures TableOctet(0xF68D2C9E, 0x37) == 0xAFFC9660
    ensures TableOctet(0xAFFC9660, 0x38) == 0x651F2550
    ensures TableOctet(0x651F2550, 0x39) == 0x340BC6D9
  {
    assert CrcTab(0xA9) == 0xAF0A1B4C;
    assert CrcTab(0x58) == 0x65B0D9C6;
    assert CrcTab(0x69) == 0x346ED9FC;
  }

  lemma CheckStep(data: seq<bv8>, i: nat)
    requires i < |data|
    ensures Feed(CRC32_NEGL, data[..i + 1]) == TableOctet(Feed(CRC32_NEGL, data[..i]), data[i])
  {
    hide *;
    FeedOctet(CRC32_NEGL, data, i);
    TableOctetIsOctetStep(Feed(CRC32_NEGL, data[..i]), data[i]);
  }

  // The check value of the standard, for the digits 1 to 9, and that of a single zero.
  lemma CheckValues()
    ensures Crc([0x31, 0x32, 0x33, 0x34, 0x35, 0x36, 0x37, 0x38, 0x39]) == 0xCBF43926
    ensures Crc([0]) == 0xD202EF8D && Crc([]) == 0
  {
    hide *;
    var d: seq<bv8> := [0x31, 0x32, 0x33, 0x34, 0x35, 0x36, 0x37, 0x38, 0x39];
    PresetIs();
    CheckSteps123();
    CheckSteps456();
    CheckSteps789();
    FeedNone(CRC32_NEGL, d);
    CheckStep(d, 0);
    CheckStep(d, 1);
    CheckStep(d, 2);
    CheckStep(d, 3);
    CheckStep(d, 4);
    CheckStep(d, 5);
    CheckStep(d, 6);
    CheckStep(d, 7);
    CheckStep(d, 8);
    assert d[..9] == d;
    FeedIsCrc(d);
    ZerosFed();
    FeedIsCrc([0]);
    FeedIsCrc([]);
    FeedNone(CRC32_NEGL, []);
    Complements();
  }

  lemma Complements()
    ensures Xor(0x340BC6D9, CRC32_NEGL) == 0xCBF43926 && Xor(0x2DFD1072, CRC32_NEGL) == 0xD202EF8D && Xor(CRC32_NEGL, CRC32_NEGL) == 0
  {
  }

  lemma XorTwice(x: bv32)
    ensures Xor(Xor(x, CRC32_NEGL), CRC32_NEGL) == x && Xor(0, CRC32_NEGL) == CRC32_NEGL
  {
  }

  // PJ_CRC32_HAS_TABLES on a little-endian machine.
  class TableContext {
    var crcState: bv32

    constructor ()
      ensures crcState == 0
    {
      crcState := 0;
    }

    // `address` is where the data starts: octets up to a word boundary go one by one, then whole
    // words, then the rest.
    method Update(data: seq<bv8>, address: nat) returns (crc: bv32)
      modifies this
      ensures crcState == Xor(Feed(Xor(old(crcState), CRC32_NEGL), data), CRC32_NEGL)
      ensures crc == crcState
    {
      hide *;
      ghost var start := Xor(crcState, CRC32_NEGL);
      crc := Xor(crcState, CRC32_NEGL);
      var p := 0;
      FeedNone(start, data);
      while (address + p) % 4 != 0 && p < |data|
        decreases |data| - p
        invariant p <= |data| && crc == Feed(start, data[..p])
      {
        FeedOctet(start, data, p);
        TableOctetIsOctetStep(crc, data[p]);
        crc := TableOctet(crc, data[p]);
        p := p + 1;
      }
      while |data| - p >= 4
        invariant p <= |data| && crc == Feed(start, data[..p])
      {
        FeedWord(start, data, p);
        crc := Xor(crc, Word(data[p], data[p + 1], data[p + 2], data[p + 3]));
        crc := TableStep(crc);
        crc := TableStep(crc);
        crc := TableStep(crc);
        crc := TableStep(crc);
        p := p + 4;
      }
      while p < |data|
        invariant p <= |data| && crc == Feed(start, data[..p])
      {
        FeedOctet(start, data, p);
        TableOctetIsOctetStep(crc, data[p]);
        crc := TableOctet(crc, data[p]);
        p := p + 1;
      }
      assert data[..p] == data;
      crcState := Xor(crc, CRC32_NEGL);
      crc := crcState;
    }

    method Final() returns (crc: bv32)
      ensures crc == crcState
    {
      crc := crcState;
    }
  }

  // PJ_CRC32_HAS_TABLES on a big-endian machine: the register is kept in the other byte order.
  class BigEndianContext {
    var crcState: bv32

    constructor ()
      ensures crcState == 0
    {
      crcState := 0;
    }

    method Update(data: seq<bv8>, address: nat) returns (crc: bv32)
      modifies this
      ensures Swap(crcState) == Xor(Feed(Xor(Swap(old(crcState)), CRC32_NEGL), data), CRC32_NEGL)
      ensures crc == crcState
    {
      hide *;
      ghost var start := Xor(Swap(crcState), CRC32_NEGL);
      ghost var little := start;
      crc := Xor(crcState, CRC32_NEGL);
      SwapNegl(Swap(crcState));
      SwapSwap(crcState);
      var p := 0;
      FeedNone(start, data);
      while (address + p) % 4 != 0 && p < |data|
        decreases |data| - p
        invariant p <= |data| && little == Feed(start, data[..p]) && crc == Swap(little)
      {
        FeedOctet(start, data, p);
        TableOctetIsOctetStep(little, data[p]);
        BigSteps(little, data[p]);
        crc := TableOctetBig(crc, data[p]);
        little := TableOctet(little, data[p]);
        p := p + 1;
      }
      while |data| - p >= 4
        invariant p <= |data| && little == Feed(start, data[..p]) && crc == Swap(little)
      {
        FeedWord(start, data, p);
        SwapWord(data[p], data[p + 1], data[p + 2], data[p + 3]);
        SwapXor(little, Word(data[p], data[p + 1], data[p + 2], data[p + 3]));
        crc := Xor(crc, Word(data[p + 3], data[p + 2], data[p + 1], data[p]));
        little := Xor(little, Word(data[p], data[p + 1], data[p + 2], data[p + 3]));
        BigSteps(little, 0);
        crc, little := TableStepBig(crc), TableStep(little);
        BigSteps(little, 0);
        crc, little := TableStepBig(crc), TableStep(little);
        BigSteps(little, 0);
        crc, little := TableStepBig(crc), TableStep(little);
        BigSteps(little, 0);
        crc, little := TableStepBig(crc), TableStep(little);
        p := p + 4;
      }
      while p < |data|
        invariant p <= |data| && little == Feed(start, data[..p]) && crc == Swap(little)
      {
        FeedOctet(start, data, p);
        TableOctetIsOctetStep(little, data[p]);
        BigSteps(little, data[p]);
        crc := TableOctetBig(crc, data[p]);
        little := TableOctet(little, data[p]);
        p := p + 1;
      }
      assert data[..p] == data;
      SwapNegl(little);
      crcState := Xor(crc, CRC32_NEGL);
      SwapSwap(Xor(little, CRC32_NEGL));
      crc := crcState;
    }

    method Final() returns (crc: bv32)
      ensures crc == Swap(crcState)
    {
      crc := Swap(crcState);
    }
  }

  lemma SwapNegl(c: bv32)
    ensures Swap(Xor(c, CRC32_NEGL)) == Xor(Swap(c), CRC32_NEGL)
  {
    SwapXor(c, CRC32_NEGL);
  }

  // Without tables.
  class BitwiseContext {
    var crcState: bv32

    constructor ()
      ensures crcState == CRC32_NEGL
    {
      crcState := CRC32_NEGL;
    }

    method Update(octets: seq<bv8>) returns (value: bv32)
      modifies this
      ensures crcState == Feed(old(crcState), octets)
      ensures value == Xor(crcState, CRC32_NEGL)
    {
      hide *;
      ghost var start := crcState;
      var crc := crcState;
      var p := 0;
      FeedNone(start, octets);
      while p < |octets|
        invariant p <= |octets| && crc == Feed(start, octets[..p])
      {
        FeedOctet(start, octets, p);
        crc := ShiftOctet(crc, octets[p]);
        p := p + 1;
      }
      assert octets[..p] == octets;
      crcState := crc;
      value := Xor(crc, CRC32_NEGL);
    }

    method Final() returns (crc: bv32)
      modifies this
      ensures crc == crcState == Xor(old(crcState), CRC32_NEGL)
    {
      crcState := Xor(crcState, CRC32_NEGL);
      crc := crcState;
    }
  }

  // The inner loop of the bitwise build: eight shifts of the low octet, then the rest combined.
  method ShiftOctet(crc: bv32, octet: bv8) returns (next: bv32)
    ensures next == OctetStep(crc, octet)
  {
    hide *;
    var temp := LowCombined(crc, octet);
    ghost var x := temp;
    IterateNone(Shift, x);
    for j := 0 to 8
      invariant temp == Iterate(Shift, x, j)
    {
      IterateAdds(Shift, x, j, 1);
      IterateOne(Shift, temp);
      temp := Shift(temp);
    }
    next := Xor(Down8(crc), temp);
    ShiftLowOctet(crc, octet);
  }

  // (crc & 0xFF) ^ octet.
  function LowCombined(crc: bv32, octet: bv8): bv32 { (Octet(crc) ^ octet) as bv32 }

  lemma ShiftLowOctet(crc: bv32, octet: bv8)
    ensures Xor(Down8(crc), Iterate(Shift, LowCombined(crc, octet), 8)) == OctetStep(crc, octet)
  {
    hide *;
    var i := Octet(crc) ^ octet;
    Shift8Is(LowCombined(crc, octet));
    LowCombinedIs(crc, octet);
    TablesHold(i);
    OctetStepsAre(crc, octet);
    TableOctetIsOctetStep(crc, octet);
    XorCommutes(Down8(crc), Shift8(i as bv32));
  }

  lemma LowCombinedIs(crc: bv32, octet: bv8)
    ensures LowCombined(crc, octet) == (Octet(crc) ^ octet) as bv32
  {
  }

  lemma XorCommutes(x: bv32, y: bv32)
    ensures Xor(x, y) == Xor(y, x)
  {
  }

  // pj_crc32_calc in each build: one and the same checksum, whatever the address.
  method CalcTable(data: seq<bv8>, address: nat) returns (crc: bv32)
    ensures crc == Crc(data)
  {
    hide *;
    var ctx := new TableContext();
    XorTwice(0);
    FeedIsCrc(data);
    crc := ctx.Update(data, address);
    crc := ctx.Final();
  }

  method CalcBigEndian(data: seq<bv8>, address: nat) returns (crc: bv32)
    ensures crc == Crc(data)
  {
    hide *;
    var ctx := new BigEndianContext();
    XorTwice(0);
    SwapZero();
    FeedIsCrc(data);
    crc := ctx.Update(data, address);
    crc := ctx.Final();
  }

  lemma SwapZero()
    ensures Swap(0) == 0
  {
  }

  method CalcBitwise(data: seq<bv8>) returns (crc: bv32)
    ensures crc == Crc(data)
  {
    hide *;
    var ctx := new BitwiseContext();
    FeedIsCrc(data);
    crc := ctx.Update(data);
    crc := ctx.Final();
  }

  // A message handed to a context piece by piece, each piece wherever it happens to lie, gets the checksum of the
  // whole: pj_crc32_init, any number of pj_crc32_update, pj_crc32_final.
  method CalcTablePieces(pieces: seq<seq<bv8>>, addresses: seq<nat>) returns (crc: bv32)
    requires |addresses| == |pieces|
    ensures crc == Crc(Join(pieces))
  {
    hide Feed, Crc, Xor;
    var ctx := new TableContext();
    XorTwice(0);
    for i := 0 to |pieces|
      invariant ctx.crcState == Xor(FeedPieces(CRC32_NEGL, pieces[..i]), CRC32_NEGL) && fresh(ctx)
    {
      XorTwice(FeedPieces(CRC32_NEGL, pieces[..i]));
      FeedNextPiece(CRC32_NEGL, pieces, i);
      crc := ctx.Update(pieces[i], addresses[i]);
    }
    assert pieces[..|pieces|] == pieces;
    FeedJoins(CRC32_NEGL, pieces);
    FeedIsCrc(Join(pieces));
    crc := ctx.Final();
  }

  method CalcBigEndianPieces(pieces: seq<seq<bv8>>, addresses: seq<nat>) returns (crc: bv32)
    requires |addresses| == |pieces|
    ensures crc == Crc(Join(pieces))
  {
    hide Feed, Crc, Xor, Swap;
    var ctx := new BigEndianContext();
    XorTwice(0);
    SwapZero();
    for i := 0 to |pieces|
      invariant Swap(ctx.crcState) == Xor(FeedPieces(CRC32_NEGL, pieces[..i]), CRC32_NEGL) && fresh(ctx)
    {
      XorTwice(FeedPieces(CRC32_NEGL, pieces[..i]));
      FeedNextPiece(CRC32_NEGL, pieces, i);
      crc := ctx.Update(pieces[i], addresses[i]);
    }
    assert pieces[..|pieces|] == pieces;
    FeedJoins(CRC32_NEGL, pieces);
    FeedIsCrc(Join(pieces));
    crc := ctx.Final();
  }

  method CalcBitwisePieces(pieces: seq<seq<bv8>>) returns (crc: bv32)
    ensures crc == Crc(Join(pieces))
  {
    hide Feed, Crc, Xor;
    var ctx := new BitwiseContext();
    for i := 0 to |pieces|
      invariant ctx.crcState == FeedPieces(CRC32_NEGL, pieces[..i]) && fresh(ctx)
    {
      FeedNextPiece(CRC32_NEGL, pieces, i);
      crc := ctx.Update(pieces[i]);
    }
    assert pieces[..|pieces|] == pieces;
    FeedJoins(CRC32_NEGL, pieces);
    FeedIsCrc(Join(pieces));
    crc := ctx.Final();
  }
}
