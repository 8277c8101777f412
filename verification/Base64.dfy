/**
 Base64 (sections 4 and 3.3 of RFC 4648): the encoder and the decoder that skips what it does not
 know. Octets are numbers here, so a mask is a remainder, a shift a product or quotient, and `|` of
 disjoint bits a sum; remainders are never negative, which is what masking a negative int gives.
 */
module Base64 {
  import opened Bytes

  type sextet = x: int | 0 <= x < 64

  const INV := -1
  const PADDING := '='

  // The table base64_char: its entries run A-Z, a-z, 0-9, + and /.
  function Base64Char(i: sextet): char {
    if i < 26 then ('A' as int + i) as char
    else if i < 52 then ('a' as int + i - 26) as char
    else if i < 62 then ('0' as int + i - 52) as char
    else if i == 62 then '+'
    else '/'
  }

  function Base256Char(c: char): (r: int)
    ensures INV <= r < 64
  {
    if 'A' <= c <= 'Z' then c as int - 'A' as int
    else if 'a' <= c <= 'z' then c as int - 'a' as int + 26
    else if '0' <= c <= '9' then c as int - '0' as int + 52
    else if c == '+' then 62
    else if c == '/' then 63
    else INV
  }

  // Table 1 of RFC 4648.
  const UPPER := "ABCDEFGHIJKLMNOPQRSTUVWXYZ"
  const LOWER := "abcdefghijklmnopqrstuvwxyz"
  const OTHERS := "0123456789+/"

  lemma AlphabetIsStandard(i: sextet)
    ensures Base64Char(i) == if i < 26 then UPPER[i] else if i < 52 then LOWER[i - 26] else OTHERS[i - 52]
  {
    if i < 26 {
      UpperAt(i);
    } else if i < 52 {
      LowerAt(i - 26);
    } else {
      OtherAt(i - 52);
    }
  }

  lemma UpperAt(k: nat)
    requires k < 26
    ensures UPPER[k] == Base64Char(k)
  {
    match k
    case 0 => case 1 => case 2 => case 3 => case 4 => case 5 => case 6 => case 7 => case 8 =>
    case 9 => case 10 => case 11 => case 12 => case 13 => case 14 => case 15 => case 16 => case 17 =>
    case 18 => case 19 => case 20 => case 21 => case 22 => case 23 => case 24 => case _ =>
  }

  lemma LowerAt(k: nat)
    requires k < 26
    ensures LOWER[k] == Base64Char(k + 26)
  {
    match k
    case 0 => case 1 => case 2 => case 3 => case 4 => case 5 => case 6 => case 7 => case 8 =>
    case 9 => case 10 => case 11 => case 12 => case 13 => case 14 => case 15 => case 16 => case 17 =>
    case 18 => case 19 => case 20 => case 21 => case 22 => case 23 => case 24 => case _ =>
  }

  lemma OtherAt(k: nat)
    requires k < 12
    ensures OTHERS[k] == Base64Char(k + 52)
  {
    match k
    case 0 => case 1 => case 2 => case 3 => case 4 => case 5 => case 6 => case 7 => case 8 => case 9 => case 10 => case _ =>
  }

  predicate Known(c: char) { Base256Char(c) != INV }

  lemma CharRoundTrip(i: sextet)
    ensures Base256Char(Base64Char(i)) == i
  {
  }

  lemma KnownRoundTrip(c: char)
    requires Known(c)
    ensures Base64Char(Base256Char(c)) == c
  {
  }

  // The four sextets of three octets.
  function Sextet0(c1: byte): sextet { c1 / 4 }
  function Sextet1(c1: byte, c2: byte): sextet { c1 % 4 * 16 + c2 / 16 }
  function Sextet2(c2: byte, c3: byte): sextet { c2 % 16 * 4 + c3 / 64 }
  function Sextet3(c3: byte): sextet { c3 % 64 }

  // The 24 bits of a group, most significant first, are the same in octets and in sextets.
  lemma SameBits(c1: byte, c2: byte, c3: byte)
    ensures Sextet0(c1) * 0x4_0000 + Sextet1(c1, c2) * 0x1000 + Sextet2(c2, c3) * 0x40 + Sextet3(c3)
         == c1 as int * 0x1_0000 + c2 as int * 0x100 + c3 as int
  {
  }

  // base256to64
  function Quad(c1: byte, c2: byte, c3: byte, padding: nat): (q: string)
    ensures |q| == 4
  {
    [Base64Char(Sextet0(c1)), Base64Char(Sextet1(c1, c2))]
    + if padding == 0 then [Base64Char(Sextet2(c2, c3)), Base64Char(Sextet3(c3))]
      else if padding == 1 then [Base64Char(Sextet2(c2, c3)), PADDING]
      else [PADDING, PADDING]
  }

  function EncodeText(b: seq<byte>): (t: string)
    ensures |t| == (|b| + 2) / 3 * 4
  {
    if b == [] then []
    else if |b| == 1 then Quad(b[0], 0, 0, 2)
    else if |b| == 2 then Quad(b[0], b[1], 0, 1)
    else Quad(b[0], b[1], b[2], 0) + EncodeText(b[3..])
  }

  datatype Status = Success | TooSmall

  function Base256ToBase64Len(len: nat): nat { len * 4 / 3 + 3 }

  function Base64ToBase256Len(len: nat): nat { len * 3 / 4 }

  // pj_base64_encode; `room` is *out_len on entry and `len` what it is on return.
  method Encode(input: seq<byte>, output: array<char>, room: nat) returns (status: Status, len: nat)
    requires room <= output.Length
    modifies output
    ensures status == if room >= Base256ToBase64Len(|input|) then Success else TooSmall
    ensures status.Success? ==> len == |EncodeText(input)| <= room && output[..] == EncodeText(input) + old(output[..])[len..]
    ensures status.TooSmall? ==> output[..] == old(output[..]) && len == room
  {
    hide Quad, EncodeText;
    if room < Base256ToBase64Len(|input|) {
      return TooSmall, room;
    }
    var i, po := 0, 0;
    ghost var was, all := output[..], EncodeText(input);
    while i < |input|
      invariant i <= |input| && po + |EncodeText(input[i..])| == |all|
      invariant output[..] == all[..po] + was[po..] && EncodeText(input[i..]) == all[po..]
    {
      ghost var before := output[..];
      ghost var q;
      i, q := EncodeGroup(input, i, output, po);
      WriteAdvances(all, was, before, output[..], po, q, EncodeText(input[i..]));
      po := po + 4;
    }
    assert input[|input|..] == [];
    EncodeSteps(0, 0, 0, []);
    assert all[..po] == all;
    return Success, po;
  }

  // The loop body: one, two or three octets become four characters.
  method EncodeGroup(input: seq<byte>, from: nat, output: array<char>, po: nat) returns (i: nat, ghost q: string)
    requires from < |input| && po + 4 <= output.Length
    modifies output
    ensures from < i <= |input| && |q| == 4
    ensures output[..] == old(output[..po]) + q + old(output[po + 4..])
    ensures EncodeText(input[from..]) == q + EncodeText(input[i..])
  {
    hide Quad, EncodeText;
    i := from;
    var c1 := input[i];
    i := i + 1;
    if i == |input| {
      assert input[from..] == [c1] && input[i..] == [];
      EncodeSteps(c1, 0, 0, []);
      Base256To64(c1, 0, 0, 2, output, po);
      q := Quad(c1, 0, 0, 2);
    } else {
      var c2 := input[i];
      i := i + 1;
      if i == |input| {
        assert input[from..] == [c1, c2] && input[i..] == [];
        EncodeSteps(c1, c2, 0, []);
        Base256To64(c1, c2, 0, 1, output, po);
        q := Quad(c1, c2, 0, 1);
      } else {
        var c3 := input[i];
        i := i + 1;
        assert input[from..] == [c1, c2, c3] + input[i..];
        EncodeSteps(c1, c2, c3, input[i..]);
        Base256To64(c1, c2, c3, 0, output, po);
        q := Quad(c1, c2, c3, 0);
      }
    }
  }

  lemma EncodeSteps(c1: byte, c2: byte, c3: byte, rest: seq<byte>)
    ensures EncodeText([]) == []
    ensures EncodeText([c1]) == Quad(c1, 0, 0, 2) + []
    ensures EncodeText([c1, c2]) == Quad(c1, c2, 0, 1) + []
    ensures EncodeText([c1, c2, c3] + rest) == Quad(c1, c2, c3, 0) + EncodeText(rest)
  {
    hide Quad;
    assert ([c1, c2, c3] + rest)[3..] == rest;
  }

  method Base256To64(c1: byte, c2: byte, c3: byte, padding: nat, output: array<char>, po: nat)
    requires po + 4 <= output.Length
    modifies output
    ensures output[..] == old(output[..po]) + Quad(c1, c2, c3, padding) + old(output[po + 4..])
  {
    output[po] := Base64Char(c1 / 4);
    output[po + 1] := Base64Char(c1 % 4 * 16 + c2 / 16);
    match padding {
      case 0 =>
        output[po + 2] := Base64Char(c2 % 16 * 4 + c3 / 64);
        output[po + 3] := Base64Char(c3 % 64);
      case 1 =>
        output[po + 2] := Base64Char(c2 % 16 * 4 + c3 / 64);
        output[po + 3] := PADDING;
      case _ =>
        output[po + 2] := PADDING;
        output[po + 3] := PADDING;
    }
  }

  function Strip(s: string): (t: string)
    ensures |t| <= |s| && t == s[..|t|] && (t == [] || t[|t| - 1] != PADDING)
  {
    if s != [] && s[|s| - 1] == PADDING then Strip(s[..|s| - 1]) else s
  }

  // What the decoder's inner loop puts into c[]: every known character, and INV if the text runs
  // out on an unknown one.
  function Slots(t: string): (r: seq<int>)
    ensures |r| <= |t|
    ensures forall k :: 0 <= k < |r| ==> INV <= r[k] < 64
  {
    if t == [] then []
    else if Known(t[0]) then [Base256Char(t[0])] + Slots(t[1..])
    else if |t| == 1 then [INV]
    else Slots(t[1..])
  }

  function First(c0: int, c1: int): byte { (c0 * 4 + c1 / 16 % 4) % 256 }
  function Second(c1: int, c2: int): byte { c1 % 16 * 16 + c2 / 4 % 16 }
  function Third(c2: int, c3: int): byte { c2 % 4 * 64 + c3 % 64 }

  function Octets(c: seq<int>): (b: seq<byte>)
    ensures |b| == |c| * 3 / 4
  {
    if |c| < 2 then []
    else if |c| == 2 then [First(c[0], c[1])]
    else if |c| == 3 then [First(c[0], c[1]), Second(c[1], c[2])]
    else [First(c[0], c[1]), Second(c[1], c[2]), Third(c[2], c[3])] + Octets(c[4..])
  }

  function DecodeText(s: string): seq<byte> { Octets(Slots(Strip(s))) }

  // pj_base64_decode; `room` is *out_len on entry and `len` what it is on return.
  method Decode(input: string, out: array<byte>, room: nat) returns (status: Status, len: nat)
    requires room <= out.Length
    modifies out
    ensures status == if room >= Base64ToBase256Len(|Strip(input)|) then Success else TooSmall
    ensures status.Success? ==> len == |DecodeText(input)| <= room && out[..] == DecodeText(input) + old(out[..])[len..]
    ensures status.TooSmall? ==> out[..] == old(out[..]) && len == room
  {
    hide Strip, Slots, Octets;
    NothingLeft();
    len := StrippedLength(input);
    if room < Base64ToBase256Len(len) {
      return TooSmall, room;
    }
    var i, j := 0, 0;
    var text := input[..len];
    ghost var was, all := out[..], Octets(Slots(text));
    while i < len
      invariant i <= len && j + |Octets(Slots(text[i..]))| == |all|
      invariant out[..] == all[..j] + was[j..] && Octets(Slots(text[i..])) == all[j..]
      decreases len - i
    {
      var c;
      ghost var rest := all[j..];
      c, i := FillGroup(text, i);
      OctetsSplit(c, Slots(text[i..]));
      assert rest == Octets(c) + Octets(Slots(text[i..]));
      ghost var j0 := j;
      j := PutGroup(c, out, j);
      assert all[..j] == all[..j0] + Octets(c);
      assert out[..] == all[..j] + was[j..];
      if |c| < 4 {
        break;
      }
    }
    assert text[len..] == [];
    assert all[..j] == all;
    return Success, j;
  }

  lemma NothingLeft()
    ensures Slots("") == [] && Octets([]) == []
  {
  }

  lemma OctetsSplit(c: seq<int>, rest: seq<int>)
    requires |c| == 4 || rest == []
    ensures Octets(c + rest) == Octets(c) + Octets(rest)
  {
    if |c| == 4 {
      assert (c + rest)[4..] == rest && c[4..] == [];
    } else {
      assert c + rest == c;
    }
  }

  // The writes of one group, short or full.
  method PutGroup(c: seq<int>, out: array<byte>, at: nat) returns (j: nat)
    requires |c| <= 4 && at + |Octets(c)| <= out.Length
    modifies out
    ensures j == at + |Octets(c)|
    ensures out[..] == old(out[..at]) + Octets(c) + old(out[j..])
  {
    hide First, Second, Third;
    j := at;
    if |c| < 4 {
      if |c| > 1 {
        out[j] := First(c[0], c[1]);
        j := j + 1;
        if |c| > 2 {
          out[j] := Second(c[1], c[2]);
          j := j + 1;
        }
      }
    } else {
      assert c[4..] == [];
      out[j] := First(c[0], c[1]);
      j := j + 1;
      out[j] := Second(c[1], c[2]);
      j := j + 1;
      out[j] := Third(c[2], c[3]);
      j := j + 1;
    }
  }

  lemma ShortGroup(c: seq<int>)
    requires |c| < 2
    ensures Octets(c) == []
  {
  }

  // The loop that drops trailing padding.
  method StrippedLength(input: string) returns (len: nat)
    ensures len <= |input| && input[..len] == Strip(input)
  {
    hide Strip;
    len := |input|;
    assert input[..len] == input;
    while len > 0 && input[len - 1] == '='
      invariant len <= |input| && Strip(input) == Strip(input[..len])
    {
      StripOne(input[..len]);
      assert input[..len][..len - 1] == input[..len - 1];
      len := len - 1;
    }
    StripOne(input[..len]);
  }

  // The loop that fills c[0..k).
  method FillGroup(text: string, from: nat) returns (c: seq<int>, i: nat)
    requires from < |text|
    ensures from < i <= |text| && |c| <= 4 && (|c| < 4 ==> i == |text|)
    ensures Slots(text[from..]) == c + Slots(text[i..])
  {
    c, i := [], from;
    while |c| < 4 && i < |text|
      invariant |c| <= 4 && from <= i <= |text| && (c != [] ==> i > from)
      invariant c + Slots(text[i..]) == Slots(text[from..])
      decreases 4 - |c|
    {
      var slot;
      ghost var before := i;
      slot, i := NextSlot(text, i);
      AppendAssociates(c, [slot], Slots(text[i..]));
      c := c + [slot];
    }
  }

  lemma StripOne(t: string)
    ensures t != [] && t[|t| - 1] == '=' ==> Strip(t) == Strip(t[..|t| - 1])
    ensures t == [] || t[|t| - 1] != '=' ==> Strip(t) == t
  {
  }

  // The do-while that fills one slot.
  method NextSlot(text: string, from: nat) returns (slot: int, i: nat)
    requires from < |text|
    ensures from < i <= |text| && INV <= slot < 64
    ensures Slots(text[from..]) == [slot] + Slots(text[i..])
  {
    i := from;
    slot := Base256Char(text[i]);
    i := i + 1;
    while slot == INV && i < |text|
      invariant from < i <= |text| && slot == Base256Char(text[i - 1])
      invariant Slots(text[from..]) == Slots(text[i - 1..])
    {
      assert text[i - 1..][1..] == text[i..];
      slot := Base256Char(text[i]);
      i := i + 1;
    }
    assert text[i - 1..][1..] == text[i..];
  }

  // What is left when every unknown character, padding included, is taken out.
  function Filter(s: string): (t: string)
    ensures forall c :: c in t ==> Known(c)
    ensures |t| <= |s|
  {
    if s == [] then [] else if Known(s[0]) then [s[0]] + Filter(s[1..]) else Filter(s[1..])
  }

  function Values(t: string): (v: seq<int>)
    ensures |v| == |t|
    ensures forall k :: 0 <= k < |t| ==> v[k] == Base256Char(t[k])
  {
    seq(|t|, k requires 0 <= k < |t| => Base256Char(t[k]))
  }

  predicate EndsKnown(t: string) { t == [] || Known(t[|t| - 1]) }

  // The slots are the values of the known characters, plus one INV if the text ends unknown.
  lemma {:induction false} SlotsAreFiltered(t: string)
    ensures Slots(t) == Values(Filter(t)) + if EndsKnown(t) then [] else [INV]
    decreases |t|
  {
    if t != [] {
      SlotsAreFiltered(t[1..]);
      if |t| > 1 {
        assert EndsKnown(t) == EndsKnown(t[1..]);
      } else {
        assert t[1..] == [] && Filter(t[1..]) == [];
      }
      if Known(t[0]) {
        assert Values([t[0]] + Filter(t[1..])) == [Base256Char(t[0])] + Values(Filter(t[1..]));
      }
    }
  }

  lemma {:induction false} FilterStrip(s: string)
    ensures Filter(Strip(s)) == Filter(s)
    decreases |s|
  {
    if s != [] && s[|s| - 1] == PADDING {
      FilterSnoc(s[..|s| - 1], PADDING);
      assert s == s[..|s| - 1] + [PADDING];
      FilterStrip(s[..|s| - 1]);
    }
  }

  lemma {:induction false} FilterSnoc(s: string, c: char)
    ensures Filter(s + [c]) == Filter(s) + if Known(c) then [c] else []
    decreases |s|
  {
    if s == [] {
      assert s + [c] == [c] && [c][1..] == [];
    } else {
      assert (s + [c])[0] == s[0] && (s + [c])[1..] == s[1..] + [c];
      FilterSnoc(s[1..], c);
    }
  }

  lemma {:induction false} FilterKnown(t: string)
    requires forall c :: c in t ==> Known(c)
    ensures Filter(t) == t
    decreases |t|
  {
    if t != [] {
      assert t[0] in t;
      FilterKnown(t[1..]);
    }
  }

  lemma KnownSlots(t: string)
    requires forall c :: c in t ==> Known(c)
    ensures Strip(t) == t && Slots(t) == Values(t)
  {
    FilterKnown(t);
    SlotsAreFiltered(t);
    assert t != [] ==> t[|t| - 1] in t;
  }

  // A trailing INV adds an octet unless the groups before it are full.
  lemma {:induction false} ExtraSlot(c: seq<int>, x: int)
    ensures |c| % 4 == 0 ==> Octets(c + [x]) == Octets(c)
    decreases |c|
  {
    hide Octets;
    if |c| >= 4 {
      var head, rest := c[..4], c[4..];
      assert c == head + rest && c + [x] == head + (rest + [x]);
      OctetsSplit(head, rest);
      OctetsSplit(head, rest + [x]);
      ExtraSlot(rest, x);
    } else if c == [] {
      assert c + [x] == [x];
      NothingLeft();
      ShortGroup([x]);
    }
  }

  lemma DecodeTextIs(s: string)
    ensures DecodeText(s) == Octets(Values(Filter(s)) + if EndsKnown(Strip(s)) then [] else [INV])
    ensures DecodeText(Filter(s)) == Octets(Values(Filter(s)))
  {
    hide Strip, Filter, Slots, Octets, Known, EndsKnown;
    FilterStrip(s);
    SlotsAreFiltered(Strip(s));
    KnownSlots(Filter(s));
  }

  // Main result: skipping unknown characters is the same as removing them first exactly when,
  // after the trailing padding is stripped, the text ends in a known character or its known
  // characters fill whole groups of four.
  lemma LenientExactly(s: string)
    ensures DecodeText(s) == DecodeText(Filter(s)) <==> EndsKnown(Strip(s)) || |Filter(s)| % 4 == 0
  {
    hide *;
    DecodeTextIs(s);
    var v := Values(Filter(s));
    if EndsKnown(Strip(s)) {
      assert v + [] == v;
    } else {
      ExtraSlot(v, INV);
      assert |Octets(v + [INV])| == (|v| + 1) * 3 / 4 && |Octets(v)| == |v| * 3 / 4;
    }
  }

  // A text the decoder gets wrong: one octet, padded, then a line end.
  lemma TrailingLineEndBreaksPadding()
    ensures DecodeText("Zg==\n") != DecodeText("Zg==")
  {
    hide *;
    LenientExactly("Zg==\n");
    LineEndFiltered();
    LineEndStripped();
    SameStripped("Zg==", "Zg");
  }

  lemma LineEndFiltered()
    ensures Filter("Zg==\n") == "Zg"
  {
    assert "Zg==\n"[1..] == "g==\n" && "g==\n"[1..] == "==\n" && "==\n"[1..] == "=\n" && "=\n"[1..] == "\n" && "\n"[1..] == "";
  }

  lemma LineEndStripped()
    ensures !EndsKnown(Strip("Zg==\n"))
    ensures Strip("Zg==") == Strip("Zg")
  {
    assert "Zg=="[..3] == "Zg=" && "Zg="[..2] == "Zg";
  }

  lemma SameStripped(s: string, t: string)
    requires Strip(s) == Strip(t)
    ensures DecodeText(s) == DecodeText(t)
  {
  }

  // The decoded octets always fit the bound the decoder asks room for.
  lemma DecodedLengthBound(s: string)
    ensures |DecodeText(s)| <= Base64ToBase256Len(|Strip(s)|) <= Base64ToBase256Len(|s|)
  {
  }

  // And not more than they need, when all characters are known.
  lemma RoomIsUsed(t: string)
    requires forall c :: c in t ==> Known(c)
    ensures |DecodeText(t)| == Base64ToBase256Len(|t|)
  {
    KnownSlots(t);
    hide Strip, Slots, Known;
  }

  // The sextets of a string of octets, the last one filled up with zero bits.
  function Sextets(b: seq<byte>): seq<sextet> {
    if b == [] then []
    else if |b| == 1 then [Sextet0(b[0]), Sextet1(b[0], 0)]
    else if |b| == 2 then [Sextet0(b[0]), Sextet1(b[0], b[1]), Sextet2(b[1], 0)]
    else [Sextet0(b[0]), Sextet1(b[0], b[1]), Sextet2(b[1], b[2]), Sextet3(b[2])] + Sextets(b[3..])
  }

  function Chars(v: seq<sextet>): (t: string)
    ensures |t| == |v|
    ensures forall k :: 0 <= k < |v| ==> t[k] == Base64Char(v[k])
  {
    seq(|v|, k requires 0 <= k < |v| => Base64Char(v[k]))
  }

  function Pad(n: nat): string { if n % 3 == 1 then "==" else if n % 3 == 2 then "=" else "" }

  lemma QuadIsChars(c1: byte, c2: byte, c3: byte)
    ensures Quad(c1, c2, c3, 0) == Chars([Sextet0(c1), Sextet1(c1, c2), Sextet2(c2, c3), Sextet3(c3)])
    ensures Quad(c1, c2, 0, 1) == Chars([Sextet0(c1), Sextet1(c1, c2), Sextet2(c2, 0)]) + "="
    ensures Quad(c1, 0, 0, 2) == Chars([Sextet0(c1), Sextet1(c1, 0)]) + "=="
  {
    hide Base64Char, Sextet0, Sextet1, Sextet2, Sextet3;
  }

  lemma CharsAppend(v: seq<sextet>, w: seq<sextet>)
    ensures Chars(v + w) == Chars(v) + Chars(w)
  {
    hide Base64Char;
  }

  lemma EncodeShortIsChars(b: seq<byte>)
    requires |b| < 3
    ensures EncodeText(b) == Chars(Sextets(b)) + Pad(|b|)
  {
    hide Base64Char, Quad, Chars, Sextet0, Sextet1, Sextet2, Sextet3;
    if |b| == 1 {
      QuadIsChars(b[0], 0, 0);
    } else if |b| == 2 {
      QuadIsChars(b[0], b[1], 0);
    } else {
      assert Chars([]) == "";
    }
  }

  lemma SextetsStep(b: seq<byte>)
    requires |b| >= 3
    ensures Sextets(b) == [Sextet0(b[0]), Sextet1(b[0], b[1]), Sextet2(b[1], b[2]), Sextet3(b[2])] + Sextets(b[3..])
  {
    hide Sextet0, Sextet1, Sextet2, Sextet3;
  }

  lemma PadStep(n: nat)
    ensures Pad(3 + n) == Pad(n)
  {
    assert (3 + n) % 3 == n % 3;
  }

  lemma {:induction false} EncodeIsChars(b: seq<byte>)
    ensures EncodeText(b) == Chars(Sextets(b)) + Pad(|b|)
    decreases |b|
  {
    hide *;
    if |b| < 3 {
      EncodeShortIsChars(b);
    } else {
      var head := [Sextet0(b[0]), Sextet1(b[0], b[1]), Sextet2(b[1], b[2]), Sextet3(b[2])];
      assert b == [b[0], b[1], b[2]] + b[3..];
      EncodeSteps(b[0], b[1], b[2], b[3..]);
      SextetsStep(b);
      PadStep(|b[3..]|);
      QuadIsChars(b[0], b[1], b[2]);
      EncodeIsChars(b[3..]);
      CharsAppend(head, Sextets(b[3..]));
      AppendAssociates(Chars(head), Chars(Sextets(b[3..])), Pad(|b|));
    }
  }

  lemma CharsAreKnown(v: seq<sextet>)
    ensures forall c :: c in Chars(v) ==> Known(c)
    ensures Values(Chars(v)) == v
  {
    forall k | 0 <= k < |v| ensures Known(Chars(v)[k]) && Base256Char(Chars(v)[k]) == v[k] {
      CharRoundTrip(v[k]);
    }
  }

  lemma StripPad(t: string, n: nat)
    requires forall c :: c in t ==> Known(c)
    ensures Strip(t + Pad(n)) == t
  {
    KnownSlots(t);
    if n % 3 == 1 {
      assert (t + "==")[..|t| + 1] == t + "=" && (t + "=")[..|t|] == t;
    } else if n % 3 == 2 {
      assert (t + "=")[..|t|] == t;
    } else {
      assert t + "" == t;
    }
  }

  lemma FirstBack(b0: byte, b1: byte)
    ensures First(Sextet0(b0), Sextet1(b0, b1)) == b0
  {
  }

  lemma SecondBack(b0: byte, b1: byte, b2: byte)
    ensures Second(Sextet1(b0, b1), Sextet2(b1, b2)) == b1
  {
    LowPart(b0 % 4, b1 / 16, 16);
    HighPart(b1 % 16, b2 / 64, 4);
    assert b1 == b1 / 16 * 16 + b1 % 16;
    assert b1 % 16 % 16 == b1 % 16;
  }

  lemma LowPart(high: nat, low: nat, base: nat)
    requires low < base == 16
    ensures (high * base + low) % base == low
  {
  }

  lemma HighPart(high: nat, low: nat, base: nat)
    requires low < base == 4
    ensures (high * base + low) / base == high
  {
  }

  lemma ThirdBack(b1: byte, b2: byte)
    ensures Third(Sextet2(b1, b2), Sextet3(b2)) == b2
  {
  }

  lemma {:induction false} OctetsOfSextets(b: seq<byte>)
    ensures Octets(Sextets(b)) == b
    decreases |b|
  {
    hide First, Second, Third, Sextet0, Sextet1, Sextet2, Sextet3;
    if b != [] {
      var b0, b1, b2 := b[0], if |b| > 1 then b[1] else 0, if |b| > 2 then b[2] else 0;
      FirstBack(b0, b1);
      SecondBack(b0, b1, b2);
      ThirdBack(b1, b2);
      if |b| >= 3 {
        OctetsOfSextets(b[3..]);
        assert Sextets(b)[4..] == Sextets(b[3..]);
        assert b == [b[0], b[1], b[2]] + b[3..];
      }
    }
  }

  // The room the encoder asks for, PJ_BASE256_TO_BASE64_LEN, and what it uses of that.
  lemma RoomAsked(b: seq<byte>)
    ensures Base256ToBase64Len(|b|) - |EncodeText(b)| == if |b| % 3 == 0 then 3 else if |b| % 3 == 1 then 0 else 1
  {
    hide EncodeText;
    RoomByThrees(|b| / 3, |b| % 3);
  }

  lemma RoomByThrees(k: nat, r: nat)
    requires r < 3
    ensures Base256ToBase64Len(3 * k + r) - (3 * k + r + 2) / 3 * 4 == if r == 0 then 3 else if r == 1 then 0 else 1
  {
    assert (3 * k + r + 2) / 3 == if r == 0 then k else k + 1;
    assert (3 * k + r) * 4 / 3 == 4 * k + if r == 0 then 0 else if r == 1 then 1 else 2;
  }

  // Main result: decoding undoes encoding.
  lemma DecodeEncode(b: seq<byte>)
    ensures DecodeText(EncodeText(b)) == b
  {
    EncodeIsChars(b);
    CharsAreKnown(Sextets(b));
    StripPad(Chars(Sextets(b)), |b|);
    KnownSlots(Chars(Sextets(b)));
    OctetsOfSextets(b);
  }

  // Canonical text: whole groups of known characters, the last one possibly padded, with no stray
  // bits under the padding.
  predicate FinalGroup(q: string)
    requires |q| == 4
  {
    && Known(q[0]) && Known(q[1])
    && (|| (Known(q[2]) && Known(q[3]))
        || (Known(q[2]) && q[3] == PADDING && Base256Char(q[2]) % 4 == 0)
        || (q[2] == PADDING && q[3] == PADDING && Base256Char(q[1]) % 16 == 0))
  }

  predicate Canonical(t: string) {
    t == [] || (|t| == 4 && FinalGroup(t))
    || (|t| > 4 && Known(t[0]) && Known(t[1]) && Known(t[2]) && Known(t[3]) && Canonical(t[4..]))
  }

  lemma {:induction false} EncodedIsCanonical(b: seq<byte>)
    ensures Canonical(EncodeText(b))
    decreases |b|
  {
    if |b| >= 3 {
      EncodedIsCanonical(b[3..]);
      assert EncodeText(b)[4..] == EncodeText(b[3..]);
    }
  }

  lemma {:induction false} StripTail(q: string, t: string)
    requires t != [] && t[0] != PADDING
    ensures Strip(q + t) == q + Strip(t) && Strip(t) != []
    decreases |t|
  {
    if t[|t| - 1] == PADDING {
      assert (q + t)[..|q + t| - 1] == q + t[..|t| - 1];
      StripTail(q, t[..|t| - 1]);
    }
  }

  lemma SlotsOfFour(t: string)
    requires |t| > 4 && Known(t[0]) && Known(t[1]) && Known(t[2]) && Known(t[3])
    ensures Slots(t) == [Base256Char(t[0]), Base256Char(t[1]), Base256Char(t[2]), Base256Char(t[3])] + Slots(t[4..])
  {
    assert Slots(t) == [Base256Char(t[0])] + Slots(t[1..]);
    assert Slots(t[1..]) == [Base256Char(t[1])] + Slots(t[2..]);
    assert Slots(t[2..]) == [Base256Char(t[2])] + Slots(t[3..]);
    assert Slots(t[3..]) == [Base256Char(t[3])] + Slots(t[4..]);
  }

  lemma SextetsBack(v0: sextet, v1: sextet, v2: sextet, v3: sextet)
    ensures Sextet0(First(v0, v1)) == v0 && Sextet1(First(v0, v1), Second(v1, v2)) == v1
    ensures Sextet2(Second(v1, v2), Third(v2, v3)) == v2 && Sextet3(Third(v2, v3)) == v3
  {
    hide First, Second, Third;
    FirstHalves(v0, v1);
    SecondHalves(v1, v2);
    ThirdHalves(v2, v3);
  }

  lemma FirstHalves(v0: sextet, v1: sextet)
    ensures First(v0, v1) / 4 == v0 && First(v0, v1) % 4 == v1 / 16
  {
  }

  lemma SecondHalves(v1: sextet, v2: sextet)
    ensures Second(v1, v2) / 16 == v1 % 16 && Second(v1, v2) % 16 == v2 / 4
  {
  }

  lemma ThirdHalves(v2: sextet, v3: sextet)
    ensures Third(v2, v3) / 64 == v2 % 4 && Third(v2, v3) % 64 == v3
  {
  }

  lemma QuadOfOctets(v0: sextet, v1: sextet, v2: sextet, v3: sextet)
    ensures Quad(First(v0, v1), Second(v1, v2), Third(v2, v3), 0) == [Base64Char(v0), Base64Char(v1), Base64Char(v2), Base64Char(v3)]
    ensures v2 % 4 == 0 ==> Quad(First(v0, v1), Second(v1, v2), 0, 1) == [Base64Char(v0), Base64Char(v1), Base64Char(v2), PADDING]
    ensures v1 % 16 == 0 ==> Quad(First(v0, v1), 0, 0, 2) == [Base64Char(v0), Base64Char(v1), PADDING, PADDING]
  {
    hide First, Second, Third, Base64Char, Sextet0, Sextet1, Sextet2, Sextet3;
    SextetsBack(v0, v1, v2, v3);
    if v2 % 4 == 0 {
      SextetsBack(v0, v1, v2, 0);
      ThirdOfZeros(v2);
    }
    if v1 % 16 == 0 {
      SextetsBack(v0, v1, 0, 0);
      SecondOfZeros(v1);
    }
  }

  lemma ThirdOfZeros(v2: sextet)
    requires v2 % 4 == 0
    ensures Third(v2, 0) == 0
  {
  }

  lemma SecondOfZeros(v1: sextet)
    requires v1 % 16 == 0
    ensures Second(v1, 0) == 0
  {
  }

  lemma EncodeFinalGroup(q: string)
    requires |q| == 4 && FinalGroup(q)
    ensures EncodeText(DecodeText(q)) == q
  {
    hide First, Second, Third, Base64Char, Quad, Strip, Slots, Known, Filter;
    KnownIs(q);
    var v0, v1 := Base256Char(q[0]), Base256Char(q[1]);
    KnownRoundTrip(q[0]);
    KnownRoundTrip(q[1]);
    if Known(q[2]) {
      var v2 := Base256Char(q[2]);
      KnownRoundTrip(q[2]);
      if Known(q[3]) {
        KnownRoundTrip(q[3]);
        KnownSlots(q);
        QuadOfOctets(v0, v1, v2, Base256Char(q[3]));
        assert Octets(Values(q)) == [First(v0, v1), Second(v1, v2), Third(v2, Base256Char(q[3]))];
      } else {
        KnownSlots(q[..3]);
        assert q == q[..3] + "=" && Pad(2) == "=";
        StripPad(q[..3], 2);
        QuadOfOctets(v0, v1, v2, 0);
        assert Octets(Values(q[..3])) == [First(v0, v1), Second(v1, v2)];
      }
    } else {
      KnownSlots(q[..2]);
      assert q == q[..2] + "==" && Pad(1) == "==";
      StripPad(q[..2], 1);
      QuadOfOctets(v0, v1, 0, 0);
      assert Octets(Values(q[..2])) == [First(v0, v1)];
    }
  }

  lemma KnownIs(q: string)
    ensures forall c :: c in q ==> (Known(c) <==> Base256Char(c) != INV)
  {
  }

  lemma {:induction false} EncodeDecodeCanonical(t: string)
    requires Canonical(t)
    ensures EncodeText(DecodeText(t)) == t
    decreases |t|
  {
    hide First, Second, Third, Base64Char, Quad, Strip, Slots, Filter;
    if |t| == 4 {
      EncodeFinalGroup(t);
    } else if t == [] {
      KnownSlots(t);
    } else {
      var q, rest := t[..4], t[4..];
      assert t == q + rest;
      assert Known(rest[0]);
      StripTail(q, rest);
      var u := Strip(t);
      SlotsOfFour(u);
      assert u[4..] == Strip(rest);
      EncodeDecodeCanonical(rest);
      QuadOfOctets(Base256Char(t[0]), Base256Char(t[1]), Base256Char(t[2]), Base256Char(t[3]));
      KnownRoundTrip(t[0]);
      KnownRoundTrip(t[1]);
      KnownRoundTrip(t[2]);
      KnownRoundTrip(t[3]);
      assert DecodeText(t)[3..] == DecodeText(rest);
    }
  }

  // Main result: encoding undoes decoding on the canonical texts, and on no others.
  lemma EncodeDecodeExactly(t: string)
    ensures EncodeText(DecodeText(t)) == t <==> Canonical(t)
  {
    EncodedIsCanonical(DecodeText(t));
    if Canonical(t) {
      EncodeDecodeCanonical(t);
    }
  }
}
