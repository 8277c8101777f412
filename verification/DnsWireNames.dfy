/** Dotted names cut into labels, as print_name and pj_dns_make_query write them. */
module DnsWireNames {
  import opened Bytes
  import opened DnsTypes
  import opened DnsNames

  // Where the first label ends: at a dot or with the name.
  function FirstDot(name: Text): (n: nat)
    ensures n <= |name|
    ensures n < |name| ==> name[n] == DOT
  {
    IndexOf(name, DOT)
  }

  // The labels of a name, each behind its length cut to an octet.
  function WireLabels(name: Text): (s: seq<byte>)
    ensures |name| <= |s| <= |name| + 1
    decreases |name|
  {
    if name == [] then []
    else
      var n := FirstDot(name);
      [n % 256] + name[..n] + WireLabels(AfterLabel(name))
  }

  function AfterLabel(name: Text): (rest: Text)
    ensures name != [] ==> |rest| < |name|
  {
    var n := FirstDot(name);
    if n < |name| then name[n + 1..] else []
  }

  function WireName(name: Text): (s: seq<byte>)
    ensures |name| < |s| <= |name| + 2
  {
    WireLabels(name) + [0]
  }

  // Labels of 1 to 191 octets with a dot between neighbours; the empty text is the root.
  predicate WellFormed(name: Text) {
    name == [] || (
      var n := FirstDot(name);
      1 <= n < 192 && (n < |name| ==> AfterLabel(name) != [] && WellFormed(AfterLabel(name))))
  }

  // The wire form of a well-formed name decodes to the name, and takes up all of the wire form.
  lemma {:induction false} WireDecodes(mem: Memory, max: nat, level: nat, p: nat, name: Text)
    requires level <= 10 && Holds(mem, p, WireName(name)) && p + |WireName(name)| <= max
    requires WellFormed(name)
    ensures DecodeName(mem, max, level, p) == Decoded(Success, name, |WireName(name)|)
    decreases |name|
  {
    hide *;
    if name == [] {
      RootRead(mem, p);
      DecodeEnd(mem, max, level, p);
    } else {
      var n, rest := FirstDot(name), AfterLabel(name);
      WellFormedRest(name);
      ShortLabelRead(mem, p, name);
      WireDecodes(mem, max, level, p + n + 1, rest);
      DecodeLabel(mem, max, level, p);
      LabelThenRest(mem, p, name);
    }
  }

  lemma LabelThenRest(mem: Memory, p: nat, name: Text)
    requires name != [] && Holds(mem, p, WireName(name)) && WellFormed(name)
    ensures LabelText(mem, p) + AfterLabel(name) == name
  {
    hide *;
    WellFormedRest(name);
    ShortLabelRead(mem, p, name);
    LabelJoins(mem, p, name);
  }

  lemma DecodeLabel(mem: Memory, max: nat, level: nat, p: nat)
    requires level <= 10 && 1 <= mem(p) < 192 && p + 1 + mem(p) < max
    ensures var d := DecodeName(mem, max, level, p + 1 + mem(p));
            DecodeName(mem, max, level, p) == Decoded(d.status, LabelText(mem, p) + d.text, 1 + mem(p) + d.parsed)
  {
  }

  lemma RootRead(mem: Memory, p: nat)
    requires Holds(mem, p, WireName([]))
    ensures mem(p) == 0 && WireName([]) == [0]
  {
    assert mem(p) == Span(mem, p, 1)[0];
  }

  lemma WellFormedRest(name: Text)
    requires WellFormed(name) && name != []
    ensures var n, rest := FirstDot(name), AfterLabel(name);
            && 1 <= n < 192 && WellFormed(rest) && (rest == [] <==> n == |name|)
            && (rest != [] ==> 1 <= FirstDot(rest) < 192)
            && name == Head(name) + Separator(rest != []) + rest
  {
    LabelFirst(name);
    hide FirstDot, AfterLabel, Head, Separator;
  }

  lemma LabelFirst(name: Text)
    requires name != []
    ensures name == Head(name) + Separator(FirstDot(name) < |name|) + AfterLabel(name)
  {
    var n := FirstDot(name);
    if n < |name| {
      SplitAt(name, n);
    } else {
      assert name[..n] + [] + [] == name;
    }
  }

  lemma SplitAt<T>(s: seq<T>, n: nat)
    requires n < |s|
    ensures s == s[..n] + [s[n]] + s[n + 1..]
  {
  }

  // The first label and what separates it from the rest, as two pieces.
  function Head(name: Text): Text { name[..FirstDot(name)] }

  function Separator(more: bool): Text { if more then [DOT] else [] }

  lemma LabelJoins(mem: Memory, p: nat, name: Text)
    requires name != []
    requires var n := FirstDot(name); n < 192 && mem(p) == n && Span(mem, p + 1, n) == name[..n]
    ensures |LabelText(mem, p)| == FirstDot(name) + if mem(p + 1 + FirstDot(name)) == 0 then 0 else 1
    ensures LabelText(mem, p) == Head(name) + Separator(mem(p + 1 + FirstDot(name)) != 0)
  {
  }

  lemma FirstLabelRead(mem: Memory, p: nat, name: Text)
    requires name != [] && Holds(mem, p, WireName(name))
    ensures var n, rest := FirstDot(name), AfterLabel(name);
            && mem(p) == n % 256
            && Span(mem, p + 1, n) == name[..n]
            && Holds(mem, p + n + 1, WireName(rest))
            && |WireName(name)| == n + 1 + |WireName(rest)|
            && (mem(p + n + 1) == if rest == [] then 0 else FirstDot(rest) % 256)
  {
    var n, rest := FirstDot(name), AfterLabel(name);
    hide *;
    WireNameIs(name);
    HeadOfWire(rest);
    SpanHolds(mem, p + 1, name[..n]);
    HoldsAppend(mem, p, [n % 256], name[..n] + WireName(rest));
    HoldsAppend(mem, p + 1, name[..n], WireName(rest));
    HoldsHead(mem, p, [n % 256]);
    HoldsHead(mem, p + 1 + n, WireName(rest));
  }

  lemma ShortLabelRead(mem: Memory, p: nat, name: Text)
    requires name != [] && Holds(mem, p, WireName(name)) && FirstDot(name) < 192
    ensures var n, rest := FirstDot(name), AfterLabel(name);
            && mem(p) == n
            && Span(mem, p + 1, n) == name[..n]
            && Holds(mem, p + n + 1, WireName(rest))
            && |WireName(name)| == n + 1 + |WireName(rest)|
            && (rest == [] ==> mem(p + n + 1) == 0)
            && (rest != [] && 1 <= FirstDot(rest) < 192 ==> mem(p + n + 1) != 0)
  {
    hide *;
    FirstLabelRead(mem, p, name);
  }

  lemma SpanHolds(mem: Memory, p: nat, s: seq<byte>)
    ensures Holds(mem, p, s) <==> Span(mem, p, |s|) == s
  {
  }

  lemma HoldsHead(mem: Memory, p: nat, s: seq<byte>)
    requires Holds(mem, p, s) && s != []
    ensures mem(p) == s[0]
  {
    assert Span(mem, p, |s|)[0] == mem(p + 0);
  }

  lemma WireNameIs(name: Text)
    requires name != []
    ensures var n := FirstDot(name); WireName(name) == [n % 256] + (name[..n] + WireName(AfterLabel(name)))
  {
  }

  lemma HeadOfWire(name: Text)
    ensures WireName(name)[0] == if name == [] then 0 else FirstDot(name) % 256
  {
    if name != [] {
      WireNameIs(name);
    }
  }

  // No matter what the packet holds, a decoded text has its first dot within 192 octets.
  lemma {:induction false} DecodedDots(mem: Memory, max: nat, level: nat, p: nat)
    requires DecodeName(mem, max, level, p).status.Success?
    ensures FirstDot(DecodeName(mem, max, level, p).text) < 192
    decreases if level > 10 then 0 else 11 - level, if p < max then max - p else 0
  {
    hide FirstDot, Offset;
    var text := DecodeName(mem, max, level, p).text;
    if mem(p) != 0 {
      if IsPointer(mem(p)) {
        DecodedDots(mem, max, level + 1, Offset(mem, p));
      } else if mem(p + 1 + mem(p)) != 0 {
        DotsBefore(text, mem(p));
      }
    }
  }

  lemma DotsBefore(text: Text, k: nat)
    requires k < |text| && text[k] == DOT
    ensures FirstDot(text) <= k
  {
    FirstBefore(text, DOT, k);
  }

  lemma {:induction false} FirstBefore<T>(s: seq<T>, c: T, k: nat)
    requires k < |s| && s[k] == c
    ensures IndexOf(s, c) <= k
  {
    if s[0] != c {
      FirstBefore(s[1..], c, k - 1);
    }
  }

  // A name that is not well formed never reads back, whatever else is in the packet.
  lemma {:induction false} WireMisread(mem: Memory, max: nat, level: nat, p: nat, name: Text)
    requires level <= 10 && Holds(mem, p, WireName(name)) && p + |WireName(name)| <= max
    requires !WellFormed(name)
    ensures !Reads(DecodeName(mem, max, level, p), name)
    decreases |name|
  {
    hide *;
    var n := FirstDot(name);
    IllFormedIs(name);
    if n >= 192 {
      LongLabelMisread(mem, max, level, p, name);
    } else {
      ShortLabelRead(mem, p, name);
      if n == 0 {
        DecodeEnd(mem, max, level, p);
        ReadsIs(DecodeName(mem, max, level, p), name);
      } else {
        if mem(p + 1 + n) != 0 {
          WireMisread(mem, max, level, p + n + 1, AfterLabel(name));
        }
        LabelMisread(mem, max, level, p, name);
      }
    }
  }

  predicate Reads(d: Decoded, name: Text) { d.status.Success? && d.text == name }

  lemma ReadsIs(d: Decoded, name: Text)
    ensures Reads(d, name) <==> d.status.Success? && d.text == name
  {
  }

  lemma LongLabelMisread(mem: Memory, max: nat, level: nat, p: nat, name: Text)
    requires FirstDot(name) >= 192
    ensures !Reads(DecodeName(mem, max, level, p), name)
  {
    hide DecodeName, FirstDot;
    if DecodeName(mem, max, level, p).status.Success? {
      DecodedDots(mem, max, level, p);
    }
  }

  // When what follows the first label is not read back, the name is not.
  lemma LabelMisread(mem: Memory, max: nat, level: nat, p: nat, name: Text)
    requires level <= 10 && name != [] && Holds(mem, p, WireName(name)) && p + |WireName(name)| <= max
    requires 1 <= FirstDot(name) < 192 && FirstDot(name) < |name|
    requires mem(p + 1 + FirstDot(name)) != 0
         ==> !Reads(DecodeName(mem, max, level, p + 1 + FirstDot(name)), AfterLabel(name))
    ensures !Reads(DecodeName(mem, max, level, p), name)
  {
    hide *;
    var q := p + 1 + FirstDot(name);
    var d := DecodeName(mem, max, level, q);
    ReadsIs(d, AfterLabel(name));
    ReadsIs(DecodeName(mem, max, level, p), name);
    ShortLabelRead(mem, p, name);
    DecodeLabel(mem, max, level, p);
    if mem(q) == 0 {
      DecodeEnd(mem, max, level, q);
    }
    if LabelText(mem, p) + d.text == name {
      LabelThenOther(mem, p, name, d.text);
    }
  }

  lemma LabelThenOther(mem: Memory, p: nat, name: Text, t: Text)
    requires name != [] && Holds(mem, p, WireName(name))
    requires FirstDot(name) < 192 && FirstDot(name) < |name|
    requires mem(p + 1 + FirstDot(name)) == 0 ==> t == []
    requires LabelText(mem, p) + t == name
    ensures mem(p + 1 + FirstDot(name)) != 0 && t == AfterLabel(name)
  {
    hide *;
    DottedLabel(mem, p, name);
    PrefixCancels(LabelText(mem, p), t, AfterLabel(name));
  }

  lemma DottedLabel(mem: Memory, p: nat, name: Text)
    requires name != [] && Holds(mem, p, WireName(name))
    requires FirstDot(name) < 192 && FirstDot(name) < |name|
    ensures mem(p + 1 + FirstDot(name)) == 0 ==> |LabelText(mem, p)| < |name|
    ensures mem(p + 1 + FirstDot(name)) != 0 ==> LabelText(mem, p) + AfterLabel(name) == name
  {
    hide *;
    ShortLabelRead(mem, p, name);
    LabelJoins(mem, p, name);
    LabelFirst(name);
  }

  lemma PrefixCancels<T>(a: seq<T>, t: seq<T>, u: seq<T>)
    requires a + t == a + u
    ensures t == u
  {
    assert (a + t)[|a|..] == t && (a + u)[|a|..] == u;
  }

  lemma DecodeEnd(mem: Memory, max: nat, level: nat, p: nat)
    requires level <= 10 && mem(p) == 0
    ensures DecodeName(mem, max, level, p) == Decoded(Success, [], 1)
  {
  }

  lemma IllFormedIs(name: Text)
    requires !WellFormed(name)
    ensures name != []
    ensures 1 <= FirstDot(name) < 192 ==> FirstDot(name) < |name|
    ensures 1 <= FirstDot(name) < 192 && AfterLabel(name) != [] ==> !WellFormed(AfterLabel(name))
  {
  }

  // Main result on names: tokenising into labels and reading back is the identity on the well-formed names and
  // on no other.
  lemma ReadsBack(mem: Memory, max: nat, p: nat, name: Text)
    requires Holds(mem, p, WireName(name)) && p + |WireName(name)| <= max
    ensures Reads(DecodeName(mem, max, 0, p), name) <==> WellFormed(name)
  {
    hide *;
    if WellFormed(name) {
      WireDecodes(mem, max, 0, p, name);
      ReadsIs(DecodeName(mem, max, 0, p), name);
    } else {
      WireMisread(mem, max, 0, p, name);
    }
  }

  lemma FirstDotAt(name: Text, n: nat)
    requires n <= |name| && (forall i :: 0 <= i < n ==> name[i] != DOT) && (n < |name| ==> name[n] == DOT)
    ensures FirstDot(name) == n
  {
    if n < FirstDot(name) {
      DotsBefore(name, n);
    }
  }
}
