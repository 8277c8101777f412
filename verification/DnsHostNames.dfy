/** What the round trip comes to for host names, and a pair of legal names it fails on. */
module DnsHostNames {
  import opened Bytes
  import opened DnsTypes
  import opened DnsNames
  import opened DnsWireNames
  import opened DnsFormat
  import opened DnsRoundTrip

  const HYPHEN: byte := 45
  const SMALL_X: byte := 120

  // A letter, a digit or a hyphen.
  predicate HostChar(c: byte) { c == HYPHEN || 48 <= c <= 57 || 65 <= c <= 90 || 97 <= c <= 122 }

  // Up to 44 octets a length octet is none of these, nor a dot.
  predicate HostName(name: Text) {
    name == [] || (
      var n := FirstDot(name);
      && 1 <= n < HYPHEN && (forall c :: c in name[..n] ==> HostChar(c))
      && (n < |name| ==> AfterLabel(name) != [] && HostName(AfterLabel(name))))
  }

  lemma {:induction false} HostNameReads(name: Text)
    requires HostName(name)
    ensures WellFormed(name)
    decreases |name|
  {
    hide FirstDot;
    if name != [] && FirstDot(name) < |name| {
      HostNameReads(AfterLabel(name));
    }
  }

  lemma {:induction false} HostOctets(name: Text, i: nat)
    requires HostName(name) && i < |name|
    ensures name[i] >= HYPHEN
    decreases |name|
  {
    hide FirstDot;
    var n := FirstDot(name);
    if i < n {
      assert name[..n][i] == name[i] && name[i] in name[..n];
    } else if i > n {
      assert AfterLabel(name)[i - n - 1] == name[i];
      HostOctets(AfterLabel(name), i - n - 1);
    }
  }

  lemma StoredSingle(name: Text)
    requires name != [] && FirstDot(name) == |name|
    ensures Stored(name) == name
  {
    WireNameIs(name);
    assert name[..|name|] == name;
  }

  // Where a dot was, the table finds the length of the label behind it.
  lemma StoredAtDot(name: Text)
    requires FirstDot(name) < |name|
    ensures Stored(name)[FirstDot(name)] == if AfterLabel(name) == [] then 0 else FirstDot(AfterLabel(name)) % 256
  {
    hide FirstDot, AfterLabel, WireName;
    WireNameIs(name);
    HeadOfWire(AfterLabel(name));
  }

  // Every label behind the first is 46 octets long, so that its length octet is the code of a dot.
  predicate DotLengths(name: Text)
    decreases |name|
  {
    name == [] || AfterLabel(name) == [] || (FirstDot(AfterLabel(name)) == DOT && DotLengths(AfterLabel(name)))
  }

  // A name already in the table is found again exactly when it is one label, or its length octets pass for its dots.
  lemma {:induction false} FoundAgain(name: Text)
    requires WellFormed(name)
    ensures Stored(name) == name <==> DotLengths(name)
    decreases |name|
  {
    if name == [] {
      assert Stored(name) == [];
    } else if FirstDot(name) == |name| {
      StoredSingle(name);
      NoRest(name);
    } else {
      WellFormedRest(name);
      FoundAgain(AfterLabel(name));
      StoredSteps(name);
      DotLengthsIs(name);
    }
  }

  lemma NoRest(name: Text)
    requires FirstDot(name) == |name|
    ensures AfterLabel(name) == [] && DotLengths(name)
  {
    hide FirstDot;
  }

  lemma DotLengthsIs(name: Text)
    requires name != [] && AfterLabel(name) != []
    ensures DotLengths(name) <==> FirstDot(AfterLabel(name)) == DOT && DotLengths(AfterLabel(name))
  {
  }

  lemma StoredSteps(name: Text)
    requires WellFormed(name) && FirstDot(name) < |name|
    ensures var rest := AfterLabel(name);
            Stored(name) == name <==> FirstDot(rest) == DOT && Stored(rest) == rest
  {
    hide *;
    var rest := AfterLabel(name);
    WellFormedRest(name);
    LabelFirst(name);
    StoredPieces(name);
    HeadIs(name);
    var a, b := [FirstDot(rest)] + Stored(rest), [DOT] + rest;
    if Stored(name) == name {
      AppendAssociates(Head(name), [DOT], rest);
      PrefixCancels(Head(name), a, b);
      assert a[0] == b[0] && a[1..] == Stored(rest) && b[1..] == rest;
    } else if FirstDot(rest) == DOT && Stored(rest) == rest {
      AppendAssociates(Head(name), [DOT], rest);
    }
  }

  lemma HeadIs(name: Text)
    requires FirstDot(name) < |name|
    ensures name == Head(name) + [DOT] + AfterLabel(name)
  {
    LabelFirst(name);
    hide Head, AfterLabel, FirstDot;
  }

  lemma StoredPieces(name: Text)
    requires WellFormed(name) && FirstDot(name) < |name|
    ensures var rest := AfterLabel(name);
            rest != [] && FirstDot(rest) < 192 && Stored(name) == Head(name) + ([FirstDot(rest)] + Stored(rest))
  {
    hide FirstDot, AfterLabel, WireName, WellFormed;
    var rest := AfterLabel(name);
    WellFormedRest(name);
    LabelFirst(name);
    WireNameIs(name);
    HeadOfWire(rest);
    assert |name| == FirstDot(name) + 1 + |rest|;
    assert WireName(rest)[..1 + |rest|] == [FirstDot(rest)] + Stored(rest);
  }

  // Among host names the table takes an entry for the name it is, and only names of one label are found again.
  lemma StoredHostName(a: Text, b: Text)
    requires HostName(a) && HostName(b)
    ensures Stored(a) == b <==> a == b && FirstDot(a) == |a|
  {
    hide FirstDot, Stored, WireName, AfterLabel;
    var n := FirstDot(a);
    if a == [] {
      assert |Stored(a)| == 0;
    } else if n == |a| {
      StoredSingle(a);
    } else {
      StoredAtDot(a);
      var rest := AfterLabel(a);
      if Stored(a) == b {
        HostOctets(b, n);
      }
    }
  }

  lemma {:induction false} HostNamesFaithful(names: seq<Text>, more: seq<Text>)
    requires forall name :: name in names || name in more ==> HostName(name)
    ensures AllFaithful(names, more)
    decreases |more|
  {
    hide HostName, WellFormed, Stored, FindFrom, FirstDot;
    if more != [] {
      var k := Find(names, more[0]);
      if k < |names| {
        StoredHostName(names[k], more[0]);
      } else {
        HostNameReads(more[0]);
      }
      HostNamesFaithful(Noted(names, more[0]), more[1..]);
    }
  }

  // Any packet of host names with labels of at most 44 octets comes back, however many records it has and however
  // often names are repeated.
  lemma HostNamesRoundTrip(mem: Memory, p: Packet)
    requires PacketPrintable(p) && PacketTable(p).Reachable() && Holds(mem, 0, PutPacket(p))
    requires forall name :: name in NamesOf(p) ==> HostName(name)
    ensures PacketBack(PacketAt(mem, |PutPacket(p)|), p)
  {
    hide *;
    HostNamesFaithful([], NamesOf(p));
    RoundTrip(mem, p);
  }

  // "a." and "a-", each before 45 letters x.
  function Dotted(): (t: Text)
    ensures |t| == 47
  {
    [97, DOT] + Repeat(SMALL_X, 45)
  }

  function Hyphenated(): (t: Text)
    ensures |t| == 47
  {
    [97, HYPHEN] + Repeat(SMALL_X, 45)
  }

  // Two questions about them, and the packet's octets with zeros behind.
  function Confusion(): (p: Packet)
    ensures PacketPrintable(p)
  {
    Packet(Header(1, 0, 2, 0, 0, 0), [Query(Dotted(), TYPE_A, CLASS_IN), Query(Hyphenated(), TYPE_A, CLASS_IN)], [], [], [])
  }

  function MemoryOf(octets: seq<byte>): Memory { (i: nat) => if i < |octets| then octets[i] else 0 }

  lemma MemoryHolds(octets: seq<byte>)
    ensures Holds(MemoryOf(octets), 0, octets)
  {
  }

  // Both are legal, the labels being shorter than 64, but on the wire the length 45 reads as a hyphen: the second is
  // printed as a pointer to the first, and the packet does not come back.
  lemma FalseMatch()
    ensures WellFormed(Dotted()) && WellFormed(Hyphenated()) && Stored(Dotted()) == Hyphenated()
    ensures var p := Confusion(); !PacketBack(PacketAt(MemoryOf(PutPacket(p)), |PutPacket(p)|), p)
  {
    hide *;
    var p := Confusion();
    Confused();
    ConfusionIs();
    NotFaithful(Dotted(), Hyphenated());
    MemoryHolds(PutPacket(p));
    ShortReaches(p);
    RoundTrip(MemoryOf(PutPacket(p)), p);
  }

  lemma ConfusionIs()
    ensures NamesOf(Confusion()) == [Dotted(), Hyphenated()] && Dotted() != Hyphenated()
    ensures |PutPacket(Confusion())| <= 0x4000
  {
    hide Dotted, Hyphenated, PutQuery, Grown;
    var p := Confusion();
    assert p.q[1..] == [p.q[1]] && p.q[1..][1..] == [];
    DifferAtTheDot();
    NamesOfTwo(p.q);
    QueriesLength(NoLabels(), HEADER, p.q, 47);
    assert PutSections(PutQueries(NoLabels(), HEADER, p.q).tab, HEADER + |PutQueries(NoLabels(), HEADER, p.q).wire|, [], [], []).wire == [];
  }

  lemma DifferAtTheDot()
    ensures Dotted() != Hyphenated()
  {
    assert Dotted()[1] != Hyphenated()[1];
  }

  lemma NamesOfTwo(qs: seq<Query>)
    requires |qs| == 2
    ensures NamesOfQueries(qs) == [qs[0].name, qs[1].name]
  {
    assert qs[1..] == [qs[1]] && qs[1..][1..] == [];
    assert NamesOfQueries(qs[1..][1..]) == [];
  }

  lemma {:induction false} QueriesLength(tab: Table, p: nat, qs: seq<Query>, n: nat)
    requires tab.Ok() && forall q :: q in qs ==> |q.name| <= n
    ensures |PutQueries(tab, p, qs).wire| <= |qs| * (n + 6)
    decreases |qs|
  {
    hide WireName, FindFrom, Grown;
    if qs != [] {
      var first := PutQuery(tab, p, qs[0]);
      assert |first.wire| <= n + 6;
      QueriesLength(first.tab, p + |first.wire|, qs[1..], n);
      assert |qs| * (n + 6) == (|qs| - 1) * (n + 6) + (n + 6);
    }
  }

  lemma LastLabel(name: Text)
    requires FirstDot(name) == |name|
    ensures AfterLabel(name) == [] && WireName([]) == [0]
    ensures 1 <= |name| < 192 ==> WellFormed(name)
  {
    hide FirstDot;
  }

  lemma SingleLabel(name: Text)
    requires 1 <= |name| < 192 && FirstDot(name) == |name|
    ensures WellFormed(name) && WireName(name) == [|name|] + (name + [0])
  {
    hide *;
    LastLabel(name);
    WireNameIs(name);
    TakeAll(name);
    assert |name| % 256 == |name|;
  }

  lemma TakeAll<T>(s: seq<T>)
    ensures s[..|s|] == s
  {
  }

  lemma Confused()
    ensures WellFormed(Dotted()) && WellFormed(Hyphenated()) && Stored(Dotted()) == Hyphenated()
  {
    hide FirstDot, WireName;
    var xs := Repeat(SMALL_X, 45);
    FirstDotAt(xs, 45);
    FirstDotAt(Hyphenated(), 47);
    FirstDotAt(Dotted(), 1);
    SingleLabel(xs);
    SingleLabel(Hyphenated());
    assert AfterLabel(Dotted()) == xs;
    LastLabel(xs);
    WireNameIs(Dotted());
    assert Dotted()[..1] == [97];
  }

  lemma NotFaithful(a: Text, b: Text)
    requires Stored(a) == b && a != b
    ensures !AllFaithful([], [a, b])
  {
    hide Stored;
    assert Noted([], a) == [a];
    assert [a, b][1..] == [b];
    assert Find([a], b) == 0;
  }
}
