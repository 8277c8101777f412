/**
 Names that lead on by pointers, in any number of steps (section 4.1.4 of RFC 1035), and names that are cut off.
 Labels are octets here, so a dot inside one is kept apart from the dots between them.
 */
module DnsChains {
  import opened Bytes
  import opened DnsTypes
  import opened DnsNames
  import opened DnsWireNames

  // Labels in a row at a position, and behind them a pointer to the next group or the final zero.
  datatype Group = Group(pos: nat, labels: seq<Text>)

  predicate LabelsOk(labels: seq<Text>) { forall l :: l in labels ==> 1 <= |l| < 192 }

  function LabelOctets(labels: seq<Text>): (s: seq<byte>)
    requires LabelsOk(labels)
    decreases |labels|
  {
    if labels == [] then [] else [|labels[0]|] + (labels[0] + LabelOctets(labels[1..]))
  }

  function GroupOctets(gs: seq<Group>): (s: seq<byte>)
    requires gs != [] && LabelsOk(gs[0].labels) && (|gs| > 1 ==> gs[1].pos < 0x4000)
  {
    LabelOctets(gs[0].labels) + if |gs| == 1 then [0] else [192 + gs[1].pos / 256, gs[1].pos % 256]
  }

  // Every group in its place within the packet, each pointing to the next one.
  predicate Laid(mem: Memory, max: nat, gs: seq<Group>)
    decreases |gs|
  {
    gs != [] ==>
      && LabelsOk(gs[0].labels) && (|gs| > 1 ==> gs[1].pos < 0x4000)
      && Holds(mem, gs[0].pos, GroupOctets(gs)) && gs[0].pos + |GroupOctets(gs)| <= max
      && Laid(mem, max, gs[1..])
  }

  // Labels with a dot behind each, and labels with a dot between two.
  function Dotted(labels: seq<Text>): Text
    decreases |labels|
  {
    if labels == [] then [] else labels[0] + [DOT] + Dotted(labels[1..])
  }

  function Joined(labels: seq<Text>): Text
    decreases |labels|
  {
    if labels == [] then [] else if |labels| == 1 then labels[0] else labels[0] + [DOT] + Joined(labels[1..])
  }

  function AllLabels(gs: seq<Group>): seq<Text>
    decreases |gs|
  {
    if gs == [] then [] else gs[0].labels + AllLabels(gs[1..])
  }

  function ChainText(gs: seq<Group>): Text
    requires gs != []
    decreases |gs|
  {
    if |gs| == 1 then Joined(gs[0].labels) else Dotted(gs[0].labels) + ChainText(gs[1..])
  }

  // A name read successfully at some level is read alike at the level before.
  lemma {:induction false} LevelBefore(mem: Memory, max: nat, level: nat, p: nat)
    requires 0 < level && DecodeName(mem, max, level, p).status.Success?
    ensures DecodeName(mem, max, level - 1, p) == DecodeName(mem, max, level, p)
    decreases if level > 10 then 0 else 11 - level, if p < max then max - p else 0
  {
    hide LabelText, Offset;
    if mem(p) != 0 {
      if IsPointer(mem(p)) {
        LevelBefore(mem, max, level + 1, Offset(mem, p));
      } else {
        LevelBefore(mem, max, level, p + 1 + mem(p));
      }
    }
  }

  // The octets of one label in front of others.
  lemma LabelHeld(mem: Memory, p: nat, first: Text, rest: seq<byte>)
    requires 1 <= |first| < 192 && rest != [] && Holds(mem, p, [|first|] + (first + rest))
    ensures mem(p) == |first| && Holds(mem, p + 1 + |first|, rest) && mem(p + 1 + |first|) == rest[0]
    ensures LabelText(mem, p) == first + if rest[0] == 0 then [] else [DOT]
  {
    HoldsAppend(mem, p, [|first|], first + rest);
    HoldsAppend(mem, p + 1, first, rest);
    HoldsHead(mem, p, [|first|]);
    HoldsHead(mem, p + 1 + |first|, rest);
    SpanHolds(mem, p + 1, first);
  }

  // Labels are passed one by one, whatever is behind them; that it does not end there puts a dot behind the last.
  lemma {:induction false} LabelsPassed(mem: Memory, max: nat, level: nat, p: nat, labels: seq<Text>, behind: seq<byte>)
    requires level <= 10 && LabelsOk(labels) && behind != []
    requires Holds(mem, p, LabelOctets(labels) + behind) && p + |LabelOctets(labels)| < max
    ensures var q := p + |LabelOctets(labels)|;
            var d := DecodeName(mem, max, level, q);
            && Holds(mem, q, behind)
            && DecodeName(mem, max, level, p)
            == Decoded(d.status, (if behind[0] == 0 then Joined(labels) else Dotted(labels)) + d.text, q - p + d.parsed)
    decreases |labels|
  {
    hide DecodeName, LabelText, Holds, Joined, Dotted, LabelOctets;
    if labels == [] {
      NoLabelText();
      assert [] + behind == behind;
      var d := DecodeName(mem, max, level, p);
      assert [] + d.text == d.text;
    } else {
      assert forall l :: l in labels[1..] ==> l in labels;
      var first, rest := labels[0], LabelOctets(labels[1..]);
      var q := p + 1 + |first|;
      LabelOctetsIs(labels, behind);
      LabelHeld(mem, p, first, rest + behind);
      LabelsPassed(mem, max, level, q, labels[1..], behind);
      DecodeLabel(mem, max, level, p);
      var d := DecodeName(mem, max, level, q + |rest|);
      LabelAndRest(labels, behind, d.text);
    }
  }

  lemma NoLabelText()
    ensures Joined([]) == Dotted([]) == [] == LabelOctets([])
  {
  }

  lemma LabelOctetsIs(labels: seq<Text>, behind: seq<byte>)
    requires LabelsOk(labels) && labels != [] && LabelsOk(labels[1..])
    ensures var first, rest := labels[0], LabelOctets(labels[1..]);
            && |LabelOctets(labels)| == 1 + |first| + |rest|
            && LabelOctets(labels) + behind == [|first|] + (first + (rest + behind))
  {
  }

  lemma LabelAndRest(labels: seq<Text>, behind: seq<byte>, text: Text)
    requires LabelsOk(labels) && labels != [] && behind != []
    requires LabelsOk(labels[1..])
    ensures var all := LabelOctets(labels[1..]) + behind;
            var joined := (ls: seq<Text>) => if behind[0] == 0 then Joined(ls) else Dotted(ls);
            labels[0] + (if all[0] == 0 then [] else [DOT]) + (joined(labels[1..]) + text) == joined(labels) + text
  {
    var rest := labels[1..];
    var joined := if behind[0] == 0 then Joined(rest) else Dotted(rest);
    if rest == [] {
      assert LabelOctets(rest) + behind == behind && joined == [];
      assert labels[0] + [] == labels[0];
      AppendAssociates(labels[0] + if behind[0] == 0 then [] else [DOT], [], text);
    } else {
      assert (LabelOctets(rest) + behind)[0] == |rest[0]| && rest[0] in rest;
      AppendAssociates(labels[0] + [DOT], joined, text);
    }
  }

  lemma PointerHeld(mem: Memory, max: nat, level: nat, p: nat, to: nat)
    requires level <= 10 && to < 0x4000 && Holds(mem, p, [192 + to / 256, to % 256])
    ensures DecodeName(mem, max, level, p)
         == if to >= max then Decoded(InNamePtr, [], 0)
            else var d := DecodeName(mem, max, level + 1, to); Decoded(d.status, d.text, 2)
  {
    assert Span(mem, p, 2)[0] == 192 + to / 256 && Span(mem, p, 2)[1] == to % 256;
    assert Offset(mem, p) == to;
  }

  // Main result on pointers: groups of labels anywhere in the packet, each leading to the next, decode to all their
  // labels in order, as long as the levels suffice; and only the octets of the first group are taken up.
  lemma {:induction false} ChainDecodes(mem: Memory, max: nat, level: nat, gs: seq<Group>)
    requires gs != [] && Laid(mem, max, gs) && level + |gs| <= 11
    ensures DecodeName(mem, max, level, gs[0].pos) == Decoded(Success, ChainText(gs), |GroupOctets(gs)|)
    decreases |gs|
  {
    hide DecodeName, Joined, Dotted, LabelOctets;
    var p, labels := gs[0].pos, gs[0].labels;
    var q := p + |LabelOctets(labels)|;
    if |gs| == 1 {
      LabelsPassed(mem, max, level, p, labels, [0]);
      HoldsHead(mem, q, [0]);
      DecodeEnd(mem, max, level, q);
      assert Joined(labels) + [] == Joined(labels);
    } else {
      var to := gs[1].pos;
      assert gs[1..][0] == gs[1];
      LabelsPassed(mem, max, level, p, labels, [192 + to / 256, to % 256]);
      PointerHeld(mem, max, level, q, to);
      ChainDecodes(mem, max, level + 1, gs[1..]);
    }
  }

  // Ten pointers are followed from the start of a name, and an eleventh fails it.
  lemma {:induction false} ChainTooLong(mem: Memory, max: nat, level: nat, gs: seq<Group>)
    requires level <= 11 && Laid(mem, max, gs) && level + |gs| > 11 && gs != []
    ensures DecodeName(mem, max, level, gs[0].pos).status == InNamePtr
    decreases |gs|
  {
    hide Joined, Dotted, LabelOctets, LabelText, Holds, GroupOctets;
    if level <= 10 {
      hide DecodeName;
      var p, labels := gs[0].pos, gs[0].labels;
      var to := gs[1].pos;
      assert gs[1..][0] == gs[1];
      FollowsPointer(mem, max, level, gs);
      ChainTooLong(mem, max, level + 1, gs[1..]);
    }
  }

  lemma FollowsPointer(mem: Memory, max: nat, level: nat, gs: seq<Group>)
    requires |gs| > 1 && Laid(mem, max, gs) && level <= 10
    ensures DecodeName(mem, max, level, gs[0].pos).status == DecodeName(mem, max, level + 1, gs[1].pos).status
  {
    hide DecodeName, Joined, Dotted, LabelOctets;
    var p, labels, to := gs[0].pos, gs[0].labels, gs[1].pos;
    assert gs[1..][0] == gs[1];
    LabelsPassed(mem, max, level, p, labels, [192 + to / 256, to % 256]);
    PointerHeld(mem, max, level, p + |LabelOctets(labels)|, to);
  }

  // The exact number: a name of n groups is read if and only if it needs at most ten pointers, and then it is the
  // dotted join of all its labels.
  lemma ChainOfTen(mem: Memory, max: nat, gs: seq<Group>)
    requires gs != [] && Laid(mem, max, gs)
    ensures var d := DecodeName(mem, max, 0, gs[0].pos);
            && (d.status.Success? <==> |gs| - 1 <= 10)
            && (|gs| - 1 > 10 ==> d.status == InNamePtr)
            && (|gs| - 1 <= 10 ==> d.text == ChainText(gs) && d.parsed == |GroupOctets(gs)|)
    ensures gs[|gs| - 1].labels != [] ==> ChainText(gs) == Joined(AllLabels(gs))
  {
    hide DecodeName, Laid, GroupOctets;
    if |gs| <= 11 {
      ChainDecodes(mem, max, 0, gs);
    } else {
      ChainTooLong(mem, max, 0, gs);
    }
    if gs[|gs| - 1].labels != [] {
      ChainIsJoined(gs);
    }
  }

  lemma {:induction false} ChainIsJoined(gs: seq<Group>)
    requires gs != [] && gs[|gs| - 1].labels != []
    ensures ChainText(gs) == Joined(AllLabels(gs)) && AllLabels(gs) != []
    decreases |gs|
  {
    hide Joined, Dotted;
    if |gs| == 1 {
      assert AllLabels(gs[1..]) == [] && gs[0].labels + [] == gs[0].labels;
    } else {
      ChainIsJoined(gs[1..]);
      DottedJoins(gs[0].labels, AllLabels(gs[1..]));
    }
  }

  lemma {:induction false} DottedJoins(a: seq<Text>, b: seq<Text>)
    requires b != []
    ensures Dotted(a) + Joined(b) == Joined(a + b)
    decreases |a|
  {
    if a == [] {
      assert a + b == b && [] + Joined(b) == Joined(b);
    } else {
      assert (a + b)[1..] == a[1..] + b && (a + b)[0] == a[0];
      DottedJoins(a[1..], b);
      AppendAssociates(a[0] + [DOT], Dotted(a[1..]), Joined(b));
    }
  }

  // What is read lies in the packet, up to the second octet of a pointer at its very end.
  lemma {:induction false} NameEndsInside(mem: Memory, max: nat, level: nat, p: nat)
    requires DecodeName(mem, max, level, p).status.Success? && p < max
    ensures var end := p + DecodeName(mem, max, level, p).parsed;
            end <= max || (end == max + 1 && IsPointer(mem(max - 1)))
    decreases if level > 10 then 0 else 11 - level, max - p
  {
    hide LabelText, Offset;
    if mem(p) != 0 && !IsPointer(mem(p)) {
      NameEndsInside(mem, max, level, p + 1 + mem(p));
    }
  }

  // A name cut off before its final zero is refused, wherever the cut is.
  lemma {:induction false} CutNameFails(mem: Memory, max: nat, level: nat, p: nat, name: Text)
    requires level <= 10 && WellFormed(name) && name != [] && Holds(mem, p, WireName(name)) && p < max < p + |WireName(name)|
    ensures var s := DecodeName(mem, max, level, p).status; s == InSize || s == InNamePtr
    ensures (forall c :: 0 <= c < |WireName(name)| ==> WireName(name)[c] <= max) ==> DecodeName(mem, max, level, p).status == InSize
    decreases |name|
  {
    hide WireName, WellFormed, FirstDot, AfterLabel, LabelText, Holds;
    var n, rest := FirstDot(name), AfterLabel(name);
    WellFormedRest(name);
    ShortLabelRead(mem, p, name);
    WireNameIs(name);
    var q := p + 1 + n;
    assert WireName(name)[0] == n;
    if n <= max && q < max {
      if rest != [] {
        assert forall c :: 0 <= c < |WireName(rest)| ==> WireName(rest)[c] == WireName(name)[1 + n + c];
        CutNameFails(mem, max, level, q, rest);
      } else {
        RootLength();
      }
    }
  }

  lemma RootLength()
    ensures WireName([]) == [0]
  {
  }

  // A pointer to where the packet has ended is refused.
  lemma PointerOutside(mem: Memory, max: nat, level: nat, p: nat, to: nat)
    requires max <= to < 0x4000 && Holds(mem, p, [192 + to / 256, to % 256])
    ensures DecodeName(mem, max, level, p).status == InNamePtr
  {
    if level <= 10 {
      PointerHeld(mem, max, level, p, to);
    }
  }

  // "com" at 12, "a" and a pointer to that at 17, and at 21 a pointer to this.
  lemma NestedPointers(mem: Memory)
    requires Holds(mem, 12, [3, 99, 111, 109, 0]) && Holds(mem, 17, [1, 97, 192, 12]) && Holds(mem, 21, [192, 17])
    ensures DecodeName(mem, 23, 0, 21) == Decoded(Success, [97, DOT, 99, 111, 109], 2)
  {
    hide *;
    var com, a, top := Group(12, [[99, 111, 109]]), Group(17, [[97]]), Group(21, []);
    OneLabel([99, 111, 109]);
    OneLabel([97]);
    NothingLaid(mem, 23);
    assert [com] + [] == [com] && [a] + [com] == [a, com] && [top] + [a, com] == [top, a, com];
    assert [3] + [99, 111, 109] + [0] == [3, 99, 111, 109, 0] && [1] + [97] + [192, 12] == [1, 97, 192, 12];
    assert [] + [192, 17] == [192, 17];
    Ahead(com, []);
    Ahead(a, [com]);
    Ahead(top, [a, com]);
    LaidAhead(mem, 23, com, []);
    LaidAhead(mem, 23, a, [com]);
    LaidAhead(mem, 23, top, [a, com]);
    ChainDecodes(mem, 23, 0, [top, a, com]);
    assert [] + ([97, DOT] + [99, 111, 109]) == [97, DOT, 99, 111, 109] && [97] + [DOT] == [97, DOT];
  }

  lemma OneLabel(l: Text)
    ensures Joined([l]) == l && Dotted([l]) == l + [DOT] && Dotted([]) == []
    ensures 1 <= |l| < 192 ==> LabelsOk([l]) && LabelOctets([l]) == [|l|] + l
    ensures LabelsOk([]) && LabelOctets([]) == []
  {
    assert [l][1..] == [];
    assert Dotted([]) == [] && l + [DOT] + [] == l + [DOT];
    if 1 <= |l| < 192 {
      assert l + LabelOctets([]) == l;
    }
  }

  lemma LaidAhead(mem: Memory, max: nat, g: Group, gs: seq<Group>)
    requires LabelsOk(g.labels) && (gs != [] ==> gs[0].pos < 0x4000) && Laid(mem, max, gs)
    requires var s := LabelOctets(g.labels) + if gs == [] then [0] else [192 + gs[0].pos / 256, gs[0].pos % 256];
             Holds(mem, g.pos, s) && g.pos + |s| <= max
    ensures Laid(mem, max, [g] + gs)
    ensures |GroupOctets([g] + gs)| == |LabelOctets(g.labels)| + if gs == [] then 1 else 2
  {
    hide LabelsOk, LabelOctets, Holds;
    assert ([g] + gs)[1..] == gs && ([g] + gs)[0] == g;
  }

  lemma NothingLaid(mem: Memory, max: nat)
    ensures Laid(mem, max, [])
  {
  }

  lemma Ahead(g: Group, gs: seq<Group>)
    ensures ([g] + gs)[1..] == gs && ([g] + gs)[0] == g
    ensures ChainText([g] + gs) == if gs == [] then Joined(g.labels) else Dotted(g.labels) + ChainText(gs)
  {
    hide Joined, Dotted;
  }
}
