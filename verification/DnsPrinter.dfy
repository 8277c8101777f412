/** print_name, print_rr and print_packet of dns_server.c, writing into the packet buffer in place. */
module DnsPrinter {
  import opened Bytes
  import opened DnsTypes
  import opened DnsWireNames
  import opened DnsFormat
  import opened DnsRoundTrip

  // pos and slen of an entry: the label is the slen octets of the packet behind pos.
  datatype Slot = Slot(pos: nat, slen: nat)

  /** struct label_tab. */
  class LabelTab {
    const a: array<Slot>
    var count: nat
    ghost var names: seq<Text>

    constructor ()
      ensures Valid() && fresh(a) && Value() == NoLabels()
    {
      a := new Slot[MAX_LABEL](_ => Slot(0, 0));
      count, names := 0, [];
    }

    ghost predicate Valid()
      reads this, a
    {
      && a.Length == MAX_LABEL && count == |names| <= MAX_LABEL
      && forall k :: 0 <= k < count ==> a[k].slen == |names[k]|
    }

    ghost function Value(): (t: Table)
      requires Valid()
      ensures t.Ok() && t.names == names
      reads this, a
    {
      Table(names, seq(count, k requires 0 <= k < count && count <= a.Length reads this, a => a[k].pos))
    }

    // The labels are where the entries say, in front of `end`.
    ghost predicate Within(octets: seq<byte>, end: nat)
      requires Valid()
      reads this, a
    {
      end <= |octets| && forall k :: 0 <= k < count ==> LabelAt(octets, end, a[k], names[k])
    }

    // No label is in the gap.
    ghost predicate Clear(p: nat, q: nat)
      requires Valid()
      reads this, a
    {
      forall k :: 0 <= k < count ==> a[k].pos + 1 + a[k].slen <= p || q <= a[k].pos + 1
    }

    // The first entry whose octets are the text of `name`.
    method Lookup(pkt: array<byte>, ghost end: nat, name: Text) returns (i: nat)
      requires Valid() && Within(pkt[..], end)
      ensures i == Find(names, name)
    {
      hide Stored;
      i := 0;
      while i < count
        invariant i <= count && Find(names, name) == FindFrom(names, name, i)
      {
        assert LabelAt(pkt[..], end, a[i], names[i]);
        if pkt[..][a[i].pos + 1..a[i].pos + 1 + a[i].slen] == name {
          return;
        }
        i := i + 1;
      }
    }

    method Add(pos: nat, name: Text)
      requires Valid() && count < MAX_LABEL
      modifies this, a
      ensures Valid() && names == old(names) + [name]
      ensures Value() == Table(old(names) + [name], old(Value()).pos + [pos])
      ensures a[old(count)] == Slot(pos, |name|) && forall k :: 0 <= k < old(count) ==> a[k] == old(a[k])
    {
      a[count] := Slot(pos, |name|);
      names := names + [name];
      count := count + 1;
    }
  }

  predicate LabelAt(octets: seq<byte>, end: nat, e: Slot, name: Text) {
    e.pos + 1 + e.slen <= end <= |octets| && octets[e.pos + 1..e.pos + 1 + e.slen] == Stored(name)
  }

  // `was` with `s` written over it from `p` on.
  function Patched(was: seq<byte>, p: nat, s: seq<byte>): (now: seq<byte>)
    requires p + |s| <= |was|
    ensures |now| == |was|
  {
    was[..p] + s + was[p + |s|..]
  }

  lemma PatchedTwice(was: seq<byte>, p: nat, s: seq<byte>, t: seq<byte>)
    requires p + |s| + |t| <= |was|
    ensures Patched(Patched(was, p, s), p + |s|, t) == Patched(was, p, s + t)
  {
    var now := Patched(was, p, s);
    assert now[..p + |s|] == was[..p] + s;
    assert now[p + |s| + |t|..] == was[p + |s| + |t|..];
    assert (was[..p] + s) + t == was[..p] + (s + t);
  }

  // Filling a gap in front of what was written.
  lemma PatchedBefore(was: seq<byte>, p: nat, s: seq<byte>, t: seq<byte>)
    requires p + |s| + |t| <= |was|
    ensures Patched(Patched(was, p + |s|, t), p, s) == Patched(was, p, s + t)
  {
    var now := Patched(was, p + |s|, t);
    assert now[..p] == was[..p];
    assert now[p + |s|..] == t + was[p + |s| + |t|..];
    assert (was[..p] + s) + (t + was[p + |s| + |t|..]) == (was[..p] + (s + t)) + was[p + |s| + |t|..];
  }

  lemma LabelKept(was: seq<byte>, p: nat, s: seq<byte>, end: nat, e: Slot, name: Text)
    requires p + |s| <= |was| && LabelAt(was, end, e, name) && (e.pos + 1 + e.slen <= p || p + |s| <= e.pos + 1)
    ensures LabelAt(Patched(was, p, s), end, e, name)
  {
    hide Stored;
    var now := Patched(was, p, s);
    assert now[e.pos + 1..e.pos + 1 + e.slen] == was[e.pos + 1..e.pos + 1 + e.slen];
  }

  lemma LabelMade(was: seq<byte>, p: nat, name: Text)
    requires p + |WireName(name)| <= |was|
    ensures LabelAt(Patched(was, p, WireName(name)), p + |WireName(name)|, Slot(p, |name|), name)
  {
    hide WireName;
    var now := Patched(was, p, WireName(name));
    assert now[p + 1..p + 1 + |name|] == WireName(name)[1..1 + |name|];
  }

  // pj_memcpy
  method Store(pkt: array<byte>, p: nat, s: seq<byte>)
    requires p + |s| <= pkt.Length
    modifies pkt
    ensures pkt[..] == Patched(old(pkt[..]), p, s)
  {
    for i := 0 to |s|
      invariant pkt[..p] == old(pkt[..p]) && pkt[p..p + i] == s[..i] && pkt[p + i..] == old(pkt[p + i..])
    {
      pkt[p + i] := s[i];
    }
    assert pkt[..] == pkt[..p] + pkt[p..p + |s|] + pkt[p + |s|..];
  }

  method Write16(pkt: array<byte>, p: nat, v: u16)
    requires p + 2 <= pkt.Length
    modifies pkt
    ensures pkt[..] == Patched(old(pkt[..]), p, Put16(v))
  {
    pkt[p] := v / 256;
    pkt[p + 1] := v % 256;
  }

  method Write32(pkt: array<byte>, p: nat, v: u32)
    requires p + 4 <= pkt.Length
    modifies pkt
    ensures pkt[..] == Patched(old(pkt[..]), p, Put32(v))
  {
    Store(pkt, p, Put32(v));
  }

  // The end of the label at `start`.
  method LabelEnd(name: Text, start: nat) returns (end: nat)
    requires start < |name|
    ensures start <= end <= |name| && end - start == FirstDot(name[start..])
  {
    hide FirstDot;
    end := start;
    while end != |name| && name[end] != DOT
      invariant start <= end <= |name| && forall i :: start <= i < end ==> name[i] != DOT
    {
      end := end + 1;
    }
    FirstDotAt(name[start..], end - start);
  }

  // The tokenising loop of print_name, with the final zero.
  method PrintLabels(pkt: array<byte>, size: nat, pos: nat, name: Text) returns (len: int)
    requires pos + size <= pkt.Length
    modifies pkt
    ensures if |WireName(name)| <= size then len == |WireName(name)| && pkt[..] == Patched(old(pkt[..]), pos, WireName(name))
            else len == -1
  {
    hide FirstDot, WireName, Patched;
    var p, left, start := pos, size, 0;
    ghost var done: seq<byte> := [];
    PatchedNothing(pkt[..], pos);
    RootWire();
    while start != |name|
      invariant start <= |name| && p == pos + |done| && left == size - |done| && left >= 0
      invariant pkt[..] == Patched(old(pkt[..]), pos, done)
      invariant WireName(name) == done + WireName(name[start..])
      decreases |name| - start
    {
      var endlabel := LabelEnd(name, start);
      var slen := endlabel - start;
      ghost var wire := [slen % 256] + name[start..endlabel];
      NextLabel(name, start, endlabel, done);
      if left < slen + 1 {
        return -1;
      }
      PutLabel(pkt, p, name[start..endlabel]);
      PatchedTwice(old(pkt[..]), pos, done, wire);
      done := done + wire;
      left := left - (slen + 1);
      p := p + slen + 1;
      start := if endlabel != |name| && name[endlabel] == DOT then endlabel + 1 else endlabel;
    }
    if left == 0 {
      return -1;
    }
    Store(pkt, p, [0]);
    PatchedTwice(old(pkt[..]), pos, done, [0]);
    assert name[start..] == [];
    return p + 1 - pos;
  }

  lemma PatchedNothing(was: seq<byte>, p: nat)
    requires p <= |was|
    ensures Patched(was, p, []) == was
  {
  }

  lemma NextLabel(name: Text, start: nat, end: nat, done: seq<byte>)
    requires start < |name| && start <= end <= |name| && FirstDot(name[start..]) == end - start
    requires WireName(name) == done + WireName(name[start..])
    ensures var next := if end < |name| then end + 1 else end;
            WireName(name) == done + ([(end - start) % 256] + name[start..end]) + WireName(name[next..])
  {
    hide FirstDot, WireName;
    var rest := name[start..];
    WireNameIs(rest);
    assert rest[..end - start] == name[start..end];
    assert AfterLabel(rest) == name[if end < |name| then end + 1 else end..];
    assert done + ([(end - start) % 256] + (name[start..end] + WireName(AfterLabel(rest))))
        == done + ([(end - start) % 256] + name[start..end]) + WireName(AfterLabel(rest));
  }

  lemma RootWire()
    ensures WireName([]) == [0]
  {
  }

  // A length octet and its label.
  method PutLabel(pkt: array<byte>, p: nat, text: seq<byte>)
    requires p + 1 + |text| <= pkt.Length
    modifies pkt
    ensures pkt[..] == Patched(old(pkt[..]), p, [|text| % 256] + text)
  {
    pkt[p] := |text| % 256;
    assert pkt[..] == Patched(old(pkt[..]), p, [|text| % 256]);
    Store(pkt, p + 1, text);
    PatchedTwice(old(pkt[..]), p, [|text| % 256], text);
  }

  // print_name: a pointer to what the table finds, which is not checked against `size`, or the labels. The `gap` octets
  // in front of `pos` are filled in later.
  method PrintName(pkt: array<byte>, size: nat, pos: nat, name: Text, tab: LabelTab, ghost gap: nat) returns (len: int)
    requires gap <= pos && tab.Valid() && tab.Within(pkt[..], pos - gap)
    requires pos + size <= pkt.Length && pos + 2 <= pkt.Length
    modifies pkt, tab, tab.a
    ensures tab.Valid()
    ensures len < 0 ==> len == -1 && old(Find(tab.names, name) == |tab.names|) && size < |WireName(name)|
    ensures len >= 0 ==>
              && (old(Find(tab.names, name) < |tab.names|) || len <= size)
              && Printed(old(pkt[..]), pkt[..], pos, old(PutName(tab.Value(), pos, name)), tab, len)
              && tab.Clear(pos - gap, pos)
  {
    hide Patched, WireName, LabelAt, Stored, FindFrom, Pointer;
    ghost var was, names, value := pkt[..], tab.names, tab.Value();
    var i := tab.Lookup(pkt, pos - gap, name);
    if i != tab.count {
      PointerIs(tab.a[i].pos);
      Write16(pkt, pos, tab.a[i].pos % 0x4000 + 0xc000);
      KeepAll(tab, was, pos, Pointer(tab.a[i].pos), pos - gap, pos + 2);
      return 2;
    }
    ghost var n := tab.count;
    if tab.count < MAX_LABEL {
      tab.Add(pos, name);
    }
    len := PrintLabels(pkt, size, pos, name);
    if len >= 0 {
      KeepAndMake(tab, was, pos, name, pos - gap, n);
    }
  }

  // The first `n` labels stay, and one more may have been entered.
  lemma KeepAndMake(tab: LabelTab, was: seq<byte>, p: nat, name: Text, end: nat, n: nat)
    requires tab.Valid() && n <= tab.count <= n + 1 && p + |WireName(name)| <= |was| && end <= p
    requires forall k :: 0 <= k < n ==> LabelAt(was, end, tab.a[k], tab.names[k])
    requires tab.count == n + 1 ==> tab.a[n] == Slot(p, |name|) && tab.names[n] == name
    ensures tab.Within(Patched(was, p, WireName(name)), p + |WireName(name)|) && tab.Clear(end, p)
  {
    hide LabelAt, Patched, WireName;
    var end' := p + |WireName(name)|;
    LabelMade(was, p, name);
    forall k | 0 <= k < n
      ensures LabelAt(Patched(was, p, WireName(name)), end', tab.a[k], tab.names[k])
           && tab.a[k].pos + 1 + tab.a[k].slen <= end
    {
      KeepLabel(was, p, WireName(name), end, end', tab.a[k], tab.names[k]);
    }
  }

  // `piece` has been written at `pos`, and the table has its value and its labels.
  ghost predicate Printed(was: seq<byte>, now: seq<byte>, pos: nat, piece: Piece, tab: LabelTab, len: int)
    requires tab.Valid()
    reads tab, tab.a
  {
    && len == |piece.wire| && pos + len <= |was|
    && now == Patched(was, pos, piece.wire)
    && tab.Value() == piece.tab
    && tab.Within(now, pos + len)
  }

  lemma PointerIs(pos: nat)
    ensures Pointer(pos) == Put16(pos % 0x4000 + 0xc000)
  {
  }

  // Labels in front of what is written stay.
  lemma KeepLabel(was: seq<byte>, p: nat, s: seq<byte>, end: nat, end': nat, e: Slot, name: Text)
    requires p + |s| <= |was| && LabelAt(was, end, e, name) && end <= p && end <= end' <= |was|
    ensures LabelAt(Patched(was, p, s), end', e, name) && e.pos + 1 + e.slen <= end
  {
    hide Stored, Patched;
    LabelKept(was, p, s, end, e, name);
  }

  lemma KeepAll(tab: LabelTab, was: seq<byte>, p: nat, s: seq<byte>, end: nat, end': nat)
    requires tab.Valid() && tab.Within(was, end) && p + |s| <= |was| && end <= p && end <= end' <= |was|
    ensures tab.Within(Patched(was, p, s), end') && tab.Clear(end, p)
  {
    hide LabelAt, Patched;
    forall k | 0 <= k < tab.count
      ensures LabelAt(Patched(was, p, s), end', tab.a[k], tab.names[k]) && tab.a[k].pos + 1 + tab.a[k].slen <= end
    {
      KeepLabel(was, p, s, end, end', tab.a[k], tab.names[k]);
    }
  }

  // How much more `size` has to be than what is printed: print_rr leaves no room for resource data that ends in a bare
  // root, and print_packet asks for 4 octets behind the name of a query that it then does not count.

  function RootSpare(names: seq<Text>, name: Text): nat {
    if name == [] && Find(names, name) == |names| then 1 else 0
  }

  function RdataSpare(names: seq<Text>, d: Rdata): nat {
    match d
    case Target(name) => RootSpare(names, name)
    case Service(_, _, _, target) => RootSpare(names, target)
    case _ => 0
  }

  function RrSpare(names: seq<Text>, rr: Rr): nat { RdataSpare(Noted(names, rr.name), rr.rdata) }

  // Only the last record's matters.
  function RrsSpare(names: seq<Text>, rrs: seq<Rr>): (n: nat)
    ensures n <= 1 && (rrs == [] ==> n == 0)
    decreases |rrs|
  {
    if rrs == [] then 0
    else if |rrs| == 1 then RrSpare(names, rrs[0])
    else RrsSpare(NotedAll(names, NamesOfRr(rrs[0])), rrs[1..])
  }

  function SectionsSpare(names: seq<Text>, ans: seq<Rr>, ns: seq<Rr>, arr: seq<Rr>): (n: nat)
    ensures n <= 1
  {
    var behindAns := NotedAll(names, NamesOfRrs(ans));
    if arr != [] then RrsSpare(NotedAll(behindAns, NamesOfRrs(ns)), arr)
    else if ns != [] then RrsSpare(behindAns, ns)
    else RrsSpare(names, ans)
  }

  function PacketSpare(p: Packet): nat {
    if p.ans == [] && p.ns == [] && p.arr == [] then (if p.q == [] then 0 else 4)
    else SectionsSpare(NotedAll([], NamesOfQueries(p.q)), p.ans, p.ns, p.arr)
  }

  // The smallest `size` print_packet succeeds with.
  function LeastSize(p: Packet): int { |PutPacket(p)| - 4 * |p.q| + PacketSpare(p) }

  lemma SpareIs(t: Table, p: nat, name: Text)
    requires t.Ok()
    ensures RootSpare(t.names, name) == if |PutName(t, p, name).wire| == 1 then 1 else 0
  {
    hide WireLabels, FindFrom, Pointer, Grown;
    if name == [] {
      RootWire();
    }
  }

  lemma RdataSpareIs(names: seq<Text>, d: Rdata)
    ensures d.Address? ==> RdataSpare(names, d) == 0
    ensures d.Target? ==> RdataSpare(names, d) == RootSpare(names, d.name)
    ensures d.Service? ==> RdataSpare(names, d) == RootSpare(names, d.target)
  {
  }

  // rdlength and resource data of a record, from `p` on.
  method PrintRdata(pkt: array<byte>, size: nat, p: nat, d: Rdata, tab: LabelTab) returns (len: int)
    requires tab.Valid() && tab.Within(pkt[..], p) && p + size <= pkt.Length && !d.Raw?
    requires d.Address? ==> |d.octets| == 4 || |d.octets| == 16
    modifies pkt, tab, tab.a
    ensures tab.Valid()
    ensures if size < old(|PutRdata(tab.Value(), p, d).wire| + RdataSpare(tab.names, d)) then len == -1
            else len >= 0 && Printed(old(pkt[..]), pkt[..], p, old(PutRdata(tab.Value(), p, d)), tab, len)
  {
    hide *;
    RdataSpareIs(tab.names, d);
    match d
    case Address(octets) => len := PrintAddress(pkt, size, p, octets, tab);
    case Target(name) => len := PrintTarget(pkt, size, p, name, tab);
    case Service(prio, weight, port, target) => len := PrintService(pkt, size, p, prio, weight, port, target, tab);
  }

  method PrintAddress(pkt: array<byte>, size: nat, p: nat, octets: seq<byte>, tab: LabelTab) returns (len: int)
    requires tab.Valid() && tab.Within(pkt[..], p) && p + size <= pkt.Length && (|octets| == 4 || |octets| == 16)
    modifies pkt, tab, tab.a
    ensures tab.Valid()
    ensures if size < |octets| + 2 then len == -1
            else len >= 0 && Printed(old(pkt[..]), pkt[..], p, old(PutRdata(tab.Value(), p, Address(octets))), tab, len)
    ensures |old(PutRdata(tab.Value(), p, Address(octets))).wire| == |octets| + 2
  {
    hide Patched, LabelAt, Put16;
    if size < |octets| + 2 {
      return -1;
    }
    ghost var was := pkt[..];
    Write16(pkt, p, |octets|);
    Store(pkt, p + 2, octets);
    PatchedTwice(was, p, Put16(|octets|), octets);
    KeepAll(tab, was, p, Put16(|octets|) + octets, p, p + 2 + |octets|);
    return |octets| + 2;
  }

  method PrintTarget(pkt: array<byte>, size: nat, p: nat, name: Text, tab: LabelTab) returns (len: int)
    requires tab.Valid() && tab.Within(pkt[..], p) && p + size <= pkt.Length
    modifies pkt, tab, tab.a
    ensures tab.Valid()
    ensures if size < old(|PutRdata(tab.Value(), p, Target(name)).wire| + RootSpare(tab.names, name)) then len == -1
            else len >= 0 && Printed(old(pkt[..]), pkt[..], p, old(PutRdata(tab.Value(), p, Target(name))), tab, len)
  {
    hide *;
    ghost var was, t := pkt[..], tab.Value();
    ghost var n := PutName(t, p + 2, name);
    PutTargetIs(t, p, name);
    WireIs(t, p + 2, name);
    SpareIs(t, p + 2, name);
    if size < 4 {
      return -1;
    }
    len := PrintName(pkt, size - 2, p + 2, name, tab, 2);
    if len < 0 {
      return -1;
    }
    PrintedIs(was, pkt[..], p + 2, n, tab, len);
    FillGap(tab, was, pkt[..], p, Put16(len % 0x1_0000), n.wire);
    Write16(pkt, p, len % 0x1_0000);
    PrintedMade(was, pkt[..], p, PutRdata(t, p, Target(name)), tab, len + 2);
    return len + 2;
  }

  lemma PutTargetIs(t: Table, p: nat, name: Text)
    requires t.Ok()
    ensures var n := PutName(t, p + 2, name);
            PutRdata(t, p, Target(name)) == Piece(Put16(|n.wire| % 0x1_0000) + n.wire, n.tab)
  {
    hide PutName, Put16, Noted, NotedAll;
  }

  lemma PutServiceIs(t: Table, p: nat, prio: u16, weight: u16, port: u16, target: Text)
    requires t.Ok()
    ensures var n := PutName(t, p + 8, target);
            PutRdata(t, p, Service(prio, weight, port, target)) ==
            Piece(Put16((|n.wire| + 6) % 0x1_0000) + (Put16(prio) + Put16(weight) + Put16(port)) + n.wire, n.tab)
  {
    hide PutName, Put16, Noted, NotedAll;
  }

  // The octets in the gap are written last.
  lemma FillGap(tab: LabelTab, was: seq<byte>, now: seq<byte>, p: nat, gap: seq<byte>, s: seq<byte>)
    requires tab.Valid() && p + |gap| + |s| <= |was| && now == Patched(was, p + |gap|, s)
    requires tab.Within(now, p + |gap| + |s|) && tab.Clear(p, p + |gap|)
    ensures Patched(now, p, gap) == Patched(was, p, gap + s) && tab.Within(Patched(now, p, gap), p + |gap| + |s|)
  {
    hide LabelAt, Patched;
    PatchedBefore(was, p, gap, s);
    forall k | 0 <= k < tab.count ensures LabelAt(Patched(now, p, gap), p + |gap| + |s|, tab.a[k], tab.names[k]) {
      LabelKept(now, p, gap, p + |gap| + |s|, tab.a[k], tab.names[k]);
    }
  }

  method PrintService(pkt: array<byte>, size: nat, p: nat, prio: u16, weight: u16, port: u16, target: Text, tab: LabelTab)
    returns (len: int)
    requires tab.Valid() && tab.Within(pkt[..], p) && p + size <= pkt.Length
    modifies pkt, tab, tab.a
    ensures tab.Valid()
    ensures var w := old(PutRdata(tab.Value(), p, Service(prio, weight, port, target)));
            if size < |w.wire| + old(RootSpare(tab.names, target)) then len == -1
            else len >= 0 && Printed(old(pkt[..]), pkt[..], p, w, tab, len)
  {
    hide *;
    ghost var was, t := pkt[..], tab.Value();
    ghost var n := PutName(t, p + 8, target);
    ghost var parameters := Put16(prio) + Put16(weight) + Put16(port);
    PutServiceIs(t, p, prio, weight, port, target);
    WireIs(t, p + 8, target);
    SpareIs(t, p + 8, target);
    if size < 10 {
      return -1;
    }
    PrintParameters(pkt, p, prio, weight, port, tab);
    ghost var mid := pkt[..];
    len := PrintName(pkt, size - 8, p + 8, target, tab, 8);
    if len < 0 {
      return -1;
    }
    PrintedIs(mid, pkt[..], p + 8, n, tab, len);
    PatchedTwice(was, p + 2, parameters, n.wire);
    ClearLess(tab, p, p + 2, p + 8);
    ghost var rdlen := Put16((len + 6) % 0x1_0000);
    FillGap(tab, was, pkt[..], p, rdlen, parameters + n.wire);
    Write16(pkt, p, (len + 6) % 0x1_0000);
    AppendAssociates(rdlen, parameters, n.wire);
    PrintedMade(was, pkt[..], p, PutRdata(t, p, Service(prio, weight, port, target)), tab, len + 8);
    return len + 8;
  }

  method PrintParameters(pkt: array<byte>, p: nat, prio: u16, weight: u16, port: u16, tab: LabelTab)
    requires tab.Valid() && tab.Within(pkt[..], p) && p + 8 <= pkt.Length
    modifies pkt
    ensures tab.Valid() && tab.Within(pkt[..], p) && tab.Value() == old(tab.Value())
    ensures pkt[..] == Patched(old(pkt[..]), p + 2, Put16(prio) + Put16(weight) + Put16(port))
  {
    hide Patched, LabelAt, Put16;
    ghost var was := pkt[..];
    Write16(pkt, p + 2, prio);
    Write16(pkt, p + 4, weight);
    PatchedTwice(was, p + 2, Put16(prio), Put16(weight));
    Write16(pkt, p + 6, port);
    PatchedTwice(was, p + 2, Put16(prio) + Put16(weight), Put16(port));
    KeepAll(tab, was, p + 2, Put16(prio) + Put16(weight) + Put16(port), p, p);
  }

  // print_rr
  method PrintRr(pkt: array<byte>, size: nat, pos: nat, rr: Rr, tab: LabelTab) returns (len: int)
    requires RrOk(rr) && rr.dnsclass == CLASS_IN
    requires tab.Valid() && tab.Within(pkt[..], pos) && pos + size <= pkt.Length && pos + 2 <= pkt.Length
    modifies pkt, tab, tab.a
    ensures tab.Valid()
    ensures if !Known(rr.rtype) || size < old(|PutRr(tab.Value(), pos, rr).wire| + RrSpare(tab.names, rr)) then len == -1
            else len >= 0 && Printed(old(pkt[..]), pkt[..], pos, old(PutRr(tab.Value(), pos, rr)), tab, len)
  {
    hide *;
    ghost var was, t := pkt[..], tab.Value();
    ghost var n := PutName(t, pos, rr.name);
    ghost var d := PutRdata(n.tab, pos + |n.wire| + 8, rr.rdata);
    PutRrIs(t, pos, rr);
    RrSpareIs(t.names, rr);
    KindIs(rr);
    RdataLeast(n.tab, pos + |n.wire| + 8, rr.rdata);
    WireIs(t, pos, rr.name);
    len := PrintName(pkt, size, pos, rr.name, tab, 0);
    if len < 0 {
      return -1;
    }
    PrintedIs(was, pkt[..], pos, n, tab, len);
    var p := pos + len;
    var left := size - len;
    if left < 8 {
      return -1;
    }
    PrintFixed(pkt, p, rr, tab);
    PatchedTwice(was, pos, n.wire, Fixed(rr));
    ghost var mid := pkt[..];
    p := p + 8;
    left := left - 8;
    if rr.rdata.Raw? {
      return -1;
    }
    var rest := PrintRdata(pkt, left, p, rr.rdata, tab);
    if rest < 0 {
      return -1;
    }
    PrintedAfter(was, mid, pkt[..], pos, n.wire + Fixed(rr), d, tab, rest);
    AppendAssociates(n.wire, Fixed(rr), d.wire);
    return p + rest - pos;
  }

  lemma RrSpareIs(names: seq<Text>, rr: Rr)
    ensures RrSpare(names, rr) == RdataSpare(Noted(names, rr.name), rr.rdata)
  {
  }

  lemma RdataLeast(t: Table, p: nat, d: Rdata)
    requires t.Ok()
    ensures |PutRdata(t, p, d).wire| >= 2
  {
    hide PutName, Put16, Grown;
  }

  // Facts used where the definitions are hidden.
  lemma PrintedIs(was: seq<byte>, now: seq<byte>, pos: nat, piece: Piece, tab: LabelTab, len: int)
    requires tab.Valid() && Printed(was, now, pos, piece, tab, len)
    ensures len == |piece.wire| && pos + len <= |was| && now == Patched(was, pos, piece.wire)
    ensures tab.Value() == piece.tab && tab.Within(now, pos + len)
  {
  }

  lemma PrintedMade(was: seq<byte>, now: seq<byte>, pos: nat, piece: Piece, tab: LabelTab, len: int)
    requires tab.Valid() && len == |piece.wire| && pos + len <= |was| && now == Patched(was, pos, piece.wire)
    requires tab.Value() == piece.tab && tab.Within(now, pos + len)
    ensures Printed(was, now, pos, piece, tab, len)
  {
  }

  lemma ClearLess(tab: LabelTab, p: nat, q: nat, r: nat)
    requires tab.Valid() && tab.Clear(p, r) && q <= r
    ensures tab.Clear(p, q)
  {
  }

  lemma KindIs(rr: Rr)
    requires RrOk(rr)
    ensures rr.rdata.Raw? <==> !Known(rr.rtype)
    ensures rr.rdata.Address? ==> |rr.rdata.octets| == 4 || |rr.rdata.octets| == 16
  {
  }

  lemma WireIs(t: Table, p: nat, name: Text)
    requires t.Ok()
    ensures Find(t.names, name) == |t.names| ==> PutName(t, p, name).wire == WireName(name)
    ensures Find(t.names, name) < |t.names| ==> |PutName(t, p, name).wire| == 2
  {
    hide WireName, FindFrom, Pointer;
  }

  // A piece printed behind a first one.
  lemma PrintedAfter(was: seq<byte>, mid: seq<byte>, now: seq<byte>, pos: nat, first: seq<byte>, second: Piece, tab: LabelTab, len: int)
    requires tab.Valid() && pos + |first| <= |was| && mid == Patched(was, pos, first)
    requires Printed(mid, now, pos + |first|, second, tab, len)
    ensures Printed(was, now, pos, Piece(first + second.wire, second.tab), tab, |first| + len)
  {
    hide Patched;
    PatchedTwice(was, pos, first, second.wire);
  }

  method PrintFixed(pkt: array<byte>, p: nat, rr: Rr, tab: LabelTab)
    requires tab.Valid() && tab.Within(pkt[..], p) && p + 8 <= pkt.Length
    modifies pkt
    ensures tab.Valid() && tab.Within(pkt[..], p + 8) && tab.Value() == old(tab.Value())
    ensures pkt[..] == Patched(old(pkt[..]), p, Fixed(rr))
  {
    hide Patched, LabelAt, Put16, Put32;
    ghost var was := pkt[..];
    Write16(pkt, p, rr.rtype);
    Write16(pkt, p + 2, rr.dnsclass);
    PatchedTwice(was, p, Put16(rr.rtype), Put16(rr.dnsclass));
    Write32(pkt, p + 4, rr.ttl);
    PatchedTwice(was, p, Put16(rr.rtype) + Put16(rr.dnsclass), Put32(rr.ttl));
    KeepAll(tab, was, p, Fixed(rr), p, p + 8);
  }

  predicate ClassesIn(rrs: seq<Rr>) { forall rr :: rr in rrs ==> rr.dnsclass == CLASS_IN }

  predicate AllKnown(rrs: seq<Rr>) { forall rr :: rr in rrs ==> Known(rr.rtype) }

  // One of the three loops over records.
  method PrintSection(pkt: array<byte>, size: nat, pos: nat, rrs: seq<Rr>, tab: LabelTab) returns (len: int)
    requires RrsOk(rrs) && ClassesIn(rrs)
    requires tab.Valid() && tab.Within(pkt[..], pos) && pos + size + 2 <= pkt.Length
    modifies pkt, tab, tab.a
    ensures tab.Valid()
    ensures if !AllKnown(rrs) || size < old(|PutRrs(tab.Value(), pos, rrs).wire| + RrsSpare(tab.names, rrs)) then len == -1
            else len >= 0 && Printed(old(pkt[..]), pkt[..], pos, old(PutRrs(tab.Value(), pos, rrs)), tab, len)
  {
    hide PutRr, PutRrs, Patched, LabelAt, FitsType, Known, NotedAll, NamesOfRrs, NamesOfRr, RrsSpare, RrSpare, Grown;
    ghost var spare := RrsSpare(tab.names, rrs);
    ghost var was, whole := pkt[..], PutRrs(tab.Value(), pos, rrs);
    ghost var done: seq<byte> := [];
    var p, left := pos, size;
    PatchedNothing(was, pos);
    assert rrs[0..] == rrs && [] + whole.wire == whole.wire;
    for i := 0 to |rrs|
      invariant tab.Valid() && left >= 0 && p == pos + |done| && left == size - |done|
      invariant pkt[..] == Patched(was, pos, done) && tab.Within(pkt[..], p)
      invariant var rest := PutRrs(tab.Value(), p, rrs[i..]); whole == Piece(done + rest.wire, rest.tab)
      invariant forall k :: 0 <= k < i ==> Known(rrs[k].rtype)
      invariant if i < |rrs| then spare == RrsSpare(tab.names, rrs[i..]) else left >= spare
    {
      ghost var mid, first := pkt[..], PutRr(tab.Value(), p, rrs[i]);
      ghost var rest := PutRrs(first.tab, p + |first.wire|, rrs[i + 1..]);
      PutRrsIs(tab.Value(), p, rrs, i);
      RrsSpareIs(tab.names, rrs, i);
      if i + 1 < |rrs| {
        RrsLeast(first.tab, p + |first.wire|, rrs[i + 1..]);
      }
      var len := PrintRr(pkt, left, p, rrs[i], tab);
      if len < 0 {
        assert rrs[i] in rrs;
        return -1;
      }
      PatchedTwice(was, pos, done, first.wire);
      AppendAssociates(done, first.wire, rest.wire);
      done := done + first.wire;
      p := p + len;
      left := left - len;
    }
    NothingPut(tab.Value(), p, rrs);
    assert done + [] == done;
    return p - pos;
  }

  lemma PutRrsIs(t: Table, p: nat, rrs: seq<Rr>, i: nat)
    requires t.Ok() && i < |rrs|
    ensures var first := PutRr(t, p, rrs[i]);
            var rest := PutRrs(first.tab, p + |first.wire|, rrs[i + 1..]);
            PutRrs(t, p, rrs[i..]) == Piece(first.wire + rest.wire, rest.tab)
  {
    hide PutRr, NotedAll, NamesOfRrs;
    assert rrs[i..][0] == rrs[i] && rrs[i..][1..] == rrs[i + 1..];
  }

  lemma RrsSpareIs(names: seq<Text>, rrs: seq<Rr>, i: nat)
    requires i < |rrs|
    ensures RrSpare(names, rrs[i]) <= 1
    ensures RrsSpare(names, rrs[i..]) == if i + 1 == |rrs| then RrSpare(names, rrs[i])
                                         else RrsSpare(NotedAll(names, NamesOfRr(rrs[i])), rrs[i + 1..])
  {
    hide NotedAll, NamesOfRr, Noted, FindFrom;
    assert rrs[i..][0] == rrs[i] && rrs[i..][1..] == rrs[i + 1..];
  }

  lemma RrsLeast(t: Table, p: nat, rrs: seq<Rr>)
    requires t.Ok() && rrs != []
    ensures |PutRrs(t, p, rrs).wire| >= 9
  {
    hide PutName, PutRdata, Fixed, Grown, NotedAll, NamesOfRrs, NamesOfRr;
    PutRrIs(t, p, rrs[0]);
  }

  lemma NothingPut(t: Table, p: nat, rrs: seq<Rr>)
    requires t.Ok()
    ensures PutRrs(t, p, rrs[|rrs|..]) == Piece([], t)
  {
  }

  // The loop over the queries: their type and class fields do not count against `size`.
  method PrintQueries(pkt: array<byte>, size: nat, pos: nat, qs: seq<Query>, tab: LabelTab) returns (len: int, left: int)
    requires forall q :: q in qs ==> q.dnsclass == CLASS_IN
    requires tab.Valid() && tab.Within(pkt[..], pos) && pos + size + 4 * |qs| + 2 <= pkt.Length
    modifies pkt, tab, tab.a
    ensures tab.Valid()
    ensures if size + 4 * |qs| < old(|PutQueries(tab.Value(), pos, qs).wire|) + QueriesSpare(qs) then len == -1
            else len >= 0 && left == size - (len - 4 * |qs|)
                 && Printed(old(pkt[..]), pkt[..], pos, old(PutQueries(tab.Value(), pos, qs)), tab, len)
  {
    hide PutQuery, PutQueries, Patched, LabelAt, NotedAll, NamesOfQueries, PutName, FindFrom, WireName, Put16, Grown;
    ghost var was, whole := pkt[..], PutQueries(tab.Value(), pos, qs);
    ghost var done: seq<byte> := [];
    var p := pos;
    left := size;
    PatchedNothing(was, pos);
    assert qs[0..] == qs && [] + whole.wire == whole.wire;
    for i := 0 to |qs|
      invariant tab.Valid() && left >= (if i > 0 then 4 else 0) && p == pos + |done| && left == size - (|done| - 4 * i)
      invariant pkt[..] == Patched(was, pos, done) && tab.Within(pkt[..], p)
      invariant var rest := PutQueries(tab.Value(), p, qs[i..]); whole == Piece(done + rest.wire, rest.tab)
    {
      ghost var first := PutQuery(tab.Value(), p, qs[i]);
      ghost var rest := PutQueries(first.tab, p + |first.wire|, qs[i + 1..]);
      PutQueriesIs(tab.Value(), p, qs, i);
      QueriesLeast(first.tab, p + |first.wire|, qs[i + 1..]);
      len, left := PrintQuery(pkt, left, p, qs[i], tab);
      if len < 0 {
        return -1, left;
      }
      PatchedTwice(was, pos, done, first.wire);
      AppendAssociates(done, first.wire, rest.wire);
      done := done + first.wire;
      p := p + len;
    }
    NoQueryPut(tab.Value(), p, qs);
    assert done + [] == done;
    len := p - pos;
  }

  // What is still asked for behind the last query.
  function QueriesSpare(qs: seq<Query>): nat { if qs == [] then 0 else 4 }

  lemma {:induction false} QueriesLeast(t: Table, p: nat, qs: seq<Query>)
    requires t.Ok()
    ensures |PutQueries(t, p, qs).wire| >= 4 * |qs|
    decreases |qs|
  {
    hide PutQuery, PutQueries, Grown, NotedAll, NamesOfQueries;
    if qs != [] {
      var first := PutQuery(t, p, qs[0]);
      assert qs[0..] == qs;
      PutQueriesIs(t, p, qs, 0);
      QueryLeast(t, p, qs[0]);
      QueriesLeast(first.tab, p + |first.wire|, qs[1..]);
    }
  }

  lemma QueryLeast(t: Table, p: nat, q: Query)
    requires t.Ok()
    ensures |PutQuery(t, p, q).wire| >= 5
  {
    hide PutName, Put16, Grown;
  }

  method PrintQuery(pkt: array<byte>, size: nat, pos: nat, q: Query, tab: LabelTab) returns (len: int, left: int)
    requires tab.Valid() && tab.Within(pkt[..], pos) && pos + size + 4 <= pkt.Length
    modifies pkt, tab, tab.a
    ensures tab.Valid()
    ensures if size < |old(PutQuery(tab.Value(), pos, q)).wire| then len == -1
            else len >= 0 && left == size - (len - 4)
                 && Printed(old(pkt[..]), pkt[..], pos, old(PutQuery(tab.Value(), pos, q)), tab, len)
  {
    hide *;
    ghost var was, t := pkt[..], tab.Value();
    ghost var n := PutName(t, pos, q.name);
    PutQueryIs(t, pos, q);
    WireIs(t, pos, q.name);
    left := size;
    len := PrintName(pkt, size, pos, q.name, tab, 0);
    if len < 0 {
      return -1, left;
    }
    PrintedIs(was, pkt[..], pos, n, tab, len);
    var p := pos + len;
    left := left - len;
    if left < 4 {
      return -1, left;
    }
    ghost var mid := pkt[..];
    Write16(pkt, p, q.qtype);
    Write16(pkt, p + 2, q.dnsclass);
    ghost var rest := Put16(q.qtype) + Put16(q.dnsclass);
    PatchedTwice(mid, p, Put16(q.qtype), Put16(q.dnsclass));
    PatchedTwice(was, pos, n.wire, rest);
    KeepAll(tab, mid, p, rest, p, p + 4);
    PrintedMade(was, pkt[..], pos, PutQuery(t, pos, q), tab, len + 4);
    return len + 4, left;
  }

  lemma PutQueryIs(t: Table, p: nat, q: Query)
    requires t.Ok()
    ensures var n := PutName(t, p, q.name);
            PutQuery(t, p, q) == Piece(n.wire + (Put16(q.qtype) + Put16(q.dnsclass)), n.tab)
  {
    hide PutName, Put16, Noted;
  }

  lemma PutQueriesIs(t: Table, p: nat, qs: seq<Query>, i: nat)
    requires t.Ok() && i < |qs|
    ensures var first := PutQuery(t, p, qs[i]);
            var rest := PutQueries(first.tab, p + |first.wire|, qs[i + 1..]);
            PutQueries(t, p, qs[i..]) == Piece(first.wire + rest.wire, rest.tab)
  {
    hide PutQuery, NotedAll, NamesOfQueries;
    assert qs[i..][0] == qs[i] && qs[i..][1..] == qs[i + 1..];
  }

  lemma NoQueryPut(t: Table, p: nat, qs: seq<Query>)
    requires t.Ok()
    ensures PutQueries(t, p, qs[|qs|..]) == Piece([], t)
  {
  }

  method PrintHeader(pkt: array<byte>, h: Header)
    requires pkt.Length >= HEADER
    modifies pkt
    ensures pkt[..] == Patched(old(pkt[..]), 0, PutHeader(h))
  {
    hide Patched, Put16;
    ghost var was := pkt[..];
    Write16(pkt, 0, h.id);
    Write16(pkt, 2, h.flags);
    PatchedTwice(was, 0, Put16(h.id), Put16(h.flags));
    ghost var a := Put16(h.id) + Put16(h.flags);
    Write16(pkt, 4, h.qdcount);
    PatchedTwice(was, 0, a, Put16(h.qdcount));
    a := a + Put16(h.qdcount);
    Write16(pkt, 6, h.anscount);
    PatchedTwice(was, 0, a, Put16(h.anscount));
    a := a + Put16(h.anscount);
    Write16(pkt, 8, h.nscount);
    PatchedTwice(was, 0, a, Put16(h.nscount));
    a := a + Put16(h.nscount);
    Write16(pkt, 10, h.arcount);
    PatchedTwice(was, 0, a, Put16(h.arcount));
  }

  // print_packet. The buffer has room for what `size` does not count.
  method PrintPacket(rec: Packet, pkt: array<byte>, size: int) returns (r: int)
    requires PacketOk(rec) && (forall q :: q in rec.q ==> q.dnsclass == CLASS_IN)
    requires ClassesIn(rec.ans) && ClassesIn(rec.ns) && ClassesIn(rec.arr)
    requires size + 4 * |rec.q| + 2 <= pkt.Length
    modifies pkt
    ensures if !AllKnown(rec.ans) || !AllKnown(rec.ns) || !AllKnown(rec.arr) || size < LeastSize(rec) then r == -1
            else r == |PutPacket(rec)| <= pkt.Length && pkt[..] == Patched(old(pkt[..]), 0, PutPacket(rec))
  {
    hide *;
    var tab := new LabelTab();
    PutPacketIs(rec);
    PacketOkIs(rec);
    LeastSizeIs(rec, size);
    if size < HEADER {
      return -1;
    }
    ghost var was := pkt[..];
    ghost var q := PutQueries(NoLabels(), HEADER, rec.q);
    ghost var a := PutRrs(q.tab, HEADER + |q.wire|, rec.ans);
    ghost var n := PutRrs(a.tab, HEADER + |q.wire| + |a.wire|, rec.ns);
    ghost var d := PutRrs(n.tab, HEADER + |q.wire| + |a.wire| + |n.wire|, rec.arr);
    PutSectionsIs(q.tab, HEADER + |q.wire|, rec);
    PrintHeader(pkt, rec.hdr);
    var p := HEADER;
    NothingWithin(tab, pkt[..], p);
    ghost var done, before := PutHeader(rec.hdr), pkt[..];
    var len, left := PrintQueries(pkt, size - HEADER, p, rec.q, tab);
    if len < 0 {
      return -1;
    }
    PrintedNext(was, before, pkt[..], done, q, tab, len);
    done, before := done + q.wire, pkt[..];
    p := p + len;
    len := PrintSection(pkt, left, p, rec.ans, tab);
    if len < 0 {
      return -1;
    }
    PrintedNext(was, before, pkt[..], done, a, tab, len);
    done, before := done + a.wire, pkt[..];
    p := p + len;
    left := left - len;
    len := PrintSection(pkt, left, p, rec.ns, tab);
    if len < 0 {
      return -1;
    }
    PrintedNext(was, before, pkt[..], done, n, tab, len);
    done, before := done + n.wire, pkt[..];
    p := p + len;
    left := left - len;
    len := PrintSection(pkt, left, p, rec.arr, tab);
    if len < 0 {
      return -1;
    }
    PrintedNext(was, before, pkt[..], done, d, tab, len);
    Regroup(PutHeader(rec.hdr), q.wire, a.wire, n.wire, d.wire);
    return p + len;
  }

  lemma PrintedNext(was: seq<byte>, mid: seq<byte>, now: seq<byte>, done: seq<byte>, piece: Piece, tab: LabelTab, len: int)
    requires tab.Valid() && |done| <= |was| && mid == Patched(was, 0, done) && Printed(mid, now, |done|, piece, tab, len)
    ensures len == |piece.wire| && |done| + len <= |was| && now == Patched(was, 0, done + piece.wire)
    ensures tab.Value() == piece.tab && tab.Within(now, |done| + len)
  {
    hide Patched, LabelAt;
    PatchedTwice(was, 0, done, piece.wire);
  }

  lemma Regroup(h: seq<byte>, q: seq<byte>, a: seq<byte>, n: seq<byte>, d: seq<byte>)
    ensures h + q + a + n + d == h + (q + (a + (n + d)))
  {
    AppendAssociates(h + q + a, n, d);
    AppendAssociates(h + q, a, n + d);
    AppendAssociates(h, q, a + (n + d));
  }

  lemma NothingWithin(tab: LabelTab, octets: seq<byte>, end: nat)
    requires tab.Valid() && tab.Value() == NoLabels() && end <= |octets|
    ensures tab.Within(octets, end)
  {
  }

  lemma PacketOkIs(p: Packet)
    requires PacketOk(p)
    ensures RrsOk(p.ans) && RrsOk(p.ns) && RrsOk(p.arr)
  {
  }

  lemma PutSectionsIs(t: Table, p: nat, rec: Packet)
    requires t.Ok()
    ensures var a := PutRrs(t, p, rec.ans);
            var n := PutRrs(a.tab, p + |a.wire|, rec.ns);
            var d := PutRrs(n.tab, p + |a.wire| + |n.wire|, rec.arr);
            PutSections(t, p, rec.ans, rec.ns, rec.arr).wire == a.wire + (n.wire + d.wire)
  {
    hide PutRrs, NotedAll, NamesOfRrs;
  }

  // The two halves together: a buffer print_packet has filled, read from its start.
  lemma PrintedParses(mem: Memory, was: seq<byte>, now: seq<byte>, p: Packet)
    requires PacketPrintable(p) && |PutPacket(p)| <= |was| && PacketTable(p).Reachable()
    requires now == Patched(was, 0, PutPacket(p)) && forall i :: 0 <= i < |now| ==> mem(i) == now[i]
    ensures PacketBack(PacketAt(mem, |PutPacket(p)|), p) <==> AllFaithful([], NamesOf(p))
  {
    hide PutPacket, PacketPrintable, PacketBack, PacketAt, AllFaithful, NamesOf;
    assert Span(mem, 0, |PutPacket(p)|) == now[..|PutPacket(p)|] == PutPacket(p);
    RoundTrip(mem, p);
  }

  // The smallest size, section by section.
  lemma LeastSizeIs(rec: Packet, size: int)
    ensures var q := PutQueries(NoLabels(), HEADER, rec.q);
            var a := PutRrs(q.tab, HEADER + |q.wire|, rec.ans);
            var n := PutRrs(a.tab, HEADER + |q.wire| + |a.wire|, rec.ns);
            var d := PutRrs(n.tab, HEADER + |q.wire| + |a.wire| + |n.wire|, rec.arr);
            var left := size - HEADER - (|q.wire| - 4 * |rec.q|);
            size >= LeastSize(rec) <==>
              && left >= QueriesSpare(rec.q)
              && left >= |a.wire| + RrsSpare(q.tab.names, rec.ans)
              && left - |a.wire| >= |n.wire| + RrsSpare(a.tab.names, rec.ns)
              && left - |a.wire| - |n.wire| >= |d.wire| + RrsSpare(n.tab.names, rec.arr)
    ensures LeastSize(rec) >= HEADER
  {
    hide PutQueries, PutRrs, RrsSpare, NotedAll, NamesOfQueries, NamesOfRrs, PutHeader, Grown;
    var q := PutQueries(NoLabels(), HEADER, rec.q);
    var a := PutRrs(q.tab, HEADER + |q.wire|, rec.ans);
    var n := PutRrs(a.tab, HEADER + |q.wire| + |a.wire|, rec.ns);
    PutPacketIs(rec);
    PutSectionsIs(q.tab, HEADER + |q.wire|, rec);
    QueriesLeast(NoLabels(), HEADER, rec.q);
    SectionLeast(q.tab, HEADER + |q.wire|, rec.ans);
    SectionLeast(a.tab, HEADER + |q.wire| + |a.wire|, rec.ns);
    SectionLeast(n.tab, HEADER + |q.wire| + |a.wire| + |n.wire|, rec.arr);
  }

  lemma SectionLeast(t: Table, p: nat, rrs: seq<Rr>)
    requires t.Ok()
    ensures |PutRrs(t, p, rrs).wire| >= if rrs == [] then 0 else 9
    ensures rrs == [] ==> |PutRrs(t, p, rrs).wire| == 0
  {
    if rrs != [] {
      RrsLeast(t, p, rrs);
    }
  }

  // Main result: a packet can come out longer than the size allowed exactly when it has at least two queries, or one and a
  // record.
  lemma OutgrowsExactly(p: Packet)
    ensures LeastSize(p) < |PutPacket(p)|
       <==> |p.q| >= 2 || (|p.q| == 1 && (p.ans != [] || p.ns != [] || p.arr != []))
  {
    hide PutPacket, SectionsSpare, NotedAll, NamesOfQueries;
  }

  // Two questions about the root: 23 octets where 19 are allowed.
  lemma TwoRootsOutgrow()
    ensures var q := Query([], TYPE_A, CLASS_IN);
            var p := Packet(Header(1, 0, 2, 0, 0, 0), [q, q], [], [], []);
            |PutPacket(p)| == 23 && LeastSize(p) == 19
  {
    hide Grown, Stored, WireName, PutSections, PutRrs, PutHeader;
    var q := Query([], TYPE_A, CLASS_IN);
    var p := Packet(Header(1, 0, 2, 0, 0, 0), [q, q], [], [], []);
    RootWire();
    assert Stored([]) == [];
    assert [q, q][1..] == [q] && [q][1..] == [];
    var first := PutQuery(NoLabels(), HEADER, q);
    assert first == Piece([0] + (Put16(q.qtype) + Put16(q.dnsclass)), Table([[]], [HEADER]));
    assert Find([[]], []) == 0;
    assert |PutQueries(first.tab, HEADER + 5, [q]).wire| == 6;
    assert |PutQueries(NoLabels(), HEADER, [q, q]).wire| == 11;
    NoSections(PutQueries(NoLabels(), HEADER, [q, q]).tab, HEADER + 11);
  }

  lemma NoSections(t: Table, p: nat)
    requires t.Ok()
    ensures PutSections(t, p, [], [], []).wire == []
  {
    hide Grown;
  }
}
