/**
 The printer against the parser: exactly which packets come back, with repeated names replaced by
 compression pointers.
 */
module DnsRoundTrip {
  import opened Bytes
  import opened DnsTypes
  import opened DnsNames
  import opened DnsWireNames
  import opened DnsFormat

  // A name is faithful to the table when the entry taken for it is the same name, or, if none is taken, when its
  // wire form reads back.
  predicate Faithful(names: seq<Text>, name: Text) {
    var k := Find(names, name);
    if k < |names| then names[k] == name else WellFormed(name)
  }

  predicate AllFaithful(names: seq<Text>, more: seq<Text>)
    decreases |more|
  {
    more == [] || (Faithful(names, more[0]) && AllFaithful(Noted(names, more[0]), more[1..]))
  }

  lemma {:induction false} FaithfulAppend(names: seq<Text>, a: seq<Text>, b: seq<Text>)
    ensures AllFaithful(names, a + b) <==> AllFaithful(names, a) && AllFaithful(NotedAll(names, a), b)
    decreases |a|
  {
    if a == [] {
      assert [] + b == b;
    } else {
      assert (a + b)[1..] == a[1..] + b;
      FaithfulAppend(Noted(names, a[0]), a[1..], b);
    }
  }

  predicate EntryReads(mem: Memory, max: nat, name: Text, pos: nat) {
    WellFormed(name) && pos < 0x4000 && pos + |WireName(name)| <= max && Holds(mem, pos, WireName(name))
  }

  predicate TabReads(mem: Memory, max: nat, tab: Table): (r: bool)
    ensures r ==> tab.Ok()
  {
    tab.Ok() && forall k :: 0 <= k < |tab.names| ==> EntryReads(mem, max, tab.names[k], tab.pos[k])
  }

  lemma PointerReads(mem: Memory, max: nat, p: nat, name: Text, pos: nat)
    requires EntryReads(mem, max, name, pos) && Holds(mem, p, Pointer(pos))
    ensures DecodeName(mem, max, 0, p) == Decoded(Success, name, 2)
  {
    PointerOctets(mem, p, pos);
    EntryBounds(mem, max, name, pos);
    hide *;
    WireDecodes(mem, max, 1, pos, name);
    DecodePointer(mem, max, p);
  }

  lemma EntryBounds(mem: Memory, max: nat, name: Text, pos: nat)
    requires EntryReads(mem, max, name, pos)
    ensures WellFormed(name) && pos < 0x4000 && pos + |WireName(name)| <= max && Holds(mem, pos, WireName(name))
  {
  }

  lemma DecodePointer(mem: Memory, max: nat, p: nat)
    requires IsPointer(mem(p)) && Offset(mem, p) < max
    ensures var d := DecodeName(mem, max, 1, Offset(mem, p)); DecodeName(mem, max, 0, p) == Decoded(d.status, d.text, 2)
  {
    hide Offset;
  }

  lemma PointerOctets(mem: Memory, p: nat, pos: nat)
    requires pos < 0x4000 && Holds(mem, p, Pointer(pos))
    ensures IsPointer(mem(p)) && Offset(mem, p) == pos
  {
    var v: u16 := pos + 0xc000;
    assert pos % 0x4000 == pos;
    assert Span(mem, p, 2)[0] == v / 256 && Span(mem, p, 2)[1] == v % 256;
  }

  // One name: read back exactly when it is faithful, and then the table stays readable.
  lemma NameReads(mem: Memory, max: nat, p: nat, tab: Table, name: Text)
    requires TabReads(mem, max, tab)
    requires var w := PutName(tab, p, name); w.tab.Reachable() && Holds(mem, p, w.wire) && p + |w.wire| <= max
    ensures var w := PutName(tab, p, name);
            && (Faithful(tab.names, name) ==>
                  && DecodeName(mem, max, 0, p) == Decoded(Success, name, |w.wire|)
                  && TabReads(mem, max, w.tab))
            && (!Faithful(tab.names, name) ==> !Reads(DecodeName(mem, max, 0, p), name))
  {
    hide DecodeName, WireName, WellFormed, Stored, Holds, FindFrom, Pointer, EntryReads;
    var k := Find(tab.names, name);
    if k < |tab.names| {
      PointerReads(mem, max, p, tab.names[k], tab.pos[k]);
    } else {
      ReadsBack(mem, max, p, name);
      if WellFormed(name) {
        WireDecodes(mem, max, 0, p, name);
        if k < MAX_LABEL {
          assert p in PutName(tab, p, name).tab.pos;
          EntryMade(mem, max, name, p);
        }
      }
    }
  }

  lemma EntryMade(mem: Memory, max: nat, name: Text, pos: nat)
    requires WellFormed(name) && pos < 0x4000 && pos + |WireName(name)| <= max && Holds(mem, pos, WireName(name))
    ensures EntryReads(mem, max, name, pos)
  {
  }

  // What the printer is made for: class IN, and a type it knows.
  predicate Printable(rr: Rr) { RrOk(rr) && Known(rr.rtype) && rr.dnsclass == CLASS_IN }

  predicate AllPrintable(rrs: seq<Rr>) { forall rr :: rr in rrs ==> Printable(rr) }

  // Equal apart from rdlength, which is the printer's to choose.
  predicate SameRr(a: Rr, b: Rr) { a == b.(rdlength := a.rdlength) }

  predicate SameRrs(a: seq<Rr>, b: seq<Rr>) { |a| == |b| && forall i :: 0 <= i < |a| ==> SameRr(a[i], b[i]) }

  predicate SamePacket(a: Packet, b: Packet) {
    a.hdr == b.hdr && a.q == b.q && SameRrs(a.ans, b.ans) && SameRrs(a.ns, b.ns) && SameRrs(a.arr, b.arr)
  }

  // `q` has come back as `r`.
  predicate Back<T(==)>(r: Parsed<T>, q: T) { r.Parsed? && r.value == q }

  predicate RrBack(r: Parsed<Rr>, rr: Rr) { r.Parsed? && SameRr(r.value, rr) }

  predicate RrsBack(r: Parsed<seq<Rr>>, rrs: seq<Rr>) { r.Parsed? && SameRrs(r.value, rrs) }

  lemma OneName(names: seq<Text>, name: Text)
    ensures AllFaithful(names, [name]) <==> Faithful(names, name)
    ensures NotedAll(names, [name]) == Noted(names, name)
  {
  }

  lemma QueryReads(mem: Memory, max: nat, p: nat, tab: Table, q: Query)
    requires TabReads(mem, max, tab)
    requires var w := PutQuery(tab, p, q); w.tab.Reachable() && Holds(mem, p, w.wire) && p + |w.wire| <= max
    ensures var w := PutQuery(tab, p, q);
            && (Faithful(tab.names, q.name) ==> QueryAt(mem, max, p) == Parsed(q, |w.wire|) && TabReads(mem, max, w.tab))
            && (!Faithful(tab.names, q.name) ==> !Back(QueryAt(mem, max, p), q))
  {
    hide DecodeName, PutName, Holds, Put16, Get16, Faithful, TabReads, Noted;
    var n := PutName(tab, p, q.name);
    var at := p + |n.wire|;
    HoldsAppend(mem, p, n.wire, Put16(q.qtype) + Put16(q.dnsclass));
    HoldsAppend(mem, at, Put16(q.qtype), Put16(q.dnsclass));
    Get16Put(mem, at, q.qtype);
    Get16Put(mem, at + 2, q.dnsclass);
    NameReads(mem, max, p, tab, q.name);
    ReadsIs(DecodeName(mem, max, 0, p), q.name);
  }

  // The resource data at `p`, behind its length.
  predicate RdataReads(mem: Memory, max: nat, p: nat, tab: Table, rtype: u16, d: Rdata)
    requires tab.Ok()
  {
    var w, r := PutRdata(tab, p, d), RdataAt(mem, max, rtype, Get16(mem, p), p + 2);
    && Get16(mem, p) + 2 <= |w.wire|
    && (AllFaithful(tab.names, NamesOfRdata(d)) ==> r == Parsed(d, |w.wire| - 2) && TabReads(mem, max, w.tab))
    && (!AllFaithful(tab.names, NamesOfRdata(d)) ==> !Back(r, d))
  }

  lemma AddressReads(mem: Memory, max: nat, p: nat, tab: Table, rtype: u16, octets: seq<byte>)
    requires TabReads(mem, max, tab) && FitsType(rtype, Address(octets))
    requires var w := PutRdata(tab, p, Address(octets)); w.tab.Reachable() && Holds(mem, p, w.wire) && p + |w.wire| <= max
    ensures RdataReads(mem, max, p, tab, rtype, Address(octets))
  {
    hide Put16, Get16, TabReads, Holds, Span;
    HoldsAppend(mem, p, Put16(|octets| % 0x1_0000), octets);
    Get16Put(mem, p, |octets| % 0x1_0000);
    SpanHolds(mem, p + 2, octets);
  }

  lemma TargetReads(mem: Memory, max: nat, p: nat, tab: Table, rtype: u16, name: Text)
    requires TabReads(mem, max, tab) && IsTarget(rtype)
    requires var w := PutRdata(tab, p, Target(name)); w.tab.Reachable() && Holds(mem, p, w.wire) && p + |w.wire| <= max
    ensures RdataReads(mem, max, p, tab, rtype, Target(name))
  {
    hide Put16, Get16, TabReads, Holds, DecodeName, PutName, Faithful, AllFaithful, Noted, NotedAll;
    var n := PutName(tab, p + 2, name);
    HoldsAppend(mem, p, Put16(|n.wire| % 0x1_0000), n.wire);
    Get16Put(mem, p, |n.wire| % 0x1_0000);
    NameReads(mem, max, p + 2, tab, name);
    ReadsIs(DecodeName(mem, max, 0, p + 2), name);
    OneName(tab.names, name);
  }

  lemma ServiceReads(mem: Memory, max: nat, p: nat, tab: Table, prio: u16, weight: u16, port: u16, target: Text)
    requires TabReads(mem, max, tab)
    requires var w := PutRdata(tab, p, Service(prio, weight, port, target)); w.tab.Reachable() && Holds(mem, p, w.wire) && p + |w.wire| <= max
    ensures RdataReads(mem, max, p, tab, TYPE_SRV, Service(prio, weight, port, target))
  {
    hide Put16, Get16, TabReads, Holds, DecodeName, PutName, Faithful, AllFaithful, Noted, NotedAll;
    var n := PutName(tab, p + 8, target);
    var len: u16 := (|n.wire| + 6) % 0x1_0000;
    HoldsAppend(mem, p, Put16(len) + (Put16(prio) + Put16(weight) + Put16(port)), n.wire);
    HoldsAppend(mem, p, Put16(len), Put16(prio) + Put16(weight) + Put16(port));
    HoldsAppend(mem, p + 2, Put16(prio) + Put16(weight), Put16(port));
    HoldsAppend(mem, p + 2, Put16(prio), Put16(weight));
    Get16Put(mem, p, len);
    Get16Put(mem, p + 2, prio);
    Get16Put(mem, p + 4, weight);
    Get16Put(mem, p + 6, port);
    NameReads(mem, max, p + 8, tab, target);
    ReadsIs(DecodeName(mem, max, 0, p + 8), target);
    OneName(tab.names, target);
  }

  lemma RdataRead(mem: Memory, max: nat, p: nat, tab: Table, rtype: u16, d: Rdata)
    requires TabReads(mem, max, tab) && FitsType(rtype, d) && Known(rtype)
    requires var w := PutRdata(tab, p, d); w.tab.Reachable() && Holds(mem, p, w.wire) && p + |w.wire| <= max
    ensures RdataReads(mem, max, p, tab, rtype, d)
  {
    hide PutRdata, RdataReads, Holds, TabReads;
    match d
    case Address(octets) => AddressReads(mem, max, p, tab, rtype, octets);
    case Target(name) => TargetReads(mem, max, p, tab, rtype, name);
    case Service(prio, weight, port, target) => ServiceReads(mem, max, p, tab, prio, weight, port, target);
  }

  lemma FixedPut(mem: Memory, q: nat, rr: Rr)
    requires Holds(mem, q, Fixed(rr))
    ensures Get16(mem, q) == rr.rtype && Get16(mem, q + 2) == rr.dnsclass && Get32(mem, q + 4) == rr.ttl
  {
    hide Holds, Put16, Put32, Get16, Get32;
    HoldsAppend(mem, q, Put16(rr.rtype) + Put16(rr.dnsclass), Put32(rr.ttl));
    HoldsAppend(mem, q, Put16(rr.rtype), Put16(rr.dnsclass));
    Get16Put(mem, q, rr.rtype);
    Get16Put(mem, q + 2, rr.dnsclass);
    Get32Put(mem, q + 4, rr.ttl);
  }

  // A record from its type field on.
  lemma FixedReads(mem: Memory, max: nat, q: nat, tab: Table, rr: Rr)
    requires TabReads(mem, max, tab) && Printable(rr) && Holds(mem, q, Fixed(rr))
    requires var w := PutRdata(tab, q + 8, rr.rdata); w.tab.Reachable() && Holds(mem, q + 8, w.wire) && q + 8 + |w.wire| <= max
    ensures var w, r := PutRdata(tab, q + 8, rr.rdata), FixedAt(mem, max, q, rr.name);
            && (AllFaithful(tab.names, NamesOfRdata(rr.rdata)) ==>
                  RrBack(r, rr) && r.len == 8 + |w.wire| && TabReads(mem, max, w.tab))
            && (!AllFaithful(tab.names, NamesOfRdata(rr.rdata)) ==> !RrBack(r, rr))
  {
    hide PutRdata, RdataAt, Holds, TabReads, Get16, Get32, AllFaithful, NamesOfRdata, Fixed;
    FixedPut(mem, q, rr);
    RdataRead(mem, max, q + 8, tab, rr.rtype, rr.rdata);
  }

  lemma RrNames(names: seq<Text>, rr: Rr)
    ensures AllFaithful(names, NamesOfRr(rr))
       <==> Faithful(names, rr.name) && AllFaithful(Noted(names, rr.name), NamesOfRdata(rr.rdata))
  {
    hide NamesOfRdata, Faithful, Noted;
    var more := NamesOfRr(rr);
    assert more[0] == rr.name && more[1..] == NamesOfRdata(rr.rdata);
  }

  lemma PutRrIs(tab: Table, p: nat, rr: Rr)
    requires tab.Ok()
    ensures var n := PutName(tab, p, rr.name);
            var d := PutRdata(n.tab, p + |n.wire| + 8, rr.rdata);
            PutRr(tab, p, rr) == Piece(n.wire + (Fixed(rr) + d.wire), d.tab)
  {
    hide PutName, PutRdata, Fixed, Noted, NotedAll, NamesOfRr;
  }

  lemma RrAtIs(mem: Memory, max: nat, p: nat, rr: Rr)
    ensures var d := DecodeName(mem, max, 0, p);
            var r := FixedAt(mem, max, p + d.parsed, rr.name);
            && (!Reads(d, rr.name) ==> !RrBack(RrAt(mem, max, p), rr))
            && (Reads(d, rr.name) ==> (RrBack(RrAt(mem, max, p), rr) <==> RrBack(r, rr)))
            && (Reads(d, rr.name) && r.Parsed? ==> RrAt(mem, max, p) == Parsed(r.value, d.parsed + r.len))
  {
    hide DecodeName, RdataAt, Get16, Get32;
  }

  lemma BackIs(r: Parsed<Rr>, rr: Rr)
    ensures RrBack(r, rr) ==> r.Parsed?
  {
  }

  lemma RrReads(mem: Memory, max: nat, p: nat, tab: Table, rr: Rr)
    requires TabReads(mem, max, tab) && Printable(rr)
    requires var w := PutRr(tab, p, rr); w.tab.Reachable() && Holds(mem, p, w.wire) && p + |w.wire| <= max
    ensures var w := PutRr(tab, p, rr);
            && (AllFaithful(tab.names, NamesOfRr(rr)) ==>
                  && RrBack(RrAt(mem, max, p), rr) && RrAt(mem, max, p).len == |w.wire|
                  && TabReads(mem, max, w.tab))
            && (!AllFaithful(tab.names, NamesOfRr(rr)) ==> !RrBack(RrAt(mem, max, p), rr))
  {
    hide *;
    var n := PutName(tab, p, rr.name);
    var q := p + |n.wire|;
    var d := PutRdata(n.tab, q + 8, rr.rdata);
    PutRrIs(tab, p, rr);
    GrownIs(n.tab, q + 8, d);
    HoldsAppend(mem, p, n.wire, Fixed(rr) + d.wire);
    HoldsAppend(mem, q, Fixed(rr), d.wire);
    NameReads(mem, max, p, tab, rr.name);
    ReadsIs(DecodeName(mem, max, 0, p), rr.name);
    RrNames(tab.names, rr);
    RrAtIs(mem, max, p, rr);
    BackIs(FixedAt(mem, max, q, rr.name), rr);
    if Faithful(tab.names, rr.name) {
      FixedReads(mem, max, q, n.tab, rr);
    }
  }

  lemma {:induction false} QueriesRead(mem: Memory, max: nat, p: nat, tab: Table, qs: seq<Query>)
    requires TabReads(mem, max, tab)
    requires var w := PutQueries(tab, p, qs); w.tab.Reachable() && Holds(mem, p, w.wire) && p + |w.wire| <= max
    ensures var w, r := PutQueries(tab, p, qs), QueriesAt(mem, max, p, |qs|);
            && (AllFaithful(tab.names, NamesOfQueries(qs)) ==>
                  Back(r, qs) && r.len == |w.wire| && TabReads(mem, max, w.tab))
            && (!AllFaithful(tab.names, NamesOfQueries(qs)) ==> !Back(r, qs))
    decreases |qs|
  {
    hide QueryAt, PutQuery, Holds, Grown, TabReads, Faithful, Noted;
    if qs != [] {
      var first := PutQuery(tab, p, qs[0]);
      var rest := PutQueries(first.tab, p + |first.wire|, qs[1..]);
      HoldsAppend(mem, p, first.wire, rest.wire);
      GrownIs(first.tab, p + |first.wire|, rest);
      QueryReads(mem, max, p, tab, qs[0]);
      QueryNames(tab.names, qs);
      QueriesAtIs(mem, max, p, qs);
      if Faithful(tab.names, qs[0].name) {
        QueriesRead(mem, max, p + |first.wire|, first.tab, qs[1..]);
      }
    }
  }

  lemma QueryNames(names: seq<Text>, qs: seq<Query>)
    requires qs != []
    ensures AllFaithful(names, NamesOfQueries(qs))
       <==> Faithful(names, qs[0].name) && AllFaithful(Noted(names, qs[0].name), NamesOfQueries(qs[1..]))
  {
    hide Faithful, Noted;
    assert NamesOfQueries(qs)[1..] == NamesOfQueries(qs[1..]);
  }

  lemma QueriesAtIs(mem: Memory, max: nat, p: nat, qs: seq<Query>)
    requires qs != []
    ensures var first, r := QueryAt(mem, max, p), QueriesAt(mem, max, p, |qs|);
            && (Back(r, qs) ==> Back(first, qs[0]))
            && (Back(first, qs[0]) ==>
                  var rest := QueriesAt(mem, max, p + first.len, |qs| - 1);
                  (Back(r, qs) <==> Back(rest, qs[1..])) && (Back(r, qs) ==> r.len == first.len + rest.len))
  {
    hide QueryAt;
    assert qs == [qs[0]] + qs[1..];
  }

  lemma {:induction false} RrsRead(mem: Memory, max: nat, p: nat, tab: Table, rrs: seq<Rr>)
    requires TabReads(mem, max, tab) && AllPrintable(rrs)
    requires var w := PutRrs(tab, p, rrs); w.tab.Reachable() && Holds(mem, p, w.wire) && p + |w.wire| <= max
    ensures var w, r := PutRrs(tab, p, rrs), RrsAt(mem, max, p, |rrs|);
            && (AllFaithful(tab.names, NamesOfRrs(rrs)) ==>
                  RrsBack(r, rrs) && r.len == |w.wire| && TabReads(mem, max, w.tab))
            && (!AllFaithful(tab.names, NamesOfRrs(rrs)) ==> !RrsBack(r, rrs))
    decreases |rrs|
  {
    hide RrAt, PutRr, Holds, TabReads, AllFaithful, NotedAll, NamesOfRr, SameRr;
    if rrs == [] {
      NoNames(tab.names);
    } else {
      var first := PutRr(tab, p, rrs[0]);
      var rest := PutRrs(first.tab, p + |first.wire|, rrs[1..]);
      HoldsAppend(mem, p, first.wire, rest.wire);
      RrReads(mem, max, p, tab, rrs[0]);
      FaithfulAppend(tab.names, NamesOfRr(rrs[0]), NamesOfRrs(rrs[1..]));
      RrsAtIs(mem, max, p, rrs);
      if AllFaithful(tab.names, NamesOfRr(rrs[0])) {
        RrsRead(mem, max, p + |first.wire|, first.tab, rrs[1..]);
      }
    }
  }

  lemma NoNames(names: seq<Text>)
    ensures AllFaithful(names, [])
  {
  }

  lemma RrsAtIs(mem: Memory, max: nat, p: nat, rrs: seq<Rr>)
    requires rrs != []
    ensures var first, r := RrAt(mem, max, p), RrsAt(mem, max, p, |rrs|);
            && (RrsBack(r, rrs) ==> RrBack(first, rrs[0]))
            && (RrBack(first, rrs[0]) ==>
                  var rest := RrsAt(mem, max, p + first.len, |rrs| - 1);
                  (RrsBack(r, rrs) <==> RrsBack(rest, rrs[1..])) && (RrsBack(r, rrs) ==> r.len == first.len + rest.len))
  {
    hide RrAt, SameRr, SameRrs;
    var first := RrAt(mem, max, p);
    if first.Parsed? {
      var rest := RrsAt(mem, max, p + first.len, |rrs| - 1);
      if rest.Parsed? {
        SameCons(first.value, rest.value, rrs);
      }
    }
  }

  lemma SameCons(x: Rr, xs: seq<Rr>, rrs: seq<Rr>)
    requires rrs != []
    ensures SameRrs([x] + xs, rrs) <==> SameRr(x, rrs[0]) && SameRrs(xs, rrs[1..])
  {
    hide SameRr;
    var a := [x] + xs;
    assert |a| == |xs| + 1 && a[0] == x && a[1..] == xs;
    if SameRrs(a, rrs) {
      forall i | 0 <= i < |xs| ensures SameRr(xs[i], rrs[1..][i]) {
        assert SameRr(a[i + 1], rrs[i + 1]);
      }
    }
    if SameRr(x, rrs[0]) && SameRrs(xs, rrs[1..]) {
      forall i | 0 <= i < |a| ensures SameRr(a[i], rrs[i]) {
        if i > 0 {
          assert SameRr(xs[i - 1], rrs[1..][i - 1]);
        }
      }
    }
  }

  lemma HeaderRead(mem: Memory, h: Header)
    requires Holds(mem, 0, PutHeader(h))
    ensures HeaderAt(mem) == h
  {
    hide Holds, Put16, Get16;
    var a := Put16(h.id) + Put16(h.flags);
    var b := a + Put16(h.qdcount);
    var c := b + Put16(h.anscount);
    var d := c + Put16(h.nscount);
    HoldsAppend(mem, 0, d, Put16(h.arcount));
    HoldsAppend(mem, 0, c, Put16(h.nscount));
    HoldsAppend(mem, 0, b, Put16(h.anscount));
    HoldsAppend(mem, 0, a, Put16(h.qdcount));
    HoldsAppend(mem, 0, Put16(h.id), Put16(h.flags));
    Get16Put(mem, 0, h.id);
    Get16Put(mem, 2, h.flags);
    Get16Put(mem, 4, h.qdcount);
    Get16Put(mem, 6, h.anscount);
    Get16Put(mem, 8, h.nscount);
    Get16Put(mem, 10, h.arcount);
  }

  predicate PacketPrintable(p: Packet) {
    PacketOk(p) && AllPrintable(p.ans) && AllPrintable(p.ns) && AllPrintable(p.arr)
  }

  predicate PacketBack(r: Parsed<Packet>, p: Packet) { r.Parsed? && SamePacket(r.value, p) }

  predicate SectionsBack(r: Parsed<Sections>, ans: seq<Rr>, ns: seq<Rr>, arr: seq<Rr>) {
    r.Parsed? && SameRrs(r.value.ans, ans) && SameRrs(r.value.ns, ns) && SameRrs(r.value.arr, arr)
  }

  lemma SectionsRead(mem: Memory, max: nat, p: nat, tab: Table, ans: seq<Rr>, ns: seq<Rr>, arr: seq<Rr>)
    requires TabReads(mem, max, tab) && AllPrintable(ans) && AllPrintable(ns) && AllPrintable(arr)
    requires var w := PutSections(tab, p, ans, ns, arr); w.tab.Reachable() && Holds(mem, p, w.wire) && p + |w.wire| <= max
    ensures SectionsBack(SectionsAt(mem, max, p, |ans|, |ns|, |arr|), ans, ns, arr)
       <==> AllFaithful(tab.names, NamesOfSections(ans, ns, arr))
  {
    hide RrsAt, PutRrs, Holds, TabReads, AllFaithful, NotedAll, NamesOfRrs, SameRrs, AllPrintable;
    var a := PutRrs(tab, p, ans);
    var n := PutRrs(a.tab, p + |a.wire|, ns);
    var r := PutRrs(n.tab, p + |a.wire| + |n.wire|, arr);
    HoldsAppend(mem, p, a.wire, n.wire + r.wire);
    HoldsAppend(mem, p + |a.wire|, n.wire, r.wire);
    FaithfulAppend(tab.names, NamesOfRrs(ans), NamesOfRrs(ns) + NamesOfRrs(arr));
    FaithfulAppend(a.tab.names, NamesOfRrs(ns), NamesOfRrs(arr));
    RrsRead(mem, max, p, tab, ans);
    if AllFaithful(tab.names, NamesOfRrs(ans)) {
      RrsRead(mem, max, p + |a.wire|, a.tab, ns);
      if AllFaithful(a.tab.names, NamesOfRrs(ns)) {
        RrsRead(mem, max, p + |a.wire| + |n.wire|, n.tab, arr);
      }
    }
  }

  lemma EmptyTable(mem: Memory, max: nat)
    ensures TabReads(mem, max, NoLabels())
  {
  }

  lemma PacketNames(p: Packet)
    ensures AllFaithful([], NamesOf(p))
       <==> AllFaithful([], NamesOfQueries(p.q))
            && AllFaithful(NotedAll([], NamesOfQueries(p.q)), NamesOfSections(p.ans, p.ns, p.arr))
  {
    hide AllFaithful, NotedAll, NamesOfQueries, NamesOfSections;
    FaithfulAppend([], NamesOfQueries(p.q), NamesOfSections(p.ans, p.ns, p.arr));
  }

  lemma PutPacketIs(p: Packet)
    ensures var q := PutQueries(NoLabels(), HEADER, p.q);
            && PutPacket(p) == PutHeader(p.hdr) + (q.wire + PutSections(q.tab, HEADER + |q.wire|, p.ans, p.ns, p.arr).wire)
            && PacketTable(p) == PutSections(q.tab, HEADER + |q.wire|, p.ans, p.ns, p.arr).tab
  {
    hide PutQueries, PutSections, PutHeader, Grown, NotedAll, NamesOfQueries;
  }

  lemma PacketAtIs(mem: Memory, max: nat, p: Packet)
    requires max >= HEADER && PacketOk(p) && HeaderAt(mem) == p.hdr
    ensures var q, r := QueriesAt(mem, max, HEADER, |p.q|), PacketAt(mem, max);
            && (PacketBack(r, p) ==> Back(q, p.q))
            && (Back(q, p.q) ==>
                  var s := SectionsAt(mem, max, HEADER + q.len, |p.ans|, |p.ns|, |p.arr|);
                  PacketBack(r, p) <==> SectionsBack(s, p.ans, p.ns, p.arr))
  {
    hide QueriesAt, SectionsAt, HeaderAt, SameRrs, RrsOk;
  }

  lemma PrintableIs(p: Packet)
    requires PacketPrintable(p)
    ensures PacketOk(p) && AllPrintable(p.ans) && AllPrintable(p.ns) && AllPrintable(p.arr)
  {
  }

  // Main result: parsing what was printed gives the packet back, apart from rdlength, exactly when all its names
  // are faithful. The entries of the label table have to be where a compression pointer can reach them.
  lemma RoundTrip(mem: Memory, p: Packet)
    requires PacketPrintable(p) && PacketTable(p).Reachable() && Holds(mem, 0, PutPacket(p))
    ensures PacketBack(PacketAt(mem, |PutPacket(p)|), p) <==> AllFaithful([], NamesOf(p))
  {
    hide *;
    var max := |PutPacket(p)|;
    var q := PutQueries(NoLabels(), HEADER, p.q);
    PutPacketIs(p);
    GrownIs(q.tab, HEADER + |q.wire|, PutSections(q.tab, HEADER + |q.wire|, p.ans, p.ns, p.arr));
    PacketNames(p);
    PrintableIs(p);
    EmptyTable(mem, max);
    HoldsAppend(mem, 0, PutHeader(p.hdr), q.wire + PutSections(q.tab, HEADER + |q.wire|, p.ans, p.ns, p.arr).wire);
    HoldsAppend(mem, HEADER, q.wire, PutSections(q.tab, HEADER + |q.wire|, p.ans, p.ns, p.arr).wire);
    HeaderRead(mem, p.hdr);
    QueriesRead(mem, max, HEADER, NoLabels(), p.q);
    PacketAtIs(mem, max, p);
    if AllFaithful([], NamesOfQueries(p.q)) {
      SectionsRead(mem, max, HEADER + |q.wire|, q.tab, p.ans, p.ns, p.arr);
    }
  }

  // In packets of at most 0x4000 octets they always are; the server prints no more than 1500.
  lemma ShortReaches(p: Packet)
    requires |PutPacket(p)| <= 0x4000
    ensures PacketTable(p).Reachable()
  {
    hide PutQueries, PutSections, PutHeader;
    PutPacketIs(p);
  }
}
