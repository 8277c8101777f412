/**
 Where the octets of a packet lie, in numbers (sections 3.2.2, 4.1.1 and 4.1.3 of RFC 1035, section 2.1 of RFC 3596,
 RFC 2782), and which records the parser takes.
 */
module DnsLayout {
  import opened Bytes
  import opened DnsTypes
  import opened DnsNames
  import opened DnsWireNames
  import opened DnsFormat
  import opened DnsRoundTrip
  import opened DnsPrinter

  // The octet sent first counts most.
  function Number2(a: int, b: int): int { a * 0x100 + b }

  function Number4(a: int, b: int, c: int, d: int): int { a * 0x100_0000 + b * 0x1_0000 + c * 0x100 + d }

  lemma ByteOrder(v: u16, w: u32, mem: Memory, p: nat)
    ensures var s := Put16(v); Number2(s[0], s[1]) == v
    ensures var s := Put32(w); Number4(s[0], s[1], s[2], s[3]) == w
    ensures Get16(mem, p) == Number2(mem(p), mem(p + 1))
    ensures Get32(mem, p) == Number4(mem(p), mem(p + 1), mem(p + 2), mem(p + 3))
  {
    HighAndLow(w / 0x1_0000);
    HighAndLow(w % 0x1_0000);
    HighAndLow(v);
    assert w == w / 0x1_0000 * 0x1_0000 + w % 0x1_0000;
  }

  lemma HighAndLow(v: u16)
    ensures var s := Put16(v); Number2(s[0], s[1]) == v
  {
  }

  // The six header fields, two octets each.
  lemma HeaderLayout(h: Header)
    ensures var s := PutHeader(h);
            && Number2(s[0], s[1]) == h.id && Number2(s[2], s[3]) == h.flags
            && Number2(s[4], s[5]) == h.qdcount && Number2(s[6], s[7]) == h.anscount
            && Number2(s[8], s[9]) == h.nscount && Number2(s[10], s[11]) == h.arcount
  {
    HighAndLow(h.id);
    HighAndLow(h.flags);
    HighAndLow(h.qdcount);
    HighAndLow(h.anscount);
    HighAndLow(h.nscount);
    HighAndLow(h.arcount);
    hide Put16;
  }

  // The record types by number, and what their data is.
  lemma TypesByNumber(rtype: u16, d: Rdata)
    ensures Known(rtype) <==> rtype == 1 || rtype == 2 || rtype == 5 || rtype == 12 || rtype == 28 || rtype == 33
    ensures FitsType(rtype, d) <==>
              || (d.Address? && ((rtype == 1 && |d.octets| == 4) || (rtype == 28 && |d.octets| == 16)))
              || (d.Target? && (rtype == 2 || rtype == 5 || rtype == 12))
              || (d.Service? && rtype == 33)
              || (d.Raw? && !Known(rtype))
  {
  }

  // rdlength counts the octets behind it.
  lemma RdlengthCounts(tab: Table, p: nat, d: Rdata)
    requires tab.Ok() && |PutRdata(tab, p, d).wire| <= 0x1_0001
    ensures var w := PutRdata(tab, p, d).wire; |w| >= 2 && Number2(w[0], w[1]) == |w| - 2
  {
    hide PutRdata, PutName, Put16, Grown;
    match d
    case Address(octets) =>
      DataBehind(tab, p, octets);
      CountInFront(octets);
    case Raw(data) =>
      DataBehind(tab, p, data);
      CountInFront(data);
    case Target(name) =>
      PutTargetIs(tab, p, name);
      CountInFront(PutName(tab, p + 2, name).wire);
    case Service(prio, weight, port, target) =>
      PutServiceIs(tab, p, prio, weight, port, target);
      var n := PutName(tab, p + 8, target).wire;
      var parameters := Put16(prio) + Put16(weight) + Put16(port);
      AppendAssociates(Put16((|n| + 6) % 0x1_0000), parameters, n);
      CountInFront(parameters + n);
  }

  lemma DataBehind(tab: Table, p: nat, data: seq<byte>)
    requires tab.Ok()
    ensures PutRdata(tab, p, Address(data)).wire == PutRdata(tab, p, Raw(data)).wire == Put16(|data| % 0x1_0000) + data
  {
    hide Put16;
  }

  lemma CountInFront(data: seq<byte>)
    ensures |data| < 0x1_0000 ==>
              var w := Put16(|data| % 0x1_0000) + data; Number2(w[0], w[1]) == |w| - 2
  {
    if |data| < 0x1_0000 {
      var n: u16 := |data|;
      HighAndLow(n);
      assert |data| % 0x1_0000 == n;
      hide Put16;
      assert (Put16(n) + data)[0] == Put16(n)[0] && (Put16(n) + data)[1] == Put16(n)[1];
    }
  }

  // Priority, weight, port and then the target.
  lemma ServiceLayout(tab: Table, p: nat, prio: u16, weight: u16, port: u16, target: Text)
    requires tab.Ok()
    ensures var w := PutRdata(tab, p, Service(prio, weight, port, target)).wire;
            && |w| >= 8
            && Number2(w[2], w[3]) == prio && Number2(w[4], w[5]) == weight && Number2(w[6], w[7]) == port
            && w[8..] == PutName(tab, p + 8, target).wire
  {
    PutServiceIs(tab, p, prio, weight, port, target);
    hide PutName, Grown, PutRdata;
    HighAndLow(prio);
    HighAndLow(weight);
    HighAndLow(port);
  }

  // Type, class and time to live behind the name.
  lemma FixedLayout(rr: Rr)
    ensures var f := Fixed(rr);
            && Number2(f[0], f[1]) == rr.rtype && Number2(f[2], f[3]) == rr.dnsclass
            && Number4(f[4], f[5], f[6], f[7]) == rr.ttl
  {
    HighAndLow(rr.rtype);
    HighAndLow(rr.dnsclass);
    ByteOrder(0, rr.ttl, (i: nat) => 0, 0);
    hide Put16, Put32;
  }

  // The label table has 32 places.
  lemma TableRoom(names: seq<Text>, name: Text)
    requires Find(names, name) == |names|
    ensures Noted(names, name) == if |names| < 32 then names + [name] else names
  {
  }

  // A record up to its data, with an rdlength of its own.
  function Front(rr: Rr): seq<byte> { WireName(rr.name) + (Fixed(rr) + Put16(rr.rdlength)) }

  lemma FrontRead(mem: Memory, max: nat, p: nat, rr: Rr)
    requires WellFormed(rr.name) && Holds(mem, p, Front(rr)) && p + |WireName(rr.name)| <= max
    ensures var q := p + |WireName(rr.name)|;
            && DecodeName(mem, max, 0, p) == Decoded(Success, rr.name, |WireName(rr.name)|)
            && Get16(mem, q) == rr.rtype && Get16(mem, q + 2) == rr.dnsclass && Get32(mem, q + 4) == rr.ttl
            && Get16(mem, q + 8) == rr.rdlength
  {
    hide *;
    var q := p + |WireName(rr.name)|;
    FrontIs(rr);
    HoldsAppend(mem, p, WireName(rr.name), Fixed(rr) + Put16(rr.rdlength));
    HoldsAppend(mem, q, Fixed(rr), Put16(rr.rdlength));
    FixedPut(mem, q, rr);
    Get16Put(mem, q + 8, rr.rdlength);
    WireDecodes(mem, max, 0, p, rr.name);
  }

  lemma FrontIs(rr: Rr)
    ensures Front(rr) == WireName(rr.name) + (Fixed(rr) + Put16(rr.rdlength))
    ensures |Front(rr)| == |WireName(rr.name)| + 10
  {
  }

  // What becomes of a record whose front is known.
  function Verdict(mem: Memory, max: nat, q: nat, rr: Rr): Parsed<Rr> {
    if q + 10 > max then Failed(InSize)
    else if rr.dnsclass != 1 && Known(rr.rtype) then Failed(InClass)
    else if q + 10 + rr.rdlength > max then Failed(InSize)
    else
      var d := RdataAt(mem, max, rr.rtype, rr.rdlength, q + 10);
      if d.Failed? then Failed(d.status) else Parsed(rr.(rdata := d.value), 10 + d.len)
  }

  lemma FrontDecides(mem: Memory, max: nat, p: nat, rr: Rr)
    requires WellFormed(rr.name) && Holds(mem, p, Front(rr)) && p + |WireName(rr.name)| <= max
    ensures var v := Verdict(mem, max, p + |WireName(rr.name)|, rr);
            RrAt(mem, max, p) == if v.Failed? then v else Parsed(v.value, |WireName(rr.name)| + v.len)
  {
    hide *;
    FrontRead(mem, max, p, rr);
    RrAtNamed(mem, max, p, rr.name, |WireName(rr.name)|);
    FixedIsVerdict(mem, max, p + |WireName(rr.name)|, rr);
  }

  lemma RrAtNamed(mem: Memory, max: nat, p: nat, name: Text, len: nat)
    requires DecodeName(mem, max, 0, p) == Decoded(Success, name, len)
    ensures var r := FixedAt(mem, max, p + len, name);
            RrAt(mem, max, p) == if r.Failed? then r else Parsed(r.value, len + r.len)
  {
    hide DecodeName, FixedAt;
  }

  lemma FixedIsVerdict(mem: Memory, max: nat, q: nat, rr: Rr)
    requires Get16(mem, q) == rr.rtype && Get16(mem, q + 2) == rr.dnsclass && Get32(mem, q + 4) == rr.ttl
    requires Get16(mem, q + 8) == rr.rdlength
    ensures FixedAt(mem, max, q, rr.name) == Verdict(mem, max, q, rr)
  {
    hide Get16, Get32, Known, RdataAt;
  }

  // A record of any other type is taken as it lies, whatever its class, up to the very end of the packet.
  lemma RawRecordReads(mem: Memory, max: nat, p: nat, rr: Rr)
    requires WellFormed(rr.name) && rr.rdata.Raw? && !Known(rr.rtype) && rr.rdlength == |rr.rdata.data|
    requires Holds(mem, p, Front(rr) + rr.rdata.data) && p + |Front(rr)| + rr.rdlength <= max
    ensures RrAt(mem, max, p) == Parsed(rr, |Front(rr)| + rr.rdlength)
  {
    hide *;
    FrontIs(rr);
    HoldsAppend(mem, p, Front(rr), rr.rdata.data);
    SpanHolds(mem, p + |Front(rr)|, rr.rdata.data);
    FrontDecides(mem, max, p, rr);
    RawVerdict(mem, max, p + |WireName(rr.name)|, rr);
  }

  lemma RawVerdict(mem: Memory, max: nat, q: nat, rr: Rr)
    requires rr.rdata.Raw? && !Known(rr.rtype) && q + 10 + rr.rdlength <= max
    requires rr.rdlength == |rr.rdata.data| && Span(mem, q + 10, |rr.rdata.data|) == rr.rdata.data
    ensures Verdict(mem, max, q, rr) == Parsed(rr, 10 + rr.rdlength)
  {
  }

  // One of the six known types in another class is refused.
  lemma ForeignClassFails(mem: Memory, max: nat, p: nat, rr: Rr)
    requires WellFormed(rr.name) && Holds(mem, p, Front(rr)) && p + |Front(rr)| <= max
    requires Known(rr.rtype) && rr.dnsclass != 1
    ensures RrAt(mem, max, p) == Failed(InClass)
  {
    hide RrAt, Front, WireName, WellFormed, Holds, Known, RdataAt;
    FrontIs(rr);
    FrontDecides(mem, max, p, rr);
  }

  // A record cut off behind its name is refused, in its fields as well as in its data.
  lemma CutRecordFails(mem: Memory, max: nat, p: nat, rr: Rr)
    requires WellFormed(rr.name) && Holds(mem, p, Front(rr)) && (Known(rr.rtype) ==> rr.dnsclass == 1)
    requires p + |WireName(rr.name)| <= max < p + |Front(rr)| + rr.rdlength
    ensures RrAt(mem, max, p) == Failed(InSize)
  {
    hide RrAt, Front, WireName, WellFormed, Holds, Known, RdataAt;
    FrontIs(rr);
    FrontDecides(mem, max, p, rr);
  }

  // Nothing shorter than a header is a packet; a header alone can be one.
  lemma ShortPackets(mem: Memory, size: nat)
    ensures size == 0 ==> PacketAt(mem, size) == Failed(Invalid)
    ensures 1 <= size < 12 ==> PacketAt(mem, size) == Failed(InSize)
    ensures size >= 12 && (forall i :: 4 <= i < 12 ==> mem(i) == 0) ==>
              PacketAt(mem, size) == Parsed(Packet(HeaderAt(mem), [], [], [], []), 12)
  {
    if size >= 12 && forall i :: 4 <= i < 12 ==> mem(i) == 0 {
      assert Get16(mem, 4) == Get16(mem, 6) == Get16(mem, 8) == Get16(mem, 10) == 0;
    }
  }

  // One record of each kind of section: a question about x, its address 1.2.3.4, its name server n, and a service of
  // n on x.
  function Sample(): (p: Packet)
    ensures PacketPrintable(p)
  {
    var x, n: Text := [120], [110];
    Packet(Header(0x0102, 0x8180, 1, 1, 1, 1), [Query(x, 1, 1)],
           [Rr(x, 1, 1, 3600, 4, Address([1, 2, 3, 4]))],
           [Rr(x, 2, 1, 60, 3, Target(n))],
           [Rr(n, 33, 1, 60, 8, Service(1, 2, 5060, x))])
  }

  function TableX(): (t: Table)
    ensures t.Ok()
  {
    Table([[120]], [12])
  }

  function TableXN(): (t: Table)
    ensures t.Ok()
  {
    Table([[120], [110]], [12, 47])
  }

  lemma OneLabelWire(c: byte)
    requires c != DOT
    ensures WireName([c]) == [1, c, 0] && Stored([c]) == [c]
  {
    FirstDotAt([c], 1);
    WireNameIs([c]);
    RootWire();
    assert AfterLabel([c]) == [] && [c][..1] == [c];
  }

  // What the table does with a name, by where it is found.
  lemma NewName(t: Table, p: nat, name: Text)
    requires t.Ok() && Find(t.names, name) == |t.names| < MAX_LABEL
    ensures PutName(t, p, name) == Piece(WireName(name), Table(t.names + [name], t.pos + [p]))
  {
    hide FindFrom, Stored, WireName, Grown, Noted;
  }

  lemma FoundName(t: Table, p: nat, name: Text, k: nat)
    requires t.Ok() && Find(t.names, name) == k < |t.names| && t.pos[k] < 0x100
    ensures PutName(t, p, name) == Piece([192, t.pos[k]], t)
  {
    hide FindFrom, Stored, WireName, Grown, Noted;
    assert Pointer(t.pos[k]) == [192, t.pos[k]];
  }

  lemma NamesPut(p: nat)
    ensures PutName(NoLabels(), 12, [120]) == Piece([1, 120, 0], TableX())
    ensures PutName(TableX(), p, [120]) == Piece([192, 12], TableX())
    ensures PutName(TableX(), 47, [110]) == Piece([1, 110, 0], TableXN())
  {
    OneLabelWire(120);
    OneLabelWire(110);
    hide WireName, Stored, PutName, Grown, Noted, Pointer;
    assert Find([], [120]) == 0 && Find([[120]], [120]) == 0 && Find([[120]], [110]) == 1;
    NewName(NoLabels(), 12, [120]);
    FoundName(TableX(), p, [120], 0);
    NewName(TableX(), 47, [110]);
  }

  lemma NamesFound(p: nat)
    ensures PutName(TableXN(), p, [110]) == Piece([192, 47], TableXN())
    ensures PutName(TableXN(), p, [120]) == Piece([192, 12], TableXN())
  {
    OneLabelWire(120);
    OneLabelWire(110);
    hide WireName, Stored, PutName, Grown, Noted, Pointer;
    var names: seq<Text> := [[120], [110]];
    assert FindFrom(names, [110], 1) == 1;
    assert Find(names, [120]) == 0 && Find(names, [110]) == 1;
    FoundName(TableXN(), p, [110], 1);
    FoundName(TableXN(), p, [120], 0);
  }

  lemma NumbersPut()
    ensures Put16(1) == [0, 1] && Put16(2) == [0, 2] && Put16(3) == [0, 3] && Put16(4) == [0, 4] && Put16(8) == [0, 8]
    ensures Put16(33) == [0, 33] && Put16(5060) == [19, 196] && Put32(3600) == [0, 0, 14, 16] && Put32(60) == [0, 0, 0, 60]
    ensures Put16(0x0102) == [1, 2] && Put16(0x8180) == [0x81, 0x80]
  {
  }

  lemma FixedIs(rr: Rr)
    ensures Fixed(rr) == Put16(rr.rtype) + Put16(rr.dnsclass) + Put32(rr.ttl)
  {
  }

  lemma SampleQuery()
    ensures PutQuery(NoLabels(), 12, Sample().q[0]) == Piece([1, 120, 0, 0, 1, 0, 1], TableX())
  {
    NamesPut(12);
    NumbersPut();
    PutQueryIs(NoLabels(), 12, Sample().q[0]);
    hide PutName, PutQuery, Put16, TableX, NoLabels;
    assert [1, 120, 0] + ([0, 1] + [0, 1]) == [1, 120, 0, 0, 1, 0, 1];
  }

  lemma AnswerOctets()
    ensures [0, 1] + [0, 1] + [0, 0, 14, 16] == [0, 1, 0, 1, 0, 0, 14, 16]
    ensures [0, 4] + [1, 2, 3, 4] == [0, 4, 1, 2, 3, 4]
    ensures [192, 12] + ([0, 1, 0, 1, 0, 0, 14, 16] + [0, 4, 1, 2, 3, 4])
         == [192, 12, 0, 1, 0, 1, 0, 0, 14, 16, 0, 4, 1, 2, 3, 4]
  {
  }

  lemma SampleAnswer()
    ensures PutRr(TableX(), 19, Sample().ans[0])
         == Piece([192, 12, 0, 1, 0, 1, 0, 0, 14, 16, 0, 4, 1, 2, 3, 4], TableX())
  {
    hide *;
    SampleIs();
    var rr := Sample().ans[0];
    NamesPut(19);
    NumbersPut();
    FixedIs(rr);
    PutAddressIs(TableX(), 29, [1, 2, 3, 4]);
    PutRrIs(TableX(), 19, rr);
    AnswerOctets();
  }

  lemma SampleIs()
    ensures |Sample().ans| == |Sample().ns| == |Sample().arr| == 1
    ensures Sample().ans[0] == Rr([120], 1, 1, 3600, 4, Address([1, 2, 3, 4]))
    ensures Sample().ns[0] == Rr([120], 2, 1, 60, 3, Target([110]))
    ensures Sample().arr[0] == Rr([110], 33, 1, 60, 8, Service(1, 2, 5060, [120]))
  {
  }

  lemma PutAddressIs(t: Table, p: nat, octets: seq<byte>)
    requires t.Ok() && |octets| < 0x1_0000
    ensures PutRdata(t, p, Address(octets)) == Piece(Put16(|octets|) + octets, t)
  {
    hide Put16;
  }

  lemma ServerOctets()
    ensures [0, 2] + [0, 1] + [0, 0, 0, 60] == [0, 2, 0, 1, 0, 0, 0, 60]
    ensures [0, 3] + [1, 110, 0] == [0, 3, 1, 110, 0]
    ensures [192, 12] + ([0, 2, 0, 1, 0, 0, 0, 60] + [0, 3, 1, 110, 0])
         == [192, 12, 0, 2, 0, 1, 0, 0, 0, 60, 0, 3, 1, 110, 0]
  {
  }

  lemma SampleServer()
    ensures PutRr(TableX(), 35, Sample().ns[0])
         == Piece([192, 12, 0, 2, 0, 1, 0, 0, 0, 60, 0, 3, 1, 110, 0], TableXN())
  {
    hide *;
    SampleIs();
    var rr := Sample().ns[0];
    NamesPut(35);
    NumbersPut();
    FixedIs(rr);
    PutTargetIs(TableX(), 45, [110]);
    PutRrIs(TableX(), 35, rr);
    ServerOctets();
  }

  lemma ServiceOctets()
    ensures [0, 33] + [0, 1] + [0, 0, 0, 60] == [0, 33, 0, 1, 0, 0, 0, 60]
    ensures [0, 8] + ([0, 1] + [0, 2] + [19, 196]) + [192, 12] == [0, 8, 0, 1, 0, 2, 19, 196, 192, 12]
    ensures [192, 47] + ([0, 33, 0, 1, 0, 0, 0, 60] + [0, 8, 0, 1, 0, 2, 19, 196, 192, 12])
         == [192, 47, 0, 33, 0, 1, 0, 0, 0, 60, 0, 8, 0, 1, 0, 2, 19, 196, 192, 12]
  {
  }

  lemma SampleService()
    ensures PutRr(TableXN(), 50, Sample().arr[0])
         == Piece([192, 47, 0, 33, 0, 1, 0, 0, 0, 60, 0, 8, 0, 1, 0, 2, 19, 196, 192, 12], TableXN())
  {
    hide *;
    SampleIs();
    var rr := Sample().arr[0];
    NamesFound(50);
    NamesFound(68);
    NumbersPut();
    FixedIs(rr);
    PutServiceIs(TableXN(), 60, 1, 2, 5060, [120]);
    PutRrIs(TableXN(), 50, rr);
    ServiceOctets();
  }

  lemma SampleHeader()
    ensures PutHeader(Sample().hdr) == [1, 2, 0x81, 0x80, 0, 1, 0, 1, 0, 1, 0, 1]
  {
    NumbersPut();
    hide Put16;
    assert [1, 2] + [0x81, 0x80] + [0, 1] + [0, 1] + [0, 1] + [0, 1] == [1, 2, 0x81, 0x80, 0, 1, 0, 1, 0, 1, 0, 1];
  }

  // The whole packet, octet for octet: header, question, answer, name server and additional record.
  lemma SampleWire()
    ensures PutPacket(Sample())
         == [1, 2, 0x81, 0x80, 0, 1, 0, 1, 0, 1, 0, 1]
            + ([1, 120, 0, 0, 1, 0, 1]
               + ([192, 12, 0, 1, 0, 1, 0, 0, 14, 16, 0, 4, 1, 2, 3, 4]
                  + ([192, 12, 0, 2, 0, 1, 0, 0, 0, 60, 0, 3, 1, 110, 0]
                     + [192, 47, 0, 33, 0, 1, 0, 0, 0, 60, 0, 8, 0, 1, 0, 2, 19, 196, 192, 12])))
  {
    var p := Sample();
    SampleHeader();
    SampleQuery();
    SampleAnswer();
    SampleServer();
    SampleService();
    OneQueryPut(NoLabels(), 12, p.q[0]);
    OneRrPut(TableX(), 19, p.ans[0]);
    OneRrPut(TableX(), 35, p.ns[0]);
    OneRrPut(TableXN(), 50, p.arr[0]);
    SingleRecords(p);
    PutPacketIs(p);
    PutSectionsIs(TableX(), 19, p);
    hide PutPacket, PutQueries, PutRrs, PutSections, PutHeader, PutQuery, PutRr, TableX, TableXN, NoLabels, Sample;
  }

  lemma SingleRecords(p: Packet)
    ensures var s := Sample(); s.q == [s.q[0]] && s.ans == [s.ans[0]] && s.ns == [s.ns[0]] && s.arr == [s.arr[0]]
  {
  }

  lemma OneQueryPut(t: Table, p: nat, q: Query)
    requires t.Ok()
    ensures PutQueries(t, p, [q]) == PutQuery(t, p, q)
  {
    hide PutQuery, Grown, NotedAll, NamesOfQueries;
    var first := PutQuery(t, p, q);
    assert [q][1..] == [] && first.wire + [] == first.wire;
    assert PutQueries(first.tab, p + |first.wire|, []) == Piece([], first.tab);
  }

  lemma OneRrPut(t: Table, p: nat, rr: Rr)
    requires t.Ok()
    ensures PutRrs(t, p, [rr]) == PutRr(t, p, rr)
  {
    hide PutRr, Grown, NotedAll, NamesOfRrs;
    var first := PutRr(t, p, rr);
    assert [rr][1..] == [] && first.wire + [] == first.wire;
    assert PutRrs(first.tab, p + |first.wire|, []) == Piece([], first.tab);
  }

  // A record whose data ends in a bare root is printed only with an octet to spare: these take 26 and 32 octets.
  lemma RootTargetWants()
    ensures forall d :: d == Target([]) || d == Service(1, 2, 3, []) ==>
              var t := if d.Target? then 5 else 33;
              var p := Packet(Header(1, 0, 0, 1, 0, 0), [], [Rr([120], t, 1, 60, 0, d)], [], []);
              && |PutPacket(p)| == (if d.Target? then 26 else 32)
              && LeastSize(p) == |PutPacket(p)| + 1
  {
    forall d | d == Target([]) || d == Service(1, 2, 3, [])
      ensures var t := if d.Target? then 5 else 33;
              var p := Packet(Header(1, 0, 0, 1, 0, 0), [], [Rr([120], t, 1, 60, 0, d)], [], []);
              && |PutPacket(p)| == (if d.Target? then 26 else 32)
              && LeastSize(p) == |PutPacket(p)| + 1
    {
      RootTargetLength(d);
    }
  }

  lemma RootTargetLength(d: Rdata)
    requires d == Target([]) || d == Service(1, 2, 3, [])
    ensures var t := if d.Target? then 5 else 33;
            var p := Packet(Header(1, 0, 0, 1, 0, 0), [], [Rr([120], t, 1, 60, 0, d)], [], []);
            && |PutPacket(p)| == (if d.Target? then 26 else 32)
            && LeastSize(p) == |PutPacket(p)| + 1
  {
    hide *;
    var rr := Rr([120], if d.Target? then 5 else 33, 1, 60, 0, d);
    RootRecord(rr);
    LoneRecord(rr);
  }

  lemma RootRecord(rr: Rr)
    requires rr.name == [120] && (rr.rdata == Target([]) || rr.rdata == Service(1, 2, 3, []))
    ensures |PutRr(NoLabels(), 12, rr).wire| == 11 + if rr.rdata.Target? then 3 else 9
    ensures RrSpare([], rr) == 1
  {
    hide *;
    NamesPut(12);
    RootNew();
    PutRrIs(NoLabels(), 12, rr);
    PutTargetIs(TableX(), 23, []);
    PutServiceIs(TableX(), 23, 1, 2, 3, []);
    RrSpareIs([], rr);
    RdataSpareIs([[120]], rr.rdata);
    RootSpareNew();
  }

  lemma RootSpareNew()
    ensures RootSpare([[120]], []) == 1
  {
    RootNew();
    hide FindFrom, Stored;
  }

  // A packet of one record and no question.
  lemma LoneRecord(rr: Rr)
    ensures var p := Packet(Header(1, 0, 0, 1, 0, 0), [], [rr], [], []);
            && |PutPacket(p)| == 12 + |PutRr(NoLabels(), 12, rr).wire|
            && LeastSize(p) == |PutPacket(p)| + RrSpare([], rr)
  {
    var p := Packet(Header(1, 0, 0, 1, 0, 0), [], [rr], [], []);
    OneRrPut(NoLabels(), 12, rr);
    PutPacketIs(p);
    PutSectionsIs(NoLabels(), 12, p);
    hide PutRr, PutSections, PutHeader, PutPacket, Grown, NamesOfRrs, RrSpare;
    assert PutQueries(NoLabels(), 12, []) == Piece([], NoLabels());
    assert NotedAll([], NamesOfQueries([])) == [];
  }

  lemma RootNew()
    ensures Find([[120]], []) == 1 && Noted([], [120]) == [[120]]
    ensures forall p :: PutName(TableX(), p, []).wire == [0]
  {
    hide WireLabels;
    RootWire();
    assert |Stored([120])| == 1;
    assert Find([[120]], []) == 1 && Find([], [120]) == 0;
    hide WireName, Grown, Pointer, Stored;
  }
}
