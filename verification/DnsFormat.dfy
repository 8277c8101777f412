/**
 What packets mean (sections 4.1.1 to 4.1.4 of RFC 1035): the records read from a position, and the
 octets written for a record. Parser and printer are proved against these functions.
 */
module DnsFormat {
  import opened Bytes
  import opened DnsTypes
  import opened DnsNames
  import opened DnsWireNames

  const HEADER: nat := 12
  const MAX_LABEL: nat := 32

  datatype Parsed<T> = Parsed(value: T, len: nat) | Failed(status: Status)

  // Reading.

  function QueryAt(mem: Memory, max: nat, p: nat): Parsed<Query> {
    var d := DecodeName(mem, max, 0, p);
    if !d.status.Success? then Failed(d.status)
    else
      var q := p + d.parsed;
      Parsed(Query(d.text, Get16(mem, q), Get16(mem, q + 2)), d.parsed + 4)
  }

  function RdataAt(mem: Memory, max: nat, rtype: u16, rdlength: u16, p: nat): Parsed<Rdata> {
    if rtype == TYPE_A then Parsed(Address(Span(mem, p, 4)), 4)
    else if rtype == TYPE_AAAA then Parsed(Address(Span(mem, p, 16)), 16)
    else if IsTarget(rtype) then
      var d := DecodeName(mem, max, 0, p);
      if d.status.Success? then Parsed(Target(d.text), d.parsed) else Failed(d.status)
    else if rtype == TYPE_SRV then
      var d := DecodeName(mem, max, 0, p + 6);
      if d.status.Success? then
        Parsed(Service(Get16(mem, p), Get16(mem, p + 2), Get16(mem, p + 4), d.text), 6 + d.parsed)
      else Failed(d.status)
    else Parsed(Raw(Span(mem, p, rdlength)), rdlength)
  }

  function RrAt(mem: Memory, max: nat, p: nat): Parsed<Rr> {
    var d := DecodeName(mem, max, 0, p);
    if !d.status.Success? then Failed(d.status)
    else
      var r := FixedAt(mem, max, p + d.parsed, d.text);
      if r.Failed? then r else Parsed(r.value, d.parsed + r.len)
  }

  // A record from its type field on.
  function FixedAt(mem: Memory, max: nat, q: nat, name: Text): Parsed<Rr> {
    if q + 10 > max then Failed(InSize)
    else
      var rtype, dnsclass, rdlength := Get16(mem, q), Get16(mem, q + 2), Get16(mem, q + 8);
      if dnsclass != CLASS_IN && Known(rtype) then Failed(InClass)
      else if q + 10 + rdlength > max then Failed(InSize)
      else
        var d := RdataAt(mem, max, rtype, rdlength, q + 10);
        if d.Failed? then Failed(d.status)
        else Parsed(Rr(name, rtype, dnsclass, Get32(mem, q + 4), rdlength, d.value), 10 + d.len)
  }

  function QueriesAt(mem: Memory, max: nat, p: nat, n: nat): (r: Parsed<seq<Query>>)
    ensures r.Parsed? ==> |r.value| == n
    decreases n
  {
    if n == 0 then Parsed([], 0)
    else
      var first := QueryAt(mem, max, p);
      if first.Failed? then Failed(first.status)
      else
        var rest := QueriesAt(mem, max, p + first.len, n - 1);
        if rest.Failed? then rest else Parsed([first.value] + rest.value, first.len + rest.len)
  }

  function RrsAt(mem: Memory, max: nat, p: nat, n: nat): (r: Parsed<seq<Rr>>)
    ensures r.Parsed? ==> |r.value| == n
    decreases n
  {
    if n == 0 then Parsed([], 0)
    else
      var first := RrAt(mem, max, p);
      if first.Failed? then Failed(first.status)
      else
        var rest := RrsAt(mem, max, p + first.len, n - 1);
        if rest.Failed? then rest else Parsed([first.value] + rest.value, first.len + rest.len)
  }

  function HeaderAt(mem: Memory): Header {
    Header(Get16(mem, 0), Get16(mem, 2), Get16(mem, 4), Get16(mem, 6), Get16(mem, 8), Get16(mem, 10))
  }

  datatype Sections = Sections(ans: seq<Rr>, ns: seq<Rr>, arr: seq<Rr>)

  function SectionsAt(mem: Memory, max: nat, p: nat, ans: nat, ns: nat, arr: nat): (r: Parsed<Sections>) {
    var a := RrsAt(mem, max, p, ans);
    if a.Failed? then Failed(a.status)
    else
      var n := RrsAt(mem, max, p + a.len, ns);
      if n.Failed? then Failed(n.status)
      else
        var r := RrsAt(mem, max, p + a.len + n.len, arr);
        if r.Failed? then Failed(r.status)
        else Parsed(Sections(a.value, n.value, r.value), a.len + n.len + r.len)
  }

  function PacketAt(mem: Memory, size: nat): (r: Parsed<Packet>) {
    if size == 0 then Failed(Invalid)
    else if size < HEADER then Failed(InSize)
    else
      var hdr := HeaderAt(mem);
      var q := QueriesAt(mem, size, HEADER, hdr.qdcount);
      if q.Failed? then Failed(q.status)
      else
        var s := SectionsAt(mem, size, HEADER + q.len, hdr.anscount, hdr.nscount, hdr.arcount);
        if s.Failed? then Failed(s.status)
        else Parsed(Packet(hdr, q.value, s.value.ans, s.value.ns, s.value.arr), HEADER + q.len + s.len)
  }

  // Writing.

  /** The label table: names written in full, and where. */
  datatype Table = Table(names: seq<Text>, pos: seq<nat>) {
    predicate Ok() { |names| == |pos| <= MAX_LABEL }

    predicate Below(n: nat) { forall x :: x in pos ==> x < n }

    // A compression pointer has 14 bits for a position.
    predicate Reachable() { Below(0x4000) }
  }

  function NoLabels(): (t: Table)
    ensures t.Ok() && t.names == [] && forall n :: t.Below(n)
  {
    Table([], [])
  }

  // What the table finds where it looks for the text of `name`: as many octets as the text has, from behind the
  // first length octet on.
  function Stored(name: Text): (s: seq<byte>)
    ensures |s| == |name|
  {
    WireName(name)[1..1 + |name|]
  }

  // The first entry taken for `name`, or the size of the table.
  function Find(names: seq<Text>, name: Text): (k: nat)
    ensures k <= |names|
    ensures k < |names| ==> Stored(names[k]) == name
  {
    FindFrom(names, name, 0)
  }

  function FindFrom(names: seq<Text>, name: Text, from: nat): (k: nat)
    requires from <= |names|
    ensures from <= k <= |names|
    ensures k < |names| ==> Stored(names[k]) == name
    decreases |names| - from
  {
    if from == |names| || Stored(names[from]) == name then from else FindFrom(names, name, from + 1)
  }

  function Noted(names: seq<Text>, name: Text): (r: seq<Text>)
    ensures names <= r
  {
    if Find(names, name) < |names| || |names| >= MAX_LABEL then names else names + [name]
  }

  // The low 14 bits of a position under the two pointer bits.
  function Pointer(pos: nat): (s: seq<byte>)
    ensures |s| == 2
  {
    Put16(pos % 0x4000 + 0xc000)
  }

  datatype Piece = Piece(wire: seq<byte>, tab: Table)

  // Entries stay, and new ones lie within what is written.
  predicate Grown(tab: Table, p: nat, r: Piece) {
    && (r.tab.Reachable() ==> tab.Reachable())
    && (tab.Below(p) ==> r.tab.Below(p + |r.wire|))
  }

  lemma GrownIs(tab: Table, p: nat, r: Piece)
    requires Grown(tab, p, r)
    ensures r.tab.Reachable() ==> tab.Reachable()
    ensures tab.Below(p) ==> r.tab.Below(p + |r.wire|)
  {
  }

  function PutName(tab: Table, p: nat, name: Text): (r: Piece)
    requires tab.Ok()
    ensures r.tab.Ok() && r.tab.names == Noted(tab.names, name)
    ensures |r.wire| >= 1
    ensures Grown(tab, p, r)
  {
    var k := Find(tab.names, name);
    if k < |tab.names| then Piece(Pointer(tab.pos[k]), tab)
    else
      assert forall x :: x in tab.pos ==> x in tab.pos + [p];
      Piece(WireName(name), if k < MAX_LABEL then Table(tab.names + [name], tab.pos + [p]) else tab)
  }

  function PutQuery(tab: Table, p: nat, q: Query): (r: Piece)
    requires tab.Ok()
    ensures r.tab.Ok() && r.tab.names == Noted(tab.names, q.name)
    ensures Grown(tab, p, r)
  {
    var n := PutName(tab, p, q.name);
    Piece(n.wire + (Put16(q.qtype) + Put16(q.dnsclass)), n.tab)
  }

  // The rdlength field and what it counts, at `p`.
  function PutRdata(tab: Table, p: nat, d: Rdata): (r: Piece)
    requires tab.Ok()
    ensures r.tab.Ok() && r.tab.names == NotedAll(tab.names, NamesOfRdata(d))
    ensures Grown(tab, p, r)
  {
    match d
    case Address(octets) => Piece(Put16(|octets| % 0x1_0000) + octets, tab)
    case Target(name) =>
      var n := PutName(tab, p + 2, name);
      Piece(Put16(|n.wire| % 0x1_0000) + n.wire, n.tab)
    case Service(prio, weight, port, target) =>
      var n := PutName(tab, p + 8, target);
      Piece(Put16((|n.wire| + 6) % 0x1_0000) + (Put16(prio) + Put16(weight) + Put16(port)) + n.wire, n.tab)
    case Raw(data) => Piece(Put16(|data| % 0x1_0000) + data, tab)
  }

  function Fixed(rr: Rr): (s: seq<byte>)
    ensures |s| == 8
  {
    Put16(rr.rtype) + Put16(rr.dnsclass) + Put32(rr.ttl)
  }

  function PutRr(tab: Table, p: nat, rr: Rr): (r: Piece)
    requires tab.Ok()
    ensures r.tab.Ok() && r.tab.names == NotedAll(tab.names, NamesOfRr(rr))
    ensures Grown(tab, p, r)
  {
    var n := PutName(tab, p, rr.name);
    var d := PutRdata(n.tab, p + |n.wire| + 8, rr.rdata);
    Piece(n.wire + (Fixed(rr) + d.wire), d.tab)
  }

  function PutQueries(tab: Table, p: nat, qs: seq<Query>): (r: Piece)
    requires tab.Ok()
    ensures r.tab.Ok() && r.tab.names == NotedAll(tab.names, NamesOfQueries(qs))
    ensures Grown(tab, p, r)
    decreases |qs|
  {
    if qs == [] then Piece([], tab)
    else
      var first := PutQuery(tab, p, qs[0]);
      var rest := PutQueries(first.tab, p + |first.wire|, qs[1..]);
      Piece(first.wire + rest.wire, rest.tab)
  }

  function PutRrs(tab: Table, p: nat, rrs: seq<Rr>): (r: Piece)
    requires tab.Ok()
    ensures r.tab.Ok() && r.tab.names == NotedAll(tab.names, NamesOfRrs(rrs))
    ensures Grown(tab, p, r)
    decreases |rrs|
  {
    if rrs == [] then Piece([], tab)
    else
      var first := PutRr(tab, p, rrs[0]);
      var rest := PutRrs(first.tab, p + |first.wire|, rrs[1..]);
      NotedAppend(tab.names, NamesOfRr(rrs[0]), NamesOfRrs(rrs[1..]));
      Piece(first.wire + rest.wire, rest.tab)
  }

  function PutHeader(h: Header): (s: seq<byte>)
    ensures |s| == HEADER
  {
    Put16(h.id) + Put16(h.flags) + Put16(h.qdcount) + Put16(h.anscount) + Put16(h.nscount) + Put16(h.arcount)
  }

  // Three sections of records behind the queries.
  function PutSections(tab: Table, p: nat, ans: seq<Rr>, ns: seq<Rr>, arr: seq<Rr>): (r: Piece)
    requires tab.Ok()
    ensures Grown(tab, p, r)
  {
    var a := PutRrs(tab, p, ans);
    var n := PutRrs(a.tab, p + |a.wire|, ns);
    var r := PutRrs(n.tab, p + |a.wire| + |n.wire|, arr);
    Piece(a.wire + (n.wire + r.wire), r.tab)
  }

  function PutPacket(p: Packet): (wire: seq<byte>)
    ensures |wire| >= HEADER
  {
    var q := PutQueries(NoLabels(), HEADER, p.q);
    PutHeader(p.hdr) + (q.wire + PutSections(q.tab, HEADER + |q.wire|, p.ans, p.ns, p.arr).wire)
  }

  // The label table when all is printed.
  function PacketTable(p: Packet): Table {
    var q := PutQueries(NoLabels(), HEADER, p.q);
    PutSections(q.tab, HEADER + |q.wire|, p.ans, p.ns, p.arr).tab
  }

  // The names of a packet in the order they are printed.

  function NamesOfRdata(d: Rdata): seq<Text> {
    match d
    case Target(name) => [name]
    case Service(_, _, _, target) => [target]
    case _ => []
  }

  function NamesOfRr(rr: Rr): seq<Text> { [rr.name] + NamesOfRdata(rr.rdata) }

  function NamesOfRrs(rrs: seq<Rr>): seq<Text> {
    if rrs == [] then [] else NamesOfRr(rrs[0]) + NamesOfRrs(rrs[1..])
  }

  function NamesOfQueries(qs: seq<Query>): (names: seq<Text>)
    ensures |names| == |qs|
  {
    if qs == [] then [] else [qs[0].name] + NamesOfQueries(qs[1..])
  }

  function NamesOfSections(ans: seq<Rr>, ns: seq<Rr>, arr: seq<Rr>): seq<Text> {
    NamesOfRrs(ans) + (NamesOfRrs(ns) + NamesOfRrs(arr))
  }

  function NamesOf(p: Packet): seq<Text> { NamesOfQueries(p.q) + NamesOfSections(p.ans, p.ns, p.arr) }

  function NotedAll(names: seq<Text>, more: seq<Text>): seq<Text>
    decreases |more|
  {
    if more == [] then names else NotedAll(Noted(names, more[0]), more[1..])
  }

  lemma {:induction false} NotedAppend(names: seq<Text>, a: seq<Text>, b: seq<Text>)
    ensures NotedAll(names, a + b) == NotedAll(NotedAll(names, a), b)
    decreases |a|
  {
    if a == [] {
      assert [] + b == b;
    } else {
      assert (a + b)[1..] == a[1..] + b;
      NotedAppend(Noted(names, a[0]), a[1..], b);
    }
  }
}
