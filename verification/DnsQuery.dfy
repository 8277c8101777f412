/** pj_dns_make_query of dns.c. */
module DnsQuery {
  import opened Bytes
  import opened DnsTypes
  import opened DnsNames
  import opened DnsWireNames
  import opened DnsFormat
  import opened DnsPrinter

  // Only the bit for "recursion desired".
  const RD: u16 := 0x0100

  // The packet asked for: its type is cut to 16 bits.
  function Asked(id: u16, qtype: int, name: Text): Packet {
    Packet(Header(id, RD, 1, 0, 0, 0), [Query(name, qtype % 0x1_0000, CLASS_IN)], [], [], [])
  }

  function QueryWire(id: u16, qtype: int, name: Text): (s: seq<byte>)
    ensures |s| == HEADER + |WireName(name)| + 4
  {
    PutHeader(Asked(id, qtype, name).hdr) + (WireName(name) + (Put16(qtype % 0x1_0000) + Put16(CLASS_IN)))
  }

  // The length checked is up to two octets less than what is written; the buffer has them.
  method MakeQuery(packet: array<byte>, size: nat, id: u16, qtype: int, name: Text) returns (status: Status, len: nat)
    requires size >= HEADER + |name| + 4 ==> packet.Length >= HEADER + |name| + 6
    modifies packet
    ensures qtype == 0 ==> status == Invalid
    ensures qtype != 0 && size < HEADER + |name| + 4 ==> status == QueryTooSmall
    ensures status != Success ==> len == size && packet[..] == old(packet[..])
    ensures qtype != 0 && size >= HEADER + |name| + 4 ==>
              status == Success && len == |QueryWire(id, qtype, name)|
              && packet[..] == Patched(old(packet[..]), 0, QueryWire(id, qtype, name))
  {
    hide WireName, FirstDot, Patched, PutHeader, Put16;
    if qtype == 0 {
      return Invalid, size;
    }
    var d := HEADER + |name| + 4;
    if size < d {
      return QueryTooSmall, size;
    }
    ghost var was, hdr := packet[..], PutHeader(Asked(id, qtype, name).hdr);
    InitHeader(packet, id);
    ghost var mid := packet[..];
    // The same loop as in print_name, and here there is always room.
    var len' := PrintLabels(packet, packet.Length - HEADER, HEADER, name);
    var p := HEADER + len';
    ghost var done := hdr + WireName(name);
    PatchedTwice(was, 0, hdr, WireName(name));
    Write16(packet, p, qtype % 0x1_0000);
    PatchedTwice(was, 0, done, Put16(qtype % 0x1_0000));
    Write16(packet, p + 2, CLASS_IN);
    PatchedTwice(was, 0, done + Put16(qtype % 0x1_0000), Put16(CLASS_IN));
    AppendAssociates(done, Put16(qtype % 0x1_0000), Put16(CLASS_IN));
    AppendAssociates(hdr, WireName(name), Put16(qtype % 0x1_0000) + Put16(CLASS_IN));
    return Success, p + 4;
  }

  method InitHeader(packet: array<byte>, id: u16)
    requires packet.Length >= HEADER
    modifies packet
    ensures packet[..] == Patched(old(packet[..]), 0, PutHeader(Header(id, RD, 1, 0, 0, 0)))
  {
    for i := 0 to HEADER
      invariant forall k :: 0 <= k < i ==> packet[k] == 0
      invariant packet[HEADER..] == old(packet[HEADER..])
    {
      packet[i] := 0;
    }
    packet[0], packet[1] := id / 256, id % 256;
    packet[2], packet[3] := RD / 256, RD % 256;
    packet[4], packet[5] := 0, 1;
    assert packet[..HEADER] == PutHeader(Header(id, RD, 1, 0, 0, 0));
    assert packet[..] == packet[..HEADER] + packet[HEADER..];
  }

  // Main result: the query parses to exactly the one question asked, when and only when the name is well formed.
  lemma QueryParses(mem: Memory, id: u16, qtype: int, name: Text)
    requires Holds(mem, 0, QueryWire(id, qtype, name))
    ensures var len := |QueryWire(id, qtype, name)|;
            PacketAt(mem, len) == Parsed(Asked(id, qtype, name), len) <==> WellFormed(name)
  {
    hide WireName, WellFormed, PutHeader, Put16, Get16, Holds, DecodeName, HeaderAt;
    var max, asked := |QueryWire(id, qtype, name)|, Asked(id, qtype, name);
    var t, c := Put16(qtype % 0x1_0000), Put16(CLASS_IN);
    HoldsAppend(mem, 0, PutHeader(asked.hdr), WireName(name) + (t + c));
    HoldsAppend(mem, HEADER, WireName(name), t + c);
    HoldsAppend(mem, HEADER + |WireName(name)|, t, c);
    Get16Put(mem, HEADER + |WireName(name)|, qtype % 0x1_0000);
    Get16Put(mem, HEADER + |WireName(name)| + 2, CLASS_IN);
    DnsRoundTrip.HeaderRead(mem, asked.hdr);
    ReadsBack(mem, max, HEADER, name);
    if WellFormed(name) {
      WireDecodes(mem, max, 0, HEADER, name);
    }
    OneQuery(mem, max);
  }

  lemma OneQuery(mem: Memory, max: nat)
    requires HeaderAt(mem).qdcount == 1 && HeaderAt(mem).anscount == HeaderAt(mem).nscount == HeaderAt(mem).arcount == 0
    requires max >= HEADER
    ensures var q := QueryAt(mem, max, HEADER);
            PacketAt(mem, max) == if q.Failed? then Failed(q.status)
                                  else Parsed(Packet(HeaderAt(mem), [q.value], [], [], []), HEADER + q.len)
  {
    hide QueryAt, HeaderAt;
    FirstOfOne(mem, max, HEADER, HeaderAt(mem).qdcount);
  }

  lemma FirstOfOne(mem: Memory, max: nat, p: nat, n: nat)
    requires n == 1
    ensures var q := QueryAt(mem, max, p);
            QueriesAt(mem, max, p, n) == if q.Failed? then Failed(q.status) else Parsed([q.value], q.len)
  {
    hide QueryAt;
    var q := QueryAt(mem, max, p);
    if q.Parsed? {
      assert QueriesAt(mem, max, p + q.len, n - 1) == Parsed([], 0);
      assert [q.value] + [] == [q.value];
    }
  }

  // A trailing dot leads to no label of its own.
  lemma {:induction false} WireLength(name: Text)
    ensures |WireName(name)| == |name| + if name == [] || name[|name| - 1] == DOT then 1 else 2
    decreases |name|
  {
    hide FirstDot;
    if name != [] {
      var n, rest := FirstDot(name), AfterLabel(name);
      WireLength(rest);
      assert rest != [] ==> rest[|rest| - 1] == name[|name| - 1];
      assert rest == [] ==> |name| == n || (|name| == n + 1 && name[n] == DOT);
      if n == |name| {
        NoDots(name, n - 1);
      }
    }
  }

  lemma NoDots(name: Text, k: nat)
    requires k < |name| == FirstDot(name)
    ensures name[k] != DOT
  {
    if name[k] == DOT {
      DotsBefore(name, k);
    }
  }

  // How long a query comes out for any name: one or two octets more than the length checked.
  lemma QueryLength(id: u16, qtype: int, name: Text)
    ensures |QueryWire(id, qtype, name)|
         == HEADER + |name| + 4 + if name == [] || name[|name| - 1] == DOT then 1 else 2
  {
    hide WireName;
    WireLength(name);
  }

  // The twelve octets of the header: identifier, the bit for "recursion desired", one question and nothing else.
  lemma QueryHeader(id: u16, qtype: int, name: Text)
    ensures QueryWire(id, qtype, name)[..12] == Put16(id) + [1, 0, 0, 1, 0, 0, 0, 0, 0, 0]
  {
    hide WireName;
    assert Put16(RD) == [1, 0] && Put16(1) == [0, 1] && Put16(0) == [0, 0];
  }
}
