/** parse_query, parse_rr and pj_dns_parse_packet of dns.c. */
module DnsParser {
  import opened Bytes
  import opened DnsTypes
  import opened DnsNames
  import opened DnsFormat

  // The room parse_query and parse_rr leave behind the owner name.
  const SPARE: nat := 4

  method ParseQuery(mem: Memory, start: nat, max: nat) returns (r: Parsed<Query>)
    ensures r == QueryAt(mem, max, start)
  {
    hide DecodeName, Get16;
    var status, name, namePartLen := ReadName(mem, start, max, SPARE);
    if status != Success {
      return Failed(status);
    }
    var p := start + namePartLen;
    var qtype := Get16(mem, p);
    p := p + 2;
    var dnsclass := Get16(mem, p);
    p := p + 2;
    return Parsed(Query(name, qtype, dnsclass), p - start);
  }

  method ParseRr(mem: Memory, start: nat, max: nat) returns (r: Parsed<Rr>)
    ensures r == RrAt(mem, max, start)
  {
    hide DecodeName, Get16, Get32, RdataAt;
    var status, name, namePartLen := ReadName(mem, start, max, SPARE);
    if status != Success {
      return Failed(status);
    }
    var p := start + namePartLen;
    if p + 10 > max {
      return Failed(InSize);
    }
    var rtype := Get16(mem, p);
    p := p + 2;
    var dnsclass := Get16(mem, p);
    p := p + 2;
    if dnsclass != CLASS_IN {
      if Known(rtype) {
        return Failed(InClass);
      }
    }
    var ttl := Get32(mem, p);
    p := p + 4;
    var rdlength := Get16(mem, p);
    p := p + 2;
    if p + rdlength > max {
      return Failed(InSize);
    }
    var d := ParseRdata(mem, max, rtype, rdlength, p);
    if d.Failed? {
      return Failed(d.status);
    }
    return Parsed(Rr(name, rtype, dnsclass, ttl, rdlength, d.value), p + d.len - start);
  }

  // The rest of parse_rr: the records it knows, and raw data for the others.
  method ParseRdata(mem: Memory, max: nat, rtype: u16, rdlength: u16, start: nat) returns (r: Parsed<Rdata>)
    ensures r == RdataAt(mem, max, rtype, rdlength, start)
  {
    hide DecodeName, Get16;
    var p := start;
    if rtype == TYPE_A {
      return Parsed(Address(Span(mem, p, 4)), 4);
    } else if rtype == TYPE_AAAA {
      return Parsed(Address(Span(mem, p, 16)), 16);
    } else if IsTarget(rtype) {
      var status, name, namePartLen := ReadName(mem, p, max, 0);
      if status != Success {
        return Failed(status);
      }
      return Parsed(Target(name), namePartLen);
    } else if rtype == TYPE_SRV {
      var prio := Get16(mem, p);
      p := p + 2;
      var weight := Get16(mem, p);
      p := p + 2;
      var port := Get16(mem, p);
      p := p + 2;
      var status, target, namePartLen := ReadName(mem, p, max, 0);
      if status != Success {
        return Failed(status);
      }
      return Parsed(Service(prio, weight, port, target), p + namePartLen - start);
    } else {
      return Parsed(Raw(Span(mem, p, rdlength)), rdlength);
    }
  }

  method ParseQueries(mem: Memory, start: nat, max: nat, count: nat) returns (r: Parsed<seq<Query>>)
    ensures r == QueriesAt(mem, max, start, count)
  {
    hide QueryAt;
    var p, q := start, [];
    for i := 0 to count
      invariant p >= start && QueriesAt(mem, max, start, count) == Behind(q, p - start, QueriesAt(mem, max, p, count - i))
    {
      var one := ParseQuery(mem, p, max);
      if one.Failed? {
        return Failed(one.status);
      }
      ghost var rest := QueriesAt(mem, max, p + one.len, count - i - 1);
      if rest.Parsed? {
        AppendAssociates(q, [one.value], rest.value);
      }
      q := q + [one.value];
      p := p + one.len;
    }
    return Parsed(q, p - start);
  }

  // One of the three loops over records.
  method ParseSection(mem: Memory, start: nat, max: nat, count: nat) returns (r: Parsed<seq<Rr>>)
    ensures r == RrsAt(mem, max, start, count)
  {
    hide RrAt;
    var p, rrs := start, [];
    for i := 0 to count
      invariant p >= start && RrsAt(mem, max, start, count) == Behind(rrs, p - start, RrsAt(mem, max, p, count - i))
    {
      var one := ParseRr(mem, p, max);
      if one.Failed? {
        return Failed(one.status);
      }
      ghost var rest := RrsAt(mem, max, p + one.len, count - i - 1);
      if rest.Parsed? {
        AppendAssociates(rrs, [one.value], rest.value);
      }
      rrs := rrs + [one.value];
      p := p + one.len;
    }
    return Parsed(rrs, p - start);
  }

  // What is still to be parsed, behind what has been.
  ghost function Behind<T>(done: seq<T>, len: nat, rest: Parsed<seq<T>>): (r: Parsed<seq<T>>)
    ensures done == [] && len == 0 ==> r == rest
    ensures rest == Parsed([], 0) ==> r == Parsed(done, len)
  {
    assert rest.Parsed? ==> [] + rest.value == rest.value;
    assert done + [] == done;
    if rest.Parsed? then Parsed(done + rest.value, len + rest.len) else rest
  }

  // pj_dns_parse_packet
  method ParsePacket(mem: Memory, size: nat) returns (r: Parsed<Packet>)
    ensures r == PacketAt(mem, size)
  {
    hide QueriesAt, RrsAt, HeaderAt;
    if size == 0 {
      return Failed(Invalid);
    }
    if size < HEADER {
      return Failed(InSize);
    }
    var hdr := HeaderAt(mem);
    var start := HEADER;
    var q := ParseQueries(mem, start, size, hdr.qdcount);
    if q.Failed? {
      return Failed(q.status);
    }
    start := start + q.len;
    var ans := ParseSection(mem, start, size, hdr.anscount);
    if ans.Failed? {
      return Failed(ans.status);
    }
    start := start + ans.len;
    var ns := ParseSection(mem, start, size, hdr.nscount);
    if ns.Failed? {
      return Failed(ns.status);
    }
    start := start + ns.len;
    var arr := ParseSection(mem, start, size, hdr.arcount);
    if arr.Failed? {
      return Failed(arr.status);
    }
    return Parsed(Packet(hdr, q.value, ans.value, ns.value, arr.value), start + arr.len);
  }
}
