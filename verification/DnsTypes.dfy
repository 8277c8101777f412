/** The structures of pjlib-util/dns.h, and packet memory as the parser sees it. */
module DnsTypes {
  import opened Bytes

  type u16 = x: int | 0 <= x < 0x1_0000
  type u32 = x: int | 0 <= x < 0x1_0000_0000
  type Text = seq<byte>

  const DOT: byte := 46
  const TYPE_A := 1
  const TYPE_NS := 2
  const TYPE_CNAME := 5
  const TYPE_PTR := 12
  const TYPE_AAAA := 28
  const TYPE_SRV := 33
  const CLASS_IN: u16 := 1

  datatype Status = Success | InNamePtr | InSize | InClass | Invalid | QueryTooSmall

  datatype Header = Header(id: u16, flags: u16, qdcount: u16, anscount: u16, nscount: u16, arcount: u16)

  datatype Query = Query(name: Text, qtype: u16, dnsclass: u16)

  // The union rdata together with the raw data pointer: which alternative is in use follows from the type.
  datatype Rdata =
    | Address(octets: seq<byte>)
    | Target(name: Text)
    | Service(prio: u16, weight: u16, port: u16, target: Text)
    | Raw(data: seq<byte>)

  datatype Rr = Rr(name: Text, rtype: u16, dnsclass: u16, ttl: u32, rdlength: u16, rdata: Rdata)

  datatype Packet = Packet(hdr: Header, q: seq<Query>, ans: seq<Rr>, ns: seq<Rr>, arr: seq<Rr>)

  predicate Known(rtype: u16) {
    rtype == TYPE_A || rtype == TYPE_AAAA || rtype == TYPE_SRV || IsTarget(rtype)
  }

  predicate IsTarget(rtype: u16) { rtype == TYPE_CNAME || rtype == TYPE_NS || rtype == TYPE_PTR }

  predicate FitsType(rtype: u16, d: Rdata) {
    match d
    case Address(octets) => (rtype == TYPE_A && |octets| == 4) || (rtype == TYPE_AAAA && |octets| == 16)
    case Target(_) => IsTarget(rtype)
    case Service(_, _, _, _) => rtype == TYPE_SRV
    case Raw(_) => !Known(rtype)
  }

  predicate RrOk(rr: Rr) { FitsType(rr.rtype, rr.rdata) }

  predicate RrsOk(rrs: seq<Rr>) { forall rr :: rr in rrs ==> RrOk(rr) }

  // The counts in the header are the lengths of the arrays.
  predicate PacketOk(p: Packet) {
    && p.hdr.qdcount == |p.q| && p.hdr.anscount == |p.ans| && p.hdr.nscount == |p.ns| && p.hdr.arcount == |p.arr|
    && RrsOk(p.ans) && RrsOk(p.ns) && RrsOk(p.arr)
  }

  /** Memory, from the start of a packet on; both passes over a name look at octets behind its end. */
  type Memory = nat -> byte

  function Span(mem: Memory, p: nat, len: nat): (s: seq<byte>)
    ensures |s| == len
    ensures forall i :: 0 <= i < len ==> s[i] == mem(p + i)
  {
    seq(len, i requires 0 <= i => mem(p + i))
  }

  predicate Holds(mem: Memory, p: nat, s: seq<byte>) { Span(mem, p, |s|) == s }

  lemma HoldsAppend(mem: Memory, p: nat, a: seq<byte>, b: seq<byte>)
    ensures Holds(mem, p, a + b) <==> Holds(mem, p, a) && Holds(mem, p + |a|, b)
  {
    var s := Span(mem, p, |a + b|);
    assert s[..|a|] == Span(mem, p, |a|);
    assert s[|a|..] == Span(mem, p + |a|, |b|);
    assert s == s[..|a|] + s[|a|..];
    assert (a + b)[..|a|] == a && (a + b)[|a|..] == b;
  }

  // Numbers in network byte order.
  function Put16(v: u16): (s: seq<byte>)
    ensures |s| == 2
  {
    [v / 256, v % 256]
  }

  function Put32(v: u32): (s: seq<byte>)
    ensures |s| == 4
  {
    Put16(v / 0x1_0000) + Put16(v % 0x1_0000)
  }

  function Get16(mem: Memory, p: nat): u16 { mem(p) * 256 + mem(p + 1) }

  function Get32(mem: Memory, p: nat): u32 { Get16(mem, p) * 0x1_0000 + Get16(mem, p + 2) }

  lemma Get16Put(mem: Memory, p: nat, v: u16)
    requires Holds(mem, p, Put16(v))
    ensures Get16(mem, p) == v
  {
    assert Span(mem, p, 2)[0] == v / 256 && Span(mem, p, 2)[1] == v % 256;
  }

  lemma Get32Put(mem: Memory, p: nat, v: u32)
    requires Holds(mem, p, Put32(v))
    ensures Get32(mem, p) == v
  {
    HoldsAppend(mem, p, Put16(v / 0x1_0000), Put16(v % 0x1_0000));
    Get16Put(mem, p, v / 0x1_0000);
    Get16Put(mem, p + 2, v % 0x1_0000);
  }
}
