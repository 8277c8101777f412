/** pj_dns_packet_dup of dns.c: a copy that shares names through a small table. */
module DnsDup {
  import opened Bytes
  import opened DnsTypes

  const MAX_NAMES: nat := 16

  function Lower(c: byte): byte { if 65 <= c <= 90 then c + 32 else c }

  // Case is what tells A from a to Z from z, and nothing else.
  lemma CaseIsAscii(a: byte, b: byte)
    ensures Lower(a) == Lower(b) <==> a == b || (65 <= a <= 90 && b as int == a as int + 32) || (65 <= b <= 90 && a as int == b as int + 32)
  {
  }

  // strncasecmp finds no difference: like the C function it stops behind a zero octet.
  predicate AlikeUpTo(a: Text, b: Text, n: nat)
    requires n <= |a| && n <= |b|
  {
    n == 0 || (Lower(a[0]) == Lower(b[0]) && (a[0] == 0 || AlikeUpTo(a[1..], b[1..], n - 1)))
  }

  // pj_stricmp gives 0.
  predicate Alike(a: Text, b: Text) {
    if a == [] then b == [] else |a| == |b| && AlikeUpTo(a, b, |a|)
  }

  predicate SameIgnoringCase(a: Text, b: Text) {
    |a| == |b| && forall i :: 0 <= i < |a| ==> Lower(a[i]) == Lower(b[i])
  }

  // Only names that hold a zero octet can be taken for one another beyond their case.
  lemma {:induction false} AlikeIgnoringCase(a: Text, b: Text)
    ensures SameIgnoringCase(a, b) ==> Alike(a, b)
    ensures Alike(a, b) && (0 !in a || 0 !in b) ==> SameIgnoringCase(a, b)
    decreases |a|
  {
    if a != [] && |a| == |b| {
      AlikeIgnoringCase(a[1..], b[1..]);
      Stepwise(a, b);
    }
  }

  lemma Stepwise(a: Text, b: Text)
    requires a != [] && |a| == |b|
    ensures SameIgnoringCase(a, b) <==> Lower(a[0]) == Lower(b[0]) && SameIgnoringCase(a[1..], b[1..])
  {
    if Lower(a[0]) == Lower(b[0]) && SameIgnoringCase(a[1..], b[1..]) {
      forall i | 0 <= i < |a| ensures Lower(a[i]) == Lower(b[i]) {
        if i > 0 {
          assert Lower(a[1..][i - 1]) == Lower(b[1..][i - 1]);
        }
      }
    }
  }

  lemma AlikeItself(a: Text)
    ensures Alike(a, a)
  {
    AlikeIgnoringCase(a, a);
  }

  // The table entry taken for `src`, or the size of the table.
  function Entry(names: seq<Text>, src: Text, from: nat): (k: nat)
    requires from <= |names|
    ensures from <= k <= |names|
    ensures k < |names| ==> Alike(names[k], src)
    ensures forall i :: from <= i < k ==> !Alike(names[i], src)
    decreases |names| - from
  {
    if from == |names| || Alike(names[from], src) then from else Entry(names, src, from + 1)
  }

  function Taken(names: seq<Text>, src: Text): (dst: Text)
    ensures Alike(dst, src)
  {
    AlikeItself(src);
    var k := Entry(names, src, 0);
    if k < |names| then names[k] else src
  }

  function Entered(names: seq<Text>, src: Text): (r: seq<Text>) {
    if Entry(names, src, 0) < |names| || |names| >= MAX_NAMES then names else names + [src]
  }

  /** The array nametable and its count. */
  class NameTable {
    const nametable: array<Text>
    var count: nat

    ghost predicate Valid() reads this { nametable.Length == MAX_NAMES && count <= MAX_NAMES }

    ghost function Names(): (n: seq<Text>)
      requires Valid()
      ensures |n| == count
      reads this, nametable
    {
      nametable[..count]
    }

    constructor ()
      ensures Valid() && fresh(nametable) && Names() == []
    {
      nametable := new Text[MAX_NAMES](_ => []);
      count := 0;
    }

    // apply_name_table
    method Apply(src: Text) returns (dst: Text)
      requires Valid()
      modifies this, nametable
      ensures Valid() && dst == Taken(old(Names()), src) && Names() == Entered(old(Names()), src)
    {
      hide Alike;
      var i := 0;
      while i < count
        invariant i <= count && Entry(Names(), src, 0) == Entry(Names(), src, i)
      {
        if Alike(nametable[i], src) {
          break;
        }
        i := i + 1;
      }
      if i != count {
        return nametable[i];
      }
      dst := src;
      if count < MAX_NAMES {
        nametable[count] := dst;
        count := count + 1;
      }
    }
  }

  datatype Copied<T> = Copied(value: T, names: seq<Text>)

  function DupQuery(names: seq<Text>, src: Query): Copied<Query> {
    Copied(src.(name := Taken(names, src.name)), Entered(names, src.name))
  }

  function DupRr(names: seq<Text>, src: Rr): Copied<Rr> {
    var dst, then' := src.(name := Taken(names, src.name)), Entered(names, src.name);
    match src.rdata
    case Service(_, _, _, target) => Copied(dst.(rdata := src.rdata.(target := Taken(then', target))), Entered(then', target))
    case _ => Copied(dst, then')
  }

  function DupQueries(names: seq<Text>, src: seq<Query>): Copied<seq<Query>>
    decreases |src|
  {
    if src == [] then Copied([], names)
    else
      var first := DupQuery(names, src[0]);
      var rest := DupQueries(first.names, src[1..]);
      Copied([first.value] + rest.value, rest.names)
  }

  function DupRrs(names: seq<Text>, src: seq<Rr>): Copied<seq<Rr>>
    decreases |src|
  {
    if src == [] then Copied([], names)
    else
      var first := DupRr(names, src[0]);
      var rest := DupRrs(first.names, src[1..]);
      Copied([first.value] + rest.value, rest.names)
  }

  // The bits PJ_DNS_NO_QD, PJ_DNS_NO_ANS, PJ_DNS_NO_NS and PJ_DNS_NO_AR of the options.
  predicate Wants(options: nat, bit: nat)
    requires bit > 0
  {
    options / bit % 2 == 0
  }

  const NO_QD: nat := 1
  const NO_ANS: nat := 2
  const NO_NS: nat := 4
  const NO_AR: nat := 8

  // The sections asked for, as they are in the source.
  function Chosen(p: Packet, options: nat): (c: Packet)
    requires PacketOk(p)
    ensures PacketOk(c)
  {
    var q := if Wants(options, NO_QD) then p.q else [];
    var ans := if Wants(options, NO_ANS) then p.ans else [];
    var ns := if Wants(options, NO_NS) then p.ns else [];
    var arr := if Wants(options, NO_AR) then p.arr else [];
    Packet(Header(p.hdr.id, p.hdr.flags, |q|, |ans|, |ns|, |arr|), q, ans, ns, arr)
  }

  // Every section copied, with one table for all of them.
  function Dup(c: Packet): (r: Copied<Packet>) {
    var q := DupQueries([], c.q);
    var ans := DupRrs(q.names, c.ans);
    var ns := DupRrs(ans.names, c.ns);
    var arr := DupRrs(ns.names, c.arr);
    Copied(Packet(c.hdr, q.value, ans.value, ns.value, arr.value), arr.names)
  }

  method CopyQuery(src: Query, tab: NameTable) returns (dst: Query)
    requires tab.Valid()
    modifies tab, tab.nametable
    ensures tab.Valid() && Copied(dst, tab.Names()) == DupQuery(old(tab.Names()), src)
  {
    var name := tab.Apply(src.name);
    dst := src.(name := name);
  }

  method CopyRr(src: Rr, tab: NameTable) returns (dst: Rr)
    requires tab.Valid() && RrOk(src)
    modifies tab, tab.nametable
    ensures tab.Valid() && Copied(dst, tab.Names()) == DupRr(old(tab.Names()), src)
  {
    var name := tab.Apply(src.name);
    dst := src.(name := name);
    if src.rtype == TYPE_SRV {
      var target := tab.Apply(src.rdata.target);
      dst := dst.(rdata := src.rdata.(target := target));
    }
  }

  method CopyQueries(src: seq<Query>, tab: NameTable) returns (dst: seq<Query>, count: nat)
    requires tab.Valid()
    modifies tab, tab.nametable
    ensures tab.Valid() && Copied(dst, tab.Names()) == DupQueries(old(tab.Names()), src) && count == |src|
  {
    hide DupQuery;
    ghost var whole := DupQueries(tab.Names(), src);
    dst, count := [], 0;
    assert src[0..] == src && [] + whole.value == whole.value;
    for i := 0 to |src|
      invariant tab.Valid() && count == i
      invariant var rest := DupQueries(tab.Names(), src[i..]); whole == Copied(dst + rest.value, rest.names)
    {
      assert src[i..][0] == src[i] && src[i..][1..] == src[i + 1..];
      var one := CopyQuery(src[i], tab);
      AppendAssociates(dst, [one], DupQueries(tab.Names(), src[i + 1..]).value);
      dst := dst + [one];
      count := count + 1;
    }
    assert dst + [] == dst;
  }

  method CopySection(src: seq<Rr>, tab: NameTable) returns (dst: seq<Rr>, count: nat)
    requires tab.Valid() && RrsOk(src)
    modifies tab, tab.nametable
    ensures tab.Valid() && Copied(dst, tab.Names()) == DupRrs(old(tab.Names()), src) && count == |src|
  {
    hide DupRr;
    ghost var whole := DupRrs(tab.Names(), src);
    dst, count := [], 0;
    assert src[0..] == src && [] + whole.value == whole.value;
    for i := 0 to |src|
      invariant tab.Valid() && count == i
      invariant var rest := DupRrs(tab.Names(), src[i..]); whole == Copied(dst + rest.value, rest.names)
    {
      assert src[i..][0] == src[i] && src[i..][1..] == src[i + 1..];
      var one := CopyRr(src[i], tab);
      AppendAssociates(dst, [one], DupRrs(tab.Names(), src[i + 1..]).value);
      dst := dst + [one];
      count := count + 1;
    }
    assert dst + [] == dst;
  }

  // pj_dns_packet_dup
  method PacketDup(p: Packet, options: nat) returns (dst: Packet)
    requires PacketOk(p)
    ensures dst == Dup(Chosen(p, options)).value
  {
    hide DupQueries, DupRrs;
    var tab := new NameTable();
    var q, ans, ns, arr := [], [], [], [];
    var qdcount, anscount, nscount, arcount := 0, 0, 0, 0;
    NothingCopied();
    if p.hdr.qdcount != 0 && Wants(options, NO_QD) {
      q, qdcount := CopyQueries(p.q, tab);
    }
    if p.hdr.anscount != 0 && Wants(options, NO_ANS) {
      ans, anscount := CopySection(p.ans, tab);
    }
    if p.hdr.nscount != 0 && Wants(options, NO_NS) {
      ns, nscount := CopySection(p.ns, tab);
    }
    if p.hdr.arcount != 0 && Wants(options, NO_AR) {
      arr, arcount := CopySection(p.arr, tab);
    }
    dst := Packet(Header(p.hdr.id, p.hdr.flags, qdcount, anscount, nscount, arcount), q, ans, ns, arr);
  }

  lemma NothingCopied()
    ensures forall names :: DupQueries(names, []) == Copied([], names)
    ensures forall names :: DupRrs(names, []) == Copied([], names)
  {
  }

  // Equal but for the names that went through the table, which are related.

  predicate CloseQuery(rel: (Text, Text) -> bool, a: Query, b: Query) { a == b.(name := a.name) && rel(a.name, b.name) }

  predicate CloseRr(rel: (Text, Text) -> bool, a: Rr, b: Rr) {
    && a == b.(name := a.name, rdata := a.rdata) && rel(a.name, b.name)
    && match a.rdata
       case Service(_, _, _, target) =>
         b.rdata.Service? && a.rdata == b.rdata.(target := target) && rel(target, b.rdata.target)
       case _ => a.rdata == b.rdata
  }

  predicate CloseQueries(rel: (Text, Text) -> bool, a: seq<Query>, b: seq<Query>) {
    |a| == |b| && forall i :: 0 <= i < |a| ==> CloseQuery(rel, a[i], b[i])
  }

  predicate CloseRrs(rel: (Text, Text) -> bool, a: seq<Rr>, b: seq<Rr>) {
    |a| == |b| && forall i :: 0 <= i < |a| ==> CloseRr(rel, a[i], b[i])
  }

  predicate Close(rel: (Text, Text) -> bool, a: Packet, b: Packet) {
    && a.hdr == b.hdr && CloseQueries(rel, a.q, b.q)
    && CloseRrs(rel, a.ans, b.ans) && CloseRrs(rel, a.ns, b.ns) && CloseRrs(rel, a.arr, b.arr)
  }

  predicate Same(a: Text, b: Text) { a == b }

  // The names offered to the table, in order.

  function OfferedRr(rr: Rr): seq<Text> {
    [rr.name] + match rr.rdata case Service(_, _, _, target) => [target] case _ => []
  }

  function OfferedRrs(rrs: seq<Rr>): seq<Text> {
    if rrs == [] then [] else OfferedRr(rrs[0]) + OfferedRrs(rrs[1..])
  }

  function OfferedQueries(qs: seq<Query>): seq<Text> {
    if qs == [] then [] else [qs[0].name] + OfferedQueries(qs[1..])
  }

  function Offered(p: Packet): seq<Text> {
    OfferedQueries(p.q) + (OfferedRrs(p.ans) + (OfferedRrs(p.ns) + OfferedRrs(p.arr)))
  }

  function EnteredAll(names: seq<Text>, more: seq<Text>): seq<Text>
    decreases |more|
  {
    if more == [] then names else EnteredAll(Entered(names, more[0]), more[1..])
  }

  // Every name is related to what the table gives for it.
  predicate AllTaken(rel: (Text, Text) -> bool, names: seq<Text>, more: seq<Text>)
    decreases |more|
  {
    more == [] || (rel(Taken(names, more[0]), more[0]) && AllTaken(rel, Entered(names, more[0]), more[1..]))
  }

  lemma {:induction false} OfferAppend(rel: (Text, Text) -> bool, names: seq<Text>, a: seq<Text>, b: seq<Text>)
    ensures EnteredAll(names, a + b) == EnteredAll(EnteredAll(names, a), b)
    ensures AllTaken(rel, names, a + b) <==> AllTaken(rel, names, a) && AllTaken(rel, EnteredAll(names, a), b)
    decreases |a|
  {
    hide Taken, Entered;
    if a == [] {
      assert [] + b == b;
    } else {
      assert (a + b)[1..] == a[1..] + b;
      OfferAppend(rel, Entered(names, a[0]), a[1..], b);
    }
  }

  lemma OneOffered(rel: (Text, Text) -> bool, names: seq<Text>, src: Text)
    ensures EnteredAll(names, [src]) == Entered(names, src)
    ensures AllTaken(rel, names, [src]) <==> rel(Taken(names, src), src)
  {
    hide Taken, Entered;
  }

  lemma NothingOffered(rel: (Text, Text) -> bool, names: seq<Text>)
    ensures EnteredAll(names, []) == names && AllTaken(rel, names, [])
  {
  }

  lemma DupRrTakes(rel: (Text, Text) -> bool, names: seq<Text>, src: Rr)
    ensures DupRr(names, src).names == EnteredAll(names, OfferedRr(src))
    ensures CloseRr(rel, DupRr(names, src).value, src) <==> AllTaken(rel, names, OfferedRr(src))
  {
    hide Taken, Entered;
    OneOffered(rel, names, src.name);
    if src.rdata.Service? {
      OfferAppend(rel, names, [src.name], [src.rdata.target]);
      OneOffered(rel, Entered(names, src.name), src.rdata.target);
    } else {
      assert OfferedRr(src) == [src.name];
    }
  }

  lemma {:induction false} DupQueriesTake(rel: (Text, Text) -> bool, names: seq<Text>, src: seq<Query>)
    ensures DupQueries(names, src).names == EnteredAll(names, OfferedQueries(src))
    ensures CloseQueries(rel, DupQueries(names, src).value, src) <==> AllTaken(rel, names, OfferedQueries(src))
    decreases |src|
  {
    hide Taken, Entered;
    if src != [] {
      DupQueriesTake(rel, Entered(names, src[0].name), src[1..]);
      assert OfferedQueries(src)[1..] == OfferedQueries(src[1..]);
      ConsClose((a: Query, b: Query) => CloseQuery(rel, a, b), DupQuery(names, src[0]).value,
                DupQueries(Entered(names, src[0].name), src[1..]).value, src);
    }
  }

  lemma {:induction false} DupRrsTake(rel: (Text, Text) -> bool, names: seq<Text>, src: seq<Rr>)
    ensures DupRrs(names, src).names == EnteredAll(names, OfferedRrs(src))
    ensures CloseRrs(rel, DupRrs(names, src).value, src) <==> AllTaken(rel, names, OfferedRrs(src))
    decreases |src|
  {
    hide DupRr, OfferedRr, EnteredAll, AllTaken, CloseRr;
    if src == [] {
      NothingOffered(rel, names);
    } else {
      var first := DupRr(names, src[0]);
      DupRrTakes(rel, names, src[0]);
      DupRrsTake(rel, first.names, src[1..]);
      OfferAppend(rel, names, OfferedRr(src[0]), OfferedRrs(src[1..]));
      ConsClose((a: Rr, b: Rr) => CloseRr(rel, a, b), first.value, DupRrs(first.names, src[1..]).value, src);
    }
  }

  // Element by element, one in front of the others.
  lemma ConsClose<T>(close: (T, T) -> bool, x: T, xs: seq<T>, ys: seq<T>)
    requires ys != []
    ensures (|[x] + xs| == |ys| && forall i :: 0 <= i < |ys| ==> close(([x] + xs)[i], ys[i]))
       <==> close(x, ys[0]) && |xs| == |ys[1..]| && forall i :: 0 <= i < |xs| ==> close(xs[i], ys[1..][i])
  {
    var a := [x] + xs;
    if |a| == |ys| && forall i :: 0 <= i < |ys| ==> close(a[i], ys[i]) {
      forall i | 0 <= i < |xs| ensures close(xs[i], ys[1..][i]) {
        assert close(a[i + 1], ys[i + 1]);
      }
    }
    if close(x, ys[0]) && |xs| == |ys[1..]| && forall i :: 0 <= i < |xs| ==> close(xs[i], ys[1..][i]) {
      forall i | 0 <= i < |ys| ensures close(a[i], ys[i]) {
        if i > 0 {
          assert close(xs[i - 1], ys[1..][i - 1]);
        }
      }
    }
  }

  lemma DupTakes(rel: (Text, Text) -> bool, c: Packet)
    ensures Close(rel, Dup(c).value, c) <==> AllTaken(rel, [], Offered(c))
    ensures Dup(c).names == EnteredAll([], Offered(c))
  {
    hide DupQueries, DupRrs, OfferedQueries, OfferedRrs, EnteredAll, AllTaken, CloseQueries, CloseRrs;
    var q := DupQueries([], c.q);
    var ans := DupRrs(q.names, c.ans);
    var ns := DupRrs(ans.names, c.ns);
    DupQueriesTake(rel, [], c.q);
    DupRrsTake(rel, q.names, c.ans);
    DupRrsTake(rel, ans.names, c.ns);
    DupRrsTake(rel, ns.names, c.arr);
    OfferAppend(rel, [], OfferedQueries(c.q), OfferedRrs(c.ans) + (OfferedRrs(c.ns) + OfferedRrs(c.arr)));
    OfferAppend(rel, q.names, OfferedRrs(c.ans), OfferedRrs(c.ns) + OfferedRrs(c.arr));
    OfferAppend(rel, ans.names, OfferedRrs(c.ns), OfferedRrs(c.arr));
  }

  // What the table does, said of the list of names alone.

  // No earlier name is alike.
  predicate New(o: seq<Text>, i: nat)
    requires i < |o|
  {
    forall k :: 0 <= k < i ==> !Alike(o[k], o[i])
  }

  function NewBefore(o: seq<Text>, n: nat): (k: nat)
    requires n <= |o|
    ensures k <= n
  {
    if n == 0 then 0 else NewBefore(o, n - 1) + if New(o, n - 1) then 1 else 0
  }

  // The new names among the first 16 of them are remembered.
  predicate Remembered(o: seq<Text>, i: nat)
    requires i < |o|
  {
    New(o, i) && NewBefore(o, i) < MAX_NAMES
  }

  // Whatever is alike a remembered name is related to it.
  predicate Consistent(rel: (Text, Text) -> bool, o: seq<Text>) {
    forall i, j :: 0 <= i < j < |o| && Remembered(o, i) && Alike(o[i], o[j]) ==> rel(o[i], o[j])
  }

  lemma {:induction false} AlikeUpToSwaps(a: Text, b: Text, n: nat)
    requires n <= |a| && n <= |b|
    ensures AlikeUpTo(a, b, n) ==> AlikeUpTo(b, a, n)
    decreases n
  {
    if n > 0 {
      AlikeUpToSwaps(a[1..], b[1..], n - 1);
    }
  }

  lemma {:induction false} AlikeUpToChains(a: Text, b: Text, c: Text, n: nat)
    requires n <= |a| && n <= |b| && n <= |c|
    ensures AlikeUpTo(a, b, n) && AlikeUpTo(b, c, n) ==> AlikeUpTo(a, c, n)
    decreases n
  {
    if n > 0 {
      AlikeUpToChains(a[1..], b[1..], c[1..], n - 1);
    }
  }

  lemma AlikeSwaps(a: Text, b: Text)
    ensures Alike(a, b) <==> Alike(b, a)
  {
    if |a| == |b| {
      AlikeUpToSwaps(a, b, |a|);
      AlikeUpToSwaps(b, a, |a|);
    }
  }

  lemma AlikeChains(a: Text, b: Text, c: Text)
    requires Alike(a, b) && Alike(b, c)
    ensures Alike(a, c)
  {
    AlikeUpToChains(a, b, c, |a|);
  }

  // The table after the first n names holds the remembered ones.
  predicate Holding(o: seq<Text>, n: nat, names: seq<Text>)
    requires n <= |o|
  {
    && |names| == (if NewBefore(o, n) < MAX_NAMES then NewBefore(o, n) else MAX_NAMES)
    && (forall i :: 0 <= i < n && Remembered(o, i) ==> o[i] in names)
    && (forall x :: x in names ==> exists i :: 0 <= i < n && Remembered(o, i) && o[i] == x)
  }

  lemma {:induction false} NewBeforeGrows(o: seq<Text>, m: nat, n: nat)
    requires m <= n <= |o|
    ensures NewBefore(o, m) <= NewBefore(o, n)
  {
    if m < n {
      NewBeforeGrows(o, m, n - 1);
    }
  }

  // A name that is not new is alike one that is.
  lemma {:induction false} FirstAlike(o: seq<Text>, n: nat) returns (k: nat)
    requires n < |o| && !New(o, n)
    ensures k < n && New(o, k) && Alike(o[k], o[n])
  {
    k :| 0 <= k < n && Alike(o[k], o[n]);
    if !New(o, k) {
      var first := FirstAlike(o, k);
      AlikeChains(o[first], o[k], o[n]);
      k := first;
    }
  }

  lemma NewAreUnlike(o: seq<Text>, i: nat, k: nat)
    requires i < |o| && k < |o| && New(o, i) && New(o, k) && Alike(o[i], o[k])
    ensures i == k
  {
    hide Alike;
    AlikeSwaps(o[i], o[k]);
  }

  lemma EntryFinds(names: seq<Text>, src: Text, x: Text)
    requires x in names && Alike(x, src)
    ensures Entry(names, src, 0) < |names|
  {
    hide Alike;
    var k :| 0 <= k < |names| && names[k] == x;
  }

  lemma EntryTaken(names: seq<Text>, src: Text, x: Text)
    requires x in names && Alike(x, src)
    ensures Taken(names, src) in names
  {
    hide Alike;
    EntryFinds(names, src, x);
  }

  lemma WhereFrom(o: seq<Text>, n: nat, names: seq<Text>, x: Text) returns (i: nat)
    requires n <= |o| && Holding(o, n, names) && x in names
    ensures i < n && Remembered(o, i) && o[i] == x
  {
    hide Remembered;
    i :| 0 <= i < n && Remembered(o, i) && o[i] == x;
  }

  lemma HoldingGrows(o: seq<Text>, n: nat, names: seq<Text>)
    requires n < |o| && Holding(o, n, names)
    ensures Holding(o, n + 1, Entered(names, o[n]))
  {
    hide Alike, New;
    var k := Entry(names, o[n], 0);
    if k < |names| {
      var i := WhereFrom(o, n, names, names[k]);
      NotNew(o, i, n);
    }
    if !New(o, n) && |names| < MAX_NAMES {
      FoundUnlessNew(o, n, names);
    }
  }

  lemma FoundUnlessNew(o: seq<Text>, n: nat, names: seq<Text>)
    requires n < |o| && Holding(o, n, names) && !New(o, n) && |names| < MAX_NAMES
    ensures Entry(names, o[n], 0) < |names|
  {
    hide Alike, New;
    var first := FirstAlike(o, n);
    NewBeforeGrows(o, first, n);
    EntryFinds(names, o[n], o[first]);
  }

  lemma NotNew(o: seq<Text>, i: nat, n: nat)
    requires i < n < |o| && Alike(o[i], o[n])
    ensures !New(o, n)
  {
  }

  // What the table gives is related exactly if every remembered name alike is.
  lemma TakenIsRemembered(rel: (Text, Text) -> bool, o: seq<Text>, n: nat, names: seq<Text>)
    requires n < |o| && Holding(o, n, names) && rel(o[n], o[n])
    ensures rel(Taken(names, o[n]), o[n])
       <==> forall i :: 0 <= i < n && Remembered(o, i) && Alike(o[i], o[n]) ==> rel(o[i], o[n])
  {
    hide Alike, New;
    forall i | 0 <= i < n && Remembered(o, i) && Alike(o[i], o[n]) ensures Taken(names, o[n]) == o[i] {
      var x := Taken(names, o[n]);
      EntryTaken(names, o[n], o[i]);
      var k := WhereFrom(o, n, names, x);
      AlikeSwaps(o[k], o[n]);
      AlikeChains(o[i], o[n], o[k]);
      NewAreUnlike(o, i, k);
    }
    var k := Entry(names, o[n], 0);
    if k < |names| {
      var i := WhereFrom(o, n, names, names[k]);
    }
  }

  predicate ConsistentFrom(rel: (Text, Text) -> bool, o: seq<Text>, n: nat) {
    forall i, j :: 0 <= i < j < |o| && n <= j && Remembered(o, i) && Alike(o[i], o[j]) ==> rel(o[i], o[j])
  }

  lemma {:induction false} TakenFrom(rel: (Text, Text) -> bool, o: seq<Text>, n: nat, names: seq<Text>)
    requires n <= |o| && Holding(o, n, names) && forall x :: x in o ==> rel(x, x)
    ensures AllTaken(rel, names, o[n..]) <==> ConsistentFrom(rel, o, n)
    decreases |o| - n
  {
    hide Alike, Remembered, Taken, Entered, Holding;
    if n < |o| {
      assert o[n..][0] == o[n] && o[n..][1..] == o[n + 1..];
      HoldingGrows(o, n, names);
      TakenFrom(rel, o, n + 1, Entered(names, o[n]));
      TakenIsRemembered(rel, o, n, names);
    }
  }

  lemma TableByNames(rel: (Text, Text) -> bool, o: seq<Text>)
    requires forall x :: x in o ==> rel(x, x)
    ensures AllTaken(rel, [], o) <==> Consistent(rel, o)
  {
    hide Alike, Remembered, AllTaken;
    assert Holding(o, 0, []);
    TakenFrom(rel, o, 0, []);
    assert o[0..] == o;
  }

  // Main result: the copy has the sections asked for, with exact counts, and nothing in it differs from the source but
  // names that compare alike.
  lemma DupIsClose(p: Packet, options: nat)
    requires PacketOk(p)
    ensures var dst := Dup(Chosen(p, options)).value; Close(Alike, dst, Chosen(p, options)) && CountsOk(dst)
  {
    hide Alike, DupQueries, DupRrs, Chosen, Offered;
    var c := Chosen(p, options);
    DupTakes(Alike, c);
    AllAlike([], Offered(c));
    CloseCounts(Alike, Dup(c).value, c);
  }

  lemma {:induction false} AllAlike(names: seq<Text>, more: seq<Text>)
    ensures AllTaken(Alike, names, more)
    decreases |more|
  {
    hide Alike, Entered;
    if more != [] {
      AllAlike(Entered(names, more[0]), more[1..]);
    }
  }

  predicate CountsOk(p: Packet) {
    p.hdr.qdcount == |p.q| && p.hdr.anscount == |p.ans| && p.hdr.nscount == |p.ns| && p.hdr.arcount == |p.arr|
  }

  lemma CloseCounts(rel: (Text, Text) -> bool, a: Packet, b: Packet)
    requires Close(rel, a, b) && CountsOk(b)
    ensures CountsOk(a)
  {
    hide CloseQuery, CloseRr;
  }

  function Bits(noQd: bool, noAns: bool, noNs: bool, noAr: bool, others: nat): nat {
    (if noQd then 1 else 0) + (if noAns then 2 else 0) + (if noNs then 4 else 0) + (if noAr then 8 else 0) + 16 * others
  }

  // Said of the packet itself: each of the four bits leaves its section out and touches nothing else, and other bits
  // mean nothing.
  lemma DupBySections(p: Packet, noQd: bool, noAns: bool, noNs: bool, noAr: bool, others: nat)
    requires PacketOk(p)
    ensures var dst := Dup(Chosen(p, Bits(noQd, noAns, noNs, noAr, others))).value;
            && dst.hdr.id == p.hdr.id && dst.hdr.flags == p.hdr.flags && CountsOk(dst)
            && (if noQd then dst.q == [] else CloseQueries(Alike, dst.q, p.q))
            && (if noAns then dst.ans == [] else CloseRrs(Alike, dst.ans, p.ans))
            && (if noNs then dst.ns == [] else CloseRrs(Alike, dst.ns, p.ns))
            && (if noAr then dst.arr == [] else CloseRrs(Alike, dst.arr, p.arr))
  {
    hide Alike, CloseQueries, CloseRrs, Dup, RrsOk, Wants;
    var options := Bits(noQd, noAns, noNs, noAr, others);
    WantedBits(noQd, noAns, noNs, noAr, others);
    DupIsClose(p, options);
    ChosenIs(p, options);
    EmptyClose(Dup(Chosen(p, options)).value);
  }

  lemma WantedBits(noQd: bool, noAns: bool, noNs: bool, noAr: bool, others: nat)
    ensures var options := Bits(noQd, noAns, noNs, noAr, others);
            && Wants(options, NO_QD) == !noQd && Wants(options, NO_ANS) == !noAns
            && Wants(options, NO_NS) == !noNs && Wants(options, NO_AR) == !noAr
  {
    var a3 := (if noAr then 1 else 0) + 2 * others;
    var a2 := (if noNs then 1 else 0) + 2 * a3;
    var a1 := (if noAns then 1 else 0) + 2 * a2;
    LowestBit(a1, if noQd then 1 else 0);
    LowestBit(a2, if noAns then 1 else 0);
    LowestBit(a3, if noNs then 1 else 0);
    LowestBit(others, if noAr then 1 else 0);
    Halves(Bits(noQd, noAns, noNs, noAr, others));
  }

  lemma LowestBit(rest: nat, bit: nat)
    requires bit < 2
    ensures (bit + 2 * rest) % 2 == bit && (bit + 2 * rest) / 2 == rest
  {
  }

  lemma Halves(n: nat)
    ensures n / 1 == n && n / 4 == n / 2 / 2 && n / 8 == n / 2 / 2 / 2
  {
  }

  lemma ChosenIs(p: Packet, options: nat)
    requires PacketOk(p)
    ensures var c := Chosen(p, options);
            && c.hdr.id == p.hdr.id && c.hdr.flags == p.hdr.flags
            && c.q == (if Wants(options, NO_QD) then p.q else [])
            && c.ans == (if Wants(options, NO_ANS) then p.ans else [])
            && c.ns == (if Wants(options, NO_NS) then p.ns else [])
            && c.arr == (if Wants(options, NO_AR) then p.arr else [])
  {
    hide Wants, RrsOk;
  }

  lemma EmptyClose(dst: Packet)
    ensures CloseQueries(Alike, dst.q, []) ==> dst.q == []
    ensures forall rrs :: CloseRrs(Alike, rrs, []) ==> rrs == []
  {
  }

  // With no option set nothing is left out.
  lemma NothingLeftOut(p: Packet)
    requires PacketOk(p)
    ensures Chosen(p, 0) == p
  {
  }

  // Main result: the names of the copy are those of the source ignoring case exactly when no later name is told from
  // a remembered one by more than its case while comparing alike.
  lemma DupIgnoresCaseExactly(c: Packet)
    ensures Close(SameIgnoringCase, Dup(c).value, c) <==> Consistent(SameIgnoringCase, Offered(c))
  {
    hide *;
    DupTakes(SameIgnoringCase, c);
    ItselfIgnoringCase();
    TableByNames(SameIgnoringCase, Offered(c));
  }

  lemma ItselfIgnoringCase()
    ensures forall x :: SameIgnoringCase(x, x)
  {
  }

  // So it is for every packet whose names hold no zero octet.
  lemma NoZeroIgnoresCase(c: Packet)
    requires forall name :: name in Offered(c) ==> 0 !in name
    ensures Close(SameIgnoringCase, Dup(c).value, c)
  {
    hide Alike, SameIgnoringCase, Offered, Dup, Close, Remembered;
    var o := Offered(c);
    DupIgnoresCaseExactly(c);
    forall i, j | 0 <= i < j < |o| && Remembered(o, i) && Alike(o[i], o[j]) ensures SameIgnoringCase(o[i], o[j]) {
      AlikeIgnoringCase(o[i], o[j]);
    }
  }

  // Main result: the copy is exact when and only when every name alike a remembered one is spelled as that.
  lemma DupExactly(c: Packet)
    ensures Dup(c).value == c <==> Consistent(Same, Offered(c))
  {
    hide *;
    DupTakes(Same, c);
    ItselfSame();
    TableByNames(Same, Offered(c));
    CloseSame(Dup(c).value, c);
  }

  lemma ItselfSame()
    ensures forall x :: Same(x, x)
  {
  }

  lemma CloseSame(a: Packet, b: Packet)
    ensures Close(Same, a, b) <==> a == b
  {
    if Close(Same, a, b) {
      assert forall i :: 0 <= i < |a.q| ==> CloseQuery(Same, a.q[i], b.q[i]) && a.q[i] == b.q[i];
      SameElements(a.ans, b.ans);
      SameElements(a.ns, b.ns);
      SameElements(a.arr, b.arr);
    }
  }

  lemma SameElements(a: seq<Rr>, b: seq<Rr>)
    requires CloseRrs(Same, a, b)
    ensures a == b
  {
    assert forall i :: 0 <= i < |a| ==> CloseRr(Same, a[i], b[i]) && a[i] == b[i];
  }

  // The table of a copy has 16 places, and holds exactly the names remembered.
  lemma DupTable(c: Packet)
    ensures var o, names := Offered(c), Dup(c).names;
            Holding(o, |o|, names) && |names| == if NewBefore(o, |o|) < 16 then NewBefore(o, |o|) else 16
  {
    hide Alike, Offered, Dup, New, Entered;
    var o := Offered(c);
    DupTakes(Same, c);
    assert Holding(o, 0, []) && o[0..] == o;
    HoldingToEnd(o, 0, []);
  }

  lemma {:induction false} HoldingToEnd(o: seq<Text>, n: nat, names: seq<Text>)
    requires n <= |o| && Holding(o, n, names)
    ensures Holding(o, |o|, EnteredAll(names, o[n..]))
    decreases |o| - n
  {
    hide Holding, Entered;
    if n < |o| {
      assert o[n..][0] == o[n] && o[n..][1..] == o[n + 1..];
      HoldingGrows(o, n, names);
      HoldingToEnd(o, n + 1, Entered(names, o[n]));
    }
  }

  // Two names that differ behind a zero octet.
  const ZERO_X: Text := [97, 0, 120]
  const ZERO_Y: Text := [97, 0, 121]

  function ZeroPacket(): Packet {
    Packet(Header(1, 0, 2, 0, 0, 0), [Query(ZERO_X, TYPE_A, CLASS_IN), Query(ZERO_Y, TYPE_A, CLASS_IN)], [], [], [])
  }

  // A packet whose copy asks about another name than the packet does, case aside.
  lemma ZeroHidesTheRest()
    ensures var dst := Dup(ZeroPacket()).value;
            && dst.q == [Query(ZERO_X, TYPE_A, CLASS_IN), Query(ZERO_X, TYPE_A, CLASS_IN)]
            && !Close(SameIgnoringCase, dst, ZeroPacket())
  {
    var qs := ZeroPacket().q;
    ZerosAlike();
    assert qs[1..] == [qs[1]] && qs[1..][1..] == [];
    assert Entry([], ZERO_X, 0) == 0 && Entry([ZERO_X], ZERO_Y, 0) == 0;
    assert DupQueries([ZERO_X], qs[1..]).value == [qs[1].(name := ZERO_X)];
    assert Lower(ZERO_X[2]) != Lower(ZERO_Y[2]);
    assert !CloseQuery(SameIgnoringCase, Dup(ZeroPacket()).value.q[1], qs[1]);
  }

  lemma ZerosAlike()
    ensures Alike(ZERO_X, ZERO_Y)
  {
    assert ZERO_X[1..] == [0, 120] && ZERO_Y[1..] == [0, 121];
    assert AlikeUpTo(ZERO_X[1..], ZERO_Y[1..], 2);
  }
}
