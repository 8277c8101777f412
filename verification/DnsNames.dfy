/**
 Domain names on the wire (sections 3.1 and 4.1.4 of RFC 1035): labels, the final zero and
 compression pointers.
 */
module DnsNames {
  import opened Bytes
  import opened DnsTypes

  // The text is what get_name has appended when it returns, on failure too.
  datatype Decoded = Decoded(status: Status, text: Text, parsed: nat)

  // What a name at `p` means: both passes of the parser are proved against it.
  function DecodeName(mem: Memory, max: nat, level: nat, p: nat): (d: Decoded)
    decreases if level > 10 then 0 else 11 - level, if p < max then max - p else 0
  {
    if level > 10 then Decoded(InNamePtr, [], 0)
    else if mem(p) == 0 then Decoded(Success, [], 1)
    else if IsPointer(mem(p)) then
      if Offset(mem, p) >= max then Decoded(InNamePtr, [], 0)
      else
        var d := DecodeName(mem, max, level + 1, Offset(mem, p));
        Decoded(d.status, d.text, 2)
    else if mem(p) > max then Decoded(InNamePtr, [], 0)
    else
      var q := p + 1 + mem(p);
      if q >= max then Decoded(InSize, LabelText(mem, p), 1 + mem(p))
      else
        var d := DecodeName(mem, max, level, q);
        Decoded(d.status, LabelText(mem, p) + d.text, 1 + mem(p) + d.parsed)
  }

  // The two top bits are set.
  predicate IsPointer(b: byte) { b >= 192 }

  // The 16 bits at `p` without the two top ones.
  function Offset(mem: Memory, p: nat): nat
    requires IsPointer(mem(p))
  {
    (mem(p) - 192) * 256 + mem(p + 1)
  }

  // A label, and the dot that joins it to whatever follows.
  function LabelText(mem: Memory, p: nat): (t: Text)
    ensures mem(p) <= |t| <= mem(p) + 1
  {
    Span(mem, p + 1, mem(p)) + if mem(p + 1 + mem(p)) != 0 then [DOT] else []
  }

  /** The C string a name is copied to: pj_str_t. */
  class NameBuffer {
    const ptr: array<byte>
    var slen: nat

    ghost predicate Valid() reads this { slen <= ptr.Length }

    ghost function Contents(): (t: Text)
      requires Valid()
      reads this, ptr
    {
      ptr[..slen]
    }

    constructor (room: nat)
      ensures Valid() && fresh(ptr) && ptr.Length == room && Contents() == []
    {
      ptr, slen := new byte[room], 0;
    }

    method Append(text: Text)
      requires Valid() && slen + |text| <= ptr.Length
      modifies this, ptr
      ensures Valid() && Contents() == old(Contents()) + text
    {
      for i := 0 to |text|
        invariant slen == old(slen) && slen + i <= ptr.Length
        invariant ptr[..slen] == old(ptr[..slen]) && ptr[slen..slen + i] == text[..i]
      {
        ptr[slen + i] := text[i];
      }
      slen := slen + |text|;
      assert ptr[..slen] == ptr[..old(slen)] + ptr[old(slen)..slen];
    }
  }

  // get_name_len: the measuring pass.
  method GetNameLen(recCounter: nat, mem: Memory, start: nat, max: nat) returns (status: Status, parsedLen: nat, nameLen: nat)
    ensures status == DecodeName(mem, max, recCounter, start).status
    ensures status.Success? ==> var d := DecodeName(mem, max, recCounter, start); parsedLen == d.parsed && nameLen == |d.text|
    decreases if recCounter > 10 then 0 else 11 - recCounter
  {
    hide Offset;
    parsedLen, nameLen := 0, 0;
    if recCounter > 10 {
      return InNamePtr, parsedLen, nameLen;
    }
    ghost var whole := DecodeName(mem, max, recCounter, start);
    var p := start;
    while mem(p) != 0
      invariant var d := DecodeName(mem, max, recCounter, p);
                && whole.status == d.status
                && whole.parsed == parsedLen + d.parsed
                && |whole.text| == nameLen + |d.text|
      decreases if p < max then max - p else 0
    {
      if IsPointer(mem(p)) {
        var offset := Offset(mem, p);
        if offset >= max {
          return InNamePtr, parsedLen, nameLen;
        }
        var nested, dummy, ptrLen := GetNameLen(recCounter + 1, mem, offset, max);
        if nested != Success {
          return nested, parsedLen, nameLen;
        }
        return Success, parsedLen + 2, nameLen + ptrLen;
      }
      var labelLen: nat := mem(p);
      if labelLen > max {
        return InNamePtr, parsedLen, nameLen;
      }
      p := p + labelLen + 1;
      parsedLen := parsedLen + labelLen + 1;
      if mem(p) != 0 {
        labelLen := labelLen + 1;
      }
      nameLen := nameLen + labelLen;
      if p >= max {
        return InSize, parsedLen, nameLen;
      }
    }
    return Success, parsedLen + 1, nameLen;
  }

  method CopyLabel(mem: Memory, p: nat, name: NameBuffer)
    requires name.Valid() && name.slen + |LabelText(mem, p)| <= name.ptr.Length
    modifies name, name.ptr
    ensures name.Valid() && name.Contents() == old(name.Contents()) + LabelText(mem, p)
  {
    ghost var was, piece := name.Contents(), Span(mem, p + 1, mem(p));
    name.Append(Span(mem, p + 1, mem(p)));
    if mem(p + 1 + mem(p)) != 0 {
      name.Append([DOT]);
      AppendAssociates(was, piece, [DOT]);
    } else {
      assert piece + [] == piece;
    }
  }

  // get_name: the copying pass.
  method GetName(recCounter: nat, mem: Memory, start: nat, max: nat, name: NameBuffer) returns (status: Status)
    requires name.Valid()
    requires name.slen + |DecodeName(mem, max, recCounter, start).text| <= name.ptr.Length
    modifies name, name.ptr
    ensures var d := DecodeName(mem, max, recCounter, start);
            status == d.status && name.Valid() && name.Contents() == old(name.Contents()) + d.text
    decreases if recCounter > 10 then 0 else 11 - recCounter
  {
    hide LabelText, Offset;
    if recCounter > 10 {
      return InNamePtr;
    }
    ghost var whole := DecodeName(mem, max, recCounter, start);
    ghost var copied: Text := [];
    var p := start;
    assert copied + whole.text == whole.text && name.Contents() + copied == name.Contents();
    while mem(p) != 0
      invariant name.Valid() && name.Contents() == old(name.Contents()) + copied
      invariant var d := DecodeName(mem, max, recCounter, p); whole.status == d.status && whole.text == copied + d.text
      decreases if p < max then max - p else 0
    {
      if IsPointer(mem(p)) {
        var offset := Offset(mem, p);
        if offset >= max {
          return InNamePtr;
        }
        ghost var rest := DecodeName(mem, max, recCounter, p);
        status := GetName(recCounter + 1, mem, offset, max, name);
        AppendAssociates(old(name.Contents()), copied, rest.text);
        return;
      }
      var labelLen := mem(p);
      if labelLen > max {
        return InNamePtr;
      }
      ghost var piece, rest := LabelText(mem, p), DecodeName(mem, max, recCounter, p);
      CopyLabel(mem, p, name);
      AppendAssociates(old(name.Contents()), copied, piece);
      copied := copied + piece;
      p := p + labelLen + 1;
      if p >= max {
        return InSize;
      }
      AppendAssociates(whole.text[..|copied| - |piece|], piece, DecodeName(mem, max, recCounter, p).text);
    }
    return Success;
  }

  // The two passes as parse_query and parse_rr make them: the room the first one measures is what the second
  // one fills, to the octet when `spare` is 0.
  method ReadName(mem: Memory, start: nat, max: nat, spare: nat) returns (status: Status, text: Text, parsedLen: nat)
    ensures status == DecodeName(mem, max, 0, start).status
    ensures status.Success? ==> var d := DecodeName(mem, max, 0, start); text == d.text && parsedLen == d.parsed
  {
    hide DecodeName;
    var nameLen;
    text := [];
    status, parsedLen, nameLen := GetNameLen(0, mem, start, max);
    if status.Success? {
      var name := new NameBuffer(nameLen + spare);
      status := GetName(0, mem, start, max, name);
      text := name.ptr[..name.slen];
      assert [] + DecodeName(mem, max, 0, start).text == text;
    }
  }

  // Section 4.1.4 of RFC 1035 sets no limit to the length of a name reached through pointers; the counter does:
  // at most 11 levels, each shorter than the packet.
  lemma {:induction false} NameLengthBound(mem: Memory, max: nat, level: nat, p: nat)
    requires DecodeName(mem, max, level, p).status.Success?
    ensures level <= 10
    ensures |DecodeName(mem, max, level, p).text| <= (if p < max then max - p else 0) + Deeper(level, max)
    decreases if level > 10 then 0 else 11 - level, if p < max then max - p else 0
  {
    hide LabelText, Offset;
    if mem(p) != 0 {
      if IsPointer(mem(p)) {
        NameLengthBound(mem, max, level + 1, Offset(mem, p));
      } else {
        NameLengthBound(mem, max, level, p + 1 + mem(p));
      }
    }
  }

  // What the levels behind `level` can add.
  function Deeper(level: nat, max: nat): nat
    decreases if level < 10 then 10 - level else 0
  {
    if level < 10 then max + Deeper(level + 1, max) else 0
  }

  lemma {:induction false} DeeperIs(level: nat, max: nat)
    requires level <= 10
    ensures Deeper(level, max) == (10 - level) * max
    decreases 10 - level
  {
    if level < 10 {
      DeeperIs(level + 1, max);
      assert (10 - level) * max == max + (10 - (level + 1)) * max;
    }
  }

  // Any name read is at most 11 times as long as the packet.
  lemma NameAtMostElevenPackets(mem: Memory, max: nat, p: nat)
    requires DecodeName(mem, max, 0, p).status.Success?
    ensures |DecodeName(mem, max, 0, p).text| <= 11 * max
  {
    hide *;
    NameLengthBound(mem, max, 0, p);
    DeeperIs(0, max);
  }
}
