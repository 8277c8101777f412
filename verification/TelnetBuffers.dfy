/**
 The two buffers of a telnet session: the line being edited (`telnet_recv_buf`) and the output
 waiting for the socket.
 */
module TelnetLine {
  import opened Bytes

  const PJ_CLI_MAX_CMDBUF := 512

  // The line as an editor sees it: the text left of the cursor and the text right of it.
  datatype Line = Line(left: seq<byte>, right: seq<byte>) {
    function Text(): seq<byte> { left + right }
  }

  // Tab, question mark and carriage return always go to the end of the line.
  predicate Appends(c: byte) { c == 9 || c == 63 || c == 13 }

  predicate HasRoom(l: Line) { |l.left| + |l.right| + 1 < PJ_CLI_MAX_CMDBUF }

  function Inserted(l: Line, c: byte): Line {
    if !HasRoom(l) then l
    else if Appends(c) then
      var text := l.Text() + [c];
      Line(text[..|l.left| + 1], text[|l.left| + 1..])
    else Line(l.left + [c], l.right)
  }

  function Erased(l: Line): Line { if l.left == [] then l else Line(l.left[..|l.left| - 1], l.right) }

  function MovedLeft(l: Line): Line {
    if l.left == [] then l else Line(l.left[..|l.left| - 1], [l.left[|l.left| - 1]] + l.right)
  }

  function MovedRight(l: Line): Line { if l.right == [] then l else Line(l.left + [l.right[0]], l.right[1..]) }

  class RecvBuf {
    const rbuf: array<byte>
    var len: nat
    var curPos: nat

    ghost predicate Valid()
      reads this, rbuf
    {
      && rbuf.Length == PJ_CLI_MAX_CMDBUF
      && curPos <= len < PJ_CLI_MAX_CMDBUF
      && rbuf[len] == 0
    }

    ghost function Value(): Line
      requires Valid()
      reads this, rbuf
    {
      Line(rbuf[..curPos], rbuf[curPos..len])
    }

    constructor ()
      ensures Valid() && fresh(rbuf) && Value() == Line([], [])
    {
      rbuf := new byte[PJ_CLI_MAX_CMDBUF](_ => 0);
      len, curPos := 0, 0;
    }

    // pj_memmove inside rbuf.
    method MemMove(dst: nat, src: nat, n: nat)
      requires dst + n <= rbuf.Length && src + n <= rbuf.Length
      modifies rbuf
      ensures rbuf[..] == old(rbuf[..dst] + rbuf[src..src + n] + rbuf[dst + n..])
    {
      forall i | dst <= i < dst + n {
        rbuf[i] := rbuf[src + (i - dst)];
      }
    }

    // recv_buf_insert
    method Insert(data: byte) returns (ok: bool)
      requires Valid()
      modifies `len, `curPos, rbuf
      ensures Valid()
      ensures ok == HasRoom(old(Value()))
      ensures Value() == Inserted(old(Value()), data)
    {
      if len + 1 >= PJ_CLI_MAX_CMDBUF {
        return false;
      }
      ghost var l := Value();
      ghost var text := if Appends(data) then l.Text() + [data] else l.left + [data] + l.right;
      if data == 9 || data == 63 || data == 13 {
        rbuf[len] := data;
        assert rbuf[..len] == l.Text();
      } else {
        ShiftIn(data);
      }
      assert rbuf[..len + 1] == text;
      curPos := curPos + 1;
      len := len + 1;
      rbuf[len] := 0;
      assert rbuf[..len] == text;
      InsertedText(l, data);
      assert rbuf[..curPos] == text[..curPos] && rbuf[curPos..len] == text[curPos..];
      return true;
    }

    // Shift the characters right of the cursor and put `data` there.
    method ShiftIn(data: byte)
      requires Valid() && len + 1 < PJ_CLI_MAX_CMDBUF
      modifies rbuf
      ensures rbuf[..len + 1] == old(rbuf[..curPos]) + [data] + old(rbuf[curPos..len])
    {
      ghost var was := rbuf[..];
      var rlen := len - curPos;
      if rlen > 0 {
        MemMove(curPos + 1, curPos, rlen + 1);
      }
      rbuf[curPos] := data;
      assert rbuf[..curPos] == was[..curPos];
      assert rbuf[curPos + 1..len + 1] == was[curPos..len];
    }

    // recv_buf_backspace
    method Backspace() returns (ok: bool)
      requires Valid()
      modifies `len, `curPos, rbuf
      ensures Valid()
      ensures ok == (old(Value()).left != [])
      ensures Value() == Erased(old(Value()))
    {
      if curPos == 0 || len == 0 {
        return false;
      }
      var rlen := len - curPos;
      ghost var was := rbuf[..];
      if rlen != 0 {
        MemMove(curPos - 1, curPos, rlen);
      }
      assert rbuf[..curPos - 1] == was[..curPos - 1];
      assert rbuf[curPos - 1..len - 1] == was[curPos..len];
      curPos := curPos - 1;
      len := len - 1;
      rbuf[len] := 0;
      return true;
    }

    // handle_left_key
    method Left() returns (ok: bool)
      requires Valid()
      modifies `curPos
      ensures Valid()
      ensures ok == (old(Value()).left != [])
      ensures Value() == MovedLeft(old(Value()))
    {
      if curPos != 0 {
        curPos := curPos - 1;
        return true;
      }
      return false;
    }

    // handle_right_key
    method Right() returns (ok: bool)
      requires Valid()
      modifies `curPos
      ensures Valid()
      ensures ok == (old(Value()).right != [])
      ensures Value() == MovedRight(old(Value()))
    {
      if len - curPos != 0 {
        curPos := curPos + 1;
        return true;
      }
      return false;
    }
  }

  lemma InsertedText(l: Line, c: byte)
    requires HasRoom(l)
    ensures var text := if Appends(c) then l.Text() + [c] else l.left + [c] + l.right;
            Inserted(l, c) == Line(text[..|l.left| + 1], text[|l.left| + 1..])
  {
  }

  function Typed(l: Line, w: seq<byte>): Line
    decreases |w|
  {
    if w == [] then l else Typed(Inserted(l, w[0]), w[1..])
  }

  function ErasedTimes(l: Line, n: nat): Line
    decreases n
  {
    if n == 0 then l else ErasedTimes(Erased(l), n - 1)
  }

  // recv_buf_backspace undoes recv_buf_insert exactly when the character went in at the cursor, or
  // when the end of the line cannot be told from the cursor because only that character is there.
  lemma BackspaceUndoesInsert(l: Line, c: byte)
    requires HasRoom(l)
    ensures Erased(Inserted(l, c)) == l <==> (!Appends(c) || forall i :: 0 <= i < |l.right| ==> l.right[i] == c)
  {
    if Appends(c) {
      var text := l.Text() + [c];
      var e := Erased(Inserted(l, c));
      assert e.left == l.left;
      assert e.right == text[|l.left| + 1..];
      assert |e.right| == |l.right|;
      assert forall i :: 0 <= i < |l.right| - 1 ==> e.right[i] == l.right[i + 1];
      if e == l {
        forall i | 0 <= i < |l.right| ensures l.right[i] == c {
          SameToTheEnd(l.right, c, i);
        }
      }
    }
  }

  lemma {:induction false} SameToTheEnd(s: seq<byte>, c: byte, i: nat)
    requires i < |s| && s[|s| - 1] == c
    requires forall j :: 0 <= j < |s| - 1 ==> s[j] == s[j + 1]
    ensures s[i] == c
    decreases |s| - i
  {
    if i < |s| - 1 {
      SameToTheEnd(s, c, i + 1);
    }
  }

  // Any burst of ordinary typing that fits is undone by as many backspaces, cursor anywhere.
  lemma {:induction false} TypingIsUndone(l: Line, w: seq<byte>)
    requires |l.left| + |l.right| + |w| < PJ_CLI_MAX_CMDBUF
    requires forall i :: 0 <= i < |w| ==> !Appends(w[i])
    ensures Typed(l, w) == Line(l.left + w, l.right)
    ensures ErasedTimes(Typed(l, w), |w|) == l
    decreases |w|
  {
    if w == [] {
      assert l.left + w == l.left;
    } else {
      var l' := Inserted(l, w[0]);
      TypingIsUndone(l', w[1..]);
      assert l'.left + w[1..] == l.left + w;
      ErasedSnoc(Typed(l, w), |w| - 1);
    }
  }

  lemma {:induction false} ErasedSnoc(l: Line, n: nat)
    ensures ErasedTimes(l, n + 1) == Erased(ErasedTimes(l, n))
    decreases n
  {
    if n > 0 {
      ErasedSnoc(Erased(l), n - 1);
    }
  }

  // A line takes 511 octets. Tab, carriage return and question mark go to its end, everything else to the cursor, and
  // the cursor moves by one.
  lemma InsertedWhere(l: Line, c: byte)
    ensures HasRoom(l) <==> |l.Text()| < 511
    ensures !HasRoom(l) ==> Inserted(l, c) == l
    ensures HasRoom(l) ==>
              && |Inserted(l, c).left| == |l.left| + 1
              && Inserted(l, c).Text() == if c == 9 || c == 13 || c == 63 then l.Text() + [c] else l.left + [c] + l.right
  {
    if HasRoom(l) {
      InsertedText(l, c);
    }
  }

  // The backspace key takes the octet left of the cursor away.
  lemma ErasedWhere(l: Line)
    requires l.left != []
    ensures Erased(l).Text() == l.left[..|l.left| - 1] + l.right && |Erased(l).left| == |l.left| - 1
  {
  }

  // Left and right as cursor positions.
  lemma CursorMoves(l: Line)
    ensures |MovedLeft(l).left| == if l.left == [] then 0 else |l.left| - 1
    ensures |MovedRight(l).left| == if l.right == [] then |l.left| else |l.left| + 1
  {
  }

  // Cursor keys never touch the text, and undo each other away from the ends.
  lemma CursorKeysKeepText(l: Line)
    ensures MovedLeft(l).Text() == l.Text() == MovedRight(l).Text()
    ensures l.left != [] ==> MovedRight(MovedLeft(l)) == l
    ensures l.right != [] ==> MovedLeft(MovedRight(l)) == l
  {
    if l.left != [] { assert l.left == l.left[..|l.left| - 1] + [l.left[|l.left| - 1]]; }
    if l.right != [] { assert l.right == [l.right[0]] + l.right[1..]; }
  }
}

/** The keys of a session: the input parser together with the line it edits. */
module TelnetKeys {
  import opened Bytes
  import opened TelnetLine
  import opened TelnetSession

  const DEL: byte := 127
  const ESC: byte := 27
  const CR: byte := 13
  const TC_RIGHT: byte := 67
  const TC_LEFT: byte := 68

  datatype Keys = Keys(state: ParseState, line: Line)

  // Not an octet that ends in completion, execution or the history, which replace the line.
  predicate Plain(k: Keys, c: byte) {
    match k.state
    case StNormal => c != 9 && c != 63
    case StCr => c != 0 && c != 10
    case StVt100 => c != 65 && c != 66
    case _ => true
  }

  function LineAfter(k: Keys, c: byte): Line {
    match k.state
    case StNormal =>
      if c == IAC || c == ESC then k.line else if c == DEL then Erased(k.line) else Inserted(k.line, c)
    case StVt100 =>
      if c == TC_LEFT then MovedLeft(k.line) else if c == TC_RIGHT then MovedRight(k.line) else k.line
    case _ => k.line
  }

  function Press(k: Keys, c: byte): Keys { Keys(Parse(k.state, c, HasRoom(k.line)).state, LineAfter(k, c)) }

  function PressAll(k: Keys, w: seq<byte>): Keys
    decreases |w|
  {
    if w == [] then k else PressAll(Press(k, w[0]), w[1..])
  }

  class Keyboard {
    const rcmd: RecvBuf
    var parseState: ParseState

    ghost predicate Valid() reads this, rcmd, rcmd.rbuf { rcmd.Valid() }

    ghost function Value(): Keys
      requires Valid()
      reads this, rcmd, rcmd.rbuf
    {
      Keys(parseState, rcmd.Value())
    }

    constructor ()
      ensures Valid() && fresh(rcmd) && fresh(rcmd.rbuf) && Value() == Keys(StNormal, Line([], []))
    {
      rcmd := new RecvBuf();
      parseState := StNormal;
    }

    // The line editing half of telnet_sess_on_data_read, without echo and bell.
    method OnDataRead(c: byte)
      requires Valid() && Plain(Value(), c)
      modifies this, rcmd, rcmd.rbuf
      ensures Valid() && Value() == Press(old(Value()), c)
    {
      match parseState {
        case StNormal =>
          if c == IAC {
            parseState := StIac;
          } else if c == DEL {
            var _ := rcmd.Backspace();
          } else if c == ESC {
            parseState := StEsc;
          } else {
            var inserted := rcmd.Insert(c);
            if inserted && c == CR {
              parseState := StCr;
            }
          }
        case StCr =>
          parseState := StNormal;
        case StEsc =>
          parseState := if c == 91 then StVt100 else StNormal;
        case StVt100 =>
          parseState := StNormal;
          if c == TC_RIGHT {
            var _ := rcmd.Right();
          } else if c == TC_LEFT {
            var _ := rcmd.Left();
          }
        case StIac =>
          if c == VerbCode(Do) {
            parseState := StVerb(Do);
          } else if c == VerbCode(Dont) {
            parseState := StVerb(Dont);
          } else if c == VerbCode(Will) {
            parseState := StVerb(Will);
          } else if c == VerbCode(Wont) {
            parseState := StVerb(Wont);
          } else {
            parseState := StNormal;
          }
        case StVerb(_) =>
          parseState := StNormal;
      }
    }
  }

  // ESC [ D moves the cursor left and ESC [ C right, in the same text; 127 is the backspace key.
  lemma KeysInOctets(l: Line)
    ensures var k := PressAll(Keys(StNormal, l), [27, 91, 68]);
            k.state == StNormal && k.line.Text() == l.Text() && |k.line.left| == if l.left == [] then 0 else |l.left| - 1
    ensures var k := PressAll(Keys(StNormal, l), [27, 91, 67]);
            k.state == StNormal && k.line.Text() == l.Text() && |k.line.left| == if l.right == [] then |l.left| else |l.left| + 1
    ensures PressAll(Keys(StNormal, l), [127]) == Keys(StNormal, Erased(l))
  {
    hide MovedLeft, MovedRight, Erased, Inserted;
    CursorKeysKeepText(l);
    CursorMoves(l);
    EscapeKey(l, 68);
    EscapeKey(l, 67);
    assert [127][1..] == [];
    assert PressAll(Keys(StNormal, l), [127]) == PressAll(Keys(StNormal, Erased(l)), []);
  }

  lemma EscapeKey(l: Line, c: byte)
    ensures PressAll(Keys(StNormal, l), [27, 91, c]) == Press(Keys(StVt100, l), c)
  {
    hide MovedLeft, MovedRight, Erased, Inserted;
    assert [27, 91, c][1..] == [91, c] && [91, c][1..] == [c] && [c][1..] == [];
    assert Press(Keys(StNormal, l), 27) == Keys(StEsc, l) && Press(Keys(StEsc, l), 91) == Keys(StVt100, l);
    assert PressAll(Keys(StVt100, l), [c]) == Press(Keys(StVt100, l), c);
    assert PressAll(Keys(StEsc, l), [91, c]) == PressAll(Keys(StVt100, l), [c]);
  }

  // Sequences that mean nothing here end where they should, and leave the line alone: ESC and anything but [, ESC [ and
  // anything but an arrow, 255 with anything but a verb, and a verb with its option.
  lemma SequencesEnd(l: Line, c: byte, o: byte)
    ensures c != 91 ==> PressAll(Keys(StNormal, l), [27, c]) == Keys(StNormal, l)
    ensures c != 67 && c != 68 ==> PressAll(Keys(StNormal, l), [27, 91, c]) == Keys(StNormal, l)
    ensures c < 251 || c == 255 ==> PressAll(Keys(StNormal, l), [255, c]) == Keys(StNormal, l)
    ensures 251 <= c <= 254 ==> PressAll(Keys(StNormal, l), [255, c, o]) == Keys(StNormal, l)
  {
    hide MovedLeft, MovedRight, Erased, Inserted;
    EscapeKey(l, c);
    TwoKeys(Keys(StNormal, l), 27, c);
    TwoKeys(Keys(StNormal, l), 255, c);
    assert [255, c, o] == [255, c] + [o] && [o][1..] == [];
    PressAppend(Keys(StNormal, l), [255, c], [o]);
    var k := PressAll(Keys(StNormal, l), [255, c]);
    assert PressAll(k, [o]) == PressAll(Press(k, o), []);
  }

  lemma TwoKeys(k: Keys, a: byte, b: byte)
    ensures PressAll(k, [a, b]) == Press(Press(k, a), b)
  {
    hide Press;
    assert [a, b][1..] == [b] && [b][1..] == [];
    assert PressAll(Press(k, a), [b]) == PressAll(Press(Press(k, a), b), []);
  }

  // An octet that is typed: neither a command nor one that goes to the end of the line.
  predicate Typable(c: byte) { c != IAC && c != ESC && c != DEL && !Appends(c) }

  // Typing that fits, anywhere in a line, is undone by as many backspace keys.
  lemma KeysAreUndone(l: Line, w: seq<byte>)
    requires |l.left| + |l.right| + |w| < PJ_CLI_MAX_CMDBUF && forall c :: c in w ==> Typable(c)
    ensures PressAll(Keys(StNormal, l), w + Repeat(DEL, |w|)) == Keys(StNormal, l)
  {
    assert forall i :: 0 <= i < |w| ==> w[i] in w;
    TypingIsUndone(l, w);
    PressTyped(l, w);
    PressAppend(Keys(StNormal, l), w, Repeat(DEL, |w|));
    PressErase(Typed(l, w), |w|);
  }

  lemma {:induction false} PressAppend(k: Keys, v: seq<byte>, w: seq<byte>)
    ensures PressAll(k, v + w) == PressAll(PressAll(k, v), w)
    decreases |v|
  {
    hide Press;
    if v == [] {
      assert v + w == w;
    } else {
      assert (v + w)[1..] == v[1..] + w;
      PressAppend(Press(k, v[0]), v[1..], w);
    }
  }

  lemma {:induction false} PressTyped(l: Line, w: seq<byte>)
    requires forall c :: c in w ==> Typable(c)
    ensures PressAll(Keys(StNormal, l), w) == Keys(StNormal, Typed(l, w))
    decreases |w|
  {
    hide Inserted;
    if w != [] {
      assert w[0] in w && forall c :: c in w[1..] ==> c in w;
      assert Press(Keys(StNormal, l), w[0]) == Keys(StNormal, Inserted(l, w[0]));
      PressTyped(Inserted(l, w[0]), w[1..]);
    }
  }

  lemma {:induction false} PressErase(l: Line, n: nat)
    ensures PressAll(Keys(StNormal, l), Repeat(DEL, n)) == Keys(StNormal, ErasedTimes(l, n))
    decreases n
  {
    hide Erased;
    if n > 0 {
      assert Repeat(DEL, n)[1..] == Repeat(DEL, n - 1);
      PressErase(Erased(l), n - 1);
    }
  }

  // A carriage return that is not followed by a line feed or a zero stays in the line, and the octet behind it is
  // dropped. The backspace key then restores the line exactly when there were only carriage returns right of the
  // cursor.
  lemma ReturnIsErased(l: Line, c: byte)
    requires HasRoom(l) && c != 0 && c != 10
    ensures var k := Keys(StNormal, l);
            && Plain(k, CR) && Plain(Press(k, CR), c) && Plain(Press(Press(k, CR), c), DEL)
            && (PressAll(k, [CR, c, DEL]) == k <==> forall i :: 0 <= i < |l.right| ==> l.right[i] == CR)
  {
    hide Inserted, Erased;
    var k := Keys(StNormal, l);
    assert [CR, c, DEL][1..] == [c, DEL] && [c, DEL][1..] == [DEL] && [DEL][1..] == [];
    var k1, k2 := Press(k, CR), Press(Press(k, CR), c);
    assert PressAll(k2, [DEL]) == Press(k2, DEL);
    assert PressAll(k1, [c, DEL]) == PressAll(k2, [DEL]);
    assert PressAll(k, [CR, c, DEL]) == PressAll(k1, [c, DEL]);
    BackspaceUndoesInsert(l, CR);
  }
}

module TelnetOutput {
  import opened Bytes

  const CLI_TELNET_BUF_SIZE := 256
  const MAX_CUT_MSG_LEN := 25

  // "<..data truncated..>" and a line end.
  const CUT_MSG: seq<byte> := [60, 46, 46, 100, 97, 116, 97, 32, 116, 114, 117, 110, 99, 97, 116, 101, 100, 46, 46, 62, 13, 10]

  // What the socket answers: all taken, all queued, refused, or only the first n octets taken.
  datatype SocketResult = Accepted | Pending | Failed | Partial(n: nat)

  datatype Status = Success | TelnetLost

  // Octets handed to the socket, and octets still waiting here.
  datatype Stream = Stream(handed: seq<byte>, waiting: seq<byte>)

  predicate WaitingOk(w: seq<byte>) {
    |w| <= CLI_TELNET_BUF_SIZE || (|w| == CLI_TELNET_BUF_SIZE + |CUT_MSG| && w[CLI_TELNET_BUF_SIZE..] == CUT_MSG)
  }

  function Queued(w: seq<byte>, msg: seq<byte>): (w': seq<byte>)
    requires WaitingOk(w)
    ensures WaitingOk(w')
  {
    if |w| + |msg| <= CLI_TELNET_BUF_SIZE then w + msg
    else if |w| <= CLI_TELNET_BUF_SIZE then w + msg[..CLI_TELNET_BUF_SIZE - |w|] + CUT_MSG
    else w
  }

  function Sent(s: Stream, msg: seq<byte>, result: SocketResult): (s': Stream)
    requires WaitingOk(s.waiting)
    requires result.Partial? ==> result.n < |msg| || msg == []
    ensures WaitingOk(s'.waiting)
  {
    if msg == [] then s
    else if s.waiting != [] || result.Failed? then s.(waiting := Queued(s.waiting, msg))
    else if result.Partial? then s.(handed := s.handed + msg[..result.n])
    else s.(handed := s.handed + msg)
  }

  class Output {
    const buf: array<byte>
    var bufLen: nat
    ghost var handed: seq<byte>

    ghost predicate Valid()
      reads this, buf
    {
      && buf.Length == CLI_TELNET_BUF_SIZE + MAX_CUT_MSG_LEN
      && bufLen <= buf.Length
      && WaitingOk(buf[..bufLen])
    }

    ghost function Value(): Stream
      requires Valid()
      reads this, buf
    {
      Stream(handed, buf[..bufLen])
    }

    constructor ()
      ensures Valid() && fresh(buf) && Value() == Stream([], [])
    {
      buf := new byte[CLI_TELNET_BUF_SIZE + MAX_CUT_MSG_LEN](_ => 0);
      bufLen := 0;
      handed := [];
    }

    // telnet_sess_send; `result` is the socket's answer, if it is asked.
    method Send(str: seq<byte>, result: SocketResult) returns (status: Status)
      requires Valid()
      requires result.Partial? ==> result.n < |str| || str == []
      modifies `bufLen, `handed, buf
      ensures Valid()
      ensures Value() == Sent(old(Value()), str, result)
      ensures status == if str != [] && old(bufLen) == 0 && result.Partial? then TelnetLost else Success
    {
      var sz := |str|;
      if sz == 0 {
        return Success;
      }
      if bufLen == 0 {
        match result {
          case Accepted => handed := handed + str;
          case Pending => handed := handed + str;
          case Partial(n) => handed := handed + str[..n];
          case Failed =>
        }
      }
      if bufLen > 0 || result.Failed? {
        ghost var w := buf[..bufLen];
        var clen: int := sz;
        if bufLen + clen > CLI_TELNET_BUF_SIZE {
          clen := CLI_TELNET_BUF_SIZE - bufLen;
        }
        if clen > 0 {
          forall i | 0 <= i < clen {
            buf[bufLen + i] := str[i];
          }
          assert buf[..bufLen + clen] == w + str[..clen];
        }
        if clen < sz {
          ghost var kept := buf[..CLI_TELNET_BUF_SIZE];
          WriteCutMsg();
          bufLen := CLI_TELNET_BUF_SIZE + |CUT_MSG|;
          assert buf[..bufLen] == kept + CUT_MSG;
          assert |w| > CLI_TELNET_BUF_SIZE ==> w == w[..CLI_TELNET_BUF_SIZE] + w[CLI_TELNET_BUF_SIZE..];
        } else {
          bufLen := bufLen + clen;
          assert str[..clen] == str;
        }
      } else if result.Partial? {
        return TelnetLost;
      }
      return Success;
    }

    // pj_ansi_snprintf of the marker behind the 256 data octets.
    method WriteCutMsg()
      requires buf.Length == CLI_TELNET_BUF_SIZE + MAX_CUT_MSG_LEN
      modifies buf
      ensures buf[..CLI_TELNET_BUF_SIZE] == old(buf[..CLI_TELNET_BUF_SIZE])
      ensures buf[CLI_TELNET_BUF_SIZE..CLI_TELNET_BUF_SIZE + |CUT_MSG|] == CUT_MSG
    {
      forall i | 0 <= i < |CUT_MSG| {
        buf[CLI_TELNET_BUF_SIZE + i] := CUT_MSG[i];
      }
      buf[CLI_TELNET_BUF_SIZE + |CUT_MSG|] := 0;
    }

    // telnet_sess_on_data_sent after a successful send.
    method OnDataSent(result: SocketResult) returns (keep: bool)
      requires Valid()
      requires result.Partial? ==> result.n < bufLen || bufLen == 0
      modifies `bufLen, `handed, buf
      ensures Valid()
      ensures var w := old(Value()).waiting; Value() == Sent(Stream(old(handed), []), w, result)
      ensures keep == (old(bufLen) == 0 || !result.Partial?)
    {
      if bufLen != 0 {
        var len := bufLen;
        var str := buf[..len];
        bufLen := 0;
        var status := Send(str, result);
        return status == Success;
      }
      return true;
    }
  }

  datatype Event = Message(text: seq<byte>, result: SocketResult) | Flushed(result: SocketResult)

  // What became of one message.
  datatype Fate = Whole | Cut(kept: nat) | Dropped

  predicate NoPartial(events: seq<Event>) { forall i :: 0 <= i < |events| ==> !events[i].result.Partial? }

  function Next(s: Stream, e: Event): (s': Stream)
    requires WaitingOk(s.waiting) && !e.result.Partial?
    ensures WaitingOk(s'.waiting)
  {
    match e
    case Message(text, result) => Sent(s, text, result)
    case Flushed(result) => Sent(Stream(s.handed, []), s.waiting, result)
  }

  function After(s: Stream, events: seq<Event>): (s': Stream)
    requires WaitingOk(s.waiting) && NoPartial(events)
    ensures WaitingOk(s'.waiting)
    decreases |events|
  {
    if events == [] then s else After(Next(s, events[0]), events[1..])
  }

  function Messages(events: seq<Event>): seq<seq<byte>> {
    if events == [] then []
    else (match events[0] case Message(text, _) => [text] case Flushed(_) => []) + Messages(events[1..])
  }

  // The octets a list of messages leaves in the stream, given what became of each.
  function Render(msgs: seq<seq<byte>>, fates: seq<Fate>): seq<byte>
    requires |msgs| == |fates|
  {
    if msgs == [] then []
    else
      (match fates[0]
       case Whole => msgs[0]
       case Cut(kept) => if kept < |msgs[0]| then msgs[0][..kept] + CUT_MSG else []
       case Dropped => [])
      + Render(msgs[1..], fates[1..])
  }

  // Every cut loses something and is marked; only messages right behind a cut are dropped.
  predicate Honest(msgs: seq<seq<byte>>, fates: seq<Fate>, afterCut: bool)
    requires |msgs| == |fates|
  {
    msgs == [] ||
    (match fates[0]
     case Whole => Honest(msgs[1..], fates[1..], false)
     case Cut(kept) => kept < |msgs[0]| && Honest(msgs[1..], fates[1..], true)
     case Dropped => afterCut && Honest(msgs[1..], fates[1..], true))
  }

  function FateOf(w: seq<byte>, msg: seq<byte>, result: SocketResult): Fate {
    if |w| > CLI_TELNET_BUF_SIZE then Dropped
    else if (w == [] && !result.Failed?) || |w| + |msg| <= CLI_TELNET_BUF_SIZE then Whole
    else Cut(CLI_TELNET_BUF_SIZE - |w|)
  }

  function Fates(s: Stream, events: seq<Event>): (fates: seq<Fate>)
    requires WaitingOk(s.waiting) && NoPartial(events)
    ensures |fates| == |Messages(events)|
    decreases |events|
  {
    if events == [] then []
    else (match events[0] case Message(text, r) => [FateOf(s.waiting, text, r)] case Flushed(_) => [])
         + Fates(Next(s, events[0]), events[1..])
  }

  lemma SentConserves(s: Stream, msg: seq<byte>, result: SocketResult)
    requires WaitingOk(s.waiting) && !result.Partial?
    ensures var s' := Sent(s, msg, result);
            s'.handed + s'.waiting == s.handed + s.waiting + Render([msg], [FateOf(s.waiting, msg, result)])
    ensures FateOf(s.waiting, msg, result).Dropped? <==> |s.waiting| > CLI_TELNET_BUF_SIZE
    ensures |Sent(s, msg, result).waiting| > CLI_TELNET_BUF_SIZE ==> !FateOf(s.waiting, msg, result).Whole?
  {
    var s' := Sent(s, msg, result);
    var fate := FateOf(s.waiting, msg, result);
    assert Render([], []) == [];
    assert Render([msg], [fate]) == match fate
                                    case Whole => msg
                                    case Cut(kept) => if kept < |msg| then msg[..kept] + CUT_MSG else []
                                    case Dropped => [];
  }

  lemma FlushConserves(s: Stream, result: SocketResult)
    requires WaitingOk(s.waiting) && !result.Partial?
    ensures var s' := Next(s, Flushed(result)); s'.handed + s'.waiting == s.handed + s.waiting
    ensures |Next(s, Flushed(result)).waiting| > CLI_TELNET_BUF_SIZE ==> |s.waiting| > CLI_TELNET_BUF_SIZE
  {
  }

  lemma RenderCons(msg: seq<byte>, fate: Fate, msgs: seq<seq<byte>>, fates: seq<Fate>)
    requires |msgs| == |fates|
    ensures Render([msg] + msgs, [fate] + fates) == Render([msg], [fate]) + Render(msgs, fates)
  {
    assert ([msg] + msgs)[1..] == msgs && ([fate] + fates)[1..] == fates;
    assert Render([], []) == [];
    assert [msg][1..] == [] && [fate][1..] == [];
  }

  function Octets(s: Stream): seq<byte> { s.handed + s.waiting }

  // What one event adds to the stream.
  function Share(s: Stream, e: Event): seq<byte>
    requires WaitingOk(s.waiting) && !e.result.Partial?
  {
    match e
    case Message(text, result) => Render([text], [FateOf(s.waiting, text, result)])
    case Flushed(_) => []
  }

  lemma NextConserves(s: Stream, e: Event)
    requires WaitingOk(s.waiting) && !e.result.Partial?
    ensures Octets(Next(s, e)) == Octets(s) + Share(s, e)
  {
    if e.Message? {
      SentConserves(s, e.text, e.result);
    } else {
      FlushConserves(s, e.result);
    }
  }

  function Shares(s: Stream, events: seq<Event>): seq<byte>
    requires WaitingOk(s.waiting) && NoPartial(events)
    decreases |events|
  {
    if events == [] then [] else Share(s, events[0]) + Shares(Next(s, events[0]), events[1..])
  }

  lemma {:induction false} StreamIsShares(s: Stream, events: seq<Event>)
    requires WaitingOk(s.waiting) && NoPartial(events)
    ensures Octets(After(s, events)) == Octets(s) + Shares(s, events)
    decreases |events|
  {
    if events != [] {
      var s1 := Next(s, events[0]);
      NextConserves(s, events[0]);
      StreamIsShares(s1, events[1..]);
      AppendAssociates(Octets(s), Share(s, events[0]), Shares(s1, events[1..]));
    }
  }

  lemma {:induction false} SharesAreRendered(s: Stream, events: seq<Event>)
    requires WaitingOk(s.waiting) && NoPartial(events)
    ensures Shares(s, events) == Render(Messages(events), Fates(s, events))
    decreases |events|
  {
    if events != [] {
      var msgs, fates := Messages(events[1..]), Fates(Next(s, events[0]), events[1..]);
      SharesAreRendered(Next(s, events[0]), events[1..]);
      match events[0] {
        case Message(text, result) => RenderCons(text, FateOf(s.waiting, text, result), msgs, fates);
        case Flushed(_) => assert Messages(events) == msgs && Fates(s, events) == fates;
      }
    }
  }

  // Main result: whatever the socket does short of a partial send, the octets handed over followed
  // by those waiting are the messages in order, each rendered as its fate says.
  lemma StreamIsMessages(s: Stream, events: seq<Event>)
    requires WaitingOk(s.waiting) && NoPartial(events)
    ensures Octets(After(s, events)) == Octets(s) + Render(Messages(events), Fates(s, events))
  {
    StreamIsShares(s, events);
    SharesAreRendered(s, events);
  }

  // And no octet disappears silently: a cut leaves a marker, and only messages right behind a cut
  // can be dropped.
  lemma {:induction false} LossIsMarked(s: Stream, events: seq<Event>)
    requires WaitingOk(s.waiting) && NoPartial(events)
    ensures Honest(Messages(events), Fates(s, events), |s.waiting| > CLI_TELNET_BUF_SIZE)
    decreases |events|
  {
    if events != [] {
      var s1 := Next(s, events[0]);
      var msgs, fates := Messages(events[1..]), Fates(s1, events[1..]);
      LossIsMarked(s1, events[1..]);
      HonestWeaken(msgs, fates, |s1.waiting| > CLI_TELNET_BUF_SIZE);
      match events[0] {
        case Message(text, result) =>
          SentConserves(s, text, result);
          assert ([text] + msgs)[1..] == msgs && ([FateOf(s.waiting, text, result)] + fates)[1..] == fates;
        case Flushed(result) =>
          FlushConserves(s, result);
          assert Messages(events) == msgs && Fates(s, events) == fates;
      }
    }
  }

  lemma HonestWeaken(msgs: seq<seq<byte>>, fates: seq<Fate>, afterCut: bool)
    requires |msgs| == |fates| && Honest(msgs, fates, afterCut)
    ensures Honest(msgs, fates, true)
  {
  }

  // What the socket takes never waits, and nothing overtakes what waits.
  lemma SentWhere(s: Stream, msg: seq<byte>, result: SocketResult)
    requires WaitingOk(s.waiting) && !result.Partial?
    ensures s.waiting == [] && !result.Failed? ==> Sent(s, msg, result) == Stream(s.handed + msg, [])
    ensures s.waiting == [] && result.Failed? ==> Sent(s, msg, result).handed == s.handed
    ensures s.waiting != [] ==> Sent(s, msg, result).handed == s.handed
  {
    assert s.handed + [] == s.handed;
  }

  // Of a partial send the part not taken is gone, and the caller is told.
  lemma PartialIsLost(s: Stream, msg: seq<byte>, n: nat)
    requires s.waiting == [] && n < |msg|
    ensures Sent(s, msg, Partial(n)) == Stream(s.handed + msg[..n], [])
  {
  }

  // As long as the socket takes everything, it has all the messages and nothing waits.
  lemma {:induction false} NothingWaits(s: Stream, events: seq<Event>)
    requires s.waiting == [] && NoPartial(events) && forall e :: e in events ==> !e.result.Failed?
    ensures After(s, events) == Stream(s.handed + Concat(Messages(events)), [])
    decreases |events|
  {
    hide Sent;
    if events == [] {
      assert s.handed + [] == s.handed;
    } else {
      var e, rest := events[0], Concat(Messages(events[1..]));
      assert e in events && forall x :: x in events[1..] ==> x in events;
      match e {
        case Message(text, result) =>
          SentWhere(s, text, result);
          NothingWaits(Next(s, e), events[1..]);
          AppendAssociates(s.handed, text, rest);
          assert Messages(events)[1..] == Messages(events[1..]);
        case Flushed(result) =>
          SentWhere(s, [], result);
          assert s.handed + [] == s.handed && Stream(s.handed, []) == s;
          NothingWaits(Next(s, e), events[1..]);
          assert Messages(events) == Messages(events[1..]);
      }
    }
  }

  function Concat(msgs: seq<seq<byte>>): seq<byte> { if msgs == [] then [] else msgs[0] + Concat(msgs[1..]) }

  // Once the socket is ready, what waits is handed over at once.
  lemma FlushHandsOver(s: Stream, result: SocketResult)
    requires WaitingOk(s.waiting) && (result.Accepted? || result.Pending?)
    ensures Next(s, Flushed(result)) == Stream(s.handed + s.waiting, [])
  {
    SentWhere(Stream(s.handed, []), s.waiting, result);
  }

  // 256 octets are kept, and of a message that does not fit the part that does, with a marker behind.
  lemma RefusedIsKept(s: Stream, msg: seq<byte>)
    requires |s.waiting| <= 256
    ensures var w := Sent(s, msg, Failed).waiting;
            if |s.waiting| + |msg| <= 256 then w == s.waiting + msg
            else w == s.waiting + msg[..256 - |s.waiting|] + CUT_MSG
    ensures var marker := "<..data truncated..>\r\n";
            |CUT_MSG| == |marker| && forall i :: 0 <= i < |marker| ==> CUT_MSG[i] == marker[i] as int
  {
    assert s.waiting + [] == s.waiting;
  }
}
