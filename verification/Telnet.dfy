/**
 Option negotiation of a telnet session (RFC 854, "General Considerations").

 `OptionRules` holds the transitions of one option on one side, `Session` is the object that
 keeps the 256 options and writes the commands, `Network` joins two sessions by two FIFO
 channels and proves that they always agree when the channels run dry.
 */
module OptionRules {

  // State of one side (local or peer) of one option.
  datatype OptState = Disable | Enable | ExpectDisable | ExpectEnable | ExpectDisableRev | ExpectEnableRev

  // On stands for WILL (local side) or DO (peer side); Off for WONT or DONT.
  datatype Signal = On | Off

  datatype Move = Move(next: OptState, say: seq<Signal>)

  // The application asks for the option.
  function Ask(s: OptState): Move {
    match s
    case Enable => Move(Enable, [])
    case Disable => Move(ExpectEnable, [On])
    case ExpectEnable => Move(Disable, [])
    case ExpectDisable => Move(ExpectDisableRev, [])
    case ExpectEnableRev => Move(ExpectEnable, [])
    case ExpectDisableRev => Move(Disable, [])
  }

  // The other end asks for, or agrees to, the option.
  function HearOn(s: OptState, allowed: bool): Move {
    match s
    case Enable => Move(Enable, [])
    case Disable => if allowed then Move(Enable, [On]) else Move(Disable, [Off])
    case ExpectEnable => Move(Enable, [])
    case ExpectDisable => Move(Disable, [])
    case ExpectEnableRev => Move(ExpectDisable, [Off])
    case ExpectDisableRev => Move(ExpectDisable, [])
  }

  // The other end refuses or withdraws the option.
  function HearOff(s: OptState): Move {
    match s
    case Enable => Move(Disable, [Off])
    case Disable => Move(Disable, [])
    case ExpectEnable => Move(Disable, [])
    case ExpectDisable => Move(Disable, [])
    case ExpectEnableRev => Move(Disable, [Off])
    case ExpectDisableRev => Move(ExpectEnable, [On])
  }

  function Hear(s: OptState, allowed: bool, signal: Signal): Move {
    if signal.On? then HearOn(s, allowed) else HearOff(s)
  }

  // The states a session comes to.
  predicate Reached(s: OptState) { s.Disable? || s.Enable? || s.ExpectEnable? }

  // RFC 854 without the tables: the option is on afterwards exactly if the other end wants it and it is allowed or was
  // not off; and whoever did not ask and learns something new acknowledges it with the state that results.
  lemma Acknowledged(s: OptState, allowed: bool, signal: Signal)
    requires Reached(s)
    ensures var m := Hear(s, allowed, signal);
            && m.next == (if signal.On? && (allowed || !s.Disable?) then Enable else Disable)
            && m.say == if s.ExpectEnable? || s.Enable? == signal.On? then [] else [if m.next.Enable? then On else Off]
  {
  }

  // The three states a session never comes to expect a refusal, or hold a change of mind back until the answer: asked
  // once more, the change of mind is dropped or taken up, and nothing is sent; a refusal lets a held request go out;
  // agreement is withdrawn if that was held back.
  lemma HeldBack(s: OptState, allowed: bool)
    requires !Reached(s)
    ensures Ask(s) == Move(if s.ExpectDisable? then ExpectDisableRev else if s.ExpectEnableRev? then ExpectEnable else Disable, [])
    ensures HearOff(s).next == if s.ExpectDisableRev? then ExpectEnable else Disable
    ensures HearOff(s).say == if s.ExpectDisableRev? then [On] else if s.ExpectEnableRev? then [Off] else []
    ensures HearOn(s, allowed).next == if s.ExpectDisable? then Disable else ExpectDisable
    ensures HearOn(s, allowed).say == if s.ExpectEnableRev? then [Off] else []
  {
  }

  // Asking sends one request from the disabled state and nothing otherwise; asked again before the answer, the end
  // takes back what it expects, but not what it sent.
  lemma AskedTwice(s: OptState)
    requires Reached(s)
    ensures Ask(s).say == if s.Disable? then [On] else []
    ensures Ask(s).next == match s case Enable => Enable case Disable => ExpectEnable case _ => Disable
    ensures s.Disable? ==> Ask(Ask(s).next) == Move(Disable, [])
  {
  }
}

/**
 One lane: a single option seen from the two ends, one end's local side facing the other end's
 peer side.
 */
module OptionLane {
  import opened OptionRules

  datatype Lane = Lane(a: OptState, b: OptState, toA: seq<Signal>, toB: seq<Signal>)

  predicate EndsOff(q: seq<Signal>) { q != [] && q[|q| - 1].Off? }

  // One end's half of the invariant. `mine` writes to `out` and reads from `back`; `yours` and
  // `yourAllowed` belong to the other end. An end that is not disabled has said On last; and if
  // the other end has read all of that without being enabled, it has refused and the refusal is
  // still on its way back.
  predicate Half(mine: OptState, yours: OptState, yourAllowed: bool, out: seq<Signal>, back: seq<Signal>) {
    && Reached(mine)
    && (!mine.Disable? ==> !EndsOff(out))
    && (!mine.Disable? && !yours.Enable? && out == [] ==> !yourAllowed && Off in back)
  }

  predicate Inv(l: Lane, allowA: bool, allowB: bool) {
    && Half(l.a, l.b, allowB, l.toB, l.toA)
    && Half(l.b, l.a, allowA, l.toA, l.toB)
    && (allowA && allowB ==> Off !in l.toA && Off !in l.toB)
  }

  // Once asked for between two willing ends, the option cannot be forgotten.
  predicate Alive(l: Lane) { l != Lane(Disable, Disable, [], []) }

  function AskA(l: Lane): Lane { var m := Ask(l.a); l.(a := m.next, toB := l.toB + m.say) }

  function AskB(l: Lane): Lane { var m := Ask(l.b); l.(b := m.next, toA := l.toA + m.say) }

  function DeliverA(l: Lane, allowA: bool): Lane
    requires l.toA != []
  {
    var m := Hear(l.a, allowA, l.toA[0]);
    Lane(m.next, l.b, l.toA[1..], l.toB + m.say)
  }

  function DeliverB(l: Lane, allowB: bool): Lane
    requires l.toB != []
  {
    var m := Hear(l.b, allowB, l.toB[0]);
    Lane(l.a, m.next, l.toA + m.say, l.toB[1..])
  }

  // The lane with its two ends exchanged.
  function Mirror(l: Lane): Lane { Lane(l.b, l.a, l.toB, l.toA) }

  lemma AskKeepsInv(l: Lane, allowA: bool, allowB: bool)
    requires Inv(l, allowA, allowB)
    ensures Inv(AskA(l), allowA, allowB)
    ensures Inv(AskB(l), allowA, allowB)
    ensures allowA && allowB ==> Alive(AskA(l)) && Alive(AskB(l))
  {
  }

  lemma DeliverAKeepsInv(l: Lane, allowA: bool, allowB: bool)
    requires Inv(l, allowA, allowB) && l.toA != []
    ensures Inv(DeliverA(l, allowA), allowA, allowB)
    ensures allowA && allowB ==> Alive(DeliverA(l, allowA))
  {
    var rest := l.toA[1..];
    assert l.toA == [l.toA[0]] + rest;
    assert EndsOff(rest) ==> EndsOff(l.toA);
  }

  lemma DeliverBKeepsInv(l: Lane, allowA: bool, allowB: bool)
    requires Inv(l, allowA, allowB) && l.toB != []
    ensures Inv(DeliverB(l, allowB), allowA, allowB)
    ensures allowA && allowB ==> Alive(DeliverB(l, allowB))
  {
    DeliverAKeepsInv(Mirror(l), allowB, allowA);
  }

  // How much work a queued signal can still cause at the end that will read it.
  function Cost(q: seq<Signal>, onCost: nat): nat { multiset(q)[On] * onCost + multiset(q)[Off] }

  // Bounds the deliveries a lane can still see. Between two willing ends nothing is ever
  // withdrawn, so an end is enabled at most once; otherwise a refused On turns into an Off, and
  // an Off only disables.
  function Weight(l: Lane, allowA: bool, allowB: bool): nat {
    if allowA && allowB then
      |l.toA| + |l.toB| + (if l.a.Disable? then 1 else 0) + (if l.b.Disable? then 1 else 0)
    else
      (if allowA then Cost(l.toA, 4) else Cost(l.toA, 2)) + (if allowB then Cost(l.toB, 4) else Cost(l.toB, 2))
      + (if l.a.Enable? then 1 else 0) + (if l.b.Enable? then 1 else 0)
  }

  lemma CostPop(q: seq<Signal>, onCost: nat)
    requires q != []
    ensures Cost(q, onCost) == Cost(q[1..], onCost) + if q[0].On? then onCost else 1
  {
    assert q == [q[0]] + q[1..];
    assert multiset(q) == multiset{q[0]} + multiset(q[1..]);
    if q[0].On? {
      assert (multiset(q[1..])[On] + 1) * onCost == multiset(q[1..])[On] * onCost + onCost;
    }
  }

  lemma CostPush(q: seq<Signal>, x: Signal, onCost: nat)
    ensures Cost(q + [x], onCost) == Cost(q, onCost) + if x.On? then onCost else 1
  {
    if x.On? {
      assert (multiset(q)[On] + 1) * onCost == multiset(q)[On] * onCost + onCost;
    }
  }

  // Cost of the queue after one end has said what its rule says (at most one signal).
  lemma CostSay(q: seq<Signal>, s: OptState, allowed: bool, heard: Signal, onCost: nat)
    requires Reached(s)
    ensures var m := Hear(s, allowed, heard);
            && Reached(m.next)
            && Cost(q + m.say, onCost) == Cost(q, onCost) + if m.say == [] then 0 else if m.say[0].On? then onCost else 1
  {
    var m := Hear(s, allowed, heard);
    if m.say == [] {
      assert q + m.say == q;
    } else {
      assert m.say == [m.say[0]];
      CostPush(q, m.say[0], onCost);
    }
  }

  lemma DeliveryACosts(l: Lane, allowA: bool, allowB: bool)
    requires Inv(l, allowA, allowB) && l.toA != []
    ensures Weight(DeliverA(l, allowA), allowA, allowB) < Weight(l, allowA, allowB)
  {
    if allowA && allowB {
      assert l.toA[0].On?;
    } else {
      CostPop(l.toA, if allowA then 4 else 2);
      CostSay(l.toB, l.a, allowA, l.toA[0], if allowB then 4 else 2);
    }
  }

  lemma DeliveryBCosts(l: Lane, allowA: bool, allowB: bool)
    requires Inv(l, allowA, allowB) && l.toB != []
    ensures Weight(DeliverB(l, allowB), allowA, allowB) < Weight(l, allowA, allowB)
  {
    DeliveryACosts(Mirror(l), allowB, allowA);
  }
}

/** A session's 256 options, and the object that keeps them. */
module TelnetSession {
  import opened Bytes
  import opened OptionRules

  datatype Verb = Will | Wont | Do | Dont

  datatype Command = Command(verb: Verb, option: byte)

  datatype OptionEntry = OptionEntry(localAllowed: bool, peerAllowed: bool, localState: OptState, peerState: OptState)

  type OptionTable = t: seq<OptionEntry> | |t| == MAX_CLI_TELNET_OPTIONS
    witness seq(MAX_CLI_TELNET_OPTIONS, _ => OptionEntry(false, false, Disable, Disable))

  const MAX_CLI_TELNET_OPTIONS := 256
  const IAC: byte := 255

  function VerbCode(v: Verb): byte {
    match v case Will => 251 case Wont => 252 case Do => 253 case Dont => 254
  }

  // A side's signal as a verb: the local side says WILL or WONT, the peer side DO or DONT.
  function Say(isLocal: bool, s: Signal): Verb {
    if isLocal then (if s.On? then Will else Wont) else (if s.On? then Do else Dont)
  }

  predicate AboutSender(v: Verb) { v.Will? || v.Wont? }

  function SignalOf(v: Verb): Signal { if v.Will? || v.Do? then On else Off }

  function State(e: OptionEntry, isLocal: bool): OptState { if isLocal then e.localState else e.peerState }

  function Allowed(e: OptionEntry, isLocal: bool): bool { if isLocal then e.localAllowed else e.peerAllowed }

  function WithState(e: OptionEntry, isLocal: bool, s: OptState): OptionEntry {
    if isLocal then e.(localState := s) else e.(peerState := s)
  }

  function Said(isLocal: bool, option: byte, say: seq<Signal>): (cs: seq<Command>) {
    seq(|say|, i requires 0 <= i < |say| => Command(Say(isLocal, say[i]), option))
  }

  function Moved(t: OptionTable, isLocal: bool, option: byte, m: Move): OptionTable {
    t[option := WithState(t[option], isLocal, m.next)]
  }

  // What the table does when the application asks for an option.
  function AskMove(t: OptionTable, isLocal: bool, option: byte): Move { Ask(State(t[option], isLocal)) }

  // What it does when a command arrives: WILL and WONT are about the peer side, DO and DONT about
  // the local side.
  function HearMove(t: OptionTable, c: Command): Move {
    var isLocal := !AboutSender(c.verb);
    Hear(State(t[c.option], isLocal), Allowed(t[c.option], isLocal), SignalOf(c.verb))
  }

  // The three octets of each command.
  function Wire(cs: seq<Command>): seq<byte> {
    if cs == [] then [] else [IAC, VerbCode(cs[0].verb), cs[0].option] + Wire(cs[1..])
  }

  lemma {:induction false} WireAppend(a: seq<Command>, b: seq<Command>)
    ensures Wire(a + b) == Wire(a) + Wire(b)
  {
    if a == [] {
      assert a + b == b;
    } else {
      WireAppend(a[1..], b);
      assert (a + b)[1..] == a[1..] + b;
    }
  }

  // The same in octets: 251 to 254 are WILL, WONT, DO and DONT, and 255 announces them.

  predicate AboutReceiver(v: Verb) { v.Do? || v.Dont? }

  predicate Wanted(v: Verb) { v.Do? || v.Will? }

  // The entry afterwards: DO and DONT concern the local side, WILL and WONT the peer side.
  function Settled(e: OptionEntry, v: Verb): OptionEntry {
    if AboutReceiver(v) then e.(localState := if Wanted(v) && (e.localAllowed || !e.localState.Disable?) then Enable else Disable)
    else e.(peerState := if Wanted(v) && (e.peerAllowed || !e.peerState.Disable?) then Enable else Disable)
  }

  // DO and DONT are answered by WILL and WONT, and the other way round, by what has become of the option.
  function Acknowledgement(e: OptionEntry, c: Command): seq<byte> {
    var was := if AboutReceiver(c.verb) then e.localState else e.peerState;
    if was.ExpectEnable? || was.Enable? == Wanted(c.verb) then []
    else if AboutReceiver(c.verb) then [255, if Settled(e, c.verb).localState.Enable? then 251 else 252, c.option]
    else [255, if Settled(e, c.verb).peerState.Enable? then 253 else 254, c.option]
  }

  lemma CommandAcknowledged(t: OptionTable, c: Command)
    requires Reached(State(t[c.option], AboutReceiver(c.verb)))
    ensures var m := HearMove(t, c);
            && Moved(t, !AboutSender(c.verb), c.option, m) == t[c.option := Settled(t[c.option], c.verb)]
            && Wire(Said(!AboutSender(c.verb), c.option, m.say)) == Acknowledgement(t[c.option], c)
  {
    var isLocal := AboutReceiver(c.verb);
    Acknowledged(State(t[c.option], isLocal), Allowed(t[c.option], isLocal), SignalOf(c.verb));
    SaidOne(isLocal, c.option);
    OneOnWire(Command(Say(isLocal, On), c.option));
    OneOnWire(Command(Say(isLocal, Off), c.option));
  }

  lemma OneOnWire(c: Command)
    ensures Wire([c]) == [255, match c.verb case Will => 251 case Wont => 252 case Do => 253 case Dont => 254, c.option]
    ensures Wire([]) == []
  {
    assert [c][1..] == [] && Wire([]) == [];
  }

  // A request in octets: 251 asks to use the option here, 253 asks the other end to.
  lemma RequestOctets(t: OptionTable, isLocal: bool, option: byte)
    requires Reached(State(t[option], isLocal))
    ensures Wire(Said(isLocal, option, AskMove(t, isLocal, option).say))
         == if State(t[option], isLocal).Disable? then [255, if isLocal then 251 else 253, option] else []
  {
    AskedTwice(State(t[option], isLocal));
    SaidOne(isLocal, option);
    OneOnWire(Command(Say(isLocal, On), option));
  }

  datatype ParseState = StNormal | StCr | StEsc | StVt100 | StIac | StVerb(verb: Verb)

  datatype Heard = Heard(state: ParseState, commands: seq<Command>)

  // What one octet does to the input parser. `room` is whether recv_buf_insert took it; the line
  // editing it may cause is left to the caller.
  function Parse(st: ParseState, c: byte, room: bool): Heard {
    match st
    case StNormal =>
      if c == IAC then Heard(StIac, [])
      else if c == 27 then Heard(StEsc, [])
      else if c == 13 && room then Heard(StCr, [])
      else Heard(StNormal, [])
    case StCr => Heard(StNormal, [])
    case StEsc => Heard(if c == 91 then StVt100 else StNormal, [])
    case StVt100 => Heard(StNormal, [])
    case StIac =>
      if c == VerbCode(Do) then Heard(StVerb(Do), [])
      else if c == VerbCode(Dont) then Heard(StVerb(Dont), [])
      else if c == VerbCode(Will) then Heard(StVerb(Will), [])
      else if c == VerbCode(Wont) then Heard(StVerb(Wont), [])
      else Heard(StNormal, [])
    case StVerb(verb) => Heard(StNormal, [Command(verb, c)])
  }

  function ParseAll(st: ParseState, s: seq<byte>, room: bool): Heard
    decreases |s|
  {
    if s == [] then Heard(st, [])
    else
      var h := Parse(st, s[0], room);
      var rest := ParseAll(h.state, s[1..], room);
      Heard(rest.state, h.commands + rest.commands)
  }

  // Commands survive the wire: what one end writes, the other end's parser hands on.
  lemma {:induction false} ParseWire(cs: seq<Command>, room: bool)
    ensures ParseAll(StNormal, Wire(cs), room) == Heard(StNormal, cs)
  {
    if cs != [] {
      var w, tail := Wire(cs), Wire(cs[1..]);
      assert w[1..] == [VerbCode(cs[0].verb), cs[0].option] + tail;
      assert w[2..] == [cs[0].option] + tail;
      assert w[3..] == tail;
      assert w[1..][1..] == w[2..] && w[2..][1..] == w[3..];
      ParseWire(cs[1..], room);
      assert ParseAll(StVerb(cs[0].verb), w[2..], room) == Heard(StNormal, [cs[0]] + cs[1..]);
      assert cs == [cs[0]] + cs[1..];
    }
  }

  // But only from the normal state: a command right behind a carriage return, an escape or another
  // unfinished sequence is lost or misread.
  lemma ParseWireOnlyFromNormal(st: ParseState, c: Command, room: bool)
    ensures ParseAll(st, Wire([c]), room) == Heard(StNormal, [c]) <==> st == StNormal
  {
    assert Wire([c]) == [IAC, VerbCode(c.verb), c.option];
    if st == StNormal {
      ParseWire([c], room);
    } else {
      var w := Wire([c]);
      var h1 := Parse(st, w[0], room);
      var h2 := Parse(h1.state, w[1], room);
      var h3 := Parse(h2.state, w[2], room);
      assert w[1..][1..] == [w[2]] && [w[2]][1..] == [];
      assert ParseAll(h2.state, [w[2]], room) == Heard(h3.state, h3.commands + []);
      assert ParseAll(h1.state, w[1..], room) == Heard(h3.state, h2.commands + (h3.commands + []));
    }
  }

  class Session {
    const options: array<OptionEntry>
    var parseState: ParseState
    // Octets handed to telnet_sess_send2.
    var sent: seq<byte>

    ghost predicate Valid() reads this { options.Length == MAX_CLI_TELNET_OPTIONS }

    ghost function Table(): OptionTable
      requires Valid()
      reads this, options
    {
      options[..]
    }

    // A new session: every option disabled and forbidden, as pj_memset leaves it.
    constructor ()
      ensures Valid() && fresh(options) && sent == [] && parseState == StNormal
      ensures forall i :: 0 <= i < MAX_CLI_TELNET_OPTIONS ==> Table()[i] == OptionEntry(false, false, Disable, Disable)
    {
      options := new OptionEntry[MAX_CLI_TELNET_OPTIONS](_ => OptionEntry(false, false, Disable, Disable));
      sent := [];
      parseState := StNormal;
    }

    method SetLocalOption(option: byte, allowed: bool)
      requires Valid()
      modifies options
      ensures Table() == old(Table())[option := old(Table())[option].(localAllowed := allowed)]
    {
      options[option] := options[option].(localAllowed := allowed);
    }

    method SetPeerOption(option: byte, allowed: bool)
      requires Valid()
      modifies options
      ensures Table() == old(Table())[option := old(Table())[option].(peerAllowed := allowed)]
    {
      options[option] := options[option].(peerAllowed := allowed);
    }

    method SendTelnetCmd(verb: Verb, option: byte)
      modifies `sent
      ensures sent == old(sent) + Wire([Command(verb, option)])
    {
      sent := sent + [IAC, VerbCode(verb), option];
    }

    method SendEnableOption(isLocal: bool, option: byte)
      requires Valid()
      modifies `sent, options
      ensures var m := AskMove(old(Table()), isLocal, option);
              && Table() == Moved(old(Table()), isLocal, option, m)
              && sent == old(sent) + Wire(Said(isLocal, option, m.say))
    {
      var entry := options[option];
      match State(entry, isLocal) {
        case Enable =>
        case Disable =>
          options[option] := WithState(entry, isLocal, ExpectEnable);
          SendTelnetCmd(if isLocal then Will else Do, option);
        case ExpectEnable =>
          options[option] := WithState(entry, isLocal, Disable);
        case ExpectDisable =>
          options[option] := WithState(entry, isLocal, ExpectDisableRev);
        case ExpectEnableRev =>
          options[option] := WithState(entry, isLocal, ExpectEnable);
        case ExpectDisableRev =>
          options[option] := WithState(entry, isLocal, Disable);
      }
      SaidOne(isLocal, option);
    }

    method ReceiveEnableOption(isLocal: bool, option: byte)
      requires Valid()
      modifies `sent, options
      ensures var m := HearMove(old(Table()), Command(if isLocal then Do else Will, option));
              && Table() == Moved(old(Table()), isLocal, option, m)
              && sent == old(sent) + Wire(Said(isLocal, option, m.say))
    {
      var entry := options[option];
      var allowed := if isLocal then entry.localAllowed else entry.peerAllowed;
      match State(entry, isLocal) {
        case Enable =>
        case Disable =>
          if allowed {
            options[option] := WithState(entry, isLocal, Enable);
            SendTelnetCmd(if isLocal then Will else Do, option);
          } else {
            SendTelnetCmd(if isLocal then Wont else Dont, option);
          }
        case ExpectEnable =>
          options[option] := WithState(entry, isLocal, Enable);
        case ExpectDisable =>
          options[option] := WithState(entry, isLocal, Disable);
        case ExpectEnableRev =>
          options[option] := WithState(entry, isLocal, ExpectDisable);
          SendTelnetCmd(if isLocal then Wont else Dont, option);
        case ExpectDisableRev =>
          options[option] := WithState(entry, isLocal, ExpectDisable);
      }
      SaidOne(isLocal, option);
    }

    method ReceiveDisableOption(isLocal: bool, option: byte)
      requires Valid()
      modifies `sent, options
      ensures var m := HearMove(old(Table()), Command(if isLocal then Dont else Wont, option));
              && Table() == Moved(old(Table()), isLocal, option, m)
              && sent == old(sent) + Wire(Said(isLocal, option, m.say))
    {
      var entry := options[option];
      match State(entry, isLocal) {
        case Enable =>
          options[option] := WithState(entry, isLocal, Disable);
          SendTelnetCmd(if isLocal then Wont else Dont, option);
        case Disable =>
        case ExpectEnable =>
          options[option] := WithState(entry, isLocal, Disable);
        case ExpectDisable =>
          options[option] := WithState(entry, isLocal, Disable);
        case ExpectEnableRev =>
          options[option] := WithState(entry, isLocal, Disable);
          SendTelnetCmd(if isLocal then Wont else Dont, option);
        case ExpectDisableRev =>
          options[option] := WithState(entry, isLocal, ExpectEnable);
          SendTelnetCmd(if isLocal then Will else Do, option);
      }
      SaidOne(isLocal, option);
    }

    // receive_do, receive_dont, receive_will and receive_wont.
    method Receive(c: Command)
      requires Valid()
      modifies `sent, options
      ensures Reached(State(old(Table())[c.option], AboutReceiver(c.verb))) ==>
                && Table() == old(Table())[c.option := Settled(old(Table())[c.option], c.verb)]
                && sent == old(sent) + Acknowledgement(old(Table())[c.option], c)
      ensures var m := HearMove(old(Table()), c);
              && Table() == Moved(old(Table()), !AboutSender(c.verb), c.option, m)
              && sent == old(sent) + Wire(Said(!AboutSender(c.verb), c.option, m.say))
    {
      if Reached(State(Table()[c.option], AboutReceiver(c.verb))) {
        CommandAcknowledged(Table(), c);
      }
      match c.verb {
        case Do => ReceiveEnableOption(true, c.option);
        case Dont => ReceiveDisableOption(true, c.option);
        case Will => ReceiveEnableOption(false, c.option);
        case Wont => ReceiveDisableOption(false, c.option);
      }
    }

    // The negotiation half of telnet_sess_on_data_read.
    method OnDataRead(c: byte, room: bool)
      requires Valid()
      modifies `sent, `parseState, options
      ensures var h := Parse(old(parseState), c, room);
              && parseState == h.state
              && (h.commands == [] ==> Table() == old(Table()) && sent == old(sent))
              && (h.commands != [] ==>
                    var m := HearMove(old(Table()), h.commands[0]);
                    var isLocal := !AboutSender(h.commands[0].verb);
                    && |h.commands| == 1
                    && Table() == Moved(old(Table()), isLocal, c, m)
                    && sent == old(sent) + Wire(Said(isLocal, c, m.say)))
    {
      match parseState {
        case StNormal =>
          if c == IAC {
            parseState := StIac;
          } else if c == 27 {
            parseState := StEsc;
          } else if c == 13 && room {
            parseState := StCr;
          }
        case StCr =>
          parseState := StNormal;
        case StEsc =>
          parseState := if c == 91 then StVt100 else StNormal;
        case StVt100 =>
          parseState := StNormal;
        case StIac =>
          if c == VerbCode(Do) {
            parseState := StVerb(Do);
          } else if c == VerbCode(Dont) {
            parseState := StVerb(Dont);
          } else if c == VerbCode(Will) {
            parseState := StVerb(Will);
          } else if c == VerbCode(Wont) {
            parseState := StVerb(Wont);
          } else {
            parseState := StNormal;
          }
        case StVerb(verb) =>
          Receive(Command(verb, c));
          parseState := StNormal;
      }
    }
  }

  // The only things a rule ever says.
  lemma SaidOne(isLocal: bool, option: byte)
    ensures Said(isLocal, option, []) == []
    ensures Said(isLocal, option, [On]) == [Command(Say(isLocal, On), option)]
    ensures Said(isLocal, option, [Off]) == [Command(Say(isLocal, Off), option)]
  {
  }
}

/**
 Two sessions joined by two FIFO channels, all 512 lanes multiplexed on them.
 */
module TelnetNetwork {
  import opened Bytes
  import opened OptionRules
  import opened OptionLane
  import opened TelnetSession

  datatype Net = Net(a: OptionTable, b: OptionTable, toA: seq<Command>, toB: seq<Command>)

  datatype Action = AAsks(isLocal: bool, option: byte) | BAsks(isLocal: bool, option: byte) | AReads | BReads

  predicate Possible(n: Net, act: Action) {
    && (act.AReads? ==> n.toA != [])
    && (act.BReads? ==> n.toB != [])
  }

  function Step(n: Net, act: Action): Net
    requires Possible(n, act)
  {
    match act
    case AAsks(isLocal, o) =>
      var m := AskMove(n.a, isLocal, o);
      n.(a := Moved(n.a, isLocal, o, m), toB := n.toB + Said(isLocal, o, m.say))
    case BAsks(isLocal, o) =>
      var m := AskMove(n.b, isLocal, o);
      n.(b := Moved(n.b, isLocal, o, m), toA := n.toA + Said(isLocal, o, m.say))
    case AReads =>
      var c := n.toA[0];
      var m := HearMove(n.a, c);
      Net(Moved(n.a, !AboutSender(c.verb), c.option, m), n.b, n.toA[1..], n.toB + Said(!AboutSender(c.verb), c.option, m.say))
    case BReads =>
      var c := n.toB[0];
      var m := HearMove(n.b, c);
      Net(n.a, Moved(n.b, !AboutSender(c.verb), c.option, m), n.toA + Said(!AboutSender(c.verb), c.option, m.say), n.toB[1..])
  }

  predicate CanRun(n: Net, acts: seq<Action>)
    decreases |acts|
  {
    acts == [] || (Possible(n, acts[0]) && CanRun(Step(n, acts[0]), acts[1..]))
  }

  function Run(n: Net, acts: seq<Action>): Net
    requires CanRun(n, acts)
    decreases |acts|
  {
    if acts == [] then n else Run(Step(n, acts[0]), acts[1..])
  }

  // The signal a command carries for option `o`; `aboutSender` picks WILL and WONT, or DO and DONT.
  function Pick(c: Command, o: byte, aboutSender: bool): seq<Signal> {
    if c.option == o && AboutSender(c.verb) == aboutSender then [SignalOf(c.verb)] else []
  }

  function Only(q: seq<Command>, o: byte, aboutSender: bool): seq<Signal> {
    if q == [] then [] else Pick(q[0], o, aboutSender) + Only(q[1..], o, aboutSender)
  }

  // The lane of option `o` in which A plays its local side (or its peer side) and B the other.
  function LaneOf(n: Net, o: byte, aLocal: bool): Lane {
    Lane(State(n.a[o], aLocal), State(n.b[o], !aLocal), Only(n.toA, o, !aLocal), Only(n.toB, o, aLocal))
  }

  predicate Fresh(n: Net) {
    && n.toA == [] && n.toB == []
    && (forall o: byte :: n.a[o].localState.Disable? && n.a[o].peerState.Disable?)
    && (forall o: byte :: n.b[o].localState.Disable? && n.b[o].peerState.Disable?)
  }

  ghost predicate NetInv(n: Net) {
    forall o: byte, aLocal: bool :: LaneInv(n, o, aLocal)
  }

  predicate LaneInv(n: Net, o: byte, aLocal: bool) {
    Inv(LaneOf(n, o, aLocal), Allowed(n.a[o], aLocal), Allowed(n.b[o], !aLocal))
  }

  lemma {:induction false} OnlyAppend(q: seq<Command>, r: seq<Command>, o: byte, aboutSender: bool)
    ensures Only(q + r, o, aboutSender) == Only(q, o, aboutSender) + Only(r, o, aboutSender)
  {
    if q == [] {
      assert q + r == r;
    } else {
      var head := Pick(q[0], o, aboutSender);
      var x, y := Only(q[1..], o, aboutSender), Only(r, o, aboutSender);
      assert (q + r)[0] == q[0] && (q + r)[1..] == q[1..] + r;
      calc {
        Only(q + r, o, aboutSender);
        head + Only(q[1..] + r, o, aboutSender);
        { OnlyAppend(q[1..], r, o, aboutSender); }
        head + (x + y);
        (head + x) + y;
        Only(q, o, aboutSender) + y;
      }
    }
  }

  lemma OnlySaid(isLocal: bool, option: byte, say: seq<Signal>, o: byte, aboutSender: bool)
    requires |say| <= 1
    ensures Only(Said(isLocal, option, say), o, aboutSender) == if o == option && isLocal == aboutSender then say else []
  {
    SaidOne(isLocal, option);
    if say != [] {
      assert say == [say[0]];
      assert Said(isLocal, option, say) == [Command(Say(isLocal, say[0]), option)];
    }
  }

  // Which lane an action belongs to, and what the lane does there.
  predicate Touches(n: Net, act: Action, o: byte, aLocal: bool)
    requires Possible(n, act)
  {
    match act
    case AAsks(isLocal, option) => option == o && isLocal == aLocal
    case BAsks(isLocal, option) => option == o && isLocal == !aLocal
    case AReads => n.toA[0].option == o && AboutSender(n.toA[0].verb) == !aLocal
    case BReads => n.toB[0].option == o && AboutSender(n.toB[0].verb) == aLocal
  }

  function LaneStep(l: Lane, act: Action, allowA: bool, allowB: bool): Lane {
    match act
    case AAsks(_, _) => AskA(l)
    case BAsks(_, _) => AskB(l)
    case AReads => if l.toA == [] then l else DeliverA(l, allowA)
    case BReads => if l.toB == [] then l else DeliverB(l, allowB)
  }

  // The network with its two ends exchanged.
  function Flip(n: Net): Net { Net(n.b, n.a, n.toB, n.toA) }

  function FlipAction(act: Action): Action {
    match act
    case AAsks(isLocal, o) => BAsks(isLocal, o)
    case BAsks(isLocal, o) => AAsks(isLocal, o)
    case AReads => BReads
    case BReads => AReads
  }

  lemma AAsksMovesOneLane(n: Net, act: Action, o: byte, aLocal: bool)
    requires act.AAsks?
    ensures LaneOf(Step(n, act), o, aLocal)
            == if Touches(n, act, o, aLocal) then AskA(LaneOf(n, o, aLocal)) else LaneOf(n, o, aLocal)
  {
    var m := AskMove(n.a, act.isLocal, act.option);
    OnlyAppend(n.toB, Said(act.isLocal, act.option, m.say), o, aLocal);
    OnlySaid(act.isLocal, act.option, m.say, o, aLocal);
  }

  lemma AReadsMovesOneLane(n: Net, o: byte, aLocal: bool)
    requires n.toA != []
    ensures var l := LaneOf(n, o, aLocal);
            if Touches(n, AReads, o, aLocal)
            then l.toA != [] && LaneOf(Step(n, AReads), o, aLocal) == DeliverA(l, Allowed(n.a[o], aLocal))
            else LaneOf(Step(n, AReads), o, aLocal) == l
  {
    var c := n.toA[0];
    var isLocal := !AboutSender(c.verb);
    var m := HearMove(n.a, c);
    OnlyAppend(n.toB, Said(isLocal, c.option, m.say), o, aLocal);
    OnlySaid(isLocal, c.option, m.say, o, aLocal);
    var rest := Only(n.toA[1..], o, !aLocal);
    assert Only(n.toA, o, !aLocal) == Pick(c, o, !aLocal) + rest;
    if Touches(n, AReads, o, aLocal) {
      assert ([SignalOf(c.verb)] + rest)[1..] == rest;
    }
  }

  // Every action moves exactly the lane it touches, and never changes what is allowed.
  lemma StepMovesOneLane(n: Net, act: Action, o: byte, aLocal: bool)
    requires Possible(n, act)
    ensures var l := LaneOf(n, o, aLocal);
            LaneOf(Step(n, act), o, aLocal)
            == if Touches(n, act, o, aLocal) then LaneStep(l, act, Allowed(n.a[o], aLocal), Allowed(n.b[o], !aLocal)) else l
    ensures Touches(n, act, o, aLocal) && act.AReads? ==> LaneOf(n, o, aLocal).toA != []
    ensures Touches(n, act, o, aLocal) && act.BReads? ==> LaneOf(n, o, aLocal).toB != []
  {
    match act {
      case AAsks(_, _) => AAsksMovesOneLane(n, act, o, aLocal);
      case AReads => AReadsMovesOneLane(n, o, aLocal);
      case BAsks(_, _) =>
        assert Step(n, act) == Flip(Step(Flip(n), FlipAction(act)));
        AAsksMovesOneLane(Flip(n), FlipAction(act), o, !aLocal);
      case BReads =>
        assert Step(n, act) == Flip(Step(Flip(n), AReads));
        AReadsMovesOneLane(Flip(n), o, !aLocal);
    }
  }

  lemma AllowedIsFixed(n: Net, act: Action, o: byte, isLocal: bool)
    requires Possible(n, act)
    ensures Allowed(Step(n, act).a[o], isLocal) == Allowed(n.a[o], isLocal)
    ensures Allowed(Step(n, act).b[o], isLocal) == Allowed(n.b[o], isLocal)
  {
  }

  lemma LaneStepKeepsInv(n: Net, act: Action, o: byte, aLocal: bool)
    requires Possible(n, act) && LaneInv(n, o, aLocal)
    ensures LaneInv(Step(n, act), o, aLocal)
    ensures Touches(n, act, o, aLocal) && Allowed(n.a[o], aLocal) && Allowed(n.b[o], !aLocal) ==> Alive(LaneOf(Step(n, act), o, aLocal))
  {
    var l, allowA, allowB := LaneOf(n, o, aLocal), Allowed(n.a[o], aLocal), Allowed(n.b[o], !aLocal);
    StepMovesOneLane(n, act, o, aLocal);
    AllowedIsFixed(n, act, o, aLocal);
    AllowedIsFixed(n, act, o, !aLocal);
    AskKeepsInv(l, allowA, allowB);
    if l.toA != [] { DeliverAKeepsInv(l, allowA, allowB); }
    if l.toB != [] { DeliverBKeepsInv(l, allowA, allowB); }
  }

  lemma StepKeepsInv(n: Net, act: Action)
    requires NetInv(n) && Possible(n, act)
    ensures NetInv(Step(n, act))
  {
    forall o: byte, aLocal: bool ensures LaneInv(Step(n, act), o, aLocal) {
      assert LaneInv(n, o, aLocal);
      LaneStepKeepsInv(n, act, o, aLocal);
    }
  }

  lemma {:induction false} RunKeepsInv(n: Net, acts: seq<Action>)
    requires NetInv(n) && CanRun(n, acts)
    ensures NetInv(Run(n, acts))
    decreases |acts|
  {
    if acts != [] {
      StepKeepsInv(n, acts[0]);
      RunKeepsInv(Step(n, acts[0]), acts[1..]);
    }
  }

  lemma FreshInv(n: Net)
    requires Fresh(n)
    ensures NetInv(n)
  {
  }

  // Main result: whatever the two applications asked for and however reading interleaved, when
  // nothing is in flight both ends hold the same settled state for every option.
  lemma QuietMeansAgreed(start: Net, acts: seq<Action>, o: byte)
    requires Fresh(start) && CanRun(start, acts)
    ensures var n := Run(start, acts);
            n.toA == [] && n.toB == [] ==>
              && n.a[o].localState == n.b[o].peerState
              && n.b[o].localState == n.a[o].peerState
              && (n.a[o].localState.Enable? || n.a[o].localState.Disable?)
              && (n.b[o].localState.Enable? || n.b[o].localState.Disable?)
  {
    FreshInv(start);
    RunKeepsInv(start, acts);
    var n := Run(start, acts);
    assert LaneInv(n, o, true) && LaneInv(n, o, false);
  }

  // Somebody asks for option `o` on this lane.
  predicate Asks(act: Action, o: byte, aLocal: bool) {
    || (act.AAsks? && act.option == o && act.isLocal == aLocal)
    || (act.BAsks? && act.option == o && act.isLocal == !aLocal)
  }

  predicate BothAllow(n: Net, o: byte, aLocal: bool) { Allowed(n.a[o], aLocal) && Allowed(n.b[o], !aLocal) }

  lemma {:induction false} AskedStaysAlive(n: Net, acts: seq<Action>, o: byte, aLocal: bool)
    requires LaneInv(n, o, aLocal) && CanRun(n, acts) && BothAllow(n, o, aLocal)
    requires Alive(LaneOf(n, o, aLocal)) || exists i :: 0 <= i < |acts| && Asks(acts[i], o, aLocal)
    ensures Alive(LaneOf(Run(n, acts), o, aLocal))
    decreases |acts|
  {
    if acts != [] {
      var n' := Step(n, acts[0]);
      LaneStepKeepsInv(n, acts[0], o, aLocal);
      StepMovesOneLane(n, acts[0], o, aLocal);
      AllowedIsFixed(n, acts[0], o, aLocal);
      AllowedIsFixed(n, acts[0], o, !aLocal);
      if i :| 0 <= i < |acts| && Asks(acts[i], o, aLocal) {
        assert i > 0 ==> acts[1..][i - 1] == acts[i];
      }
      AskedStaysAlive(n', acts[1..], o, aLocal);
    }
  }

  // If both ends allow an option and either ever asked for it, it is enabled when all is quiet.
  lemma WillingEndsEnable(start: Net, acts: seq<Action>, o: byte, aLocal: bool)
    requires Fresh(start) && CanRun(start, acts) && BothAllow(start, o, aLocal)
    requires exists i :: 0 <= i < |acts| && Asks(acts[i], o, aLocal)
    ensures var n := Run(start, acts);
            n.toA == [] && n.toB == [] ==> State(n.a[o], aLocal).Enable? && State(n.b[o], !aLocal).Enable?
  {
    AskedStaysAlive(start, acts, o, aLocal);
    QuietMeansAgreed(start, acts, o);
  }

  function LaneWeight(n: Net, o: byte, aLocal: bool): nat {
    Weight(LaneOf(n, o, aLocal), Allowed(n.a[o], aLocal), Allowed(n.b[o], !aLocal))
  }

  function Sum(f: byte -> nat, k: nat): nat
    requires k <= MAX_CLI_TELNET_OPTIONS
  {
    if k == 0 then 0 else Sum(f, k - 1) + f(k - 1)
  }

  function OptionWeight(n: Net, o: byte): nat { LaneWeight(n, o, true) + LaneWeight(n, o, false) }

  // Work left in all the lanes.
  function Work(n: Net): nat { Sum(o => OptionWeight(n, o), |n.a|) }

  lemma {:induction false} SumShrinks(f: byte -> nat, g: byte -> nat, k: nat, j: byte)
    requires k <= MAX_CLI_TELNET_OPTIONS
    requires forall i: byte :: g(i) <= f(i)
    requires g(j) < f(j)
    ensures Sum(g, k) <= Sum(f, k)
    ensures j < k ==> Sum(g, k) < Sum(f, k)
  {
    if k > 0 {
      SumShrinks(f, g, k - 1, j);
    }
  }

  lemma LaneStepShrinks(l: Lane, act: Action, allowA: bool, allowB: bool)
    requires Inv(l, allowA, allowB)
    requires (act.AReads? && l.toA != []) || (act.BReads? && l.toB != [])
    ensures Weight(LaneStep(l, act, allowA, allowB), allowA, allowB) < Weight(l, allowA, allowB)
  {
    if act.AReads? {
      DeliveryACosts(l, allowA, allowB);
    } else {
      DeliveryBCosts(l, allowA, allowB);
    }
  }

  lemma LaneReadShrinks(n: Net, act: Action, o: byte, aLocal: bool)
    requires LaneInv(n, o, aLocal) && Possible(n, act) && (act.AReads? || act.BReads?)
    ensures LaneWeight(Step(n, act), o, aLocal) <= LaneWeight(n, o, aLocal)
    ensures Touches(n, act, o, aLocal) ==> LaneWeight(Step(n, act), o, aLocal) < LaneWeight(n, o, aLocal)
  {
    StepMovesOneLane(n, act, o, aLocal);
    AllowedIsFixed(n, act, o, aLocal);
    AllowedIsFixed(n, act, o, !aLocal);
    if Touches(n, act, o, aLocal) {
      LaneStepShrinks(LaneOf(n, o, aLocal), act, Allowed(n.a[o], aLocal), Allowed(n.b[o], !aLocal));
    }
  }

  lemma OptionReadShrinks(n: Net, act: Action, o: byte)
    requires NetInv(n) && Possible(n, act) && (act.AReads? || act.BReads?)
    ensures OptionWeight(Step(n, act), o) <= OptionWeight(n, o)
    ensures o == (if act.AReads? then n.toA[0] else n.toB[0]).option ==> OptionWeight(Step(n, act), o) < OptionWeight(n, o)
  {
    assert LaneInv(n, o, true) && LaneInv(n, o, false);
    LaneReadShrinks(n, act, o, true);
    LaneReadShrinks(n, act, o, false);
    assert o == (if act.AReads? then n.toA[0] else n.toB[0]).option ==> Touches(n, act, o, true) || Touches(n, act, o, false);
  }

  lemma ReadShrinks(n: Net, act: Action)
    requires NetInv(n) && Possible(n, act) && (act.AReads? || act.BReads?)
    ensures Work(Step(n, act)) < Work(n)
  {
    var n' := Step(n, act);
    forall o: byte ensures OptionWeight(n', o) <= OptionWeight(n, o) {
      OptionReadShrinks(n, act, o);
    }
    var c := if act.AReads? then n.toA[0] else n.toB[0];
    OptionReadShrinks(n, act, c.option);
    SumShrinks(o => OptionWeight(n, o), o => OptionWeight(n', o), |n.a|, c.option);
  }

  predicate IsRead(act: Action) { act.AReads? || act.BReads? }

  lemma ReadProgress(n: Net, act: Action)
    requires NetInv(n) && Possible(n, act) && IsRead(act)
    ensures NetInv(Step(n, act)) && Work(Step(n, act)) < Work(n)
  {
    StepKeepsInv(n, act);
    ReadShrinks(n, act);
  }

  lemma {:induction false} ReadsAreBounded(n: Net, tail: seq<Action>)
    requires NetInv(n) && CanRun(n, tail)
    requires forall x :: x in tail ==> IsRead(x)
    ensures |tail| <= Work(n)
    decreases |tail|
  {
    if tail != [] {
      var first, rest := tail[0], tail[1..];
      assert IsRead(first);
      var n' := Step(n, first);
      ReadProgress(n, first);
      ReadsAreBounded(n', rest);
    }
  }

  // Main result: once the applications stop asking, only boundedly many commands are exchanged.
  lemma NegotiationEnds(start: Net, acts: seq<Action>, tail: seq<Action>)
    requires Fresh(start) && CanRun(start, acts) && CanRun(Run(start, acts), tail)
    requires forall x :: x in tail ==> IsRead(x)
    ensures |tail| <= Work(Run(start, acts))
  {
    FreshInv(start);
    RunKeepsInv(start, acts);
    ReadsAreBounded(Run(start, acts), tail);
  }
}
