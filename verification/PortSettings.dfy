/**
 * Line settings and the COM-PORT-OPTION commands (RFC 2217) that relay them: only what
 * changed is sent, and what is sent rebuilds the settings exactly.
 */
module PortSettings {
  import opened Common
  import opened TelnetFraming
  import opened TelnetNegotiation
  import opened TelnetCodec

  datatype Settings = Settings(baud: uint32, dataBits: byte, parity: byte, stopBits: byte, flow: byte)

  /** The values a termios can be read as; only the baud rate may be 0. */
  predicate FromTermios(s: Settings) {
    5 <= s.dataBits <= 8 && 1 <= s.parity <= 3 && 1 <= s.stopBits <= 2 && 1 <= s.flow <= 3
  }

  lemma BigEndianDigits(v: int)
    requires 0 <= v < 0x1_0000_0000
    ensures v == v / 0x100_0000 * 0x100_0000 + v / 0x1_0000 % 0x100 * 0x1_0000 + v / 0x100 % 0x100 * 0x100 + v % 0x100
    ensures v / 0x100_0000 < 0x100
  {
    var high, low := v / 0x1_0000, v % 0x1_0000;
    assert v / 0x100 == high * 0x100 + low / 0x100;
    assert v / 0x100_0000 == high / 0x100;
  }

  function ToBigEndian(v: uint32): (p: seq<byte>)
    ensures |p| == 4 && FromBigEndian(p) == v
  {
    BigEndianDigits(v as int);
    [(v / 0x100_0000) as byte, (v / 0x1_0000 % 0x100) as byte, (v / 0x100 % 0x100) as byte, (v % 0x100) as byte]
  }

  // ── the commands ────────────────────────────────────────────────────────

  function ComPortPayload(cmd: byte, params: seq<byte>): seq<byte> {
    [OPT_COM_PORT, cmd] + params
  }

  /** The subnegotiation payloads that turn `old` into `new`. */
  function Changes(before: Settings, after: Settings): seq<seq<byte>> {
    (if after.baud != before.baud then [ComPortPayload(SET_BAUDRATE, ToBigEndian(after.baud))] else [])
    + (if after.dataBits != before.dataBits then [ComPortPayload(SET_DATASIZE, [after.dataBits])] else [])
    + (if after.parity != before.parity then [ComPortPayload(SET_PARITY, [after.parity])] else [])
    + (if after.stopBits != before.stopBits then [ComPortPayload(SET_STOPSIZE, [after.stopBits])] else [])
    + (if after.flow != before.flow then [ComPortPayload(SET_CONTROL, [after.flow])] else [])
  }

  function Framed(payload: seq<byte>): seq<byte> {
    Encode(Subneg(payload))
  }

  function FramedAll(payloads: seq<seq<byte>>): seq<byte> {
    FlatMap(Framed, payloads)
  }

  method SubnegBytes(cmd: byte, params: seq<byte>) returns (out: seq<byte>)
    requires cmd != IAC
    ensures out == Framed(ComPortPayload(cmd, params))
  {
    out := [IAC, SB, OPT_COM_PORT, cmd];
    var body := Escape(params);
    out := out + body;
    out := out + [IAC, SE];
    FlatMapCons(EscapeByte, cmd, params);
    FlatMapCons(EscapeByte, OPT_COM_PORT, [cmd] + params);
    assert [OPT_COM_PORT] + ([cmd] + params) == ComPortPayload(cmd, params);
    assert Escaped(ComPortPayload(cmd, params)) == [OPT_COM_PORT, cmd] + body;
  }

  function FrameOf(payload: seq<byte>): seq<seq<byte>> {
    [Framed(payload)]
  }

  /** Push the command for one field if it moved. */
  method PushIf(out: seq<seq<byte>>, moved: bool, cmd: byte, params: seq<byte>, ghost payloads: seq<seq<byte>>)
    returns (out': seq<seq<byte>>)
    requires cmd != IAC && out == FlatMap(FrameOf, payloads)
    ensures out' == FlatMap(FrameOf, payloads + if moved then [ComPortPayload(cmd, params)] else [])
  {
    out' := out;
    if moved {
      var c := SubnegBytes(cmd, params);
      out' := out + [c];
      FlatMapSnoc(FrameOf, payloads, ComPortPayload(cmd, params));
    } else {
      assert payloads + [] == payloads;
    }
  }

  /** One command per moved field, in the order the source pushes them. */
  method CommandsTo(before: Settings, after: Settings) returns (out: seq<seq<byte>>)
    ensures out == FlatMap(FrameOf, Changes(before, after))
  {
    ghost var m1 := if after.baud != before.baud then [ComPortPayload(SET_BAUDRATE, ToBigEndian(after.baud))] else [];
    ghost var m2 :=
      m1 + if after.dataBits != before.dataBits then [ComPortPayload(SET_DATASIZE, [after.dataBits])] else [];
    ghost var m3 := m2 + if after.parity != before.parity then [ComPortPayload(SET_PARITY, [after.parity])] else [];
    ghost var m4 :=
      m3 + if after.stopBits != before.stopBits then [ComPortPayload(SET_STOPSIZE, [after.stopBits])] else [];
    assert [] + m1 == m1;
    out := PushIf([], after.baud != before.baud, SET_BAUDRATE, ToBigEndian(after.baud), []);
    out := PushIf(out, after.dataBits != before.dataBits, SET_DATASIZE, [after.dataBits], m1);
    out := PushIf(out, after.parity != before.parity, SET_PARITY, [after.parity], m2);
    out := PushIf(out, after.stopBits != before.stopBits, SET_STOPSIZE, [after.stopBits], m3);
    out := PushIf(out, after.flow != before.flow, SET_CONTROL, [after.flow], m4);
  }

  function SubnegEvents(payloads: seq<seq<byte>>): seq<Event> {
    if payloads == [] then [] else [Subneg(payloads[0])] + SubnegEvents(payloads[1..])
  }

  /** Framed payloads parse back to the payloads, as subnegotiations and as nothing else. */
  lemma {:induction false} FramedEvents(payloads: seq<seq<byte>>)
    ensures FramedAll(payloads) == EncodeAll(SubnegEvents(payloads)) && AllLegal(SubnegEvents(payloads))
    ensures SubnegsOf(SubnegEvents(payloads)) == payloads
    ensures DataOf(SubnegEvents(payloads)) == [] && CommandsOf(SubnegEvents(payloads)) == []
  {
    if payloads != [] {
      FramedEvents(payloads[1..]);
      assert SubnegEvents(payloads)[1..] == SubnegEvents(payloads[1..]);
    }
  }

  // ── the peer's side ─────────────────────────────────────────────────────

  /**
   * The two ways a server can be read. Its record holds every value it was told. The line
   * it drives ignores a zero: RFC 2217 makes 0 a question, not a setting.
   */
  datatype Reading = Record | Line

  function Hear(r: Reading, s: Settings, payload: seq<byte>): Settings {
    if |payload| < 3 || payload[0] != OPT_COM_PORT then s
    else
      var params := payload[2..];
      if payload[1] == SET_BAUDRATE then
        if |params| != 4 || (r == Line && FromBigEndian(params) == 0) then s
        else s.(baud := FromBigEndian(params))
      else if r == Line && params[0] == 0 then s
      else if payload[1] == SET_DATASIZE then s.(dataBits := params[0])
      else if payload[1] == SET_PARITY then s.(parity := params[0])
      else if payload[1] == SET_STOPSIZE then s.(stopBits := params[0])
      else if payload[1] == SET_CONTROL then s.(flow := params[0])
      else s
  }

  function HearAll(r: Reading, s: Settings, payloads: seq<seq<byte>>): Settings
    decreases |payloads|
  {
    if payloads == [] then s else HearAll(r, Hear(r, s, payloads[0]), payloads[1..])
  }

  lemma {:induction false} HearAllConcat(r: Reading, s: Settings, a: seq<seq<byte>>, b: seq<seq<byte>>)
    ensures HearAll(r, s, a + b) == HearAll(r, HearAll(r, s, a), b)
    decreases |a|
  {
    if a == [] {
      assert a + b == b;
    } else {
      assert (a + b)[1..] == a[1..] + b;
      HearAllConcat(r, Hear(r, s, a[0]), a[1..], b);
    }
  }

  lemma HearSnocIf(r: Reading, s: Settings, a: seq<seq<byte>>, moved: bool, payload: seq<byte>)
    ensures HearAll(r, s, a + if moved then [payload] else [])
         == if moved then Hear(r, HearAll(r, s, a), payload) else HearAll(r, s, a)
  {
    HearAllConcat(r, s, a, if moved then [payload] else []);
    if moved {
      assert [payload][1..] == [];
    }
  }

  lemma HearBaud(r: Reading, s: Settings, v: uint32)
    ensures Hear(r, s, ComPortPayload(SET_BAUDRATE, ToBigEndian(v))) == if r == Line && v == 0 then s else s.(baud := v)
  {
    assert ComPortPayload(SET_BAUDRATE, ToBigEndian(v))[2..] == ToBigEndian(v);
  }

  /** The five fields in turn, each taken only if it moved. */
  lemma HearChanges(r: Reading, s: Settings, before: Settings, after: Settings)
    requires r == Line ==> FromTermios(after)
    ensures HearAll(r, s, Changes(before, after)) == Settings(
      if after.baud != before.baud && (r == Record || after.baud != 0) then after.baud else s.baud,
      if after.dataBits != before.dataBits then after.dataBits else s.dataBits,
      if after.parity != before.parity then after.parity else s.parity,
      if after.stopBits != before.stopBits then after.stopBits else s.stopBits,
      if after.flow != before.flow then after.flow else s.flow)
  {
    var p1 := ComPortPayload(SET_BAUDRATE, ToBigEndian(after.baud));
    var p2 := ComPortPayload(SET_DATASIZE, [after.dataBits]);
    var p3 := ComPortPayload(SET_PARITY, [after.parity]);
    var p4 := ComPortPayload(SET_STOPSIZE, [after.stopBits]);
    var p5 := ComPortPayload(SET_CONTROL, [after.flow]);
    var c1 := if after.baud != before.baud then [p1] else [];
    var c2 := c1 + if after.dataBits != before.dataBits then [p2] else [];
    var c3 := c2 + if after.parity != before.parity then [p3] else [];
    var c4 := c3 + if after.stopBits != before.stopBits then [p4] else [];
    assert [] + c1 == c1;
    HearBaud(r, s, after.baud);
    HearSnocIf(r, s, [], after.baud != before.baud, p1);
    HearSnocIf(r, s, c1, after.dataBits != before.dataBits, p2);
    HearSnocIf(r, s, c2, after.parity != before.parity, p3);
    HearSnocIf(r, s, c3, after.stopBits != before.stopBits, p4);
    HearSnocIf(r, s, c4, after.flow != before.flow, p5);
  }

  /** The relay is exact: a server whose record is `before` ends with the record `after`; silence means no change. */
  lemma ChangesRebuild(before: Settings, after: Settings)
    ensures HearAll(Record, before, Changes(before, after)) == after
    ensures Changes(before, after) == [] <==> before == after
  {
    HearChanges(Record, before, before, after);
  }

  /** A server's answers are reported under the setting they answer, with the value they carry. */
  lemma AnswersAreReported(v: uint32, b: byte)
    ensures Describe(ComPortPayload(SET_BAUDRATE + SERVER_OFFSET, ToBigEndian(v))) == Some(Notice("baudrate", v))
    ensures Describe(ComPortPayload(SET_DATASIZE + SERVER_OFFSET, [b])) == Some(Notice("datasize", b as uint32))
    ensures Describe(ComPortPayload(SET_PARITY + SERVER_OFFSET, [b])) == Some(Notice("parity", b as uint32))
    ensures Describe(ComPortPayload(SET_STOPSIZE + SERVER_OFFSET, [b])) == Some(Notice("stopsize", b as uint32))
    ensures Describe(ComPortPayload(SET_CONTROL + SERVER_OFFSET, [b])) == Some(Notice("control", b as uint32))
  {
    assert ComPortPayload(SET_BAUDRATE + SERVER_OFFSET, ToBigEndian(v))[2..] == ToBigEndian(v);
  }

  /** Our own commands are never mistaken for answers. */
  lemma CommandsAreNotAnswers(before: Settings, after: Settings, i: nat)
    requires i < |Changes(before, after)|
    ensures Describe(Changes(before, after)[i]) == None
  {
  }

  /** All the commands of a run of port snapshots, each diffed from the one before. */
  function RelayRun(last: Settings, snapshots: seq<Settings>): seq<seq<byte>>
    decreases |snapshots|
  {
    if snapshots == [] then [] else Changes(last, snapshots[0]) + RelayRun(snapshots[0], snapshots[1..])
  }

  function LastOf(last: Settings, snapshots: seq<Settings>): Settings {
    if snapshots == [] then last else snapshots[|snapshots| - 1]
  }

  /** The last baud rate a consumer actually chose. */
  function LastChosen(chosen: uint32, snapshots: seq<Settings>): uint32
    decreases |snapshots|
  {
    if snapshots == [] then chosen
    else LastChosen(if snapshots[0].baud != 0 then snapshots[0].baud else chosen, snapshots[1..])
  }

  /** Over any run of snapshots the server's record ends at the last of them. */
  lemma {:induction false} RelayRunRebuilds(pristine: Settings, snapshots: seq<Settings>)
    ensures HearAll(Record, pristine, RelayRun(pristine, snapshots)) == LastOf(pristine, snapshots)
    decreases |snapshots|
  {
    if snapshots != [] {
      HearAllConcat(Record, pristine, Changes(pristine, snapshots[0]), RelayRun(snapshots[0], snapshots[1..]));
      ChangesRebuild(pristine, snapshots[0]);
      RelayRunRebuilds(snapshots[0], snapshots[1..]);
    }
  }

  /** The line it drives follows too, except that a baud rate of 0 leaves the last chosen one in force. */
  lemma {:induction false} LineFollowsRun(line: Settings, last: Settings, snapshots: seq<Settings>)
    requires line == last.(baud := line.baud) && (last.baud != 0 ==> line.baud == last.baud)
    requires forall i :: 0 <= i < |snapshots| ==> FromTermios(snapshots[i])
    ensures HearAll(Line, line, RelayRun(last, snapshots))
         == LastOf(last, snapshots).(baud := LastChosen(line.baud, snapshots))
    decreases |snapshots|
  {
    if snapshots != [] {
      assert FromTermios(snapshots[0]);
      HearAllConcat(Line, line, Changes(last, snapshots[0]), RelayRun(snapshots[0], snapshots[1..]));
      HearChanges(Line, line, last, snapshots[0]);
      LineFollowsRun(HearAll(Line, line, Changes(last, snapshots[0])), snapshots[0], snapshots[1..]);
    }
  }

  /** So the far UART runs at the port's settings exactly when the port's last baud rate is real, or none ever was. */
  lemma LineMatchesExactly(pristine: Settings, snapshots: seq<Settings>)
    requires forall i :: 0 <= i < |snapshots| ==> FromTermios(snapshots[i])
    ensures HearAll(Line, pristine, RelayRun(pristine, snapshots)) == LastOf(pristine, snapshots)
       <==> LastOf(pristine, snapshots).baud != 0 || LastChosen(pristine.baud, snapshots) == 0
  {
    LineFollowsRun(pristine, pristine, snapshots);
    LastBaudIsChosen(pristine, pristine.baud, snapshots);
  }

  /** A run that misses: a port at speed 0 that is set to 9600 and back leaves the far UART at 9600. */
  lemma SpeedZeroIsMissed(p: Settings)
    requires FromTermios(p) && p.baud == 0
    ensures var run := [p.(baud := 9600), p];
            && LastOf(p, run) == p
            && HearAll(Record, p, RelayRun(p, run)) == p
            && HearAll(Line, p, RelayRun(p, run)) == p.(baud := 9600)
  {
    var run := [p.(baud := 9600), p];
    LineFollowsRun(p, p, run);
    RelayRunRebuilds(p, run);
    assert run[1..] == [p];
    assert LastChosen(9600, [p]) == LastChosen(9600, [p][1..]) == 9600;
  }

  lemma {:induction false} LastBaudIsChosen(last: Settings, chosen: uint32, snapshots: seq<Settings>)
    requires last.baud != 0 ==> chosen == last.baud
    ensures LastOf(last, snapshots).baud != 0 ==> LastChosen(chosen, snapshots) == LastOf(last, snapshots).baud
    decreases |snapshots|
  {
    if snapshots != [] {
      LastBaudIsChosen(snapshots[0], if snapshots[0].baud != 0 then snapshots[0].baud else chosen, snapshots[1..]);
    }
  }
}
