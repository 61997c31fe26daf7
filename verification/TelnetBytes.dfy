/**
 * The protocol on the wire, in bytes: what control sequences do to the data around them,
 * what settings commands look like, and which server answers are reported.
 */
module TelnetBytes {
  import opened Common
  import opened TelnetFraming
  import opened TelnetNegotiation
  import opened TelnetCodec
  import opened PortSettings

  /** Every 255 sent twice. */
  function Doubled(data: seq<byte>): seq<byte> {
    if data == [] then [] else (if data[0] == 255 then [255, 255] else [data[0]]) + Doubled(data[1..])
  }

  lemma {:induction false} EscapedIsDoubled(data: seq<byte>)
    ensures Escaped(data) == Doubled(data)
  {
    if data != [] {
      EscapedIsDoubled(data[1..]);
    }
  }

  // ── control sequences among data ────────────────────────────────────────

  /** The control sequences, byte by byte. */
  datatype Control =
    | Ask(verb: byte, opt: byte)                       // 251 to 254, and an option
    | Settings(payload: seq<byte>)                     // a whole subnegotiation
    | Garbled(payload: seq<byte>, code: byte)          // one cut off by another command
    | Other(code: byte)                                // NOP, BREAK and the like

  predicate WellFormed(x: Control) {
    match x
    case Ask(verb, _) => 251 <= verb <= 254
    case Settings(_) => true
    case Garbled(_, code) => code != 255 && code != 240
    case Other(code) => code < 250
  }

  function ControlBytes(x: Control): seq<byte> {
    match x
    case Ask(verb, opt) => [255, verb, opt]
    case Settings(payload) => [255, 250] + Doubled(payload) + [255, 240]
    case Garbled(payload, code) => [255, 250] + Doubled(payload) + [255, code]
    case Other(code) => [255, code]
  }

  function EventOf(x: Control): Event {
    match x
    case Ask(verb, opt) => Command(verb, opt)
    case Settings(payload) => Subneg(payload)
    case Garbled(payload, code) => Broken(payload, code)
    case Other(code) => Ignored(code)
  }

  lemma ControlIsEvent(x: Control)
    requires WellFormed(x)
    ensures Legal(EventOf(x)) && Encode(EventOf(x)) == ControlBytes(x)
  {
    match x
    case Settings(payload) => EscapedIsDoubled(payload);
    case Garbled(payload, _) => EscapedIsDoubled(payload);
    case _ =>
  }

  /** What one control sequence is worth on its own: never data; a reply only to an ask, a notice only of settings. */
  lemma ControlIsWorth(s: Slots, x: Control)
    requires WellFormed(x)
    ensures var (c, out) := Decoding(Codec(CLEAN, s), ControlBytes(x));
            && c.frame == CLEAN
            && out.data == []
            && (!x.Ask? ==> out.reply == [] && c.slots == s)
            && out.notices == if x.Settings? then NoticeIn(x.payload) else []
  {
    hide Answer, Describe;
    var e := EventOf(x);
    ControlIsEvent(x);
    FlatMapOne(Encode, e);
    DecodingIsExact(s, [e]);
    FlatMapOne(PayloadIn, e);
    FlatMapOne(CommandIn, e);
    FlatMapOne(SubnegIn, e);
    if x.Settings? {
      FlatMapOne(NoticeIn, x.payload);
    }
    assert AnswerAll(s, []) == (s, []) && CmdBytes([]) == [] && NoticesOf([]) == [];
  }

  /** A control sequence between any two stretches leaves no trace in the data, wherever the first one ends cleanly. */
  lemma ControlLeavesNoData(c: Codec, a: seq<byte>, x: Control, b: seq<byte>)
    requires Reachable(c.frame) && WellFormed(x) && Scan(c.frame, a).0 == CLEAN
    ensures Decoding(c, a + ControlBytes(x) + b).1.data == Decoding(c, a + b).1.data
    ensures !x.Settings? ==> Decoding(c, a + ControlBytes(x) + b).1.notices == Decoding(c, a + b).1.notices
    ensures !x.Ask? ==> Decoding(c, a + ControlBytes(x) + b).1.reply == Decoding(c, a + b).1.reply
  {
    hide ControlBytes, WellFormed, Interpret, Reachable, NoticeIn;
    var c1 := Decoding(c, a).0;
    ControlIsWorth(c1.slots, x);
    var c2 := Decoding(c1, ControlBytes(x)).0;
    DecodeConcat(c, a + ControlBytes(x), b);
    DecodeConcat(c, a, ControlBytes(x));
    DecodeConcat(c, a, b);
    DataIgnoresSlots(CLEAN, c1.slots, c2.slots, b);
    var d := Decoding(c, a).1;
    assert d.data + [] == d.data && d.reply + [] == d.reply && d.notices + [] == d.notices;
  }

  /** Data and notices do not depend on what was negotiated. */
  lemma DataIgnoresSlots(f: Frame, s: Slots, t: Slots, input: seq<byte>)
    ensures Decoding(Codec(f, s), input).1.data == Decoding(Codec(f, t), input).1.data
    ensures Decoding(Codec(f, s), input).1.notices == Decoding(Codec(f, t), input).1.notices
  {
    hide AnswerAll;
  }

  // ── settings commands ───────────────────────────────────────────────────

  /** Four bytes as a number, the first the most significant. */
  function Four(a: byte, b: byte, c: byte, d: byte): int {
    ((a as int * 256 + b as int) * 256 + c as int) * 256 + d as int
  }

  /** A settings command: option 44, the field's number, and its value, four bytes big-endian for the speed. */
  lemma CommandsByTheBook(before: PortSettings.Settings, after: PortSettings.Settings, i: nat)
    requires i < |Changes(before, after)|
    ensures var p := Changes(before, after)[i];
            && |p| >= 3 && p[0] == 44
            && (p[1] == 1 ==>
                  && |p| == 6 && after.baud != before.baud
                  && after.baud as int == Four(p[2], p[3], p[4], p[5]))
            && (p[1] != 1 ==> |p| == 3)
            && (p[1] == 2 ==> p[2] == after.dataBits != before.dataBits)
            && (p[1] == 3 ==> p[2] == after.parity != before.parity)
            && (p[1] == 4 ==> p[2] == after.stopBits != before.stopBits)
            && (p[1] == 5 ==> p[2] == after.flow != before.flow)
            && 1 <= p[1] <= 5
            && (forall j :: 0 <= j < i ==> |Changes(before, after)[j]| >= 2 && Changes(before, after)[j][1] < p[1])
  {
    hide ToBigEndian, FromBigEndian;
    BaudInBytes(after.baud);
  }

  lemma BaudInBytes(v: uint32)
    ensures var p := ToBigEndian(v);
            v as int == Four(p[0], p[1], p[2], p[3])
  {
    BigEndianDigits(v as int);
  }

  /** And a frame around it: 255 250, the payload with every 255 doubled, 255 240. */
  lemma FrameInBytes(payload: seq<byte>)
    ensures Framed(payload) == [255, 250] + Doubled(payload) + [255, 240]
  {
    EscapedIsDoubled(payload);
  }

  // ── server answers ──────────────────────────────────────────────────────

  /** The names of the five settings, by number. */
  function FieldName(n: byte): string {
    if n == 1 then "baudrate" else if n == 2 then "datasize" else if n == 3 then "parity"
    else if n == 4 then "stopsize" else if n == 5 then "control" else ""
  }

  /**
   * Notices, exactly: a subnegotiation is reported if and only if it is about option 44, is
   * numbered 101 to 105 and carries a value, under the name of that setting; four bytes
   * count big-endian, otherwise the first one counts.
   */
  lemma NoticesByTheBook(sub: seq<byte>)
    ensures var n := Describe(sub);
            && (n.Some? <==> |sub| >= 3 && sub[0] == 44 && 101 <= sub[1] <= 105)
            && (n.Some? ==>
                  && n.value.name == FieldName(sub[1] - 100)
                  && n.value.value as int
                     == if |sub| == 6
                        then Four(sub[2], sub[3], sub[4], sub[5])
                        else sub[2] as int)
  {
  }
}
