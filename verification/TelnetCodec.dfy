/**
 * The telnet codec of one peer session: the mutable byte-at-a-time decoder, proved
 * against framing (`TelnetFraming.Scan`) followed by negotiation (`AnswerAll`).
 */
module TelnetCodec {
  import opened Common
  import opened TelnetFraming
  import opened TelnetNegotiation

  const SET_BAUDRATE: byte := 1
  const SET_DATASIZE: byte := 2
  const SET_PARITY: byte := 3
  const SET_STOPSIZE: byte := 4
  const SET_CONTROL: byte := 5
  const SERVER_OFFSET: byte := 100

  /** A server answer worth logging: "peer <name> = <value>". */
  datatype Notice = Notice(name: string, value: uint32)

  datatype Decoded = Decoded(data: seq<byte>, reply: seq<byte>, notices: seq<Notice>)

  const NOTHING := Decoded([], [], [])

  function Join(a: Decoded, b: Decoded): Decoded {
    Decoded(a.data + b.data, a.reply + b.reply, a.notices + b.notices)
  }

  datatype Codec = Codec(frame: Frame, slots: Slots)

  const NEW := Codec(CLEAN, FRESH)

  // ── what the events of a stream amount to ───────────────────────────────

  function FromBigEndian(p: seq<byte>): uint32
    requires |p| == 4
  {
    p[0] as uint32 * 0x100_0000 + p[1] as uint32 * 0x1_0000 + p[2] as uint32 * 0x100 + p[3] as uint32
  }

  /** The notice a subnegotiation is worth: only an answer to one of the five settings, with a value, is worth one. */
  function Describe(sub: seq<byte>): Option<Notice> {
    if |sub| < 2 || sub[0] != OPT_COM_PORT || sub[1] < SERVER_OFFSET then None
    else
      var cmd := sub[1] - SERVER_OFFSET;
      var params := sub[2..];
      var name := if cmd == SET_BAUDRATE then "baudrate"
                  else if cmd == SET_DATASIZE then "datasize"
                  else if cmd == SET_PARITY then "parity"
                  else if cmd == SET_STOPSIZE then "stopsize"
                  else if cmd == SET_CONTROL then "control"
                  else "";
      if name == "" then None
      else if |params| == 4 then Some(Notice(name, FromBigEndian(params)))
      else if params == [] then None
      else Some(Notice(name, params[0] as uint32))
  }

  function PayloadIn(e: Event): seq<byte> {
    if e.Payload? then [e.b] else []
  }

  function CommandIn(e: Event): seq<Cmd> {
    if e.Command? then [Cmd(e.cmd, e.opt)] else []
  }

  function SubnegIn(e: Event): seq<seq<byte>> {
    if e.Subneg? then [e.payload] else []
  }

  function NoticeIn(sub: seq<byte>): seq<Notice> {
    match Describe(sub)
    case None => []
    case Some(n) => [n]
  }

  function DataOf(es: seq<Event>): seq<byte> {
    FlatMap(PayloadIn, es)
  }

  function CommandsOf(es: seq<Event>): seq<Cmd> {
    FlatMap(CommandIn, es)
  }

  function SubnegsOf(es: seq<Event>): seq<seq<byte>> {
    FlatMap(SubnegIn, es)
  }

  function NoticesOf(subs: seq<seq<byte>>): seq<Notice> {
    FlatMap(NoticeIn, subs)
  }

  // ── the decoder's specification ─────────────────────────────────────────

  /** What a codec makes of a list of events. */
  function Interpret(s: Slots, es: seq<Event>): (Slots, Decoded) {
    var (s', replies) := AnswerAll(s, CommandsOf(es));
    (s', Decoded(DataOf(es), CmdBytes(replies), NoticesOf(SubnegsOf(es))))
  }

  /** One whole read: parse it into events, then act on them. */
  function Decoding(c: Codec, input: seq<byte>): (Codec, Decoded) {
    var (frame, es) := Scan(c.frame, input);
    var (slots, out) := Interpret(c.slots, es);
    (Codec(frame, slots), out)
  }

  function DecodeParts(c: Codec, parts: seq<seq<byte>>): (Codec, Decoded)
    decreases |parts|
  {
    if parts == [] then (c, NOTHING)
    else
      var (c1, d1) := Decoding(c, parts[0]);
      var (c2, d2) := DecodeParts(c1, parts[1..]);
      (c2, Join(d1, d2))
  }

  lemma InterpretConcat(s: Slots, a: seq<Event>, b: seq<Event>)
    ensures Interpret(s, a + b)
         == (Interpret(Interpret(s, a).0, b).0, Join(Interpret(s, a).1, Interpret(Interpret(s, a).0, b).1))
  {
    FlatMapConcat(PayloadIn, a, b);
    FlatMapConcat(CommandIn, a, b);
    FlatMapConcat(SubnegIn, a, b);
    FlatMapConcat(NoticeIn, SubnegsOf(a), SubnegsOf(b));
    AnswerAllConcat(s, CommandsOf(a), CommandsOf(b));
    var (s1, r1) := AnswerAll(s, CommandsOf(a));
    FlatMapConcat(CmdEncoding, r1, AnswerAll(s1, CommandsOf(b)).1);
  }

  lemma DecodeConcat(c: Codec, a: seq<byte>, b: seq<byte>)
    ensures Decoding(c, a + b)
         == (Decoding(Decoding(c, a).0, b).0, Join(Decoding(c, a).1, Decoding(Decoding(c, a).0, b).1))
  {
    ScanConcat(c.frame, a, b);
    var (f, e) := Scan(c.frame, a);
    InterpretConcat(c.slots, e, Scan(f, b).1);
  }

  /** However the stream is cut into reads, data, replies, notices and codec come out the same. */
  lemma {:induction false} DecodingIsSplitIndependent(c: Codec, parts: seq<seq<byte>>)
    ensures DecodeParts(c, parts) == Decoding(c, Flatten(parts))
    decreases |parts|
  {
    if parts == [] {
      assert Scan(c.frame, []) == (c.frame, []);
      assert Interpret(c.slots, []) == (c.slots, NOTHING);
    } else {
      DecodingIsSplitIndependent(Decoding(c, parts[0]).0, parts[1..]);
      DecodeConcat(c, parts[0], Flatten(parts[1..]));
    }
  }

  /** A prefix of the stream already yields a prefix of the data. */
  lemma DecodingIsMonotone(c: Codec, a: seq<byte>, b: seq<byte>)
    ensures Decoding(c, a).1.data <= Decoding(c, a + b).1.data
  {
    DecodeConcat(c, a, b);
  }

  /**
   * Exactness: a stream of legal events decodes to exactly those events' meaning, and
   * leaves the parser clean. Bytes inside a subnegotiation, complete or broken, are
   * never data.
   */
  lemma DecodingIsExact(s: Slots, es: seq<Event>)
    requires AllLegal(es)
    ensures Decoding(Codec(CLEAN, s), EncodeAll(es)) == (Codec(CLEAN, Interpret(s, es).0), Interpret(s, es).1)
  {
    ScanInvertsEncode(es);
  }

  /** The events of an escaped data run, and back. */
  lemma {:induction false} EscapedRunEvents(run: seq<byte>)
    ensures Escaped(run) == EncodeAll(RunEvents(run))
    ensures AllLegal(RunEvents(run))
    ensures DataOf(RunEvents(run)) == run && CommandsOf(RunEvents(run)) == [] && SubnegsOf(RunEvents(run)) == []
  {
    if run != [] {
      EscapedRunEvents(run[1..]);
      assert RunEvents(run)[1..] == RunEvents(run[1..]);
    }
  }

  function RunEvents(run: seq<byte>): seq<Event> {
    if run == [] then [] else [Payload(run[0])] + RunEvents(run[1..])
  }

  /** Escaping is transparent: any bytes, escaped, come out of a clean codec unchanged and unanswered. */
  lemma EscapeRoundTrip(s: Slots, run: seq<byte>)
    ensures Decoding(Codec(CLEAN, s), Escaped(run)) == (Codec(CLEAN, s), Decoded(run, [], []))
  {
    EscapedRunEvents(run);
    DecodingIsExact(s, RunEvents(run));
    assert AnswerAll(s, []) == (s, []) && CmdBytes([]) == [] && NoticesOf([]) == [];
  }

  /** The reply to a whole stream never outgrows it, even when it starts mid-command. */
  lemma ReplyNeverOutgrowsInput(c: Codec, input: seq<byte>)
    requires Reachable(c.frame)
    ensures |Decoding(c, input).1.reply| <= |Pending(c.frame)| + |input|
  {
    var (f, es) := Scan(c.frame, input);
    EncodeInvertsScan(c.frame, input);
    CommandsCostThreeBytes(es);
    AnswersNeverMultiply(c.slots, CommandsOf(es));
    CmdBytesLength(AnswerAll(c.slots, CommandsOf(es)).1);
  }

  lemma {:induction false} CommandsCostThreeBytes(es: seq<Event>)
    ensures 3 * |CommandsOf(es)| <= |EncodeAll(es)|
  {
    if es != [] {
      CommandsCostThreeBytes(es[1..]);
    }
  }

  lemma {:induction false} CommandsAreCmds(es: seq<Event>)
    requires AllLegal(es)
    ensures AllCmds(CommandsOf(es))
  {
    if es != [] {
      assert Legal(es[0]);
      CommandsAreCmds(es[1..]);
    }
  }

  /**
   * The reply rule over raw bytes: whatever a codec is fed, the replies of each slot are
   * the verdicts it received with consecutive repeats removed. A fresh codec's replies
   * for a slot therefore begin with a refusal (`DedupAlternates`).
   */
  lemma RepliesOverAnyInput(c: Codec, input: seq<byte>, k: Slot)
    requires Reachable(c.frame)
    ensures var cs := CommandsOf(Scan(c.frame, input).1);
            && Decoding(c, input).1.reply == CmdBytes(AnswerAll(c.slots, cs).1)
            && VerdictsFor(Mirror(k), AnswerAll(c.slots, cs).1) == Dedup(Get(c.slots, k), VerdictsFor(k, cs))
  {
    EncodeInvertsScan(c.frame, input);
    CommandsAreCmds(Scan(c.frame, input).1);
    RepliesAreDedupedVerdicts(c.slots, CommandsOf(Scan(c.frame, input).1), k);
  }

  function CmdEvents(cs: seq<Cmd>): seq<Event> {
    if cs == [] then [] else [Command(cs[0].verb, cs[0].opt)] + CmdEvents(cs[1..])
  }

  /** Command bytes parse back to the commands and to nothing else. */
  lemma {:induction false} CmdBytesEvents(cs: seq<Cmd>)
    requires AllCmds(cs)
    ensures CmdBytes(cs) == EncodeAll(CmdEvents(cs)) && AllLegal(CmdEvents(cs))
    ensures CommandsOf(CmdEvents(cs)) == cs && DataOf(CmdEvents(cs)) == [] && SubnegsOf(CmdEvents(cs)) == []
  {
    if cs != [] {
      assert IsCmd(cs[0]);
      CmdBytesEvents(cs[1..]);
      assert CmdEvents(cs)[1..] == CmdEvents(cs[1..]);
    }
  }

  // ── the mutable codec ───────────────────────────────────────────────────

  const OFFERS: seq<Cmd> := [
    Cmd(WILL, OPT_BINARY), Cmd(DO, OPT_BINARY), Cmd(WILL, OPT_SGA), Cmd(DO, OPT_SGA), Cmd(WILL, OPT_COM_PORT)
  ]

  class Telnet {
    var state: State
    var sub: seq<byte>
    var binaryUs: bool
    var binaryThem: bool
    var sgaUs: bool
    var sgaThem: bool
    var comPort: bool

    ghost function SlotView(): Slots
      reads this
    {
      Slots(binaryUs, binaryThem, sgaUs, sgaThem, comPort)
    }

    ghost function View(): Codec
      reads this
    {
      Codec(Frame(state, sub), SlotView())
    }

    ghost predicate Valid()
      reads this
    {
      Reachable(View().frame)
    }

    constructor ()
      ensures Valid() && View() == NEW
    {
      state, sub := Data, [];
      binaryUs, binaryThem, sgaUs, sgaThem, comPort := true, true, true, true, true;
    }

    /** What a session writes first. */
    method Start() returns (out: seq<byte>)
      ensures out == CmdBytes(OFFERS)
    {
      out := [];
      var offers := OFFERS;
      for i := 0 to |offers|
        invariant out == CmdBytes(offers[..i])
      {
        FlatMapSnoc(CmdEncoding, offers[..i], offers[i]);
        assert offers[..i + 1] == offers[..i] + [offers[i]];
        out := out + [IAC, offers[i].verb, offers[i].opt];
      }
      assert offers[..|offers|] == offers;
    }

    /** One received command: its slot takes the verdict, and only a change of verdict is answered. */
    method Negotiate(cmd: byte, opt: byte) returns (reply: Option<byte>)
      requires IsNegotiation(cmd)
      modifies this
      ensures state == old(state) && sub == old(sub)
      ensures SlotView() == Answer(old(SlotView()), Cmd(cmd, opt)).0
      ensures (match reply case None => [] case Some(verb) => [Cmd(verb, opt)])
           == Answer(old(SlotView()), Cmd(cmd, opt)).1
    {
      if opt != OPT_BINARY && opt != OPT_SGA && opt != OPT_COM_PORT {
        return Some(if cmd == WILL || cmd == WONT then DONT else WONT);
      }
      if cmd == WILL || cmd == WONT {
        reply := PeerOffers(cmd, opt);
      } else {
        reply := PeerAsks(cmd, opt);
      }
    }

    /** WILL and WONT: only the slot for what the peer does can move, and a reply means that it did. */
    method PeerOffers(cmd: byte, opt: byte) returns (reply: Option<byte>)
      requires AboutPeer(cmd) && Known(opt)
      modifies this
      ensures state == old(state) && sub == old(sub)
      ensures SlotView() == Answer(old(SlotView()), Cmd(cmd, opt)).0
      ensures (match reply case None => [] case Some(verb) => [Cmd(verb, opt)])
           == Answer(old(SlotView()), Cmd(cmd, opt)).1
    {
      var agreed := cmd == WILL;
      var slot := if opt == OPT_BINARY then binaryThem else if opt == OPT_SGA then sgaThem else comPort;
      if slot == agreed {
        return None;
      }
      if opt == OPT_BINARY { binaryThem := agreed; }
      else if opt == OPT_SGA { sgaThem := agreed; }
      else { comPort := agreed; }
      return Some(if agreed then DO else DONT);
    }

    /** DO and DONT: only the slot for what we do can move, and a reply means that it did. */
    method PeerAsks(cmd: byte, opt: byte) returns (reply: Option<byte>)
      requires IsNegotiation(cmd) && !AboutPeer(cmd) && Known(opt)
      modifies this
      ensures state == old(state) && sub == old(sub)
      ensures SlotView() == Answer(old(SlotView()), Cmd(cmd, opt)).0
      ensures (match reply case None => [] case Some(verb) => [Cmd(verb, opt)])
           == Answer(old(SlotView()), Cmd(cmd, opt)).1
    {
      var agreed := cmd == DO;
      var slot := if opt == OPT_BINARY then binaryUs else if opt == OPT_SGA then sgaUs else comPort;
      if slot == agreed {
        return None;
      }
      if opt == OPT_BINARY { binaryUs := agreed; }
      else if opt == OPT_SGA { sgaUs := agreed; }
      else { comPort := agreed; }
      return Some(if agreed then WILL else WONT);
    }

    /** One read from the peer, byte by byte. */
    method Decode(input: seq<byte>) returns (out: Decoded)
      requires Valid()
      modifies this
      ensures Valid()
      ensures (View(), out) == Decoding(old(View()), input)
    {
      out := NOTHING;
      ghost var before := View();
      assert Scan(before.frame, []) == (before.frame, []);
      for i := 0 to |input|
        invariant Valid()
        invariant (View(), out) == Decoding(before, input[..i])
      {
        ghost var c, d := View(), out;
        var b := input[i];
        DecodeConcat(before, input[..i], [b]);
        assert input[..i + 1] == input[..i] + [b];
        out := DecodeByte(b, out);
        assert out == Join(d, Decoding(c, [b]).1);
      }
      assert input[..|input|] == input;
    }

    /** One turn of the decoding loop. */
    method DecodeByte(b: byte, sofar: Decoded) returns (out: Decoded)
      requires Valid()
      modifies this
      ensures Valid()
      ensures View() == Decoding(old(View()), [b]).0
      ensures out == Join(sofar, Decoding(old(View()), [b]).1)
    {
      hide Decoding, Answer, Describe;
      out := sofar;
      DecodeOne(View(), b);
      match state
      case Data =>
        if b == IAC {
          state := Iac;
        } else {
          out := out.(data := out.data + [b]);
        }
      case Iac =>
        if b == IAC {
          out := out.(data := out.data + [IAC]);
          state := Data;
        } else if b == WILL || b == WONT || b == DO || b == DONT {
          state := State.Negotiate(b);
        } else if b == SB {
          sub := [];
          state := Sub;
        } else {
          state := Data;
        }
      case Negotiate(cmd) =>
        var reply := Negotiate(cmd, b);
        if reply.Some? {
          out := out.(reply := out.reply + [IAC, reply.value, b]);
        }
        state := Data;
      case Sub =>
        if b == IAC {
          state := SubIac;
        } else {
          sub := sub + [b];
        }
      case SubIac =>
        out := EndSubneg(b, out);
    }

    /** The byte after an IAC inside a subnegotiation. */
    method EndSubneg(b: byte, sofar: Decoded) returns (out: Decoded)
      requires state.SubIac?
      modifies this
      ensures Valid() && SlotView() == old(SlotView())
      ensures View().frame == Step(old(View()).frame, b).0
      ensures out == sofar.(notices := sofar.notices + if b == SE then NoticeIn(old(sub)) else [])
    {
      out := sofar;
      if b == IAC {
        sub := sub + [IAC];
        state := Sub;
      } else if b == SE {
        var n := Describe(sub);
        if n.Some? {
          out := out.(notices := out.notices + [n.value]);
        }
        sub := [];
        state := Data;
      } else {
        sub := [];
        state := Data;
      }
    }
  }

  /** `Decoding` of a single byte, spelled out from `Step`. */
  lemma DecodeOne(c: Codec, b: byte)
    ensures var (f, es) := Step(c.frame, b);
            Decoding(c, [b]) ==
              if es == [] then (Codec(f, c.slots), NOTHING)
              else (Codec(f, ActOn(c.slots, es[0]).0), ActOn(c.slots, es[0]).1)
  {
    ScanOne(c.frame, b);
    var (f, es) := Step(c.frame, b);
    if es != [] {
      assert es == [es[0]];
      InterpretOne(c.slots, es[0]);
    }
  }

  /** What one event amounts to. */
  function ActOn(s: Slots, e: Event): (Slots, Decoded) {
    match e
    case Payload(b) => (s, NOTHING.(data := [b]))
    case Command(cmd, opt) =>
      var (s', r) := Answer(s, Cmd(cmd, opt));
      (s', NOTHING.(reply := if r == [] then [] else [IAC, r[0].verb, r[0].opt]))
    case Subneg(p) => (s, NOTHING.(notices := NoticeIn(p)))
    case Ignored(_) => (s, NOTHING)
    case Broken(_, _) => (s, NOTHING)
  }

  lemma InterpretOne(s: Slots, e: Event)
    ensures Interpret(s, [e]) == ActOn(s, e)
  {
    FlatMapOne(PayloadIn, e);
    FlatMapOne(CommandIn, e);
    FlatMapOne(SubnegIn, e);
    match e
    case Command(cmd, opt) =>
      AnswerAllOne(s, Cmd(cmd, opt));
      var r := Answer(s, Cmd(cmd, opt)).1;
      if r != [] {
        assert r == [r[0]];
        FlatMapOne(CmdEncoding, r[0]);
      }
    case Subneg(p) => FlatMapOne(NoticeIn, p);
    case _ =>
  }
}
