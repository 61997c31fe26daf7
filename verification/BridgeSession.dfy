/**
 * One RFC 2217 bridge session as a machine of steps: a task towards the peer (data and
 * settings) and a task from the peer (decoding and replies) share one socket writer, and
 * write whole messages under its lock.
 */
module BridgeSession {
  import opened Common
  import opened TelnetFraming
  import opened TelnetNegotiation
  import opened TelnetCodec
  import opened PortSettings
  import W = Wire
  import R = WireRuns
  import N = Noise

  // ── messages ────────────────────────────────────────────────────────────

  /** What is written under one hold of the lock. A cell remembers the snapshot its chunk was synced to, if any. */
  datatype Message =
    | Offers
    | Cell(data: seq<byte>, snap: Option<Settings>)
    | Relay(payloads: seq<seq<byte>>)
    | Reply(cmds: seq<Cmd>)

  predicate ValidMessage(m: Message) {
    m.Reply? ==> AllCmds(m.cmds)
  }

  function MessageBytes(m: Message): seq<byte> {
    match m
    case Offers => CmdBytes(OFFERS)
    case Cell(data, _) => Escaped(data)
    case Relay(payloads) => FramedAll(payloads)
    case Reply(cmds) => CmdBytes(cmds)
  }

  function MessageEvents(m: Message): seq<Event> {
    match m
    case Offers => CmdEvents(OFFERS)
    case Cell(data, _) => RunEvents(data)
    case Relay(payloads) => SubnegEvents(payloads)
    case Reply(cmds) => CmdEvents(cmds)
  }

  function MessageData(m: Message): seq<byte> {
    if m.Cell? then m.data else []
  }

  function MessageCmds(m: Message): seq<Cmd> {
    match m
    case Offers => OFFERS
    case Reply(cmds) => cmds
    case _ => []
  }

  function MessageRelays(m: Message): seq<seq<byte>> {
    if m.Relay? then m.payloads else []
  }

  function Written(ms: seq<Message>): seq<byte> { FlatMap(MessageBytes, ms) }
  function EventsIn(ms: seq<Message>): seq<Event> { FlatMap(MessageEvents, ms) }
  function DataIn(ms: seq<Message>): seq<byte> { FlatMap(MessageData, ms) }
  function CmdsIn(ms: seq<Message>): seq<Cmd> { FlatMap(MessageCmds, ms) }
  function RelaysIn(ms: seq<Message>): seq<seq<byte>> { FlatMap(MessageRelays, ms) }

  predicate AllValid(ms: seq<Message>) {
    forall i :: 0 <= i < |ms| ==> ValidMessage(ms[i])
  }

  /** Each message is framed on its own: it starts and ends between events. */
  lemma MessageIsFramed(m: Message)
    requires ValidMessage(m)
    ensures MessageBytes(m) == EncodeAll(MessageEvents(m)) && AllLegal(MessageEvents(m))
    ensures DataOf(MessageEvents(m)) == MessageData(m)
    ensures CommandsOf(MessageEvents(m)) == MessageCmds(m)
    ensures SubnegsOf(MessageEvents(m)) == MessageRelays(m)
  {
    match m
    case Offers => CmdBytesEvents(OFFERS);
    case Cell(data, _) => EscapedRunEvents(data);
    case Relay(payloads) => FramedEvents(payloads);
    case Reply(cmds) => CmdBytesEvents(cmds);
  }

  lemma {:induction false} MessagesAreFramed(ms: seq<Message>)
    requires AllValid(ms)
    ensures Written(ms) == EncodeAll(EventsIn(ms)) && AllLegal(EventsIn(ms))
    ensures DataOf(EventsIn(ms)) == DataIn(ms)
    ensures CommandsOf(EventsIn(ms)) == CmdsIn(ms)
    ensures SubnegsOf(EventsIn(ms)) == RelaysIn(ms)
  {
    hide MessageBytes, MessageEvents, MessageData, MessageCmds, MessageRelays, Encode;
    if ms != [] {
      var first, rest := MessageEvents(ms[0]), EventsIn(ms[1..]);
      assert ValidMessage(ms[0]);
      MessageIsFramed(ms[0]);
      MessagesAreFramed(ms[1..]);
      FlatMapConcat(Encode, first, rest);
      FlatMapConcat(PayloadIn, first, rest);
      FlatMapConcat(CommandIn, first, rest);
      FlatMapConcat(SubnegIn, first, rest);
    }
  }

  /**
   * Whatever order the two tasks take the lock in, a telnet peer that reads the socket
   * recovers the cell bytes in order, every command in order and every settings
   * subnegotiation in order, and is left between events.
   */
  lemma PeerRecoversMessages(ms: seq<Message>, peer: Slots)
    requires AllValid(ms)
    ensures Scan(CLEAN, Written(ms)) == (CLEAN, EventsIn(ms))
    ensures Decoding(Codec(CLEAN, peer), Written(ms)).1.data == DataIn(ms)
    ensures CommandsOf(Scan(CLEAN, Written(ms)).1) == CmdsIn(ms)
    ensures SubnegsOf(Scan(CLEAN, Written(ms)).1) == RelaysIn(ms)
  {
    MessagesAreFramed(ms);
    ScanInvertsEncode(EventsIn(ms));
  }

  // ── the session machine ─────────────────────────────────────────────────

  /** The port-to-peer task. */
  datatype Up =
    | Waiting
    | GotChunk(chunk: seq<byte>)                               // a chunk was read; settings not yet synced
    | Relaying(payloads: seq<seq<byte>>, was: Settings, chunk: seq<byte>)  // `last` moved; commands await the lock
    | Synced(chunk: seq<byte>, snap: Option<Settings>)         // settings are up to date for the chunk
    | Sending(cells: seq<W.Crossing>, snap: Option<Settings>)  // cells of the chunk still to be written

  /** The peer-to-port task. */
  datatype Down =
    | Listening
    | Replying(cmds: seq<Cmd>, data: seq<byte>)
    | Delivering(data: seq<byte>)

  /** The session: both tasks, the wire towards the peer, and the history of what passed. */
  datatype Session = Session(
    up: Up,
    down: Down,
    last: Settings,
    codec: Codec,
    comOk: bool,
    line: W.Line,
    fromPort: seq<byte>,
    calls: seq<R.Call>,
    sent: seq<Message>,
    socket: seq<byte>,
    inputs: seq<seq<byte>>,
    toPort: seq<byte>)

  datatype Action =
    | PortRead(chunk: seq<byte>)
    | Sync(snapshot: Option<Settings>)        // sync_settings before forwarding a chunk
    | Tick(snapshot: Option<Settings>)        // sync_settings on the poll tick
    | WriteSettings
    | Plan(now: nat)                          // the wire cuts the chunk into cells
    | SendCell
    | PeerRead(bytes: seq<byte>)
    | WriteReply
    | DeliverData

  function Start(pristine: Settings, line: W.Line): Session {
    Session(Waiting, Listening, pristine, NEW, true, line, [], [], [Offers], CmdBytes(OFFERS), [], [])
  }

  predicate Enabled(s: Session, a: Action) {
    match a
    case PortRead(chunk) => s.up.Waiting? && chunk != []
    case Sync(_) => s.up.GotChunk?
    case Tick(_) => s.up.Waiting?
    case WriteSettings => s.up.Relaying?
    case Plan(_) => s.up.Synced?
    case SendCell => s.up.Sending?
    case PeerRead(bytes) => s.down.Listening? && bytes != []
    case WriteReply => s.down.Replying?
    case DeliverData => s.down.Delivering?
  }

  function Write(s: Session, m: Message): Session {
    s.(sent := s.sent + [m], socket := s.socket + MessageBytes(m))
  }

  /** Back to the chunk in hand, if there is one. */
  function Resume(chunk: seq<byte>, snap: Option<Settings>): Up {
    if chunk == [] then Waiting else Synced(chunk, snap)
  }

  /** `sync_settings` up to the lock: silent if refused, unreadable, or nothing moved. */
  function Synchronise(s: Session, snapshot: Option<Settings>, chunk: seq<byte>): Session {
    if !s.comOk || snapshot.None? then s.(up := Resume(chunk, None))
    else if snapshot.value == s.last then s.(up := Resume(chunk, snapshot))
    else s.(up := Relaying(Changes(s.last, snapshot.value), s.last, chunk), last := snapshot.value)
  }

  function CmdsRead(s: Session, bytes: seq<byte>): seq<Cmd> {
    AnswerAll(s.codec.slots, CommandsOf(Scan(s.codec.frame, bytes).1)).1
  }

  function Step(c: W.Config, s: Session, a: Action): Session
    requires Enabled(s, a)
  {
    match a
    case PortRead(chunk) => s.(up := GotChunk(chunk), fromPort := s.fromPort + chunk)
    case Sync(snapshot) => Synchronise(s, snapshot, s.up.chunk)
    case Tick(snapshot) => Synchronise(s, snapshot, [])
    case WriteSettings => Write(s, Relay(s.up.payloads)).(up := Resume(s.up.chunk, Some(s.last)))
    case Plan(now) =>
      var (line, cells) := W.Planned(c, s.line, now, s.up.chunk);
      s.(up := Sending(cells, s.up.snap), line := line, calls := s.calls + [R.Call(now, s.up.chunk, 0)])
    case SendCell =>
      if s.up.cells == [] then s.(up := Waiting)
      else Write(s, Cell(s.up.cells[0].cell.data, s.up.snap)).(up := Sending(s.up.cells[1..], s.up.snap))
    case PeerRead(bytes) =>
      var (codec, out) := Decoding(s.codec, bytes);
      s.(codec := codec, inputs := s.inputs + [bytes], comOk := s.comOk && codec.slots.comPort,
         down := Replying(CmdsRead(s, bytes), out.data))
    case WriteReply =>
      (if s.down.cmds == [] then s else Write(s, Reply(s.down.cmds))).(down := Delivering(s.down.data))
    case DeliverData =>
      s.(toPort := s.toPort + s.down.data, down := Listening)
  }

  // ── what every step keeps ───────────────────────────────────────────────

  /** The settings a peer knows of once it has read these messages. */
  function Informed(pristine: Settings, ms: seq<Message>): Settings {
    HearAll(Record, pristine, RelaysIn(ms))
  }

  /** Every cell on the wire was preceded by the settings its chunk was synced to. */
  predicate SettingsFirst(pristine: Settings, ms: seq<Message>) {
    forall i :: 0 <= i < |ms| && ms[i].Cell? && ms[i].snap.Some? ==> Informed(pristine, ms[..i]) == ms[i].snap.value
  }

  /** The latch is closed by any read that ends while COM-PORT stands refused. */
  function Latch(c: Codec, inputs: seq<seq<byte>>): bool
    decreases |inputs|
  {
    inputs == [] ||
    (var c1 := Decoding(c, inputs[0]).0; c1.slots.comPort && Latch(c1, inputs[1..]))
  }

  function PendingCmds(d: Down): seq<Cmd> {
    if d.Replying? then d.cmds else []
  }

  function PendingData(d: Down): seq<byte> {
    if d.Listening? then [] else d.data
  }

  function PendingCells(u: Up): seq<byte> {
    if u.Sending? then W.BytesOf(u.cells) else []
  }

  function ChunkInHand(u: Up): seq<byte> {
    match u
    case GotChunk(chunk) => chunk
    case Relaying(_, _, chunk) => chunk
    case Synced(chunk, _) => chunk
    case _ => []
  }

  /** The socket holds whole messages, and their data is what the wire made of the port's bytes. */
  predicate SocketInv(c: W.Config, line: W.Line, s: Session) {
    && AllValid(s.sent) && AllCmds(PendingCmds(s.down))
    && s.socket == Written(s.sent)
    && s.line == R.Run(c, line, s.calls).0
    && DataIn(s.sent) + PendingCells(s.up) == W.BytesOf(R.Run(c, line, s.calls).1)
    && R.Stream(s.calls) + ChunkInHand(s.up) == s.fromPort
  }

  predicate SettingsInv(pristine: Settings, s: Session) {
    && Informed(pristine, s.sent) == (if s.up.Relaying? then s.up.was else s.last)
    && (s.up.Relaying? ==> s.up.payloads == Changes(s.up.was, s.last))
    && ((s.up.Synced? || s.up.Sending?) && s.up.snap.Some? ==> s.up.snap.value == s.last)
    && SettingsFirst(pristine, s.sent)
  }

  predicate ReplyInv(s: Session) {
    && Reachable(s.codec.frame)
    && s.codec == Decoding(NEW, Flatten(s.inputs)).0
    && s.toPort + PendingData(s.down) == Decoding(NEW, Flatten(s.inputs)).1.data
    && CmdsIn(s.sent) + PendingCmds(s.down)
       == OFFERS + AnswerAll(FRESH, CommandsOf(Scan(CLEAN, Flatten(s.inputs)).1)).1
    && s.comOk == Latch(NEW, s.inputs)
  }

  predicate Inv(c: W.Config, line: W.Line, pristine: Settings, s: Session) {
    SocketInv(c, line, s) && SettingsInv(pristine, s) && ReplyInv(s)
  }

  lemma WriteSnoc(ms: seq<Message>, m: Message)
    ensures Written(ms + [m]) == Written(ms) + MessageBytes(m)
    ensures DataIn(ms + [m]) == DataIn(ms) + MessageData(m)
    ensures CmdsIn(ms + [m]) == CmdsIn(ms) + MessageCmds(m)
    ensures RelaysIn(ms + [m]) == RelaysIn(ms) + MessageRelays(m)
  {
    FlatMapSnoc(MessageBytes, ms, m);
    FlatMapSnoc(MessageData, ms, m);
    FlatMapSnoc(MessageCmds, ms, m);
    FlatMapSnoc(MessageRelays, ms, m);
  }

  lemma InformedSnoc(pristine: Settings, ms: seq<Message>, m: Message)
    ensures Informed(pristine, ms + [m]) == HearAll(Record, Informed(pristine, ms), MessageRelays(m))
    ensures !m.Relay? ==> Informed(pristine, ms + [m]) == Informed(pristine, ms)
  {
    WriteSnoc(ms, m);
    HearAllConcat(Record, pristine, RelaysIn(ms), MessageRelays(m));
  }

  lemma SettingsFirstSnoc(pristine: Settings, ms: seq<Message>, m: Message)
    requires SettingsFirst(pristine, ms)
    requires m.Cell? && m.snap.Some? ==> Informed(pristine, ms) == m.snap.value
    ensures SettingsFirst(pristine, ms + [m])
  {
    var all := ms + [m];
    forall i | 0 <= i < |all| && all[i].Cell? && all[i].snap.Some?
      ensures Informed(pristine, all[..i]) == all[i].snap.value
    {
      if i < |ms| {
        assert all[..i] == ms[..i] && all[i] == ms[i];
      } else {
        assert all[..i] == ms;
      }
    }
  }

  lemma StartInv(c: W.Config, line: W.Line, pristine: Settings)
    ensures Inv(c, line, pristine, Start(pristine, line))
  {
    FlatMapOne(MessageBytes, Offers);
    FlatMapOne(MessageData, Offers);
    FlatMapOne(MessageCmds, Offers);
    FlatMapOne(MessageRelays, Offers);
    assert Scan(CLEAN, []) == (CLEAN, []) && AnswerAll(FRESH, []) == (FRESH, []);
    assert OFFERS + [] == OFFERS;
  }

  lemma SocketStep(c: W.Config, line: W.Line, s: Session, a: Action)
    requires Enabled(s, a) && SocketInv(c, line, s)
    ensures SocketInv(c, line, Step(c, s, a))
  {
    hide Written, DataIn, Changes, Decoding, MessageBytes, CmdsRead;
    hide R.Run, R.Stream, W.BytesOf, W.Planned, R.DataIn;
    NoBytes();
    assert DataIn(s.sent) + [] == DataIn(s.sent) && R.Stream(s.calls) + [] == R.Stream(s.calls);
    match a
    case WriteSettings =>
      WriteStep(c, line, s, Relay(s.up.payloads));
    case Plan(now) =>
      PlanStep(c, line, s, now);
    case SendCell =>
      if s.up.cells != [] {
        SendStep(c, line, s);
      }
    case PeerRead(bytes) =>
      AnswersValid(s, bytes);
    case WriteReply =>
      WriteStep(c, line, s, Reply(s.down.cmds));
    case _ =>
  }

  lemma AnswersValid(s: Session, bytes: seq<byte>)
    ensures AllCmds(CmdsRead(s, bytes))
  {
    AnswersNeverMultiply(s.codec.slots, CommandsOf(Scan(s.codec.frame, bytes).1));
  }

  /** Writing a message that is no cell. */
  lemma WriteStep(c: W.Config, line: W.Line, s: Session, m: Message)
    requires SocketInv(c, line, s) && !m.Cell? && ValidMessage(m)
    ensures SocketInv(c, line, Write(s, m))
  {
    hide Written, DataIn, MessageBytes, R.Run, R.Stream, W.BytesOf;
    WriteSnoc(s.sent, m);
    assert DataIn(s.sent) + [] == DataIn(s.sent);
  }

  lemma SendStep(c: W.Config, line: W.Line, s: Session)
    requires Enabled(s, SendCell) && s.up.Sending? && s.up.cells != [] && SocketInv(c, line, s)
    ensures SocketInv(c, line, Step(c, s, SendCell))
  {
    hide Written, DataIn, MessageBytes, R.Run, R.Stream, W.BytesOf;
    WriteSnoc(s.sent, Cell(s.up.cells[0].cell.data, s.up.snap));
    BytesOfHead(s.up.cells);
    Assoc(DataIn(s.sent), s.up.cells[0].cell.data, W.BytesOf(s.up.cells[1..]));
  }

  lemma NoBytes()
    ensures W.BytesOf([]) == []
  {
  }

  lemma BytesOfHead(xs: seq<W.Crossing>)
    requires xs != []
    ensures W.BytesOf(xs) == xs[0].cell.data + W.BytesOf(xs[1..])
  {
  }

  lemma PlanStep(c: W.Config, line: W.Line, s: Session, now: nat)
    requires s.up.Synced? && SocketInv(c, line, s)
    ensures SocketInv(c, line, Step(c, s, Plan(now)))
  {
    hide Written, DataIn, R.Run, W.Planned;
    var call := R.Call(now, s.up.chunk, 0);
    R.RunSnoc(c, line, s.calls, call);
    var (l1, xs) := R.Run(c, line, s.calls);
    FlatMapConcat(W.CellData, xs, W.Planned(c, l1, now, s.up.chunk).1);
    FlatMapSnoc(R.DataIn, s.calls, call);
    assert DataIn(s.sent) + [] == DataIn(s.sent);
    assert R.Stream(s.calls) + s.up.chunk + [] == R.Stream(s.calls) + s.up.chunk;
  }

  lemma SettingsStep(c: W.Config, pristine: Settings, s: Session, a: Action)
    requires Enabled(s, a) && SettingsInv(pristine, s)
    ensures SettingsInv(pristine, Step(c, s, a))
  {
    hide Informed, Changes, SettingsFirst, MessageBytes, Decoding, CmdsRead, W.Planned;
    match a
    case WriteSettings =>
      InformedSnoc(pristine, s.sent, Relay(s.up.payloads));
      ChangesRebuild(s.up.was, s.last);
      SettingsFirstSnoc(pristine, s.sent, Relay(s.up.payloads));
    case SendCell =>
      if s.up.cells != [] {
        var m := Cell(s.up.cells[0].cell.data, s.up.snap);
        InformedSnoc(pristine, s.sent, m);
        SettingsFirstSnoc(pristine, s.sent, m);
      }
    case WriteReply =>
      InformedSnoc(pristine, s.sent, Reply(s.down.cmds));
      SettingsFirstSnoc(pristine, s.sent, Reply(s.down.cmds));
    case _ =>
  }

  lemma {:induction false} LatchSnoc(c: Codec, inputs: seq<seq<byte>>, bytes: seq<byte>)
    ensures Latch(c, inputs + [bytes]) <==>
      Latch(c, inputs) && Decoding(Decoding(c, Flatten(inputs)).0, bytes).0.slots.comPort
    decreases |inputs|
  {
    hide Scan, Interpret;
    if inputs == [] {
      assert inputs + [bytes] == [bytes] && [bytes][1..] == [];
      DecodingNothing(c);
    } else {
      assert (inputs + [bytes])[1..] == inputs[1..] + [bytes];
      DecodeConcat(c, inputs[0], Flatten(inputs[1..]));
      LatchSnoc(Decoding(c, inputs[0]).0, inputs[1..], bytes);
    }
  }

  lemma DecodingNothing(c: Codec)
    ensures Decoding(c, []) == (c, NOTHING)
  {
    assert Interpret(c.slots, []) == (c.slots, NOTHING);
  }

  /** One more read: codec, data and answers continue from where the earlier ones left off. */
  lemma ReadSnoc(inputs: seq<seq<byte>>, bytes: seq<byte>)
    ensures var c := Decoding(NEW, Flatten(inputs)).0;
            var all := Flatten(inputs + [bytes]);
            && Decoding(NEW, all).0 == Decoding(c, bytes).0
            && Decoding(NEW, all).1.data == Decoding(NEW, Flatten(inputs)).1.data + Decoding(c, bytes).1.data
            && AnswerAll(FRESH, CommandsOf(Scan(CLEAN, all).1)).1
               == AnswerAll(FRESH, CommandsOf(Scan(CLEAN, Flatten(inputs)).1)).1
                + AnswerAll(c.slots, CommandsOf(Scan(c.frame, bytes).1)).1
  {
    var before := Flatten(inputs);
    FlattenSnoc(inputs, bytes);
    DecodeConcat(NEW, before, bytes);
    ScanConcat(CLEAN, before, bytes);
    var (f, es) := Scan(CLEAN, before);
    var more := Scan(f, bytes).1;
    FlatMapConcat(CommandIn, es, more);
    AnswerAllConcat(FRESH, CommandsOf(es), CommandsOf(more));
  }

  lemma ReplyStep(c: W.Config, s: Session, a: Action)
    requires Enabled(s, a) && ReplyInv(s)
    ensures ReplyInv(Step(c, s, a))
  {
    hide W.Planned, Changes, MessageBytes, Latch, Decoding, Scan, AnswerAll, Reachable, CmdsIn, CmdsRead, Flatten;
    match a
    case PeerRead(bytes) =>
      ReadStep(c, s, bytes);
    case WriteReply =>
      CmdsSnoc(s.sent, Reply(s.down.cmds));
    case DeliverData =>
      assert s.toPort + s.down.data + [] == s.toPort + s.down.data;
    case WriteSettings =>
      CmdsSnoc(s.sent, Relay(s.up.payloads));
    case SendCell =>
      if s.up.cells != [] {
        CmdsSnoc(s.sent, Cell(s.up.cells[0].cell.data, s.up.snap));
      }
    case _ =>
  }

  lemma CmdsSnoc(ms: seq<Message>, m: Message)
    ensures CmdsIn(ms + [m]) == CmdsIn(ms) + MessageCmds(m)
    ensures CmdsIn(ms) + [] == CmdsIn(ms) && CmdsIn(ms) + MessageCmds(m) + [] == CmdsIn(ms) + MessageCmds(m)
  {
    FlatMapSnoc(MessageCmds, ms, m);
  }

  lemma ReadStep(c: W.Config, s: Session, bytes: seq<byte>)
    requires s.down.Listening? && bytes != [] && ReplyInv(s)
    ensures ReplyInv(Step(c, s, PeerRead(bytes)))
  {
    hide Latch, Interpret, Reachable, CmdsIn, Scan, AnswerAll, CommandsOf, Flatten, MessageBytes;
    ReadSnoc(s.inputs, bytes);
    LatchSnoc(NEW, s.inputs, bytes);
    EncodeInvertsScan(s.codec.frame, bytes);
    assert CmdsIn(s.sent) + [] == CmdsIn(s.sent) && s.toPort + [] == s.toPort;
    Assoc(OFFERS, AnswerAll(FRESH, CommandsOf(Scan(CLEAN, Flatten(s.inputs)).1)).1, CmdsRead(s, bytes));
  }

  // ── whole runs ──────────────────────────────────────────────────────────

  predicate Possible(c: W.Config, s: Session, actions: seq<Action>)
    decreases |actions|
  {
    actions == [] || (Enabled(s, actions[0]) && Possible(c, Step(c, s, actions[0]), actions[1..]))
  }

  function Run(c: W.Config, s: Session, actions: seq<Action>): Session
    requires Possible(c, s, actions)
    decreases |actions|
  {
    if actions == [] then s else Run(c, Step(c, s, actions[0]), actions[1..])
  }

  lemma InvStep(c: W.Config, line: W.Line, pristine: Settings, s: Session, a: Action)
    requires Inv(c, line, pristine, s) && Enabled(s, a)
    ensures Inv(c, line, pristine, Step(c, s, a))
  {
    hide Step, Enabled, SocketInv, SettingsInv, ReplyInv;
    SocketStep(c, line, s, a);
    SettingsStep(c, pristine, s, a);
    ReplyStep(c, s, a);
  }

  lemma {:induction false} RunKeepsInv(c: W.Config, line: W.Line, pristine: Settings, s: Session, actions: seq<Action>)
    requires Possible(c, s, actions)
    ensures Inv(c, line, pristine, s) ==> Inv(c, line, pristine, Run(c, s, actions))
    decreases |actions|
  {
    hide Inv, Step, Enabled;
    if actions != [] && Inv(c, line, pristine, s) {
      InvStep(c, line, pristine, s, actions[0]);
      RunKeepsInv(c, line, pristine, Step(c, s, actions[0]), actions[1..]);
    }
  }

  /** A session any run can reach. */
  function Reached(c: W.Config, line: W.Line, pristine: Settings, actions: seq<Action>): Session
    requires Possible(c, Start(pristine, line), actions)
  {
    Run(c, Start(pristine, line), actions)
  }

  lemma ReachedInv(c: W.Config, line: W.Line, pristine: Settings, actions: seq<Action>)
    requires Possible(c, Start(pristine, line), actions)
    ensures Inv(c, line, pristine, Reached(c, line, pristine, actions))
  {
    hide Inv;
    StartInv(c, line, pristine);
    RunKeepsInv(c, line, pristine, Start(pristine, line), actions);
  }

  /**
   * The socket in any run: a peer reading it recovers, in order, what the wire made of
   * the port's bytes, up to the cells still to be sent; its commands are the opening
   * offers followed by the codec's answers to everything read, up to those still to be
   * written; and the port is owed exactly the decoded bytes.
   */
  lemma SessionIsTransparent(c: W.Config, line: W.Line, pristine: Settings, actions: seq<Action>)
    requires Possible(c, Start(pristine, line), actions)
    ensures var s := Reached(c, line, pristine, actions);
            var (frame, seen) := Scan(CLEAN, s.socket);
            && frame == CLEAN
            && DataOf(seen) + PendingCells(s.up) == W.BytesOf(R.Run(c, line, s.calls).1)
            && R.Stream(s.calls) + ChunkInHand(s.up) == s.fromPort
            && CommandsOf(seen) + PendingCmds(s.down)
               == OFFERS + AnswerAll(FRESH, CommandsOf(Scan(CLEAN, Flatten(s.inputs)).1)).1
            && s.toPort + PendingData(s.down) == Decoding(NEW, Flatten(s.inputs)).1.data
  {
    hide Reached, R.Run;
    ReachedInv(c, line, pristine, actions);
    PeerRecoversMessages(Reached(c, line, pristine, actions).sent, FRESH);
  }

  /** Over a noiseless wire the peer reads the port's own bytes, whatever control traffic runs between them. */
  lemma NoiselessSessionIsLossless(c: W.Config, line: W.Line, pristine: Settings, actions: seq<Action>)
    requires Possible(c, Start(pristine, line), actions)
    requires !N.On(c.rates.drop) && !N.On(c.rates.corrupt)
    ensures var s := Reached(c, line, pristine, actions);
            DataOf(Scan(CLEAN, s.socket).1) + PendingCells(s.up) + ChunkInHand(s.up) == s.fromPort
  {
    hide Reached, R.Run, N.Transformed, Scan;
    var s := Reached(c, line, pristine, actions);
    SessionIsTransparent(c, line, pristine, actions);
    R.QuietRunDelivers(c, line, s.calls);
  }

  /**
   * Settings over any run: the commands the peer has decoded rebuild exactly the last
   * relayed snapshot from the pristine one, except while the commands of the last change
   * still wait for the lock.
   */
  lemma PeerHoldsLastSettings(c: W.Config, line: W.Line, pristine: Settings, actions: seq<Action>)
    requires Possible(c, Start(pristine, line), actions)
    ensures var s := Reached(c, line, pristine, actions);
            HearAll(Record, pristine, SubnegsOf(Scan(CLEAN, s.socket).1)) == if s.up.Relaying? then s.up.was else s.last
  {
    hide Reached, R.Run;
    ReachedInv(c, line, pristine, actions);
    PeerRecoversMessages(Reached(c, line, pristine, actions).sent, FRESH);
  }

  /**
   * Settings before data: for every cell written for a chunk whose sync found COM-PORT
   * accepted and read a snapshot, the bytes before the cell already tell the peer that
   * snapshot, however the two tasks interleave.
   */
  lemma SettingsPrecedeData(c: W.Config, line: W.Line, pristine: Settings, actions: seq<Action>, i: nat)
    requires Possible(c, Start(pristine, line), actions)
    requires i < |Reached(c, line, pristine, actions).sent|
    ensures var s := Reached(c, line, pristine, actions);
            && Written(s.sent[..i]) + MessageBytes(s.sent[i]) <= s.socket
            && (s.sent[i].Cell? && s.sent[i].snap.Some? ==>
                  HearAll(Record, pristine, SubnegsOf(Scan(CLEAN, Written(s.sent[..i])).1)) == s.sent[i].snap.value)
  {
    hide Reached, ReplyInv, R.Run, MessageBytes, Scan;
    ReachedInv(c, line, pristine, actions);
    var s := Reached(c, line, pristine, actions);
    MessagesBefore(s.sent, i);
    PeerRecoversMessages(s.sent[..i], FRESH);
  }

  lemma MessagesBefore(ms: seq<Message>, i: nat)
    requires i < |ms|
    ensures Written(ms[..i]) + MessageBytes(ms[i]) <= Written(ms)
  {
    hide MessageBytes;
    assert ms == (ms[..i] + [ms[i]]) + ms[i + 1..];
    FlatMapConcat(MessageBytes, ms[..i] + [ms[i]], ms[i + 1..]);
    FlatMapSnoc(MessageBytes, ms[..i], ms[i]);
  }

  /** Since message `base`, every cell carries the snapshot `now`, and so will those of the chunk in hand. */
  predicate Tagged(s: Session, base: nat, now: Settings) {
    && base <= |s.sent|
    && (forall i :: base <= i < |s.sent| && s.sent[i].Cell? ==> s.sent[i].snap == Some(now))
    && match s.up
       case Waiting => true
       case GotChunk(_) => false
       case Relaying(_, _, chunk) => chunk == [] || s.last == now
       case Synced(_, snap) => snap == Some(now)
       case Sending(_, snap) => snap == Some(now)
  }

  predicate ReadsNoPort(actions: seq<Action>) {
    forall k :: 0 <= k < |actions| ==> !actions[k].PortRead?
  }

  lemma StepKeepsTags(c: W.Config, s: Session, a: Action, base: nat, now: Settings)
    requires Tagged(s, base, now) && Enabled(s, a) && !a.PortRead?
    ensures Tagged(Step(c, s, a), base, now)
  {
    hide MessageBytes, Changes, W.Planned, Decoding, CmdsRead;
  }

  lemma {:induction false} RunKeepsTags(c: W.Config, s: Session, actions: seq<Action>, base: nat, now: Settings)
    requires Tagged(s, base, now) && Possible(c, s, actions) && ReadsNoPort(actions)
    ensures Tagged(Run(c, s, actions), base, now)
    decreases |actions|
  {
    hide Tagged, Step, Enabled;
    if actions != [] {
      assert !actions[0].PortRead?;
      StepKeepsTags(c, s, actions[0], base, now);
      RunKeepsTags(c, Step(c, s, actions[0]), actions[1..], base, now);
    }
  }

  /**
   * Settings before their chunk, over runs: a chunk was read, COM-PORT is accepted and the
   * sync reads the snapshot `now`. Then, whatever both tasks do up to the next read of the
   * port, the bytes before every cell of the chunk already tell the peer `now`.
   */
  lemma ChunkFollowsItsSnapshot(c: W.Config, line: W.Line, pristine: Settings,
                                before: seq<Action>, now: Settings, after: seq<Action>)
    requires Possible(c, Start(pristine, line), before)
    requires Reached(c, line, pristine, before).up.GotChunk? && Reached(c, line, pristine, before).comOk
    requires Possible(c, Step(c, Reached(c, line, pristine, before), Sync(Some(now))), after) && ReadsNoPort(after)
    ensures var base := |Reached(c, line, pristine, before).sent|;
            var s := Run(c, Step(c, Reached(c, line, pristine, before), Sync(Some(now))), after);
            && base <= |s.sent|
            && forall i :: base <= i < |s.sent| && s.sent[i].Cell? ==>
                 && Written(s.sent[..i]) + MessageBytes(s.sent[i]) <= s.socket
                 && HearAll(Record, pristine, SubnegsOf(Scan(CLEAN, Written(s.sent[..i])).1)) == now
  {
    hide Reached, Run, Inv, Tagged, MessageBytes, Scan, Step, HearAll;
    var s0 := Reached(c, line, pristine, before);
    var s1 := Step(c, s0, Sync(Some(now)));
    ReachedInv(c, line, pristine, before);
    InvStep(c, line, pristine, s0, Sync(Some(now)));
    RunKeepsInv(c, line, pristine, s1, after);
    SyncTags(c, s0, now);
    RunKeepsTags(c, s1, after, |s0.sent|, now);
    TaggedBytes(c, line, pristine, Run(c, s1, after), |s0.sent|, now);
  }

  lemma SyncTags(c: W.Config, s: Session, now: Settings)
    requires s.up.GotChunk? && s.comOk
    ensures Tagged(Step(c, s, Sync(Some(now))), |s.sent|, now)
  {
    hide MessageBytes, Changes, W.Planned, Decoding, CmdsRead;
  }

  lemma TaggedBytes(c: W.Config, line: W.Line, pristine: Settings, s: Session, base: nat, now: Settings)
    requires Inv(c, line, pristine, s) && Tagged(s, base, now)
    ensures base <= |s.sent|
    ensures forall i :: base <= i < |s.sent| && s.sent[i].Cell? ==>
              && Written(s.sent[..i]) + MessageBytes(s.sent[i]) <= s.socket
              && HearAll(Record, pristine, SubnegsOf(Scan(CLEAN, Written(s.sent[..i])).1)) == now
  {
    hide ReplyInv, R.Run, MessageBytes, Scan;
    forall i | base <= i < |s.sent| && s.sent[i].Cell?
      ensures Written(s.sent[..i]) + MessageBytes(s.sent[i]) <= s.socket
      ensures HearAll(Record, pristine, SubnegsOf(Scan(CLEAN, Written(s.sent[..i])).1)) == now
    {
      MessagesBefore(s.sent, i);
      PeerRecoversMessages(s.sent[..i], FRESH);
    }
  }

  // ── the latch sees read boundaries ──────────────────────────────────────

  /** In any run relaying stops exactly when some read ended with COM-PORT refused. */
  lemma LatchIsPerRead(c: W.Config, line: W.Line, pristine: Settings, actions: seq<Action>)
    requires Possible(c, Start(pristine, line), actions)
    ensures var s := Reached(c, line, pristine, actions); s.comOk == Latch(NEW, s.inputs)
  {
    hide Reached;
    ReachedInv(c, line, pristine, actions);
  }
}
