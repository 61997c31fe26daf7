/**
 * When relaying survives, and what that means on the socket. The latch of a session looks
 * at COM-PORT once per read, so the cutting of the peer's stream into reads can matter; a
 * closed latch silences the relay for good, an open one relays every poll.
 */
module RelayLatch {
  import opened Common
  import opened TelnetFraming
  import opened TelnetNegotiation
  import opened TelnetCodec
  import opened PortSettings
  import opened BridgeSession
  import W = Wire

  /** Whether COM-PORT stands agreed once a fresh codec has read `input`. */
  predicate Agreed(input: seq<byte>) {
    Decoding(NEW, input).0.slots.comPort
  }

  /** The verdicts on COM-PORT in a stream, in order. */
  function PortVerdicts(input: seq<byte>): seq<bool> {
    VerdictsFor(ComPort, CommandsOf(Scan(CLEAN, input).1))
  }

  lemma AgreedIsLastVerdict(input: seq<byte>)
    ensures var vs := PortVerdicts(input); Agreed(input) == (vs == [] || vs[|vs| - 1])
  {
    hide Scan, AnswerAll, VerdictsFor, AllCmds, AllLegal, CommandsOf, EncodeAll;
    EncodeInvertsScan(CLEAN, input);
    CommandsAreCmds(Scan(CLEAN, input).1);
    SlotHoldsLastVerdict(FRESH, CommandsOf(Scan(CLEAN, input).1), ComPort);
  }

  lemma VerdictsConcat(a: seq<byte>, b: seq<byte>)
    ensures PortVerdicts(a + b)
         == PortVerdicts(a) + VerdictsFor(ComPort, CommandsOf(Scan(Scan(CLEAN, a).0, b).1))
  {
    hide Scan, VerdictsFor;
    ScanConcat(CLEAN, a, b);
    var es, more := Scan(CLEAN, a).1, Scan(Scan(CLEAN, a).0, b).1;
    FlatMapConcat(CommandIn, es, more);
    VerdictsForConcat(ComPort, CommandsOf(es), CommandsOf(more));
  }

  lemma OneByteOneVerdict(f: Frame, b: byte)
    ensures |VerdictsFor(ComPort, CommandsOf(Scan(f, [b]).1))| <= 1
  {
    ScanOne(f, b);
    var es := TelnetFraming.Step(f, b).1;
    if es != [] {
      assert es == [es[0]];
      FlatMapOne(CommandIn, es[0]);
      var cs := CommandIn(es[0]);
      if cs != [] {
        assert cs[1..] == [] && VerdictsFor(ComPort, cs[1..]) == [];
      }
    }
  }

  /** A refusal anywhere in the stream is the last verdict of some prefix. */
  lemma {:induction false} RefusalShows(input: seq<byte>) returns (k: nat)
    requires false in PortVerdicts(input)
    ensures k <= |input| && !Agreed(input[..k])
    decreases |input|
  {
    hide Agreed, VerdictsFor;
    NoVerdicts();
    var init, b := input[..|input| - 1], input[|input| - 1];
    assert input == init + [b];
    VerdictsConcat(init, [b]);
    OneByteOneVerdict(Scan(CLEAN, init).0, b);
    if false in PortVerdicts(init) {
      k := RefusalShows(init);
      assert init[..k] == input[..k];
    } else {
      k := |input|;
      assert input[..k] == input;
      AgreedIsLastVerdict(input);
    }
  }

  lemma NoVerdicts()
    ensures PortVerdicts([]) == []
  {
  }

  /** Without a refusal in the stream, every prefix ends agreed. */
  lemma NoRefusalNoPrefix(input: seq<byte>, k: nat)
    requires false !in PortVerdicts(input) && k <= |input|
    ensures Agreed(input[..k])
  {
    hide VerdictsFor, Agreed;
    assert input[..k] + input[k..] == input;
    VerdictsConcat(input[..k], input[k..]);
    AgreedIsLastVerdict(input[..k]);
    assert forall v :: v in PortVerdicts(input[..k]) ==> v in PortVerdicts(input);
  }

  // ── the latch over a cutting ────────────────────────────────────────────

  /** One more read closes the latch if COM-PORT stands refused after it. */
  lemma LatchReads(parts: seq<seq<byte>>, bytes: seq<byte>)
    ensures Flatten(parts + [bytes]) == Flatten(parts) + bytes
    ensures Latch(NEW, parts + [bytes]) <==> Latch(NEW, parts) && Agreed(Flatten(parts) + bytes)
  {
    hide Latch, Decoding;
    FlattenSnoc(parts, bytes);
    LatchSnoc(NEW, parts, bytes);
    DecodeConcat(NEW, Flatten(parts), bytes);
  }

  lemma {:induction false} LatchOpen(parts: seq<seq<byte>>)
    requires false !in PortVerdicts(Flatten(parts))
    ensures Latch(NEW, parts)
    decreases |parts|
  {
    hide Agreed, PortVerdicts;
    if parts != [] {
      var init, bytes := parts[..|parts| - 1], parts[|parts| - 1];
      assert parts == init + [bytes];
      LatchReads(init, bytes);
      VerdictsConcat(Flatten(init), bytes);
      LatchOpen(init);
      NoRefusalNoPrefix(Flatten(parts), |Flatten(parts)|);
      assert Flatten(parts)[..|Flatten(parts)|] == Flatten(parts);
    }
  }

  lemma LatchShut(parts: seq<seq<byte>>)
    requires !Agreed(Flatten(parts))
    ensures !Latch(NEW, parts)
  {
    if parts == [] {
      DecodingNothing(NEW);
      assert false;
    } else {
      hide Agreed;
      var init, bytes := parts[..|parts| - 1], parts[|parts| - 1];
      assert parts == init + [bytes];
      LatchReads(init, bytes);
    }
  }

  /** Every cutting of the stream into reads leaves the same latch. */
  ghost predicate CuttingIsImmaterial(input: seq<byte>) {
    forall p, q :: Flatten(p) == input && Flatten(q) == input ==> Latch(NEW, p) == Latch(NEW, q)
  }

  /** A stream that holds a refusal but ends agreed: one read keeps relaying, a cut after the refusal stops it. */
  lemma CutThatMatters(input: seq<byte>) returns (k: nat)
    requires false in PortVerdicts(input) && Agreed(input)
    ensures 0 < k < |input| && Latch(NEW, [input]) && !Latch(NEW, [input[..k], input[k..]])
  {
    hide Agreed, Latch;
    k := RefusalShows(input);
    assert input[..k] + input[k..] == input && input[..|input|] == input && input[..0] == [];
    assert Agreed([]) by { AgreedIsLastVerdict([]); NoVerdicts(); }
    LatchNothing();
    LatchReads([], input);
    LatchReads([], input[..k]);
    LatchReads([input[..k]], input[k..]);
    assert [] + input == input && [] + input[..k] == input[..k] && [] + [input] == [input];
    assert [] + [input[..k]] == [input[..k]] && [input[..k]] + [input[k..]] == [input[..k], input[k..]];
  }

  lemma LatchNothing()
    ensures Latch(NEW, [])
  {
  }

  /**
   * The latch, exactly: the cutting of a stream into reads is immaterial to relaying if
   * and only if the stream's COM-PORT verdicts hold no refusal, or end in one.
   */
  lemma CuttingIsImmaterialExactly(input: seq<byte>)
    ensures var vs := PortVerdicts(input);
            CuttingIsImmaterial(input) <==> (false !in vs || !vs[|vs| - 1])
  {
    hide Agreed, Latch, PortVerdicts;
    var vs := PortVerdicts(input);
    AgreedIsLastVerdict(input);
    if false in vs && vs[|vs| - 1] {
      var k := CutThatMatters(input);
      FlattenTwo(input, k);
      assert !CuttingIsImmaterial(input);
    } else {
      forall p, q | Flatten(p) == input && Flatten(q) == input
        ensures Latch(NEW, p) == Latch(NEW, q)
      {
        if false !in vs {
          LatchOpen(p);
          LatchOpen(q);
        } else {
          LatchShut(p);
          LatchShut(q);
        }
      }
    }
  }

  lemma FlattenTwo(input: seq<byte>, k: nat)
    requires k <= |input|
    ensures Flatten([input]) == input && Flatten([input[..k], input[k..]]) == input
  {
    assert [input][1..] == [] && [input[..k], input[k..]][1..] == [input[k..]] && [input[k..]][1..] == [];
    assert Flatten([input]) == input + [] && Flatten([input[k..]]) == input[k..] + [];
  }

  /**
   * Over sessions, and so for any two that have read the same stream: relaying is on if
   * the stream held no refusal of COM-PORT, and off if it ends refused.
   */
  lemma RelayingFollowsVerdicts(c: W.Config, line: W.Line, pristine: Settings, actions: seq<Action>)
    requires Possible(c, Start(pristine, line), actions)
    ensures var s := Reached(c, line, pristine, actions);
            var vs := PortVerdicts(Flatten(s.inputs));
            && (false !in vs ==> s.comOk)
            && (vs != [] && !vs[|vs| - 1] ==> !s.comOk)
  {
    hide Reached, PortVerdicts, Agreed;
    var s := Reached(c, line, pristine, actions);
    LatchIsPerRead(c, line, pristine, actions);
    AgreedIsLastVerdict(Flatten(s.inputs));
    if false !in PortVerdicts(Flatten(s.inputs)) {
      LatchOpen(s.inputs);
    } else if !Agreed(Flatten(s.inputs)) {
      LatchShut(s.inputs);
    }
  }

  /** A refusal taken back within one read goes unnoticed; split over two reads it stops the relay for good. */
  lemma LatchDependsOnBoundaries()
    ensures var refusal, change := CmdBytes([Cmd(DONT, OPT_COM_PORT)]), CmdBytes([Cmd(DO, OPT_COM_PORT)]);
            && Decoding(NEW, refusal + change).0 == Decoding(Decoding(NEW, refusal).0, change).0
            && Latch(NEW, [refusal + change]) && !Latch(NEW, [refusal, change])
  {
    hide Decoding;
    var no, yes := Cmd(DONT, OPT_COM_PORT), Cmd(DO, OPT_COM_PORT);
    var refusal, change := CmdBytes([no]), CmdBytes([yes]);
    DecodeConcat(NEW, refusal, change);
    DecodeCmd(FRESH, no);
    DecodeCmd(Set(FRESH, ComPort, false), yes);
    assert [refusal + change][1..] == [] && Latch(Decoding(NEW, refusal + change).0, []);
  }

  lemma DecodeCmd(slots: Slots, c: Cmd)
    requires IsCmd(c)
    ensures Decoding(Codec(CLEAN, slots), CmdBytes([c])).0 == Codec(CLEAN, Answer(slots, c).0)
  {
    CmdBytesEvents([c]);
    DecodingIsExact(slots, CmdEvents([c]));
    AnswerAllOne(slots, c);
  }

  // ── what the latch does to the socket ───────────────────────────────────

  /** The settings commands a peer has decoded. */
  function Told(s: Session): seq<seq<byte>> {
    SubnegsOf(Scan(CLEAN, s.socket).1)
  }

  /** Commands that were waiting for the lock in `s0`, and have been written by `s`. */
  function Flushed(s0: Session, s: Session): seq<seq<byte>> {
    if s0.up.Relaying? && !s.up.Relaying? then s0.up.payloads else []
  }

  /** `s` follows `s0` with the latch closed: the last relayed settings stand, and nothing new is relayed. */
  predicate Silent(s0: Session, s: Session) {
    && !s.comOk && s.last == s0.last
    && (s.up.Relaying? ==> s0.up.Relaying? && s.up.payloads == s0.up.payloads)
    && RelaysIn(s.sent) == RelaysIn(s0.sent) + Flushed(s0, s)
  }

  lemma SilentStep(c: W.Config, s0: Session, s: Session, a: Action)
    requires Silent(s0, s) && Enabled(s, a)
    ensures Silent(s0, BridgeSession.Step(c, s, a))
  {
    hide MessageBytes, Changes, W.Planned, Decoding, CmdsRead, RelaysIn;
    RelaysSnoc(s.sent, Relay([]));
    match a
    case WriteSettings => RelaysSnoc(s.sent, Relay(s.up.payloads));
    case WriteReply => RelaysSnoc(s.sent, Reply(s.down.cmds));
    case SendCell =>
      if s.up.cells != [] {
        RelaysSnoc(s.sent, Cell(s.up.cells[0].cell.data, s.up.snap));
      }
    case _ =>
  }

  lemma RelaysSnoc(ms: seq<Message>, m: Message)
    ensures RelaysIn(ms + [m]) == RelaysIn(ms) + (if m.Relay? then m.payloads else [])
    ensures RelaysIn(ms) + [] == RelaysIn(ms)
  {
    FlatMapSnoc(MessageRelays, ms, m);
  }

  lemma {:induction false} SilentRun(c: W.Config, s0: Session, s: Session, actions: seq<Action>)
    requires Silent(s0, s) && Possible(c, s, actions)
    ensures Silent(s0, Run(c, s, actions))
    decreases |actions|
  {
    hide Silent, BridgeSession.Step, Enabled;
    if actions != [] {
      SilentStep(c, s0, s, actions[0]);
      SilentRun(c, s0, BridgeSession.Step(c, s, actions[0]), actions[1..]);
    }
  }

  /** What a peer has decoded is what the session's relay messages say. */
  lemma ToldIsRelayed(c: W.Config, line: W.Line, pristine: Settings, s: Session)
    requires Inv(c, line, pristine, s)
    ensures Told(s) == RelaysIn(s.sent)
  {
    PeerRecoversMessages(s.sent, FRESH);
  }

  /**
   * A closed latch silences the relay, in every run: whatever happens after COM-PORT was
   * refused, whatever the port is set to, the peer decodes no settings command but those
   * that were already waiting for the lock.
   */
  lemma RefusalSilencesTheRelay(c: W.Config, line: W.Line, pristine: Settings, before: seq<Action>, after: seq<Action>)
    requires Possible(c, Start(pristine, line), before)
    requires !Reached(c, line, pristine, before).comOk
    requires Possible(c, Reached(c, line, pristine, before), after)
    ensures var s0, s := Reached(c, line, pristine, before), Run(c, Reached(c, line, pristine, before), after);
            && !s.comOk && s.last == s0.last
            && Told(s) == Told(s0) + (if s0.up.Relaying? && !s.up.Relaying? then s0.up.payloads else [])
  {
    hide Reached, Run, Inv, Told, RelaysIn, Possible, Start;
    var s0 := Reached(c, line, pristine, before);
    var s := Run(c, s0, after);
    ReachedInv(c, line, pristine, before);
    RunKeepsInv(c, line, pristine, s0, after);
    RelaysSnoc(s0.sent, Offers);
    SilentRun(c, s0, s0, after);
    ToldIsRelayed(c, line, pristine, s0);
    ToldIsRelayed(c, line, pristine, s);
  }

  /** In terms of bytes: once what was read ends in a refusal of COM-PORT, no further settings command is relayed. */
  lemma RefusedPeerHearsNoMore(c: W.Config, line: W.Line, pristine: Settings, before: seq<Action>, after: seq<Action>)
    requires Possible(c, Start(pristine, line), before)
    requires var vs := PortVerdicts(Flatten(Reached(c, line, pristine, before).inputs)); vs != [] && !vs[|vs| - 1]
    requires Possible(c, Reached(c, line, pristine, before), after)
    requires !Reached(c, line, pristine, before).up.Relaying?
    ensures Told(Run(c, Reached(c, line, pristine, before), after)) == Told(Reached(c, line, pristine, before))
  {
    hide Reached, Run, Told, PortVerdicts, Possible, Start;
    RelayingFollowsVerdicts(c, line, pristine, before);
    RefusalSilencesTheRelay(c, line, pristine, before, after);
  }

  // ── and an open one ─────────────────────────────────────────────────────

  /** Steps after a poll of the settings and before the next. */
  predicate PollsNothing(actions: seq<Action>) {
    forall k :: 0 <= k < |actions| ==> !actions[k].PortRead? && !actions[k].Tick?
  }

  /** After a poll that read `now`: those are the settings in force, and their commands are written or wait. */
  predicate Polled(s0: Session, now: Settings, s: Session) {
    && !s.up.GotChunk? && s.last == now
    && (s.up.Relaying? ==> s.up.payloads == Changes(s0.last, now))
    && RelaysIn(s.sent) == RelaysIn(s0.sent) + (if s.up.Relaying? then [] else Changes(s0.last, now))
  }

  lemma PolledStep(c: W.Config, s0: Session, now: Settings, s: Session, a: Action)
    requires Polled(s0, now, s) && Enabled(s, a) && !a.PortRead? && !a.Tick?
    ensures Polled(s0, now, BridgeSession.Step(c, s, a))
  {
    hide MessageBytes, Changes, W.Planned, Decoding, CmdsRead, RelaysIn;
    RelaysSnoc(s.sent, Relay([]));
    RelaysSnoc(s0.sent, Relay([]));
    match a
    case WriteSettings => RelaysSnoc(s.sent, Relay(s.up.payloads));
    case WriteReply => RelaysSnoc(s.sent, Reply(s.down.cmds));
    case SendCell =>
      if s.up.cells != [] {
        RelaysSnoc(s.sent, Cell(s.up.cells[0].cell.data, s.up.snap));
      }
    case _ =>
  }

  lemma {:induction false} PolledRun(c: W.Config, s0: Session, now: Settings, s: Session, actions: seq<Action>)
    requires Polled(s0, now, s) && Possible(c, s, actions) && PollsNothing(actions)
    ensures Polled(s0, now, Run(c, s, actions))
    decreases |actions|
  {
    hide Polled, BridgeSession.Step, Enabled;
    if actions != [] {
      assert !actions[0].PortRead? && !actions[0].Tick?;
      assert forall k :: 0 <= k < |actions[1..]| ==> actions[1..][k] == actions[k + 1];
      PolledStep(c, s0, now, s, actions[0]);
      PolledRun(c, s0, now, BridgeSession.Step(c, s, actions[0]), actions[1..]);
    }
  }

  lemma PollBegins(c: W.Config, s0: Session, now: Settings, poll: Action)
    requires poll == Tick(Some(now)) || poll == Sync(Some(now))
    requires Enabled(s0, poll) && s0.comOk
    ensures Polled(s0, now, BridgeSession.Step(c, s0, poll))
  {
    hide RelaysIn;
    RelaysSnoc(s0.sent, Relay([]));
    if now == s0.last {
      ChangesRebuild(s0.last, now);
    }
  }

  /**
   * An open latch relays, in every run: a poll, on the tick or before a chunk, that reads
   * the settings `now` brings the peer's record to `now` once its commands are written, by
   * exactly the commands that changed, whatever the other task does meanwhile.
   */
  lemma PollTellsThePeer(c: W.Config, line: W.Line, pristine: Settings, before: seq<Action>, poll: Action,
                         now: Settings, after: seq<Action>)
    requires Possible(c, Start(pristine, line), before)
    requires poll == Tick(Some(now)) || poll == Sync(Some(now))
    requires Enabled(Reached(c, line, pristine, before), poll) && Reached(c, line, pristine, before).comOk
    requires Possible(c, BridgeSession.Step(c, Reached(c, line, pristine, before), poll), after) && PollsNothing(after)
    ensures var s0 := Reached(c, line, pristine, before);
            var s := Run(c, BridgeSession.Step(c, s0, poll), after);
            if s.up.Relaying? then Told(s) == Told(s0)
            else Told(s) == Told(s0) + Changes(s0.last, now) && HearAll(Record, pristine, Told(s)) == now
  {
    hide Reached, Run, Inv, Told, RelaysIn, Possible, Start, BridgeSession.Step, Enabled, Changes, HearAll;
    var s0 := Reached(c, line, pristine, before);
    var s1 := BridgeSession.Step(c, s0, poll);
    var s := Run(c, s1, after);
    ReachedInv(c, line, pristine, before);
    InvStep(c, line, pristine, s0, poll);
    RunKeepsInv(c, line, pristine, s1, after);
    PollBegins(c, s0, now, poll);
    PolledRun(c, s0, now, s1, after);
    ToldIsRelayed(c, line, pristine, s0);
    ToldIsRelayed(c, line, pristine, s);
    RelaysSnoc(s0.sent, Offers);
    if !s.up.Relaying? {
      RecordIsLast(c, line, pristine, s);
    }
  }

  lemma RecordIsLast(c: W.Config, line: W.Line, pristine: Settings, s: Session)
    requires Inv(c, line, pristine, s) && !s.up.Relaying?
    ensures HearAll(Record, pristine, RelaysIn(s.sent)) == s.last
  {
  }
}
