/**
 * What a session owes it pays: both tasks come to rest by their own steps alone, and at
 * rest everything read on either side has been dealt with in full.
 */
module SessionRest {
  import opened Common
  import opened TelnetFraming
  import opened TelnetNegotiation
  import opened TelnetCodec
  import opened PortSettings
  import opened BridgeSession
  import opened OptionRules
  import W = Wire
  import R = WireRuns
  import N = Noise

  // ── what a run has read ─────────────────────────────────────────────────

  function PortBytesIn(a: Action): seq<byte> {
    if a.PortRead? then a.chunk else []
  }

  function PeerReadIn(a: Action): seq<seq<byte>> {
    if a.PeerRead? then [a.bytes] else []
  }

  /** The bytes the port was read. */
  function PortBytes(actions: seq<Action>): seq<byte> {
    FlatMap(PortBytesIn, actions)
  }

  /** The bytes the peer was read. */
  function PeerBytes(actions: seq<Action>): seq<byte> {
    Flatten(FlatMap(PeerReadIn, actions))
  }

  lemma {:induction false} RunReads(c: W.Config, s: Session, actions: seq<Action>)
    requires Possible(c, s, actions)
    ensures Run(c, s, actions).fromPort == s.fromPort + PortBytes(actions)
    ensures Run(c, s, actions).inputs == s.inputs + FlatMap(PeerReadIn, actions)
    decreases |actions|
  {
    hide MessageBytes, Changes, W.Planned, Decoding, CmdsRead;
    if actions == [] {
      assert s.fromPort + [] == s.fromPort && s.inputs + [] == s.inputs;
    } else {
      var a, rest := actions[0], actions[1..];
      var s1 := BridgeSession.Step(c, s, a);
      RunReads(c, s1, rest);
      Assoc(s.fromPort, PortBytesIn(a), PortBytes(rest));
      Assoc(s.inputs, PeerReadIn(a), FlatMap(PeerReadIn, rest));
      assert s1.fromPort == s.fromPort + PortBytesIn(a) && s1.inputs == s.inputs + PeerReadIn(a);
    }
  }

  /** What has been written stays written. */
  lemma {:induction false} RunExtendsSocket(c: W.Config, s: Session, actions: seq<Action>)
    requires Possible(c, s, actions)
    ensures s.socket <= Run(c, s, actions).socket
    decreases |actions|
  {
    hide MessageBytes, Changes, W.Planned, Decoding, CmdsRead;
    if actions != [] {
      RunExtendsSocket(c, BridgeSession.Step(c, s, actions[0]), actions[1..]);
    }
  }

  /** The offers go first: in every run the socket begins with them, whatever the tasks write. */
  lemma OffersComeFirst(c: W.Config, line: W.Line, pristine: Settings, actions: seq<Action>)
    requires Possible(c, Start(pristine, line), actions)
    ensures [255, 251, 0, 255, 253, 0, 255, 251, 3, 255, 253, 3, 255, 251, 44]
         <= Reached(c, line, pristine, actions).socket
  {
    OpeningBytes();
    RunExtendsSocket(c, Start(pristine, line), actions);
  }

  // ── coming to rest ──────────────────────────────────────────────────────

  /** A session is never deaf: whatever its other task does, a waiting task takes whatever comes. */
  lemma NeverDeaf(s: Session)
    ensures s.up.Waiting? ==>
      && (forall chunk: seq<byte> :: chunk != [] ==> Enabled(s, PortRead(chunk)))
      && (forall snapshot :: Enabled(s, Tick(snapshot)))
    ensures s.down.Listening? ==> forall bytes: seq<byte> :: bytes != [] ==> Enabled(s, PeerRead(bytes))
  {
  }

  predicate AtRest(s: Session) {
    s.up.Waiting? && s.down.Listening?
  }

  /** A step of either task that takes in nothing new. */
  predicate Own(a: Action) {
    !a.PortRead? && !a.PeerRead? && !a.Tick?
  }

  function UpPhase(u: Up): nat {
    match u
    case Waiting => 0
    case Sending(_, _) => 1
    case Synced(_, _) => 2
    case Relaying(_, _, _) => 3
    case GotChunk(_) => 4
  }

  function CellsLeft(u: Up): nat {
    if u.Sending? then |u.cells| else 0
  }

  function DownPhase(d: Down): nat {
    match d
    case Listening => 0
    case Delivering(_) => 1
    case Replying(_, _) => 2
  }

  /** Less is owed: the port's task has moved on, or it stands and the peer's has. */
  predicate OwesLess(t: Session, s: Session) {
    || UpPhase(t.up) < UpPhase(s.up)
    || (UpPhase(t.up) == UpPhase(s.up) && CellsLeft(t.up) < CellsLeft(s.up))
    || (t.up == s.up && DownPhase(t.down) < DownPhase(s.down))
  }

  /** Every own step of either task lowers what is owed, in whatever order they are taken. */
  lemma OwnStepsOweLess(c: W.Config, s: Session, a: Action)
    requires Enabled(s, a) && Own(a)
    ensures OwesLess(BridgeSession.Step(c, s, a), s)
  {
    hide MessageBytes, Changes, W.Planned, Decoding, CmdsRead;
  }

  /** A next own step, whatever the port's settings and the clock read. */
  function NextStep(s: Session, snapshot: Option<Settings>, now: nat): Action
    requires !AtRest(s)
  {
    match s.up
    case GotChunk(_) => Sync(snapshot)
    case Relaying(_, _, _) => WriteSettings
    case Synced(_, _) => Plan(now)
    case Sending(_, _) => SendCell
    case Waiting => if s.down.Replying? then WriteReply else DeliverData
  }

  /** A session not at rest always has an own step to take, and taking them brings it to rest. */
  lemma {:induction false} ComesToRest(c: W.Config, s: Session, snapshot: Option<Settings>, now: nat)
    returns (more: seq<Action>)
    ensures Possible(c, s, more) && AtRest(Run(c, s, more))
    ensures forall k :: 0 <= k < |more| ==> Own(more[k])
    decreases UpPhase(s.up), CellsLeft(s.up), DownPhase(s.down)
  {
    hide BridgeSession.Step;
    if AtRest(s) {
      more := [];
    } else {
      var a := NextStep(s, snapshot, now);
      OwnStepsOweLess(c, s, a);
      var rest := ComesToRest(c, BridgeSession.Step(c, s, a), snapshot, now);
      more := [a] + rest;
      assert more[1..] == rest;
    }
  }

  lemma {:induction false} OwnReadsNothing(actions: seq<Action>)
    requires forall k :: 0 <= k < |actions| ==> Own(actions[k])
    ensures PortBytes(actions) == [] && FlatMap(PeerReadIn, actions) == []
  {
    if actions != [] {
      assert Own(actions[0]);
      assert forall k :: 0 <= k < |actions[1..]| ==> actions[1..][k] == actions[k + 1];
      OwnReadsNothing(actions[1..]);
    }
  }

  /** What a session at rest has done with all it has read. */
  predicate PaidUp(c: W.Config, line: W.Line, s: Session, fromPort: seq<byte>, fromPeer: seq<byte>) {
    var (frame, seen) := Scan(CLEAN, s.socket);
    && frame == CLEAN
    && R.Stream(s.calls) == fromPort
    && DataOf(seen) == W.BytesOf(R.Run(c, line, s.calls).1)
    && CommandsOf(seen) == OFFERS + AnswerAll(FRESH, CommandsOf(Scan(CLEAN, fromPeer).1)).1
    && s.toPort == Decoding(NEW, fromPeer).1.data
  }

  lemma RestIsPaidUp(c: W.Config, line: W.Line, pristine: Settings, s: Session)
    requires Inv(c, line, pristine, s) && AtRest(s)
    ensures PaidUp(c, line, s, s.fromPort, Flatten(s.inputs))
  {
    hide R.Run, R.Stream, AnswerAll, Scan;
    PeerRecoversMessages(s.sent, FRESH);
    assert R.Stream(s.calls) + [] == R.Stream(s.calls);
    assert DataIn(s.sent) + [] == DataIn(s.sent) && CmdsIn(s.sent) + [] == CmdsIn(s.sent) && s.toPort + [] == s.toPort;
  }

  /**
   * Nothing is left behind: from every state a run can reach, the session's own steps lead
   * to rest, and there the peer has been sent all that the wire made of every byte read
   * from the port, and the answer to every command, and the port has been handed every
   * byte of data read from the peer.
   */
  lemma SessionPaysUp(c: W.Config, line: W.Line, pristine: Settings, actions: seq<Action>,
                      snapshot: Option<Settings>, now: nat) returns (more: seq<Action>)
    requires Possible(c, Start(pristine, line), actions)
    ensures Possible(c, Reached(c, line, pristine, actions), more)
    ensures forall k :: 0 <= k < |more| ==> Own(more[k])
    ensures var s := Run(c, Reached(c, line, pristine, actions), more);
            AtRest(s) && PaidUp(c, line, s, PortBytes(actions), PeerBytes(actions))
  {
    hide Inv, Own, PaidUp, Possible, Run, PortBytes;
    var s0 := Reached(c, line, pristine, actions);
    more := ComesToRest(c, s0, snapshot, now);
    var s := Run(c, s0, more);
    ReachedInv(c, line, pristine, actions);
    RunKeepsInv(c, line, pristine, s0, more);
    RestIsPaidUp(c, line, pristine, s);
    RunReads(c, Start(pristine, line), actions);
    RunReads(c, s0, more);
    OwnReadsNothing(more);
    assert [] + PortBytes(actions) + [] == PortBytes(actions);
    assert [] + FlatMap(PeerReadIn, actions) + [] == FlatMap(PeerReadIn, actions);
  }

  /** Over a wire without noise the peer ends up with every byte the port was read. */
  lemma NoiselessSessionDeliversAll(c: W.Config, line: W.Line, pristine: Settings, actions: seq<Action>,
                                    snapshot: Option<Settings>, now: nat) returns (more: seq<Action>)
    requires Possible(c, Start(pristine, line), actions)
    requires !N.On(c.rates.drop) && !N.On(c.rates.corrupt)
    ensures Possible(c, Reached(c, line, pristine, actions), more)
    ensures DataOf(Scan(CLEAN, Run(c, Reached(c, line, pristine, actions), more).socket).1) == PortBytes(actions)
  {
    hide Possible, Run, Reached, PortBytes, Scan, AnswerAll, Decoding;
    more := SessionPaysUp(c, line, pristine, actions, snapshot, now);
    R.QuietRunDelivers(c, line, Run(c, Reached(c, line, pristine, actions), more).calls);
  }
}
