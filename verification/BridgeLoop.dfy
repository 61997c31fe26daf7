/**
 * The bridge's outer loop as a machine of steps: a drain task while no peer is attached,
 * a forwarding and a feeding task while one is, and the abort-then-await handover
 * between them. A task that was told to abort may still take steps until it stops.
 */
module BridgeLoop {
  import opened Common
  import opened Wire
  import opened WireRuns
  import N = Noise

  // ── history ─────────────────────────────────────────────────────────────

  /** What became of the bytes read from the port, in the order they were read. */
  datatype Episode =
    | DrainSpell(bytes: seq<byte>)
    | PeerSession(
        number: nat,
        calls: seq<Call>,              // chunks planned through this session's wire
        held: seq<byte>,               // a chunk read but not yet planned
        pending: seq<Crossing>,        // cells planned but not yet written
        delivered: seq<byte>)          // bytes written to the peer

  function EpisodeBytes(e: Episode): seq<byte> {
    match e
    case DrainSpell(bytes) => bytes
    case PeerSession(_, calls, held, _, _) => Stream(calls) + held
  }

  // ── tasks ───────────────────────────────────────────────────────────────

  /** Drainers and forwarders read the port; feeders only write to it. */
  datatype Kind = Drainer | Forwarder | Feeder

  datatype Task = Task(kind: Kind, episode: nat, alive: bool, aborted: bool)

  /** Where the loop is; it knows its tasks by number. */
  datatype Main =
    | Draining(drain: nat)
    | StoppingDrain(drain: nat)
    | Bridging(up: nat, down: nat)
    | StoppingDown(down: nat)
    | StoppingUp(up: nat)

  datatype Loop = Loop(main: Main, tasks: seq<Task>, sessions: nat, history: seq<Episode>, fromPort: seq<byte>)

  const START := Loop(Draining(0), [Task(Drainer, 0, true, false)], 0, [DrainSpell([])], [])

  datatype Action =
    | DrainRead(id: nat, chunk: seq<byte>)      // read and discard
    | PortRead(id: nat, chunk: seq<byte>)
    | PlanChunk(id: nat, now: nat)
    | WriteCell(id: nat)
    | TaskEnds(id: nat)                         // peer gone, on either side
    | TaskStops(id: nat)                        // an abort takes effect
    | PeerArrives
    | SessionStarts
    | SessionStillborn                          // the opening offers could not be written
    | UpEnded
    | DownEnded
    | SessionOver

  predicate Live(l: Loop, id: nat) {
    id < |l.tasks| && l.tasks[id].alive
  }

  predicate LiveAs(l: Loop, id: nat, kind: Kind) {
    Live(l, id) && l.tasks[id].kind == kind
  }

  predicate Enabled(l: Loop, a: Action)
    requires ReaderInv(l)
  {
    match a
    case DrainRead(id, chunk) => LiveAs(l, id, Drainer) && chunk != []
    case PortRead(id, chunk) =>
      LiveAs(l, id, Forwarder) && chunk != []
      && (var e := l.history[l.tasks[id].episode]; e.held == [] && e.pending == [])
    case PlanChunk(id, _) => LiveAs(l, id, Forwarder) && l.history[l.tasks[id].episode].held != []
    case WriteCell(id) => LiveAs(l, id, Forwarder) && l.history[l.tasks[id].episode].pending != []
    case TaskEnds(id) => Live(l, id) && l.tasks[id].kind != Drainer
    case TaskStops(id) => Live(l, id) && l.tasks[id].aborted
    case PeerArrives => l.main.Draining?
    case SessionStarts => l.main.StoppingDrain? && !Live(l, l.main.drain)
    case SessionStillborn => l.main.StoppingDrain? && !Live(l, l.main.drain)
    case UpEnded => l.main.Bridging? && !Live(l, l.main.up)
    case DownEnded => l.main.Bridging? && !Live(l, l.main.down)
    case SessionOver =>
      (l.main.StoppingDown? && !Live(l, l.main.down)) || (l.main.StoppingUp? && !Live(l, l.main.up))
  }

  function SetEpisode(l: Loop, id: nat, e: Episode): Loop
    requires id < |l.tasks| && l.tasks[id].episode < |l.history|
  {
    l.(history := l.history[l.tasks[id].episode := e])
  }

  function Abort(l: Loop, id: nat): Loop
    requires id < |l.tasks|
  {
    l.(tasks := l.tasks[id := l.tasks[id].(aborted := true)])
  }

  function Finish(l: Loop, id: nat): Loop
    requires id < |l.tasks|
  {
    l.(tasks := l.tasks[id := l.tasks[id].(alive := false)])
  }

  function SpawnDrain(l: Loop): Loop {
    l.(main := Draining(|l.tasks|), tasks := l.tasks + [Task(Drainer, |l.history|, true, false)],
       history := l.history + [DrainSpell([])])
  }

  function NewSession(l: Loop): Loop {
    l.(sessions := l.sessions + 1, history := l.history + [PeerSession(l.sessions + 1, [], [], [], [])])
  }

  /** The wire of session `n` towards its peer, before any byte; a session's wire is built afresh. */
  type Wires = nat -> Line

  function LineNow(c: Config, wires: Wires, e: Episode): Line
    requires e.PeerSession?
  {
    Run(c, wires(e.number), e.calls).0
  }

  function Step(c: Config, wires: Wires, l: Loop, a: Action): Loop
    requires ReaderInv(l) && Enabled(l, a)
  {
    match a
    case DrainRead(id, chunk) =>
      var e := l.history[l.tasks[id].episode];
      SetEpisode(l, id, DrainSpell(e.bytes + chunk)).(fromPort := l.fromPort + chunk)
    case PortRead(id, chunk) =>
      var e := l.history[l.tasks[id].episode];
      SetEpisode(l, id, e.(held := chunk)).(fromPort := l.fromPort + chunk)
    case PlanChunk(id, now) =>
      var e := l.history[l.tasks[id].episode];
      var cells := Planned(c, LineNow(c, wires, e), now, e.held).1;
      SetEpisode(l, id, e.(calls := e.calls + [Call(now, e.held, 0)], held := [], pending := cells))
    case WriteCell(id) =>
      var e := l.history[l.tasks[id].episode];
      SetEpisode(l, id, e.(delivered := e.delivered + e.pending[0].cell.data, pending := e.pending[1..]))
    case TaskEnds(id) => Finish(l, id)
    case TaskStops(id) => Finish(l, id)
    case PeerArrives => Abort(l, l.main.drain).(main := StoppingDrain(l.main.drain))
    case SessionStarts =>
      NewSession(l).(
        main := Bridging(|l.tasks|, |l.tasks| + 1),
        tasks := l.tasks + [Task(Forwarder, |l.history|, true, false), Task(Feeder, |l.history|, true, false)])
    case SessionStillborn => SpawnDrain(NewSession(l))
    case UpEnded => Abort(l, l.main.down).(main := StoppingDown(l.main.down))
    case DownEnded => Abort(l, l.main.up).(main := StoppingUp(l.main.up))
    case SessionOver => SpawnDrain(l)
  }

  // ── what every step keeps ───────────────────────────────────────────────

  /** Which task may be reading the port. */
  predicate IsReader(m: Main, id: nat) {
    match m
    case Draining(drain) => id == drain
    case StoppingDrain(drain) => id == drain
    case Bridging(up, _) => id == up
    case StoppingDown(_) => false
    case StoppingUp(up) => id == up
  }

  /**
   * A live reader is the one the loop knows, and works on the newest episode, which is of
   * its own kind. The loop's tasks are of the kinds it takes them for.
   */
  predicate ReaderInv(l: Loop) {
    && l.history != []
    && (forall id: nat :: id < |l.tasks| && l.tasks[id].alive && l.tasks[id].kind != Feeder ==>
          && IsReader(l.main, id) && l.tasks[id].episode == |l.history| - 1
          && l.history[|l.history| - 1].DrainSpell? == (l.tasks[id].kind == Drainer))
    && (match l.main
        case Draining(drain) => drain < |l.tasks| && l.tasks[drain].kind == Drainer
        case StoppingDrain(drain) => drain < |l.tasks| && l.tasks[drain].kind == Drainer
        case Bridging(up, down) =>
          up < |l.tasks| && down < |l.tasks| && l.tasks[up].kind == Forwarder && l.tasks[down].kind == Feeder
        case StoppingDown(down) => down < |l.tasks| && l.tasks[down].kind == Feeder
        case StoppingUp(up) => up < |l.tasks| && l.tasks[up].kind == Forwarder)
  }

  /** At most the last chunk of a session is unfinished: held back whole, or cut short after some of its cells. */
  predicate OneUnfinished(c: Config, wires: Wires, e: Episode)
    requires e.PeerSession?
  {
    && (e.held != [] ==> e.pending == [])
    && (e.pending != [] ==>
          e.calls != [] &&
          var last := e.calls[|e.calls| - 1];
          var cells := Planned(c, Run(c, wires(e.number), e.calls[..|e.calls| - 1]).0, last.now, last.data).1;
          |e.pending| <= |cells| && cells[|cells| - |e.pending|..] == e.pending)
  }

  /** A session's peer has what its wire made of its chunks, except the cells still pending. */
  predicate EpisodeInv(c: Config, wires: Wires, e: Episode) {
    e.PeerSession? ==>
      && e.delivered + BytesOf(e.pending) == BytesOf(Run(c, wires(e.number), e.calls).1)
      && OneUnfinished(c, wires, e)
  }

  function SessionNumber(e: Episode): seq<nat> {
    if e.PeerSession? then [e.number] else []
  }

  /** The sessions so far, numbered from 1 in order. */
  function UpTo(n: nat): seq<nat> {
    if n == 0 then [] else UpTo(n - 1) + [n]
  }

  predicate HistoryInv(c: Config, wires: Wires, l: Loop) {
    && l.fromPort == FlatMap(EpisodeBytes, l.history)
    && FlatMap(SessionNumber, l.history) == UpTo(l.sessions)
    && forall i :: 0 <= i < |l.history| ==> EpisodeInv(c, wires, l.history[i])
  }

  predicate Inv(c: Config, wires: Wires, l: Loop) {
    ReaderInv(l) && HistoryInv(c, wires, l)
  }

  lemma StartInv(c: Config, wires: Wires)
    ensures Inv(c, wires, START)
  {
    FlatMapOne(EpisodeBytes, DrainSpell([]));
    FlatMapOne(SessionNumber, DrainSpell([]));
  }

  lemma ReaderStep(c: Config, wires: Wires, l: Loop, a: Action)
    requires ReaderInv(l) && Enabled(l, a)
    ensures ReaderInv(Step(c, wires, l, a))
  {
    hide Planned, LineNow;
    match a
    case DrainRead(id, chunk) => EpisodeKeepsReader(l, id, DrainSpell(l.history[l.tasks[id].episode].bytes + chunk));
    case PortRead(id, chunk) => EpisodeKeepsReader(l, id, l.history[l.tasks[id].episode].(held := chunk));
    case PlanChunk(id, now) =>
      var e := l.history[l.tasks[id].episode];
      var cells := Planned(c, LineNow(c, wires, e), now, e.held).1;
      EpisodeKeepsReader(l, id, e.(calls := e.calls + [Call(now, e.held, 0)], held := [], pending := cells));
    case WriteCell(id) =>
      var e := l.history[l.tasks[id].episode];
      EpisodeKeepsReader(l, id, e.(delivered := e.delivered + e.pending[0].cell.data, pending := e.pending[1..]));
    case TaskEnds(id) => FinishKeepsReader(l, id);
    case TaskStops(id) => FinishKeepsReader(l, id);
    case _ =>
  }

  lemma EpisodeKeepsReader(l: Loop, id: nat, e: Episode)
    requires ReaderInv(l) && Live(l, id) && l.tasks[id].kind != Feeder
    requires e.DrainSpell? == (l.tasks[id].kind == Drainer)
    ensures ReaderInv(SetEpisode(l, id, e))
  {
  }

  lemma FinishKeepsReader(l: Loop, id: nat)
    requires ReaderInv(l) && id < |l.tasks|
    ensures ReaderInv(Finish(l, id))
  {
  }

  /** Replacing the newest episode. */
  lemma LastEpisode(c: Config, wires: Wires, l: Loop, e: Episode, more: seq<byte>)
    requires HistoryInv(c, wires, l) && l.history != []
    requires EpisodeInv(c, wires, e)
    requires EpisodeBytes(e) == EpisodeBytes(l.history[|l.history| - 1]) + more
    requires SessionNumber(e) == SessionNumber(l.history[|l.history| - 1])
    ensures HistoryInv(c, wires, l.(history := l.history[|l.history| - 1 := e], fromPort := l.fromPort + more))
  {
    hide EpisodeBytes, SessionNumber, EpisodeInv;
    var n := |l.history| - 1;
    var before := l.history[..n];
    assert l.history == before + [l.history[n]] && l.history[n := e] == before + [e];
    FlatMapSnoc(EpisodeBytes, before, l.history[n]);
    FlatMapSnoc(EpisodeBytes, before, e);
    FlatMapSnoc(SessionNumber, before, l.history[n]);
    FlatMapSnoc(SessionNumber, before, e);
    Assoc(FlatMap(EpisodeBytes, before), EpisodeBytes(l.history[n]), more);
  }

  lemma NewEpisode(c: Config, wires: Wires, l: Loop, e: Episode)
    requires HistoryInv(c, wires, l) && EpisodeBytes(e) == [] && EpisodeInv(c, wires, e)
    requires e.PeerSession? ==> e.number == l.sessions + 1
    ensures HistoryInv(c, wires, l.(history := l.history + [e],
                                    sessions := if e.PeerSession? then l.sessions + 1 else l.sessions))
  {
    hide EpisodeBytes, EpisodeInv;
    FlatMapSnoc(EpisodeBytes, l.history, e);
    FlatMapSnoc(SessionNumber, l.history, e);
    assert l.fromPort + [] == l.fromPort && UpTo(l.sessions) + [] == UpTo(l.sessions);
  }

  lemma EmptyEpisodes(c: Config, wires: Wires, n: nat)
    ensures EpisodeInv(c, wires, PeerSession(n, [], [], [], [])) && EpisodeBytes(PeerSession(n, [], [], [], [])) == []
    ensures EpisodeInv(c, wires, DrainSpell([])) && EpisodeBytes(DrainSpell([])) == []
  {
  }

  lemma PlanKeepsEpisode(c: Config, wires: Wires, e: Episode, now: nat)
    requires e.PeerSession? && e.held != [] && EpisodeInv(c, wires, e)
    ensures var cells := Planned(c, LineNow(c, wires, e), now, e.held).1;
            var e' := e.(calls := e.calls + [Call(now, e.held, 0)], held := [], pending := cells);
            EpisodeInv(c, wires, e') && EpisodeBytes(e') == EpisodeBytes(e)
  {
    hide Planned, Run, Stream;
    var call := Call(now, e.held, 0);
    var (line, xs) := Run(c, wires(e.number), e.calls);
    var cells := Planned(c, line, now, e.held).1;
    RunSnoc(c, wires(e.number), e.calls, call);
    FlatMapConcat(CellData, xs, cells);
    FlatMapSnoc(DataIn, e.calls, call);
    NothingPending(e.delivered);
    assert (e.calls + [call])[..|e.calls|] == e.calls;
    assert cells[0..] == cells;
    StreamSnoc(e.calls, call);
  }

  lemma NothingPending(delivered: seq<byte>)
    ensures delivered + BytesOf([]) == delivered
  {
  }

  lemma StreamSnoc(calls: seq<Call>, call: Call)
    ensures Stream(calls + [call]) + [] == Stream(calls) + call.data
  {
    FlatMapSnoc(DataIn, calls, call);
  }

  lemma WriteKeepsEpisode(c: Config, wires: Wires, e: Episode)
    requires e.PeerSession? && e.pending != [] && EpisodeInv(c, wires, e)
    ensures var e' := e.(delivered := e.delivered + e.pending[0].cell.data, pending := e.pending[1..]);
            EpisodeInv(c, wires, e') && EpisodeBytes(e') == EpisodeBytes(e)
  {
    hide Planned, Run, Stream;
    Assoc(e.delivered, e.pending[0].cell.data, BytesOf(e.pending[1..]));
    assert BytesOf(e.pending) == e.pending[0].cell.data + BytesOf(e.pending[1..]);
  }

  lemma ReadKeepsEpisode(c: Config, wires: Wires, e: Episode, chunk: seq<byte>)
    requires e.PeerSession? && e.held == [] && e.pending == [] && EpisodeInv(c, wires, e)
    ensures EpisodeInv(c, wires, e.(held := chunk)) && EpisodeBytes(e.(held := chunk)) == EpisodeBytes(e) + chunk
  {
    hide Planned, Run, Stream;
    assert Stream(e.calls) + [] == Stream(e.calls);
  }

  lemma HistoryStep(c: Config, wires: Wires, l: Loop, a: Action)
    requires ReaderInv(l) && Enabled(l, a) && HistoryInv(c, wires, l)
    ensures HistoryInv(c, wires, Step(c, wires, l, a))
  {
    hide EpisodeInv, EpisodeBytes, Planned, LineNow;
    assert l.fromPort + [] == l.fromPort;
    match a
    case DrainRead(id, chunk) =>
      var e := l.history[l.tasks[id].episode];
      DrainKeepsEpisode(c, wires, e, chunk);
      LastEpisode(c, wires, l, DrainSpell(e.bytes + chunk), chunk);
    case PortRead(id, chunk) =>
      var e := l.history[l.tasks[id].episode];
      ReadKeepsEpisode(c, wires, e, chunk);
      LastEpisode(c, wires, l, e.(held := chunk), chunk);
    case PlanChunk(id, now) =>
      var e := l.history[l.tasks[id].episode];
      var cells := Planned(c, LineNow(c, wires, e), now, e.held).1;
      PlanKeepsEpisode(c, wires, e, now);
      var e' := e.(calls := e.calls + [Call(now, e.held, 0)], held := [], pending := cells);
      assert EpisodeBytes(e) + [] == EpisodeBytes(e);
      LastEpisode(c, wires, l, e', []);
    case WriteCell(id) =>
      var e := l.history[l.tasks[id].episode];
      WriteKeepsEpisode(c, wires, e);
      var e' := e.(delivered := e.delivered + e.pending[0].cell.data, pending := e.pending[1..]);
      assert EpisodeBytes(e) + [] == EpisodeBytes(e);
      LastEpisode(c, wires, l, e', []);
    case SessionStarts =>
      EmptyEpisodes(c, wires, l.sessions + 1);
      NewEpisode(c, wires, l, PeerSession(l.sessions + 1, [], [], [], []));
    case SessionStillborn =>
      EmptyEpisodes(c, wires, l.sessions + 1);
      NewEpisode(c, wires, l, PeerSession(l.sessions + 1, [], [], [], []));
      NewEpisode(c, wires, NewSession(l), DrainSpell([]));
    case SessionOver =>
      EmptyEpisodes(c, wires, l.sessions + 1);
      NewEpisode(c, wires, l, DrainSpell([]));
    case _ =>
  }

  lemma DrainKeepsEpisode(c: Config, wires: Wires, e: Episode, chunk: seq<byte>)
    requires e.DrainSpell?
    ensures EpisodeInv(c, wires, DrainSpell(e.bytes + chunk))
    ensures EpisodeBytes(DrainSpell(e.bytes + chunk)) == EpisodeBytes(e) + chunk
  {
  }

  // ── whole runs ──────────────────────────────────────────────────────────

  predicate Possible(c: Config, wires: Wires, l: Loop, actions: seq<Action>)
    requires ReaderInv(l)
    decreases |actions|
  {
    actions == [] ||
    (Enabled(l, actions[0])
     && (ReaderStep(c, wires, l, actions[0]); Possible(c, wires, Step(c, wires, l, actions[0]), actions[1..])))
  }

  function After(c: Config, wires: Wires, l: Loop, actions: seq<Action>): Loop
    requires ReaderInv(l) && Possible(c, wires, l, actions)
    decreases |actions|
  {
    if actions == [] then l
    else
      ReaderStep(c, wires, l, actions[0]);
      After(c, wires, Step(c, wires, l, actions[0]), actions[1..])
  }

  lemma {:induction false} RunKeepsInv(c: Config, wires: Wires, l: Loop, actions: seq<Action>)
    requires Inv(c, wires, l) && Possible(c, wires, l, actions)
    ensures Inv(c, wires, After(c, wires, l, actions))
    decreases |actions|
  {
    hide ReaderInv, HistoryInv, Step, Enabled;
    if actions != [] {
      ReaderStep(c, wires, l, actions[0]);
      HistoryStep(c, wires, l, actions[0]);
      RunKeepsInv(c, wires, Step(c, wires, l, actions[0]), actions[1..]);
    }
  }

  predicate Reads(t: Task) {
    t.alive && t.kind != Feeder
  }

  /** Never two readers: in every run, however aborts are delayed, at most one live task reads the port. */
  lemma OneReader(c: Config, wires: Wires, actions: seq<Action>, i: nat, j: nat)
    requires Possible(c, wires, START, actions)
    requires i < |After(c, wires, START, actions).tasks| && Reads(After(c, wires, START, actions).tasks[i])
    requires j < |After(c, wires, START, actions).tasks| && Reads(After(c, wires, START, actions).tasks[j])
    ensures i == j
  {
    StartInv(c, wires);
    RunKeepsInv(c, wires, START, actions);
  }

  // ── handing over ────────────────────────────────────────────────────────

  /** The tasks the loop still knows. */
  predicate IsKnown(m: Main, id: nat) {
    match m
    case Draining(drain) => id == drain
    case StoppingDrain(drain) => id == drain
    case Bridging(up, down) => id == up || id == down
    case StoppingDown(down) => id == down
    case StoppingUp(up) => id == up
  }

  /** No task outlives what it was spawned for, and whoever the loop waits for has been told to stop. */
  predicate HandoverInv(l: Loop) {
    && (forall id: nat :: id < |l.tasks| && l.tasks[id].alive ==> IsKnown(l.main, id))
    && (match l.main
        case Draining(drain) => drain < |l.tasks| && l.tasks[drain].alive
        case StoppingDrain(drain) => drain < |l.tasks| && l.tasks[drain].aborted
        case Bridging(up, down) => up < |l.tasks| && down < |l.tasks|
        case StoppingDown(down) => down < |l.tasks| && l.tasks[down].aborted
        case StoppingUp(up) => up < |l.tasks| && l.tasks[up].aborted)
    && (l.main.Draining? ==> !l.tasks[l.main.drain].aborted)
  }

  lemma HandoverStep(c: Config, wires: Wires, l: Loop, a: Action)
    requires ReaderInv(l) && Enabled(l, a) && HandoverInv(l)
    ensures HandoverInv(Step(c, wires, l, a))
  {
    hide Planned, LineNow;
  }

  lemma {:induction false} RunHandsOver(c: Config, wires: Wires, l: Loop, actions: seq<Action>)
    requires ReaderInv(l) && HandoverInv(l) && Possible(c, wires, l, actions)
    ensures ReaderInv(After(c, wires, l, actions)) && HandoverInv(After(c, wires, l, actions))
    decreases |actions|
  {
    hide HandoverInv, Step, Enabled, ReaderInv;
    if actions != [] {
      ReaderStep(c, wires, l, actions[0]);
      HandoverStep(c, wires, l, actions[0]);
      RunHandsOver(c, wires, Step(c, wires, l, actions[0]), actions[1..]);
    }
  }

  /** The steps that end what the loop is waiting for. */
  function HandoverSteps(l: Loop): seq<Action> {
    match l.main
    case StoppingDrain(drain) => if Live(l, drain) then [TaskStops(drain), SessionStarts] else [SessionStarts]
    case StoppingDown(down) => if Live(l, down) then [TaskStops(down), SessionOver] else [SessionOver]
    case StoppingUp(up) => if Live(l, up) then [TaskStops(up), SessionOver] else [SessionOver]
    case Draining(_) => [PeerArrives]
    case Bridging(up, down) =>
      if !Live(l, up) then [UpEnded] else if !Live(l, down) then [DownEnded] else [TaskEnds(down), DownEnded]
  }

  /**
   * The loop never gets stuck: in every reachable state, two steps at most lead on. While it
   * waits for a task, that task has been told to stop, and once it has stopped the next
   * drain or session starts; while it drains, its drain task is running; and no task of an
   * earlier session is alive in a later one.
   */
  lemma LoopMovesOn(c: Config, wires: Wires, actions: seq<Action>)
    requires Possible(c, wires, START, actions)
    ensures var l := After(c, wires, START, actions);
            && ReaderInv(l)
            && Possible(c, wires, l, HandoverSteps(l))
            && (forall id: nat :: id < |l.tasks| && l.tasks[id].alive ==> IsKnown(l.main, id))
            && (l.main.Draining? ==>
                  forall chunk: seq<byte> :: chunk != [] ==> Enabled(l, DrainRead(l.main.drain, chunk)))
            && var next := After(c, wires, l, HandoverSteps(l)).main;
               match l.main
               case Draining(_) => next.StoppingDrain?
               case StoppingDrain(_) => next.Bridging?
               case Bridging(_, _) => next.StoppingDown? || next.StoppingUp?
               case StoppingDown(_) => next.Draining?
               case StoppingUp(_) => next.Draining?
  {
    hide Planned, LineNow;
    RunHandsOver(c, wires, START, actions);
    var l := After(c, wires, START, actions);
    var steps := HandoverSteps(l);
    ReaderStep(c, wires, l, steps[0]);
    if |steps| == 2 {
      TwoSteps(c, wires, l, steps[0], steps[1]);
      assert steps == [steps[0], steps[1]];
    } else {
      OneStep(c, wires, l, steps[0]);
      assert steps == [steps[0]];
    }
  }

  lemma OneStep(c: Config, wires: Wires, l: Loop, a: Action)
    requires ReaderInv(l) && Enabled(l, a)
    ensures Possible(c, wires, l, [a]) && After(c, wires, l, [a]) == Step(c, wires, l, a)
  {
    hide Enabled, Step, ReaderInv;
    ReaderStep(c, wires, l, a);
    assert [a][1..] == [] && Possible(c, wires, Step(c, wires, l, a), [a][1..]);
    assert After(c, wires, Step(c, wires, l, a), [a][1..]) == Step(c, wires, l, a);
  }

  lemma TwoSteps(c: Config, wires: Wires, l: Loop, a: Action, b: Action)
    requires ReaderInv(l) && Enabled(l, a)
    requires ReaderInv(Step(c, wires, l, a)) && Enabled(Step(c, wires, l, a), b)
    ensures Possible(c, wires, l, [a, b])
    ensures After(c, wires, l, [a, b]) == Step(c, wires, Step(c, wires, l, a), b)
  {
    hide Enabled, Step, ReaderInv;
    OneStep(c, wires, Step(c, wires, l, a), b);
    assert [a, b][1..] == [b];
  }

  // ── where the port's bytes went ─────────────────────────────────────────

  function ReadIn(a: Action): seq<byte> {
    match a
    case DrainRead(_, chunk) => chunk
    case PortRead(_, chunk) => chunk
    case _ => []
  }

  lemma {:induction false} RunReads(c: Config, wires: Wires, l: Loop, actions: seq<Action>)
    requires ReaderInv(l) && Possible(c, wires, l, actions)
    ensures After(c, wires, l, actions).fromPort == l.fromPort + FlatMap(ReadIn, actions)
    decreases |actions|
  {
    hide ReaderInv, Enabled;
    if actions == [] {
      assert l.fromPort + [] == l.fromPort;
    } else {
      ReaderStep(c, wires, l, actions[0]);
      StepReads(c, wires, l, actions[0]);
      RunReads(c, wires, Step(c, wires, l, actions[0]), actions[1..]);
      Assoc(l.fromPort, ReadIn(actions[0]), FlatMap(ReadIn, actions[1..]));
    }
  }

  lemma StepReads(c: Config, wires: Wires, l: Loop, a: Action)
    requires ReaderInv(l) && Enabled(l, a)
    ensures Step(c, wires, l, a).fromPort == l.fromPort + ReadIn(a)
  {
    hide Planned, LineNow;
    assert l.fromPort + [] == l.fromPort;
  }

  /** A forwarder left to itself finishes its chunk: what it has read it plans, and what it has planned it writes. */
  lemma {:induction false} ForwarderFinishes(c: Config, wires: Wires, l: Loop, id: nat, now: nat)
    returns (more: seq<Action>)
    requires ReaderInv(l) && LiveAs(l, id, Forwarder)
    ensures Possible(c, wires, l, more) && ReaderInv(After(c, wires, l, more))
    ensures var m := After(c, wires, l, more);
            && m.fromPort == l.fromPort && LiveAs(m, id, Forwarder)
            && (forall chunk: seq<byte> :: chunk != [] ==> Enabled(m, PortRead(id, chunk)))
            && var e := m.history[m.tasks[id].episode]; e.held == [] && e.pending == []
    decreases if l.history[l.tasks[id].episode].held == [] then 0 else 1, |l.history[l.tasks[id].episode].pending|
  {
    hide Planned, LineNow, BytesOf;
    var e := l.history[l.tasks[id].episode];
    if e.held == [] && e.pending == [] {
      more := [];
    } else {
      var a := if e.held != [] then PlanChunk(id, now) else WriteCell(id);
      ReaderStep(c, wires, l, a);
      var rest := ForwarderFinishes(c, wires, Step(c, wires, l, a), id, now);
      more := [a] + rest;
      assert more[1..] == rest;
    }
  }

  /**
   * Every byte read from the port is accounted for, in order: the history splits the
   * stream into drained spells and numbered sessions. Each session's bytes are the
   * chunks planned through its own wire and at most one more chunk read but not planned;
   * its peer received what that wire made of them, except the cells pending of at most
   * that one last chunk.
   */
  lemma PortBytesAccounted(c: Config, wires: Wires, actions: seq<Action>, i: nat)
    requires Possible(c, wires, START, actions)
    requires i < |After(c, wires, START, actions).history|
    ensures var l := After(c, wires, START, actions);
            && FlatMap(ReadIn, actions) == l.fromPort == FlatMap(EpisodeBytes, l.history)
            && FlatMap(SessionNumber, l.history) == UpTo(l.sessions)
            && EpisodeInv(c, wires, l.history[i])
  {
    hide EpisodeInv, Enabled, Step;
    StartInv(c, wires);
    RunReads(c, wires, START, actions);
    assert [] + FlatMap(ReadIn, actions) == FlatMap(ReadIn, actions);
    RunKeepsInv(c, wires, START, actions);
  }

  /** Over a noiseless wire what a session's peer received is a prefix of the bytes the session read. */
  lemma NoiselessPeerGetsPrefix(c: Config, wires: Wires, actions: seq<Action>, i: nat)
    requires Possible(c, wires, START, actions)
    requires i < |After(c, wires, START, actions).history|
    requires After(c, wires, START, actions).history[i].PeerSession?
    requires !N.On(c.rates.drop) && !N.On(c.rates.corrupt)
    ensures var e := After(c, wires, START, actions).history[i];
            e.delivered + BytesOf(e.pending) + e.held == EpisodeBytes(e)
  {
    hide Run, N.Transformed, OneUnfinished;
    var e := After(c, wires, START, actions).history[i];
    PortBytesAccounted(c, wires, actions, i);
    QuietRunDelivers(c, wires(e.number), e.calls);
  }
}
