/**
 * Consumers to device: each consumer's bytes cross its own wire and join one bounded
 * queue; a single writer takes whole chunks off it in arrival order.
 */
module MuxMerge {
  import opened Common
  import opened Wire
  import opened WireRuns

  const TX_QUEUE: nat := 64

  /** One cell on its way to the device, tagged with the consumer it came from. */
  datatype Chunk = Chunk(owner: nat, data: seq<byte>)

  /** How a chunk ended: a failed write may leave a part of it on the device. */
  datatype Outcome = Outcome(chunk: Chunk, wrote: nat)

  datatype Sender = Sender(calls: seq<Call>, pending: seq<Crossing>)

  datatype Merge = Merge(
    senders: seq<Sender>,
    queue: seq<Chunk>,
    writing: Option<Chunk>,
    outcomes: seq<Outcome>,
    device: seq<byte>,
    sent: seq<Chunk>)         // history: every chunk queued, in arrival order

  function Idle(consumers: nat): Merge {
    Merge(seq(consumers, _ => Sender([], [])), [], None, [], [], [])
  }

  datatype Action =
    | PortRead(i: nat, now: nat, data: seq<byte>)   // read and plan
    | Send(i: nat)                                  // queue the next cell; waits while the queue is full
    | Take                                          // the writer takes the oldest chunk
    | Wrote                                         // and writes all of it
    | Failed(part: nat)                             // or fails part way

  type Wires = nat -> Line

  predicate Enabled(m: Merge, a: Action) {
    match a
    case PortRead(i, _, data) => i < |m.senders| && m.senders[i].pending == [] && data != []
    case Send(i) => i < |m.senders| && m.senders[i].pending != [] && |m.queue| < TX_QUEUE
    case Take => m.writing.None? && m.queue != []
    case Wrote => m.writing.Some?
    case Failed(part) => m.writing.Some? && part <= |m.writing.value.data|
  }

  function Settle(m: Merge, part: nat): Merge
    requires m.writing.Some? && part <= |m.writing.value.data|
  {
    m.(writing := None, outcomes := m.outcomes + [Outcome(m.writing.value, part)],
       device := m.device + m.writing.value.data[..part])
  }

  function Step(c: Config, wires: Wires, m: Merge, a: Action): Merge
    requires Enabled(m, a)
  {
    match a
    case PortRead(i, now, data) =>
      var s := m.senders[i];
      var cells := Planned(c, Run(c, wires(i), s.calls).0, now, data).1;
      m.(senders := m.senders[i := Sender(s.calls + [Call(now, data, 0)], cells)])
    case Send(i) =>
      var s := m.senders[i];
      var chunk := Chunk(i, s.pending[0].cell.data);
      m.(senders := m.senders[i := s.(pending := s.pending[1..])], queue := m.queue + [chunk], sent := m.sent + [chunk])
    case Take => m.(writing := Some(m.queue[0]), queue := m.queue[1..])
    case Wrote => Settle(m, |m.writing.value.data|)
    case Failed(part) => Settle(m, part)
  }

  function ChunkOf(o: Outcome): seq<Chunk> {
    [o.chunk]
  }

  /** The bytes a chunk left on the device: one unbroken stretch of its own. */
  function Left(o: Outcome): seq<byte> {
    if o.wrote <= |o.chunk.data| then o.chunk.data[..o.wrote] else o.chunk.data
  }

  function DataOf(x: Chunk): seq<byte> {
    x.data
  }

  function InHand(m: Merge): seq<Chunk> {
    if m.writing.Some? then [m.writing.value] else []
  }

  function From(i: nat, x: Chunk): seq<byte> {
    if x.owner == i then x.data else []
  }

  /** The bytes of one consumer's chunks. */
  function BytesFrom(i: nat, chunks: seq<Chunk>): seq<byte> {
    if chunks == [] then [] else From(i, chunks[0]) + BytesFrom(i, chunks[1..])
  }

  lemma {:induction false} BytesFromSnoc(i: nat, chunks: seq<Chunk>, x: Chunk)
    ensures BytesFrom(i, chunks + [x]) == BytesFrom(i, chunks) + From(i, x)
  {
    hide From;
    if chunks == [] {
      assert chunks + [x] == [x] && [x][1..] == [];
      assert BytesFrom(i, [x][1..]) == [] && From(i, x) + [] == [] + From(i, x);
    } else {
      assert (chunks + [x])[1..] == chunks[1..] + [x];
      BytesFromSnoc(i, chunks[1..], x);
      Assoc(From(i, chunks[0]), BytesFrom(i, chunks[1..]), From(i, x));
    }
  }

  predicate Inv(c: Config, wires: Wires, m: Merge) {
    && |m.queue| <= TX_QUEUE
    && FlatMap(ChunkOf, m.outcomes) + InHand(m) + m.queue == m.sent
    && m.device == FlatMap(Left, m.outcomes)
    && (forall k :: 0 <= k < |m.outcomes| ==> m.outcomes[k].wrote <= |m.outcomes[k].chunk.data|)
    && forall i :: 0 <= i < |m.senders| ==> SenderInv(c, wires, m, i)
  }

  /** What consumer `i` has queued, with what it has still to queue, is what its wire made of its bytes. */
  predicate SenderInv(c: Config, wires: Wires, m: Merge, i: nat)
    requires i < |m.senders|
  {
    BytesFrom(i, m.sent) + BytesOf(m.senders[i].pending) == BytesOf(Run(c, wires(i), m.senders[i].calls).1)
  }

  lemma IdleInv(c: Config, wires: Wires, consumers: nat)
    ensures Inv(c, wires, Idle(consumers))
  {
  }

  lemma PlanStep(c: Config, wires: Wires, m: Merge, i: nat, now: nat, data: seq<byte>)
    requires Inv(c, wires, m) && Enabled(m, PortRead(i, now, data))
    ensures SenderInv(c, wires, Step(c, wires, m, PortRead(i, now, data)), i)
  {
    hide Planned, Run;
    var call := Call(now, data, 0);
    assert SenderInv(c, wires, m, i);
    RunSnoc(c, wires(i), m.senders[i].calls, call);
    var (line, xs) := Run(c, wires(i), m.senders[i].calls);
    FlatMapConcat(CellData, xs, Planned(c, line, now, data).1);
    assert BytesFrom(i, m.sent) + [] == BytesFrom(i, m.sent);
  }

  lemma SendStep(c: Config, wires: Wires, m: Merge, i: nat, j: nat)
    requires Inv(c, wires, m) && Enabled(m, Send(i)) && j < |m.senders|
    ensures SenderInv(c, wires, Step(c, wires, m, Send(i)), j)
  {
    hide Run;
    assert SenderInv(c, wires, m, j);
    var pending := m.senders[i].pending;
    var x := Chunk(i, pending[0].cell.data);
    BytesFromSnoc(j, m.sent, x);
    assert BytesOf(pending) == pending[0].cell.data + BytesOf(pending[1..]);
    assert BytesFrom(j, m.sent) + [] == BytesFrom(j, m.sent);
    Assoc(BytesFrom(j, m.sent), x.data, BytesOf(pending[1..]));
  }

  lemma QueueStep(c: Config, wires: Wires, m: Merge, a: Action)
    requires Inv(c, wires, m) && Enabled(m, a)
    ensures var n := Step(c, wires, m, a);
            && |n.queue| <= TX_QUEUE
            && FlatMap(ChunkOf, n.outcomes) + InHand(n) + n.queue == n.sent
            && n.device == FlatMap(Left, n.outcomes)
            && forall k :: 0 <= k < |n.outcomes| ==> n.outcomes[k].wrote <= |n.outcomes[k].chunk.data|
  {
    hide Run, Planned, SenderInv, FlatMap, BytesFrom, Settle;
    match a
    case Send(i) =>
      Assoc(FlatMap(ChunkOf, m.outcomes) + InHand(m), m.queue, [Chunk(i, m.senders[i].pending[0].cell.data)]);
    case Take =>
      assert FlatMap(ChunkOf, m.outcomes) + [] + m.queue == FlatMap(ChunkOf, m.outcomes) + [m.queue[0]] + m.queue[1..];
    case Wrote =>
      SettleStep(m, |m.writing.value.data|);
    case Failed(part) =>
      SettleStep(m, part);
    case _ =>
  }

  lemma SettleStep(m: Merge, part: nat)
    requires m.writing.Some? && part <= |m.writing.value.data|
    requires m.device == FlatMap(Left, m.outcomes)
    ensures Settle(m, part).device == FlatMap(Left, Settle(m, part).outcomes)
    ensures FlatMap(ChunkOf, Settle(m, part).outcomes) + [] == FlatMap(ChunkOf, m.outcomes) + InHand(m)
    ensures Settle(m, part).outcomes == m.outcomes + [Outcome(m.writing.value, part)]
    ensures Settle(m, part).writing.None? && Settle(m, part).queue == m.queue && Settle(m, part).sent == m.sent
  {
    var o := Outcome(m.writing.value, part);
    FlatMapSnoc(Left, m.outcomes, o);
    FlatMapSnoc(ChunkOf, m.outcomes, o);
    assert m.writing.value.data[..|m.writing.value.data|] == m.writing.value.data;
  }

  lemma StepKeeps(c: Config, wires: Wires, m: Merge, a: Action)
    requires Inv(c, wires, m) && Enabled(m, a)
    ensures Inv(c, wires, Step(c, wires, m, a)) && |Step(c, wires, m, a).senders| == |m.senders|
  {
    hide Run, Planned;
    QueueStep(c, wires, m, a);
    var n := Step(c, wires, m, a);
    forall j | 0 <= j < |n.senders|
      ensures SenderInv(c, wires, n, j)
    {
      assert SenderInv(c, wires, m, j);
      match a
      case PortRead(i, now, data) => PlanStep(c, wires, m, i, now, data);
      case Send(i) => SendStep(c, wires, m, i, j);
      case _ =>
    }
  }

  predicate Possible(c: Config, wires: Wires, m: Merge, actions: seq<Action>)
    decreases |actions|
  {
    actions == [] || (Enabled(m, actions[0]) && Possible(c, wires, Step(c, wires, m, actions[0]), actions[1..]))
  }

  function After(c: Config, wires: Wires, m: Merge, actions: seq<Action>): Merge
    requires Possible(c, wires, m, actions)
    decreases |actions|
  {
    if actions == [] then m else After(c, wires, Step(c, wires, m, actions[0]), actions[1..])
  }

  lemma {:induction false} RunKeeps(c: Config, wires: Wires, m: Merge, actions: seq<Action>)
    requires Inv(c, wires, m) && Possible(c, wires, m, actions)
    ensures Inv(c, wires, After(c, wires, m, actions))
    ensures |After(c, wires, m, actions).senders| == |m.senders|
    decreases |actions|
  {
    hide Inv, Enabled, Step;
    if actions != [] {
      StepKeeps(c, wires, m, actions[0]);
      RunKeeps(c, wires, Step(c, wires, m, actions[0]), actions[1..]);
    }
  }

  /**
   * Merging, in every run: the device holds one unbroken stretch per chunk, in arrival
   * order; no chunk is lost before the writer takes it; the queue never exceeds its
   * bound; and what each consumer queued is, in order, what its own wire made of its
   * bytes, short of the cells still waiting.
   */
  lemma MergeIsFaithful(c: Config, wires: Wires, consumers: nat, actions: seq<Action>, i: nat)
    requires Possible(c, wires, Idle(consumers), actions) && i < consumers
    ensures var m := After(c, wires, Idle(consumers), actions);
            && m.device == FlatMap(Left, m.outcomes)
            && (forall k :: 0 <= k < |m.outcomes| ==> m.outcomes[k].wrote <= |m.outcomes[k].chunk.data|)
            && FlatMap(ChunkOf, m.outcomes) + InHand(m) + m.queue == m.sent
            && |m.queue| <= 64
            && i < |m.senders|
            && BytesFrom(i, m.sent) + BytesOf(m.senders[i].pending)
               == BytesOf(Run(c, wires(i), m.senders[i].calls).1)
  {
    hide After, Run;
    IdleInv(c, wires, consumers);
    RunKeeps(c, wires, Idle(consumers), actions);
    assert SenderInv(c, wires, After(c, wires, Idle(consumers), actions), i);
  }

  // ── what each write left ────────────────────────────────────────────────

  /** The writes that ended, in order: whole, or failed after some bytes. */
  datatype Ending = Whole | Part(bytes: nat)

  function EndingOf(a: Action): seq<Ending> {
    match a
    case Wrote => [Whole]
    case Failed(part) => [Part(part)]
    case _ => []
  }

  /** A chunk's outcome agrees with how its write ended. */
  predicate Agrees(o: Outcome, e: Ending) {
    match e
    case Whole => o.wrote == |o.chunk.data|
    case Part(bytes) => o.wrote == bytes
  }

  predicate AllAgree(outcomes: seq<Outcome>, endings: seq<Ending>) {
    && |outcomes| == |endings|
    && forall k :: 0 <= k < |outcomes| ==> Agrees(outcomes[k], endings[k])
  }

  /**
   * In every run the k-th outcome is that of the k-th write to end: a write that went
   * through left its whole chunk, a failed one exactly the part it had written.
   */
  lemma {:induction false} OutcomesFollowWrites(
    c: Config, wires: Wires, m: Merge, actions: seq<Action>, before: seq<Ending>)
    requires Possible(c, wires, m, actions) && AllAgree(m.outcomes, before)
    ensures AllAgree(After(c, wires, m, actions).outcomes, before + FlatMap(EndingOf, actions))
    decreases |actions|
  {
    hide Planned, Run;
    if actions == [] {
      assert before + [] == before;
    } else {
      var a, rest := actions[0], FlatMap(EndingOf, actions[1..]);
      OutcomesFollowWrites(c, wires, Step(c, wires, m, a), actions[1..], before + EndingOf(a));
      Assoc(before, EndingOf(a), rest);
    }
  }

  /** Outcomes of whole writes leave the data of their chunks. */
  lemma {:induction false} WholeOutcomes(outcomes: seq<Outcome>)
    requires forall k :: 0 <= k < |outcomes| ==> outcomes[k].wrote == |outcomes[k].chunk.data|
    ensures FlatMap(Left, outcomes) == FlatMap(DataOf, FlatMap(ChunkOf, outcomes))
  {
    if outcomes != [] {
      var o, rest := outcomes[0], outcomes[1..];
      WholeOutcomes(rest);
      FlatMapConcat(DataOf, [o.chunk], FlatMap(ChunkOf, rest));
      FlatMapOne(DataOf, o.chunk);
      assert o.chunk.data[..|o.chunk.data|] == o.chunk.data;
    }
  }

  /**
   * When no write fails, the device holds the chunks taken off the queue, whole and in
   * arrival order: everything sent, short of the one in hand and those still queued.
   */
  lemma UnfailingMergeIsWhole(c: Config, wires: Wires, consumers: nat, actions: seq<Action>)
    requires Possible(c, wires, Idle(consumers), actions)
    requires forall k :: 0 <= k < |actions| ==> !actions[k].Failed?
    ensures var m := After(c, wires, Idle(consumers), actions);
            m.device + FlatMap(DataOf, InHand(m) + m.queue) == FlatMap(DataOf, m.sent)
  {
    hide After, Possible;
    var m := After(c, wires, Idle(consumers), actions);
    IdleInv(c, wires, consumers);
    RunKeeps(c, wires, Idle(consumers), actions);
    OutcomesFollowWrites(c, wires, Idle(consumers), actions, []);
    var endings := FlatMap(EndingOf, actions);
    assert [] + endings == endings;
    UnfailingEndings(actions);
    WholeOutcomes(m.outcomes);
    Assoc(FlatMap(ChunkOf, m.outcomes), InHand(m), m.queue);
    FlatMapConcat(DataOf, FlatMap(ChunkOf, m.outcomes), InHand(m) + m.queue);
  }

  lemma {:induction false} UnfailingEndings(actions: seq<Action>)
    requires forall k :: 0 <= k < |actions| ==> !actions[k].Failed?
    ensures forall k :: 0 <= k < |FlatMap(EndingOf, actions)| ==> FlatMap(EndingOf, actions)[k] == Whole
  {
    if actions != [] {
      assert !actions[0].Failed?;
      assert forall k :: 0 <= k < |actions[1..]| ==> actions[1..][k] == actions[k + 1];
      UnfailingEndings(actions[1..]);
    }
  }

  // ── coming to rest ──────────────────────────────────────────────────────

  /** Nothing left to queue, queued or in hand. */
  predicate AtRest(m: Merge) {
    m.writing.None? && m.queue == [] && forall i :: 0 <= i < |m.senders| ==> m.senders[i].pending == []
  }

  function PendingCells(senders: seq<Sender>): nat {
    if senders == [] then 0 else |senders[0].pending| + PendingCells(senders[1..])
  }

  lemma {:induction false} FewerPending(senders: seq<Sender>, i: nat, s: Sender)
    requires i < |senders| && |s.pending| < |senders[i].pending|
    ensures PendingCells(senders[i := s]) < PendingCells(senders)
  {
    if i == 0 {
      assert senders[i := s][1..] == senders[1..];
    } else {
      assert senders[i := s][1..] == senders[1..][i - 1 := s];
      FewerPending(senders[1..], i - 1, s);
    }
  }

  function InWriting(m: Merge): nat {
    if m.writing.Some? then 1 else 0
  }

  /** A merge not at rest always has a chunk to move, and moving them, with no write failing, brings it to rest. */
  lemma {:induction false} ComesToRest(c: Config, wires: Wires, m: Merge) returns (more: seq<Action>)
    ensures Possible(c, wires, m, more) && AtRest(After(c, wires, m, more))
    ensures forall k :: 0 <= k < |more| ==> !more[k].PortRead? && !more[k].Failed?
    decreases PendingCells(m.senders), |m.queue|, InWriting(m)
  {
    hide Planned, Run, PendingCells;
    if AtRest(m) {
      more := [];
    } else {
      var a: Action;
      if m.writing.Some? {
        a := Wrote;
      } else if m.queue != [] {
        a := Take;
      } else {
        var i :| 0 <= i < |m.senders| && m.senders[i].pending != [];
        a := Send(i);
        FewerPending(m.senders, i, m.senders[i].(pending := m.senders[i].pending[1..]));
      }
      var rest := ComesToRest(c, wires, Step(c, wires, m, a));
      more := [a] + rest;
      assert more[1..] == rest;
    }
  }

  // ── what a run has read ─────────────────────────────────────────────────

  function ReadBy(i: nat, a: Action): seq<byte> {
    if a.PortRead? && a.i == i then a.data else []
  }

  /** The bytes consumer `i` typed in a run. */
  function TypedBy(i: nat, actions: seq<Action>): seq<byte> {
    if actions == [] then [] else ReadBy(i, actions[0]) + TypedBy(i, actions[1..])
  }

  lemma {:induction false} RunReads(c: Config, wires: Wires, m: Merge, actions: seq<Action>, i: nat)
    requires Possible(c, wires, m, actions) && i < |m.senders|
    ensures i < |After(c, wires, m, actions).senders|
    ensures Stream(After(c, wires, m, actions).senders[i].calls) == Stream(m.senders[i].calls) + TypedBy(i, actions)
    decreases |actions|
  {
    hide Planned, Run, Stream;
    if actions == [] {
      assert Stream(m.senders[i].calls) + [] == Stream(m.senders[i].calls);
    } else {
      var a := actions[0];
      var n := Step(c, wires, m, a);
      RunReads(c, wires, n, actions[1..], i);
      StepReads(c, wires, m, a, i);
      Assoc(Stream(m.senders[i].calls), ReadBy(i, a), TypedBy(i, actions[1..]));
    }
  }

  lemma StepReads(c: Config, wires: Wires, m: Merge, a: Action, i: nat)
    requires Enabled(m, a) && i < |m.senders|
    ensures var n := Step(c, wires, m, a);
            |n.senders| == |m.senders| && Stream(n.senders[i].calls) == Stream(m.senders[i].calls) + ReadBy(i, a)
  {
    hide Planned, Run, FlatMap;
    if a.PortRead? && a.i == i {
      FlatMapSnoc(DataIn, m.senders[i].calls, Call(a.now, a.data, 0));
    } else {
      assert Stream(m.senders[i].calls) + [] == Stream(m.senders[i].calls);
    }
  }

  lemma {:induction false} RunsOn(c: Config, wires: Wires, m: Merge, a: seq<Action>, b: seq<Action>)
    requires Possible(c, wires, m, a) && Possible(c, wires, After(c, wires, m, a), b)
    ensures Possible(c, wires, m, a + b)
    ensures After(c, wires, m, a + b) == After(c, wires, After(c, wires, m, a), b)
    decreases |a|
  {
    hide Enabled, Step;
    if a == [] {
      assert a + b == b;
    } else {
      assert (a + b)[1..] == a[1..] + b;
      RunsOn(c, wires, Step(c, wires, m, a[0]), a[1..], b);
    }
  }

  lemma {:induction false} TypedByJoins(i: nat, a: seq<Action>, b: seq<Action>)
    requires forall k :: 0 <= k < |b| ==> !b[k].PortRead?
    ensures TypedBy(i, a + b) == TypedBy(i, a)
    decreases |a|, |b|
  {
    if a == [] {
      assert a + b == b;
      if b != [] {
        assert forall k :: 0 <= k < |b[1..]| ==> b[1..][k] == b[k + 1];
        TypedByJoins(i, a, b[1..]);
        assert [] + b[1..] == b[1..];
      }
    } else {
      assert (a + b)[1..] == a[1..] + b;
      TypedByJoins(i, a[1..], b);
    }
  }

  /**
   * Everything reaches the device: whatever has been typed so far, if no write has failed,
   * the chunks on their way lead to rest, and there the device holds, whole and in arrival
   * order, chunks of which each consumer's add up to what its wire made of all it typed.
   */
  lemma EverythingIsWritten(c: Config, wires: Wires, consumers: nat, actions: seq<Action>, i: nat)
    returns (more: seq<Action>)
    requires Possible(c, wires, Idle(consumers), actions) && i < consumers
    requires forall k :: 0 <= k < |actions| ==> !actions[k].Failed?
    ensures Possible(c, wires, Idle(consumers), actions + more)
    ensures var m := After(c, wires, Idle(consumers), actions + more);
            && AtRest(m) && i < |m.senders|
            && (forall t: nat, data: seq<byte> :: data != [] ==> Enabled(m, PortRead(i, t, data)))
            && m.device == FlatMap(DataOf, m.sent)
            && BytesFrom(i, m.sent) == BytesOf(Run(c, wires(i), m.senders[i].calls).1)
            && Stream(m.senders[i].calls) == TypedBy(i, actions)
  {
    hide After, Possible, Run, FlatMap, BytesFrom, Stream, TypedBy;
    more := ComesToRest(c, wires, After(c, wires, Idle(consumers), actions));
    RunsOn(c, wires, Idle(consumers), actions, more);
    var m := After(c, wires, Idle(consumers), actions + more);
    MergeIsFaithful(c, wires, consumers, actions + more, i);
    UnfailingMergeIsWhole(c, wires, consumers, actions + more);
    RunReads(c, wires, Idle(consumers), actions + more, i);
    TypedByJoins(i, actions, more);
    NothingQueued(m);
    assert m.device + [] == m.device;
    NothingPending(BytesFrom(i, m.sent));
    assert [] + TypedBy(i, actions) == TypedBy(i, actions);
    NoCalls();
  }

  lemma NothingQueued(m: Merge)
    requires AtRest(m)
    ensures FlatMap(DataOf, InHand(m) + m.queue) == []
  {
    assert InHand(m) + m.queue == [];
  }

  lemma NothingPending(sent: seq<byte>)
    ensures sent + BytesOf([]) == sent
  {
  }

  lemma NoCalls()
    ensures Stream([]) == []
  {
  }
}
