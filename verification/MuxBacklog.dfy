/**
 * How much can wait for the device: the queue is bounded in chunks, and a chunk is one
 * cell of a consumer's wire. What that bound is worth in bytes.
 */
module MuxBacklog {
  import opened Common
  import opened Rng
  import opened Noise
  import opened Wire
  import opened WireRuns
  import opened MuxMerge

  /** The bytes queued towards the device. */
  function QueuedBytes(m: Merge): seq<byte> {
    FlatMap(DataOf, m.queue)
  }

  // ── never more than a cell each ─────────────────────────────────────────

  predicate SmallCells(c: Config, xs: seq<Crossing>) {
    forall k :: 0 <= k < |xs| ==> |xs[k].cell.data| <= CellBytes(c)
  }

  predicate SmallChunks(c: Config, chunks: seq<Chunk>) {
    forall k :: 0 <= k < |chunks| ==> |chunks[k].data| <= CellBytes(c)
  }

  predicate Small(c: Config, m: Merge) {
    && SmallChunks(c, m.queue)
    && forall i :: 0 <= i < |m.senders| ==> SmallCells(c, m.senders[i].pending)
  }

  lemma PlannedIsSmall(c: Config, l: Line, now: nat, data: seq<byte>)
    ensures SmallCells(c, Planned(c, l, now, data).1)
  {
    hide CrossChunks, Shifted, CellBytes;
    var start := l.(cursor := Max(l.cursor, now), rng := JitterSample(c, l.rng).0);
    var xs := Planned(c, l, now, data).1;
    forall k | 0 <= k < |xs|
      ensures |xs[k].cell.data| <= CellBytes(c)
    {
      CellsAreBounded(c, start, LatencyAt(c, l), data, k);
    }
  }

  lemma SmallStep(c: Config, wires: Wires, m: Merge, a: Action)
    requires Small(c, m) && Enabled(m, a)
    ensures Small(c, Step(c, wires, m, a))
  {
    hide Planned, Run, CellBytes;
    match a
    case PortRead(i, now, data) =>
      PlannedIsSmall(c, Run(c, wires(i), m.senders[i].calls).0, now, data);
    case Send(i) =>
      assert SmallCells(c, m.senders[i].pending);
    case _ =>
  }

  lemma {:induction false} RunIsSmall(c: Config, wires: Wires, m: Merge, actions: seq<Action>)
    requires Small(c, m) && Possible(c, wires, m, actions)
    ensures Small(c, After(c, wires, m, actions))
    decreases |actions|
  {
    hide Small, Enabled, Step;
    if actions != [] {
      SmallStep(c, wires, m, actions[0]);
      RunIsSmall(c, wires, Step(c, wires, m, actions[0]), actions[1..]);
    }
  }

  lemma {:induction false} SmallChunksWeigh(c: Config, chunks: seq<Chunk>)
    requires SmallChunks(c, chunks)
    ensures |FlatMap(DataOf, chunks)| <= CellBytes(c) * |chunks|
  {
    hide CellBytes;
    if chunks != [] {
      assert forall k :: 0 <= k < |chunks[1..]| ==> chunks[1..][k] == chunks[k + 1];
      SmallChunksWeigh(c, chunks[1..]);
      MulAdd(CellBytes(c), 1, |chunks[1..]|);
    }
  }

  /** In every run, under any noise, the queue holds at most a cell's worth of bytes per place. */
  lemma QueueIsBounded(c: Config, wires: Wires, consumers: nat, actions: seq<Action>)
    requires Possible(c, wires, Idle(consumers), actions)
    ensures |QueuedBytes(After(c, wires, Idle(consumers), actions))| <= 64 * CellBytes(c)
  {
    hide After, Possible, CellBytes, SenderInv, FlatMap, InHand, DataOf, ChunkOf, Left;
    var m := After(c, wires, Idle(consumers), actions);
    IdleInv(c, wires, consumers);
    RunKeeps(c, wires, Idle(consumers), actions);
    RunIsSmall(c, wires, Idle(consumers), actions);
    SmallChunksWeigh(c, m.queue);
    LineTimeGrows(CellBytes(c), |m.queue|, TX_QUEUE);
  }

  // ── and as much as that ─────────────────────────────────────────────────

  /** A consumer that keeps typing two bytes at a time while the device is stuck. */
  function Typing(rounds: nat): seq<Action> {
    if rounds == 0 then [] else [PortRead(0, 0, [0, 0]), Send(0)] + Typing(rounds - 1)
  }

  /** Two bytes that fit one cell cross as one cell of two bytes. */
  lemma TwoBytesOneCell(c: Config, l: Line, now: nat)
    requires CellBytes(c) >= 2 && !On(c.rates.drop)
    ensures var xs := Planned(c, l, now, [0, 0]).1; |xs| == 1 && |xs[0].cell.data| == 2
  {
    hide Transformed, Shifted, CellBytes, On;
    var data: seq<byte> := [0, 0];
    var start := l.(cursor := Max(l.cursor, now), rng := JitterSample(c, l.rng).0);
    NoDropKeepsLength(c.rates, start.rng, data);
    FirstChunk(c, start, LatencyAt(c, l), data);
    assert data[..2] == data && data[2..] == [];
    NoChunks(c, CrossChunk(c, start, LatencyAt(c, l), data).0, LatencyAt(c, l));
  }

  lemma TypingRound(c: Config, wires: Wires, m: Merge) returns (n: Merge)
    requires CellBytes(c) >= 2 && !On(c.rates.drop)
    requires m.senders != [] && m.senders[0].pending == [] && |m.queue| < TX_QUEUE
    ensures Enabled(m, PortRead(0, 0, [0, 0]))
    ensures Enabled(Step(c, wires, m, PortRead(0, 0, [0, 0])), Send(0))
    ensures n == Step(c, wires, Step(c, wires, m, PortRead(0, 0, [0, 0])), Send(0))
    ensures n.senders != [] && n.senders[0].pending == [] && |n.queue| == |m.queue| + 1
    ensures |QueuedBytes(n)| == |QueuedBytes(m)| + 2
  {
    hide Planned, Run, CellBytes, On;
    TwoBytesOneCell(c, Run(c, wires(0), m.senders[0].calls).0, 0);
    var read := Step(c, wires, m, PortRead(0, 0, [0, 0]));
    n := Step(c, wires, read, Send(0));
    FlatMapSnoc(DataOf, m.queue, n.queue[|m.queue|]);
  }

  lemma {:induction false} TypingFills(c: Config, wires: Wires, m: Merge, rounds: nat)
    requires CellBytes(c) >= 2 && !On(c.rates.drop)
    requires m.senders != [] && m.senders[0].pending == [] && |m.queue| + rounds <= TX_QUEUE
    ensures Possible(c, wires, m, Typing(rounds))
    ensures |QueuedBytes(After(c, wires, m, Typing(rounds)))| == |QueuedBytes(m)| + 2 * rounds
    decreases rounds
  {
    hide Enabled, Step, CellBytes, On, QueuedBytes;
    if rounds > 0 {
      var n := TypingRound(c, wires, m);
      TypingFills(c, wires, n, rounds - 1);
      var actions := Typing(rounds);
      assert actions[1..][1..] == Typing(rounds - 1);
      assert actions[0] == PortRead(0, 0, [0, 0]) && actions[1..][0] == Send(0);
    }
  }

  /** In every run no more bytes wait for the device than the queue has places. */
  ghost predicate CountsBytes(c: Config, wires: Wires, consumers: nat) {
    forall actions :: Possible(c, wires, Idle(consumers), actions) ==>
      |QueuedBytes(After(c, wires, Idle(consumers), actions))| <= 64
  }

  /**
   * The bound read as a count of bytes, exactly: on lines that drop nothing it holds in
   * every run if and only if a cell is a single byte, that is, the simulated speed is below
   * 4000 baud. One consumer is enough to break it.
   */
  lemma QueueCountsBytesExactly(c: Config, wires: Wires, consumers: nat)
    requires consumers > 0 && !On(c.rates.drop)
    ensures CountsBytes(c, wires, consumers) <==> CellBytes(c) == 1
    ensures CellBytes(c) == 1 <==> c.baud.Some? && c.baud.value < 4000
  {
    if CellBytes(c) == 1 {
      SlowLineCountsBytes(c, wires, consumers);
    } else {
      hide Possible, After, On;
      TypingFills(c, wires, Idle(consumers), TX_QUEUE);
    }
  }

  /** One way it needs nothing of the noise. */
  lemma SlowLineCountsBytes(c: Config, wires: Wires, consumers: nat)
    requires CellBytes(c) == 1
    ensures CountsBytes(c, wires, consumers)
  {
    hide Possible, After, CellBytes, QueuedBytes;
    forall actions | Possible(c, wires, Idle(consumers), actions)
      ensures |QueuedBytes(After(c, wires, Idle(consumers), actions))| <= 64
    {
      QueueIsBounded(c, wires, consumers, actions);
    }
  }
}
