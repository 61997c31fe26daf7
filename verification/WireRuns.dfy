/**
 * Whole runs of a wire: what noise, pacing and the sleep-then-write protocol add up to
 * over any sequence of `plan` calls.
 */
module WireRuns {
  import opened Common
  import opened Rng
  import opened Noise
  import opened Wire

  /** One `plan` call, and how many of its cells the caller slept through before moving on. */
  datatype Call = Call(now: nat, data: seq<byte>, done: nat)

  function DataIn(call: Call): seq<byte> {
    call.data
  }

  /** Everything handed to the wire. */
  function Stream(calls: seq<Call>): seq<byte> {
    FlatMap(DataIn, calls)
  }

  function Run(c: Config, l: Line, calls: seq<Call>): (Line, seq<Crossing>)
    decreases |calls|
  {
    if calls == [] then (l, [])
    else
      var (l1, first) := Planned(c, l, calls[0].now, calls[0].data);
      var (l2, rest) := Run(c, l1, calls[1..]);
      (l2, first + rest)
  }

  lemma {:induction false} RunSnoc(c: Config, l: Line, calls: seq<Call>, call: Call)
    ensures var (l1, xs) := Run(c, l, calls);
            var (l2, more) := Planned(c, l1, call.now, call.data);
            Run(c, l, calls + [call]) == (l2, xs + more)
    decreases |calls|
  {
    hide Planned;
    if calls == [] {
      assert calls + [call] == [call] && [call][1..] == [];
      var (l2, more) := Planned(c, l, call.now, call.data);
      assert Run(c, l2, [call][1..]) == (l2, []) && more + [] == more == [] + more;
    } else {
      assert (calls + [call])[1..] == calls[1..] + [call];
      var (l1, first) := Planned(c, l, calls[0].now, calls[0].data);
      var (l2, xs) := Run(c, l1, calls[1..]);
      RunSnoc(c, l1, calls[1..], call);
      Assoc(first, xs, Planned(c, l2, call.now, call.data).1);
    }
  }

  // ── noise over a run ────────────────────────────────────────────────────

  /** Cutting a call into cells does not change what noise does to it. */
  lemma {:induction false} ChunksTransform(c: Config, l: Line, lat: nat, data: seq<byte>)
    ensures CrossChunks(c, l, lat, data).0.rng == Transformed(c.rates, l.rng, data).0
    ensures BytesOf(CrossChunks(c, l, lat, data).1) == Transformed(c.rates, l.rng, data).1
    decreases |data|
  {
    hide Transformed;
    if data == [] {
      TransformedNone(c.rates, l.rng);
    } else {
      var n := ChunkSize(c, data);
      var (l1, first) := CrossChunk(c, l, lat, data[..n]);
      assert data[..n] + data[n..] == data;
      TransformedConcat(c.rates, l.rng, data[..n], data[n..]);
      ChunksTransform(c, l1, lat, data[n..]);
      FlatMapConcat(CellData, first, CrossChunks(c, l1, lat, data[n..]).1);
      if first != [] {
        FlatMapOne(CellData, first[0]);
      }
    }
  }

  /** Without jitter a whole run is one transformation of the whole stream. */
  lemma {:induction false} RunTransforms(c: Config, l: Line, calls: seq<Call>)
    requires c.jitter == 0
    ensures Run(c, l, calls).0.rng == Transformed(c.rates, l.rng, Stream(calls)).0
    ensures BytesOf(Run(c, l, calls).1) == Transformed(c.rates, l.rng, Stream(calls)).1
    decreases |calls|
  {
    hide Transformed, CrossChunks;
    if calls == [] {
      TransformedNone(c.rates, l.rng);
    } else {
      var (l1, first) := Planned(c, l, calls[0].now, calls[0].data);
      ChunksTransform(c, l.(cursor := Max(l.cursor, calls[0].now)), c.latency, calls[0].data);
      TransformedConcat(c.rates, l.rng, calls[0].data, Stream(calls[1..]));
      RunTransforms(c, l1, calls[1..]);
      FlatMapConcat(CellData, first, Run(c, l1, calls[1..]).1);
    }
  }

  /**
   * Noise does not depend on segmentation or speed: two jitter-free wires with the same
   * rates and generator, whatever their baud, latency and clock, and however the same
   * stream is cut into calls, deliver the same bytes and end with the same generator.
   */
  lemma NoiseIgnoresSegmentation(c: Config, d: Config, l: Line, m: Line, these: seq<Call>, those: seq<Call>)
    requires c.jitter == 0 && d.jitter == 0 && c.rates == d.rates && l.rng == m.rng
    requires Stream(these) == Stream(those)
    ensures BytesOf(Run(c, l, these).1) == BytesOf(Run(d, m, those).1)
    ensures Run(c, l, these).0.rng == Run(d, m, those).0.rng
  {
    RunTransforms(c, l, these);
    RunTransforms(d, m, those);
  }

  /** A line without noise delivers what it is handed, jitter or not. */
  lemma {:induction false} QuietRunDelivers(c: Config, l: Line, calls: seq<Call>)
    requires !On(c.rates.drop) && !On(c.rates.corrupt)
    ensures BytesOf(Run(c, l, calls).1) == Stream(calls)
    decreases |calls|
  {
    hide Transformed, CrossChunks, Shifted, On;
    if calls != [] {
      var (l1, first) := Planned(c, l, calls[0].now, calls[0].data);
      var start := l.(cursor := Max(l.cursor, calls[0].now), rng := JitterSample(c, l.rng).0);
      ChunksTransform(c, start, c.latency + JitterSample(c, l.rng).1, calls[0].data);
      QuietLine(c.rates, start.rng, calls[0].data);
      QuietRunDelivers(c, l1, calls[1..]);
      FlatMapConcat(CellData, first, Run(c, l1, calls[1..]).1);
    }
  }

  /** Why jitter must be off: it draws once per call, so even a noiseless run counts its calls. */
  lemma {:induction false} JitterCountsCalls(c: Config, l: Line, calls: seq<Call>)
    requires c.jitter > 0 && !On(c.rates.drop) && !On(c.rates.corrupt)
    ensures Run(c, l, calls).0.rng == StateAfter(l.rng, |calls|)
    decreases |calls|
  {
    hide Shifted, CrossChunks, On;
    if calls != [] {
      var start := l.(cursor := Max(l.cursor, calls[0].now), rng := Shifted(l.rng));
      var lat := c.latency + JitterSample(c, l.rng).1;
      ChunksTransform(c, start, lat, calls[0].data);
      QuietLine(c.rates, start.rng, calls[0].data);
      JitterCountsCalls(c, Planned(c, l, calls[0].now, calls[0].data).0, calls[1..]);
    }
  }

  // ── the pacing cursor ───────────────────────────────────────────────────

  function Total(calls: seq<Call>): nat {
    if calls == [] then 0 else |calls[0].data| + Total(calls[1..])
  }

  lemma MulAdd(x: nat, a: int, b: int)
    ensures x * (a + b) == x * a + x * b
  {
  }

  /** The first chunk of a planning loop, and what it leaves. */
  lemma FirstChunk(c: Config, l: Line, lat: nat, data: seq<byte>)
    requires data != []
    ensures var n := ChunkSize(c, data);
            var (l1, first) := CrossChunk(c, l, lat, data[..n]);
            && l1.cursor == l.cursor + ByteTime(c) * n && l1.crossed == l.crossed + n
            && |first| <= 1
            && (first != [] ==> first[0].crossed == l1.crossed && first[0].cell.due == l1.cursor + lat)
            && CrossChunks(c, l, lat, data)
               == (CrossChunks(c, l1, lat, data[n..]).0, first + CrossChunks(c, l1, lat, data[n..]).1)
  {
    hide Transformed;
  }

  lemma {:induction false} ChunksPace(c: Config, l: Line, lat: nat, data: seq<byte>)
    ensures CrossChunks(c, l, lat, data).0.cursor == l.cursor + ByteTime(c) * |data|
    ensures CrossChunks(c, l, lat, data).0.crossed == l.crossed + |data|
    decreases |data|
  {
    hide CrossChunk;
    if data != [] {
      var n := ChunkSize(c, data);
      FirstChunk(c, l, lat, data);
      ChunksPace(c, CrossChunk(c, l, lat, data[..n]).0, lat, data[n..]);
      MulAdd(ByteTime(c), n, |data| - n);
    }
  }

  /**
   * `v` is the latest of: the initial cursor plus line time for every byte, and, for each
   * call, its clock reading plus line time for the bytes from that call on.
   */
  ghost predicate IsLatest(v: int, cursor: nat, byteTime: nat, calls: seq<Call>) {
    && v >= cursor + byteTime * Total(calls)
    && (forall k :: 0 <= k < |calls| ==> v >= calls[k].now + byteTime * Total(calls[k..]))
    && (v == cursor + byteTime * Total(calls)
        || exists k :: 0 <= k < |calls| && v == calls[k].now + byteTime * Total(calls[k..]))
  }

  /** The cursor in closed form: noise, latency, jitter and cell size do not enter, and idle time earns nothing. */
  lemma {:induction false} CursorClosedForm(c: Config, l: Line, calls: seq<Call>)
    ensures IsLatest(Run(c, l, calls).0.cursor, l.cursor, if c.baud.Some? then c.byteTime else 0, calls)
    decreases |calls|
  {
    hide Planned, IsLatest;
    var bt := ByteTime(c);
    if calls == [] {
      LatestNone(l.cursor, bt);
    } else {
      var l1 := Planned(c, l, calls[0].now, calls[0].data).0;
      PlannedPaces(c, l, calls[0].now, calls[0].data);
      CursorClosedForm(c, l1, calls[1..]);
      MulAdd(bt, |calls[0].data|, Total(calls[1..]));
      LatestCons(Run(c, l, calls).0.cursor, l.cursor, bt, calls);
    }
  }

  lemma PlannedPaces(c: Config, l: Line, now: nat, data: seq<byte>)
    ensures Planned(c, l, now, data).0.cursor == Max(l.cursor, now) + ByteTime(c) * |data|
    ensures Planned(c, l, now, data).0.crossed == l.crossed + |data|
  {
    hide CrossChunks, Shifted;
    var (rng, extra) := JitterSample(c, l.rng);
    ChunksPace(c, l.(cursor := Max(l.cursor, now), rng := rng), c.latency + extra, data);
  }

  lemma LatestNone(cursor: nat, bt: nat)
    ensures IsLatest(cursor, cursor, bt, [])
  {
  }

  lemma LatestCons(v: int, cursor: nat, bt: nat, calls: seq<Call>)
    requires calls != []
    requires IsLatest(v, Max(cursor, calls[0].now) + bt * |calls[0].data|, bt, calls[1..])
    requires bt * Total(calls) == bt * |calls[0].data| + bt * Total(calls[1..])
    ensures IsLatest(v, cursor, bt, calls)
  {
    assert calls[0..] == calls;
    forall k | 0 <= k < |calls|
      ensures v >= calls[k].now + bt * Total(calls[k..])
    {
      if k > 0 {
        assert calls[1..][k - 1..] == calls[k..] && calls[1..][k - 1] == calls[k];
      }
    }
    if v != cursor + bt * Total(calls) && v != calls[0].now + bt * Total(calls[0..]) {
      var k :| 0 <= k < |calls[1..]| && v == calls[1..][k].now + bt * Total(calls[1..][k..]);
      assert calls[1..][k..] == calls[k + 1..] && calls[1..][k] == calls[k + 1];
    }
  }

  // ── throughput and order under sleep-then-write ─────────────────────────

  /** Each delivery is due no earlier than the one before it plus the line time of its own bytes. */
  predicate Paced(byteTime: nat, clock: int, xs: seq<Crossing>)
    decreases |xs|
  {
    xs == [] || (xs[0].cell.due >= clock + byteTime * |xs[0].cell.data| && Paced(byteTime, xs[0].cell.due, xs[1..]))
  }

  lemma TransformShrinks(r: Rates, x: bv64, data: seq<byte>)
    ensures |Transformed(r, x, data).1| <= |data|
  {
    hide FateOf;
    FatesLength(r, x, |data|);
    SurvivorsShrink(data, Fates(r, x, |data|).1);
  }

  lemma {:induction false} SurvivorsShrink(data: seq<byte>, fates: seq<Fate>)
    requires |data| == |fates|
    ensures |Survivors(data, fates)| <= |data|
    decreases |data|
  {
    hide Flipped;
    if data != [] {
      SurvivorsShrink(data[1..], fates[1..]);
    }
  }

  lemma {:induction false} PacedFromEarlier(bt: nat, clock: int, earlier: int, xs: seq<Crossing>)
    requires earlier <= clock && Paced(bt, clock, xs)
    ensures Paced(bt, earlier, xs)
  {
  }

  lemma ChunkShrinks(c: Config, l: Line, lat: nat, chunk: seq<byte>)
    ensures var first := CrossChunk(c, l, lat, chunk).1;
            |first| <= 1 && (first != [] ==> |first[0].cell.data| <= |chunk|)
  {
    hide Transformed;
    TransformShrinks(c.rates, l.rng, chunk);
  }

  lemma PacedCons(bt: nat, clock: int, x: Crossing, rest: seq<Crossing>)
    requires x.cell.due >= clock + bt * |x.cell.data| && Paced(bt, x.cell.due, rest)
    ensures Paced(bt, clock, [x] + rest)
  {
    assert ([x] + rest)[1..] == rest;
  }

  lemma {:induction false} ChunksPaced(c: Config, l: Line, lat: nat, data: seq<byte>)
    ensures Paced(ByteTime(c), l.cursor + lat, CrossChunks(c, l, lat, data).1)
    decreases |data|
  {
    hide CrossChunk, Paced, ByteTime;
    if data == [] {
      PacedNone(ByteTime(c), l.cursor + lat);
    } else {
      var n := ChunkSize(c, data);
      var (l1, first) := CrossChunk(c, l, lat, data[..n]);
      var rest := CrossChunks(c, l1, lat, data[n..]).1;
      FirstChunk(c, l, lat, data);
      ChunksPaced(c, l1, lat, data[n..]);
      LineTimeGrows(ByteTime(c), 0, n);
      if first == [] {
        assert first + rest == rest;
        PacedFromEarlier(ByteTime(c), l1.cursor + lat, l.cursor + lat, rest);
      } else {
        ChunkShrinks(c, l, lat, data[..n]);
        LineTimeGrows(ByteTime(c), |first[0].cell.data|, n);
        assert first == [first[0]];
        PacedCons(ByteTime(c), l.cursor + lat, first[0], rest);
      }
    }
  }

  lemma PacedNone(bt: nat, clock: int)
    ensures Paced(bt, clock, [])
  {
  }

  lemma LineTimeGrows(bt: nat, m: nat, n: nat)
    requires m <= n
    ensures bt * m <= bt * n
  {
  }

  /** The clock once the caller has slept through the first `done` cells of a call. */
  function ClockAfter(now: nat, cells: seq<Crossing>): nat {
    if cells == [] then now else Max(now, cells[|cells| - 1].cell.due)
  }

  function Done(c: Config, l: Line, call: Call): seq<Crossing> {
    var xs := Planned(c, l, call.now, call.data).1;
    if call.done <= |xs| then xs[..call.done] else xs
  }

  /**
   * The callers' protocol: sleep until each cell is due, write it, and only then plan
   * again. A failed write abandons the rest of its call.
   */
  predicate Protocol(c: Config, l: Line, clock: nat, calls: seq<Call>)
    decreases |calls|
  {
    calls == [] ||
    (calls[0].now >= clock
     && Protocol(c, Planned(c, l, calls[0].now, calls[0].data).0,
                 ClockAfter(calls[0].now, Done(c, l, calls[0])), calls[1..]))
  }

  function Delivered(c: Config, l: Line, calls: seq<Call>): seq<Crossing>
    decreases |calls|
  {
    if calls == [] then []
    else Done(c, l, calls[0]) + Delivered(c, Planned(c, l, calls[0].now, calls[0].data).0, calls[1..])
  }

  lemma {:induction false} PacedPrefix(bt: nat, clock: int, xs: seq<Crossing>, n: nat)
    requires n <= |xs| && Paced(bt, clock, xs)
    ensures Paced(bt, clock, xs[..n])
    decreases n
  {
    if n > 0 {
      PacedPrefix(bt, xs[0].cell.due, xs[1..], n - 1);
      assert xs[..n][1..] == xs[1..][..n - 1];
    }
  }

  lemma {:induction false} PacedConcat(bt: nat, clock: int, xs: seq<Crossing>, ys: seq<Crossing>)
    requires Paced(bt, clock, xs)
    requires Paced(bt, if xs == [] then clock else xs[|xs| - 1].cell.due, ys)
    ensures Paced(bt, clock, xs + ys)
    decreases |xs|
  {
    if xs == [] {
      assert xs + ys == ys;
    } else {
      PacedConcat(bt, xs[0].cell.due, xs[1..], ys);
      assert (xs + ys)[1..] == xs[1..] + ys;
    }
  }

  lemma {:induction false} DeliveryPaced(c: Config, l: Line, clock: nat, calls: seq<Call>)
    requires Protocol(c, l, clock, calls)
    ensures Paced(ByteTime(c), clock, Delivered(c, l, calls))
    decreases |calls|
  {
    hide CrossChunks;
    if calls != [] {
      var bt := ByteTime(c);
      var call := calls[0];
      var (l1, xs) := Planned(c, l, call.now, call.data);
      var done := Done(c, l, call);
      ChunksPaced(c, l.(cursor := Max(l.cursor, call.now), rng := JitterSample(c, l.rng).0),
                  c.latency + JitterSample(c, l.rng).1, call.data);
      PacedFromEarlier(bt, Max(l.cursor, call.now) + c.latency + JitterSample(c, l.rng).1, clock, xs);
      PacedPrefix(bt, clock, xs, |done|);
      assert done == xs[..|done|];
      var later := Delivered(c, l1, calls[1..]);
      DeliveryPaced(c, l1, ClockAfter(call.now, done), calls[1..]);
      PacedFromEarlier(bt, ClockAfter(call.now, done), if done == [] then clock else done[|done| - 1].cell.due, later);
      PacedConcat(bt, clock, done, later);
    }
  }

  lemma {:induction false} PacedBound(bt: nat, clock: int, xs: seq<Crossing>, i: nat, j: nat)
    requires Paced(bt, clock, xs) && i < j < |xs|
    ensures xs[j].cell.due >= xs[i].cell.due + bt * |BytesOf(xs[i + 1..j + 1])|
    decreases |xs|, j
  {
    hide FlatMap;
    if i > 0 {
      PacedBound(bt, xs[0].cell.due, xs[1..], i - 1, j - 1);
      assert xs[1..][i..j] == xs[i + 1..j + 1];
    } else if j == 1 {
      assert xs[1..2] == [xs[1]];
      FlatMapOne(CellData, xs[1]);
    } else {
      PacedBound(bt, clock, xs, 0, j - 1);
      PacedStep(bt, clock, xs, j);
      assert xs[1..j + 1] == xs[1..j] + [xs[j]];
      FlatMapSnoc(CellData, xs[1..j], xs[j]);
      MulAdd(bt, |BytesOf(xs[1..j])|, |xs[j].cell.data|);
    }
  }

  lemma {:induction false} PacedStep(bt: nat, clock: int, xs: seq<Crossing>, j: nat)
    requires Paced(bt, clock, xs) && 1 <= j < |xs|
    ensures xs[j].cell.due >= xs[j - 1].cell.due + bt * |xs[j].cell.data|
    decreases j
  {
    if j > 1 {
      PacedStep(bt, xs[0].cell.due, xs[1..], j - 1);
    }
  }

  /**
   * Throughput and order: under sleep-then-write, with any jitter and any write failures,
   * two deliveries are at least as far apart as the line time of the bytes delivered
   * after the first, up to and including the second. Due times never go back.
   */
  lemma DeliveriesKeepLineRate(c: Config, l: Line, clock: nat, calls: seq<Call>, i: nat, j: nat)
    requires Protocol(c, l, clock, calls) && i < j < |Delivered(c, l, calls)|
    ensures var xs, bt := Delivered(c, l, calls), if c.baud.Some? then c.byteTime else 0;
            xs[j].cell.due >= xs[i].cell.due + bt * |BytesOf(xs[i + 1..j + 1])| >= xs[i].cell.due
  {
    DeliveryPaced(c, l, clock, calls);
    var xs := Delivered(c, l, calls);
    PacedBound(ByteTime(c), clock, xs, i, j);
    LineTimeGrows(ByteTime(c), 0, |BytesOf(xs[i + 1..j + 1])|);
  }

  // ── what latency costs ──────────────────────────────────────────────────

  /**
   * Within one call latency only shifts: each cell is due at the line time of the bytes
   * crossed so far, dropped ones included, plus one and the same latency.
   */
  lemma LatencyShiftsOneCall(c: Config, l: Line, now: nat, data: seq<byte>, i: nat)
    requires i < |Planned(c, l, now, data).1|
    ensures var x, bt := Planned(c, l, now, data).1[i], if c.baud.Some? then c.byteTime else 0;
            && l.crossed < x.crossed <= l.crossed + |data|
            && x.cell.due == Max(l.cursor, now) + bt * (x.crossed - l.crossed) + LatencyAt(c, l)
  {
    hide CrossChunks, Shifted;
    var rng := JitterSample(c, l.rng).0;
    ChunkDue(c, l.(cursor := Max(l.cursor, now), rng := rng), LatencyAt(c, l), data, i);
  }

  lemma {:induction false} ChunkDue(c: Config, l: Line, lat: nat, data: seq<byte>, i: nat)
    requires i < |CrossChunks(c, l, lat, data).1|
    ensures var x := CrossChunks(c, l, lat, data).1[i];
            && l.crossed < x.crossed <= l.crossed + |data|
            && x.cell.due == l.cursor + ByteTime(c) * (x.crossed - l.crossed) + lat
    decreases |data|
  {
    hide CrossChunk;
    assert data != [] by { NoChunks(c, l, lat); }
    var n := ChunkSize(c, data);
    FirstChunk(c, l, lat, data);
    var (l1, first) := CrossChunk(c, l, lat, data[..n]);
    if i >= |first| {
      ChunkDue(c, l1, lat, data[n..], i - |first|);
      var x := CrossChunks(c, l1, lat, data[n..]).1[i - |first|];
      MulAdd(ByteTime(c), n, x.crossed - l1.crossed);
    }
  }

  lemma NoChunks(c: Config, l: Line, lat: nat)
    ensures CrossChunks(c, l, lat, []).1 == []
  {
  }

  /** The latency of the next call: the configured one, and its jitter. */
  function LatencyAt(c: Config, l: Line): nat {
    c.latency + JitterSample(c, l.rng).1
  }

  /** The clock once the caller has slept through every delivery. */
  function ClockEnd(c: Config, l: Line, clock: nat, calls: seq<Call>): nat
    decreases |calls|
  {
    if calls == [] then clock
    else
      var call := calls[0];
      ClockEnd(c, Planned(c, l, call.now, call.data).0, ClockAfter(call.now, Done(c, l, call)), calls[1..])
  }

  lemma {:induction false} ProtocolSplits(c: Config, l: Line, clock: nat, before: seq<Call>, after: seq<Call>)
    requires Protocol(c, l, clock, before + after)
    ensures Protocol(c, l, clock, before)
    ensures Protocol(c, Run(c, l, before).0, ClockEnd(c, l, clock, before), after)
    ensures Delivered(c, l, before + after) == Delivered(c, l, before) + Delivered(c, Run(c, l, before).0, after)
    decreases |before|
  {
    hide Planned, Done, ClockAfter;
    if before == [] {
      assert before + after == after;
      assert [] + Delivered(c, l, after) == Delivered(c, l, after);
    } else {
      var call, rest := before[0], before[1..];
      assert (before + after)[0] == call && (before + after)[1..] == rest + after;
      var l1, done := Planned(c, l, call.now, call.data).0, Done(c, l, call);
      ProtocolSplits(c, l1, ClockAfter(call.now, done), rest, after);
      Assoc(done, Delivered(c, l1, rest), Delivered(c, Run(c, l1, rest).0, after));
    }
  }

  /** Every delivery is over by the end. */
  lemma {:induction false} DeliveredByEnd(c: Config, l: Line, clock: nat, calls: seq<Call>, i: nat)
    requires Protocol(c, l, clock, calls)
    ensures clock <= ClockEnd(c, l, clock, calls)
    ensures i < |Delivered(c, l, calls)| ==> Delivered(c, l, calls)[i].cell.due <= ClockEnd(c, l, clock, calls)
    decreases |calls|
  {
    hide Planned, Done;
    if calls != [] {
      var call := calls[0];
      var done := Done(c, l, call);
      var l1 := Planned(c, l, call.now, call.data).0;
      var later := Delivered(c, l1, calls[1..]);
      DeliveredByEnd(c, l1, ClockAfter(call.now, done), calls[1..], if i < |done| then 0 else i - |done|);
      if i < |done| {
        var last := |done| - 1;
        if i < last {
          DeliveriesKeepLineRate(c, l, clock, calls, i, last);
        }
        assert done[i].cell.due <= done[last].cell.due;
      }
    }
  }

  /**
   * Latency is paid on every call, not once: under sleep-then-write a delivery is due at
   * least a full latency, and its own line time, after any delivery of any earlier call.
   */
  lemma LatencyIsPaidPerCall(
    c: Config, l: Line, clock: nat, before: seq<Call>, after: seq<Call>, i: nat, j: nat)
    requires Protocol(c, l, clock, before + after)
    requires i < |Delivered(c, l, before)| <= j < |Delivered(c, l, before + after)|
    ensures var xs, bt := Delivered(c, l, before + after), if c.baud.Some? then c.byteTime else 0;
            xs[j].cell.due >= xs[i].cell.due + c.latency + bt * |xs[j].cell.data|
  {
    hide Protocol, Delivered, Run;
    ProtocolSplits(c, l, clock, before, after);
    DeliveredByEnd(c, l, clock, before, i);
    LaterDue(c, Run(c, l, before).0, ClockEnd(c, l, clock, before), after, j - |Delivered(c, l, before)|);
  }

  lemma {:induction false} LaterDue(c: Config, l: Line, clock: nat, calls: seq<Call>, j: nat)
    requires Protocol(c, l, clock, calls) && j < |Delivered(c, l, calls)|
    ensures var cell := Delivered(c, l, calls)[j].cell;
            cell.due >= clock + c.latency + ByteTime(c) * |cell.data|
    decreases |calls|
  {
    hide CrossChunks;
    var call := calls[0];
    var done := Done(c, l, call);
    if j < |done| {
      var start := Max(l.cursor, call.now);
      var lat := c.latency + JitterSample(c, l.rng).1;
      ChunksPaced(c, l.(cursor := start, rng := JitterSample(c, l.rng).0), lat, call.data);
      PacedEach(ByteTime(c), start + lat, Planned(c, l, call.now, call.data).1, j);
    } else {
      LaterDue(c, Planned(c, l, call.now, call.data).0, ClockAfter(call.now, done), calls[1..], j - |done|);
    }
  }

  lemma {:induction false} PacedEach(bt: nat, clock: int, xs: seq<Crossing>, j: nat)
    requires Paced(bt, clock, xs) && j < |xs|
    ensures xs[j].cell.due >= clock + bt * |xs[j].cell.data|
    decreases j
  {
    if j > 0 {
      PacedEach(bt, xs[0].cell.due, xs[1..], j - 1);
      LineTimeGrows(bt, 0, |xs[0].cell.data|);
    }
  }

  /** A busy caller: each call holds data, is made the moment the last one is over, and is slept through. */
  predicate BackToBack(c: Config, l: Line, clock: nat, calls: seq<Call>)
    decreases |calls|
  {
    calls == [] ||
    (var call, (l1, xs) := calls[0], Planned(c, l, calls[0].now, calls[0].data);
     && call.now == clock && call.data != [] && call.done >= |xs|
     && BackToBack(c, l1, ClockAfter(call.now, Done(c, l, call)), calls[1..]))
  }

  /** The latencies of all calls together. */
  function Latencies(c: Config, l: Line, calls: seq<Call>): nat
    decreases |calls|
  {
    if calls == [] then 0
    else LatencyAt(c, l) + Latencies(c, Planned(c, l, calls[0].now, calls[0].data).0, calls[1..])
  }

  lemma {:induction false} LastDue(c: Config, l: Line, lat: nat, data: seq<byte>)
    requires data != [] && !On(c.rates.drop)
    ensures var (l1, xs) := CrossChunks(c, l, lat, data);
            xs != [] && xs[|xs| - 1].cell.due == l1.cursor + lat
    decreases |data|
  {
    hide CrossChunk, Transformed;
    var n := ChunkSize(c, data);
    FirstChunk(c, l, lat, data);
    var (l1, first) := CrossChunk(c, l, lat, data[..n]);
    var rest := CrossChunks(c, l1, lat, data[n..]).1;
    if data[n..] == [] {
      NoChunks(c, l1, lat);
      FirstSurvives(c, l, lat, data[..n]);
      assert first + rest == first;
    } else {
      LastDue(c, l1, lat, data[n..]);
      assert (first + rest)[|first + rest| - 1] == rest[|rest| - 1];
    }
  }

  lemma FirstSurvives(c: Config, l: Line, lat: nat, chunk: seq<byte>)
    requires chunk != [] && !On(c.rates.drop)
    ensures CrossChunk(c, l, lat, chunk).1 != []
  {
    hide Transformed;
    NoDropKeepsLength(c.rates, l.rng, chunk);
  }

  /**
   * The cost, exactly: on a line that drops nothing, a busy caller is done after the line
   * time of all its bytes, counted from when the line is free, plus one latency, jitter
   * included, per call.
   */
  lemma {:induction false} BusyCallerPays(c: Config, l: Line, clock: nat, calls: seq<Call>)
    requires BackToBack(c, l, clock, calls) && !On(c.rates.drop) && calls != []
    ensures var bt := if c.baud.Some? then c.byteTime else 0;
            ClockEnd(c, l, clock, calls) == Max(l.cursor, clock) + bt * Total(calls) + Latencies(c, l, calls)
    decreases |calls|
  {
    hide CrossChunks, Shifted, On;
    var call, rest := calls[0], calls[1..];
    var (l1, xs) := Planned(c, l, clock, call.data);
    var start := l.(cursor := Max(l.cursor, clock), rng := JitterSample(c, l.rng).0);
    LastDue(c, start, LatencyAt(c, l), call.data);
    PlannedPaces(c, l, clock, call.data);
    LineTimeGrows(ByteTime(c), 0, |call.data|);
    MulAdd(ByteTime(c), |call.data|, Total(rest));
    if rest != [] {
      BusyCallerPays(c, l1, l1.cursor + LatencyAt(c, l), rest);
    }
  }

  /**
   * The latencies of the calls of which anything arrives: with drops, a call may lose all
   * its cells, and its caller then does not wait.
   */
  function LatenciesMet(c: Config, l: Line, calls: seq<Call>): nat
    decreases |calls|
  {
    if calls == [] then 0
    else
      var (l1, xs) := Planned(c, l, calls[0].now, calls[0].data);
      (if xs == [] then 0 else LatencyAt(c, l)) + LatenciesMet(c, l1, calls[1..])
  }

  /**
   * The cost under any noise: never more than if nothing had been dropped, and never less
   * than the line time of what arrives and the latency of each call of which anything does.
   */
  lemma {:induction false} NoisyCallerPays(c: Config, l: Line, clock: nat, calls: seq<Call>)
    requires BackToBack(c, l, clock, calls)
    ensures var end := ClockEnd(c, l, clock, calls);
            && end <= Max(l.cursor, clock) + ByteTime(c) * Total(calls) + Latencies(c, l, calls)
            && end >= clock + ByteTime(c) * |BytesOf(Run(c, l, calls).1)| + LatenciesMet(c, l, calls)
    decreases |calls|
  {
    hide Planned, LatencyAt;
    if calls != [] {
      var call, rest := calls[0], calls[1..];
      var (l1, xs) := Planned(c, l, clock, call.data);
      var clock1 := ClockAfter(clock, xs);
      assert call.now == clock && Done(c, l, call) == xs;
      CallCost(c, l, clock, call.data);
      NoisyCallerPays(c, l1, clock1, rest);
      FlatMapConcat(CellData, xs, Run(c, l1, rest).1);
      MulAdd(ByteTime(c), |call.data|, Total(rest));
      MulAdd(ByteTime(c), |BytesOf(xs)|, |BytesOf(Run(c, l1, rest).1)|);
    }
  }

  /** One call slept through. */
  lemma CallCost(c: Config, l: Line, clock: nat, data: seq<byte>)
    ensures var (l1, xs) := Planned(c, l, clock, data);
            var clock1 := ClockAfter(clock, xs);
            && Max(l1.cursor, clock1) <= Max(l.cursor, clock) + ByteTime(c) * |data| + LatencyAt(c, l)
            && clock1 >= clock + ByteTime(c) * |BytesOf(xs)| + (if xs == [] then 0 else LatencyAt(c, l))
  {
    hide CrossChunks, Shifted;
    var (l1, xs) := Planned(c, l, clock, data);
    PlannedPaces(c, l, clock, data);
    LineTimeGrows(ByteTime(c), 0, |data|);
    if xs == [] {
      assert BytesOf(xs) == [];
    } else {
      var last := |xs| - 1;
      LatencyShiftsOneCall(c, l, clock, data, last);
      LineTimeGrows(ByteTime(c), xs[last].crossed - l.crossed, |data|);
      var start := l.(cursor := Max(l.cursor, clock), rng := JitterSample(c, l.rng).0);
      ChunksPaced(c, start, LatencyAt(c, l), data);
      PacedWhole(ByteTime(c), start.cursor + LatencyAt(c, l), xs);
    }
  }

  lemma {:induction false} PacedWhole(bt: nat, clock: int, xs: seq<Crossing>)
    requires Paced(bt, clock, xs) && xs != []
    ensures xs[|xs| - 1].cell.due >= clock + bt * |BytesOf(xs)|
    decreases |xs|
  {
    var rest := xs[1..];
    assert BytesOf(xs) == xs[0].cell.data + BytesOf(rest);
    MulAdd(bt, |xs[0].cell.data|, |BytesOf(rest)|);
    if rest != [] {
      PacedWhole(bt, xs[0].cell.due, rest);
    } else {
      assert BytesOf(rest) == [];
    }
  }

  lemma {:induction false} JitterFreeLatencies(c: Config, l: Line, calls: seq<Call>)
    requires c.jitter == 0
    ensures Latencies(c, l, calls) == c.latency * |calls|
    decreases |calls|
  {
    hide Planned;
    if calls != [] {
      JitterFreeLatencies(c, Planned(c, l, calls[0].now, calls[0].data).0, calls[1..]);
      MulAdd(c.latency, 1, |calls| - 1);
    }
  }

  /**
   * Without jitter, then, latency is free exactly when it is 0, and is paid only once
   * exactly when it is 0 or there is a single call. Under drops a latency of 0 costs no
   * more than the line time.
   */
  lemma LatencyIsFreeExactly(c: Config, l: Line, clock: nat, calls: seq<Call>)
    requires BackToBack(c, l, clock, calls) && c.jitter == 0 && calls != []
    ensures var end, free := ClockEnd(c, l, clock, calls), Max(l.cursor, clock) + ByteTime(c) * Total(calls);
            && end <= free + c.latency * |calls|
            && (c.latency == 0 ==> end <= free)
            && (!On(c.rates.drop) ==>
                  && end == free + c.latency * |calls|
                  && (end == free <==> c.latency == 0)
                  && (end == free + c.latency <==> c.latency == 0 || |calls| == 1))
  {
    hide BackToBack, ClockEnd, Latencies, On;
    NoisyCallerPays(c, l, clock, calls);
    if !On(c.rates.drop) {
      BusyCallerPays(c, l, clock, calls);
    }
    JitterFreeLatencies(c, l, calls);
    Products(c.latency, |calls|);
  }

  lemma Products(x: nat, n: nat)
    requires n >= 1
    ensures x * n == 0 <==> x == 0
    ensures x * n == x <==> x == 0 || n == 1
  {
    if x * n == x {
      assert x * (n - 1) == 0;
    }
  }

  // ── without jitter, dropped bytes count too ─────────────────────────────

  /** Dues and crossings of a list of cells, measured from a cursor and a byte count. */
  predicate OnLine(bt: nat, cursor: int, crossed: int, lat: nat, xs: seq<Crossing>)
    decreases |xs|
  {
    xs == [] ||
    (xs[0].crossed >= crossed
     && xs[0].cell.due >= cursor + lat + bt * (xs[0].crossed - crossed)
     && OnLine(bt, xs[0].cell.due - lat, xs[0].crossed, lat, xs[1..]))
  }

  lemma OnLineFromEarlier(bt: nat, cursor: int, crossed: int, earlier: int, fewer: int, lat: nat, xs: seq<Crossing>)
    requires OnLine(bt, cursor, crossed, lat, xs)
    requires fewer <= crossed && earlier + bt * (crossed - fewer) <= cursor
    ensures OnLine(bt, earlier, fewer, lat, xs)
  {
    if xs != [] {
      assert bt * (xs[0].crossed - fewer) == bt * (xs[0].crossed - crossed) + bt * (crossed - fewer);
    }
  }

  lemma {:induction false} ChunksOnLine(c: Config, l: Line, lat: nat, data: seq<byte>, tail: seq<Crossing>)
    requires var l1 := CrossChunks(c, l, lat, data).0; OnLine(ByteTime(c), l1.cursor, l1.crossed, lat, tail)
    ensures OnLine(ByteTime(c), l.cursor, l.crossed, lat, CrossChunks(c, l, lat, data).1 + tail)
    decreases |data|
  {
    hide CrossChunk;
    var bt := ByteTime(c);
    if data == [] {
      assert [] + tail == tail;
    } else {
      var n := ChunkSize(c, data);
      FirstChunk(c, l, lat, data);
      var (l1, first) := CrossChunk(c, l, lat, data[..n]);
      var rest := CrossChunks(c, l1, lat, data[n..]).1;
      ChunksOnLine(c, l1, lat, data[n..], tail);
      Assoc(first, rest, tail);
      OnLineCons(bt, l.cursor, l.crossed, lat, first, rest + tail, l1.cursor, l1.crossed);
    }
  }

  lemma OnLineCons(bt: nat, cursor: int, crossed: int, lat: nat, first: seq<Crossing>, rest: seq<Crossing>,
                   cursor': int, crossed': int)
    requires OnLine(bt, cursor', crossed', lat, rest)
    requires crossed <= crossed' && cursor' == cursor + bt * (crossed' - crossed)
    requires |first| <= 1 && (first != [] ==> first[0].crossed == crossed' && first[0].cell.due == cursor' + lat)
    ensures OnLine(bt, cursor, crossed, lat, first + rest)
  {
    if first == [] {
      assert first + rest == rest;
      OnLineFromEarlier(bt, cursor', crossed', cursor, crossed, lat, rest);
    } else {
      assert (first + rest)[1..] == rest;
    }
  }

  lemma {:induction false} RunOnLine(c: Config, l: Line, calls: seq<Call>)
    requires c.jitter == 0
    ensures OnLine(ByteTime(c), l.cursor, l.crossed, c.latency, Run(c, l, calls).1)
    decreases |calls|
  {
    hide CrossChunks;
    if calls != [] {
      var (l1, first) := Planned(c, l, calls[0].now, calls[0].data);
      RunOnLine(c, l1, calls[1..]);
      ChunksOnLine(c, l.(cursor := Max(l.cursor, calls[0].now)), c.latency, calls[0].data, Run(c, l1, calls[1..]).1);
      OnLineFromEarlier(ByteTime(c), Max(l.cursor, calls[0].now), l.crossed, l.cursor, l.crossed, c.latency,
                        Run(c, l, calls).1);
    }
  }

  lemma {:induction false} OnLineBound(bt: nat, cursor: int, crossed: int, lat: nat, xs: seq<Crossing>, i: nat, j: nat)
    requires OnLine(bt, cursor, crossed, lat, xs) && i < j < |xs|
    ensures xs[i].crossed <= xs[j].crossed
    ensures xs[j].cell.due >= xs[i].cell.due + bt * (xs[j].crossed - xs[i].crossed)
    decreases |xs|
  {
    var tail := xs[1..];
    if i > 0 {
      OnLineBound(bt, xs[0].cell.due - lat, xs[0].crossed, lat, tail, i - 1, j - 1);
    } else if j > 1 {
      OnLineBound(bt, xs[0].cell.due - lat, xs[0].crossed, lat, tail, 0, j - 1);
      assert bt * (xs[j].crossed - xs[0].crossed)
          == bt * (xs[j].crossed - xs[1].crossed) + bt * (xs[1].crossed - xs[0].crossed);
    }
  }

  /**
   * Without jitter the gap between any two planned cells is at least the line time of all
   * the bytes that crossed between them, dropped ones included, and needs no protocol.
   */
  lemma JitterFreeKeepsLineRate(c: Config, l: Line, calls: seq<Call>, i: nat, j: nat)
    requires c.jitter == 0 && i < j < |Run(c, l, calls).1|
    ensures var xs, bt := Run(c, l, calls).1, if c.baud.Some? then c.byteTime else 0;
            && xs[i].crossed <= xs[j].crossed
            && xs[j].cell.due >= xs[i].cell.due + bt * (xs[j].crossed - xs[i].crossed)
  {
    RunOnLine(c, l, calls);
    OnLineBound(ByteTime(c), l.cursor, l.crossed, c.latency, Run(c, l, calls).1, i, j);
  }

  // ── cells ───────────────────────────────────────────────────────────────

  /** No cell is empty, and none holds more than a cell's worth of bytes. */
  lemma {:induction false} CellsAreBounded(c: Config, l: Line, lat: nat, data: seq<byte>, i: nat)
    requires i < |CrossChunks(c, l, lat, data).1|
    ensures 0 < |CrossChunks(c, l, lat, data).1[i].cell.data| <= CellBytes(c)
    decreases |data|
  {
    hide Transformed;
    var n := ChunkSize(c, data);
    var (l1, first) := CrossChunk(c, l, lat, data[..n]);
    TransformShrinks(c.rates, l.rng, data[..n]);
    if i >= |first| {
      CellsAreBounded(c, l1, lat, data[n..], i - |first|);
    }
  }
}
