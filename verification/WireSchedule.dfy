/**
 * The schedule of one call, written out: on a line without noise, where every byte goes and
 * when. Sizes and times are in the configuration's own numbers.
 */
module WireSchedule {
  import opened Common
  import opened Rng
  import opened Noise
  import opened Wire
  import opened WireRuns

  /** The bytes of one cell: a two-hundredth of a second of line, at least one; a free line cuts nothing. */
  function CellSize(baud: Option<nat>): (n: nat)
    ensures n >= 1
  {
    match baud
    case None => 0xFFFF_FFFF_FFFF_FFFF
    case Some(b) => if b < 4000 then 1 else b / 2000
  }

  /** Bytes that have crossed when cell `k` is through. */
  function Through(size: nat, total: nat, k: nat): nat {
    if size * (k + 1) < total then size * (k + 1) else total
  }

  predicate IsCell(cell: Cell, data: seq<byte>, size: nat, k: nat, start: nat, byteTime: nat, lat: nat) {
    && size * k < |data|
    && cell.data == data[size * k..Through(size, |data|, k)]
    && cell.due == start + byteTime * Through(size, |data|, k) + lat
  }

  /** Cell `k` of the rest is cell `k + 1` of the whole. */
  lemma LaterCell(cell: Cell, data: seq<byte>, size: nat, k: nat, start: nat, byteTime: nat, lat: nat)
    requires size < |data| && IsCell(cell, data[size..], size, k, start + byteTime * size, byteTime, lat)
    ensures IsCell(cell, data, size, k + 1, start, byteTime, lat)
  {
    MulAdd(size, 1, k);
    MulAdd(size, 1, k + 1);
    var t := Through(size, |data[size..]|, k);
    assert Through(size, |data|, k + 1) == size + t;
    MulAdd(byteTime, size, t);
    assert data[size..][size * k..t] == data[size + size * k..size + t];
  }

  lemma FirstCell(data: seq<byte>, size: nat, n: nat, start: nat, byteTime: nat, lat: nat)
    requires data != [] && n == if size < |data| then size else |data|
    ensures IsCell(Cell(data[..n], start + byteTime * n + lat), data, size, 0, start, byteTime, lat)
  {
    assert size * 0 == 0 && size * 1 == size && data[0..n] == data[..n];
  }

  /** The first chunk of a quiet line is its first cell. */
  lemma QuietChunk(c: Config, l: Line, lat: nat, data: seq<byte>)
    requires data != [] && !On(c.rates.drop) && !On(c.rates.corrupt)
    ensures var n := ChunkSize(c, data);
            CrossChunk(c, l, lat, data[..n]).1
            == [Crossing(Cell(data[..n], l.cursor + ByteTime(c) * n + lat), l.crossed + n)]
  {
    hide Transformed, CellBytes, On, ByteTime;
    QuietLine(c.rates, l.rng, data[..ChunkSize(c, data)]);
  }

  lemma {:induction false} ChunksAreEven(c: Config, l: Line, lat: nat, data: seq<byte>, k: nat)
    requires !On(c.rates.drop) && !On(c.rates.corrupt)
    ensures var xs, size := CrossChunks(c, l, lat, data).1, CellBytes(c);
            && (k < |xs| <==> size * k < |data|)
            && (k < |xs| ==> IsCell(xs[k].cell, data, size, k, l.cursor, ByteTime(c), lat))
    decreases |data|
  {
    hide CellBytes, On, ByteTime, CrossChunk, CrossChunks, IsCell;
    var size := CellBytes(c);
    LineTimeGrows(size, 0, k);
    if data == [] {
      NoChunks(c, l, lat);
    } else {
      var n := ChunkSize(c, data);
      QuietChunk(c, l, lat, data);
      FirstChunk(c, l, lat, data);
      var l1 := CrossChunk(c, l, lat, data[..n]).0;
      var rest := CrossChunks(c, l1, lat, data[n..]).1;
      if k == 0 {
        FirstCell(data, size, n, l.cursor, ByteTime(c), lat);
      } else if size < |data| {
        MulAdd(size, 1, k - 1);
        ChunksAreEven(c, l1, lat, data[n..], k - 1);
        if k - 1 < |rest| {
          LaterCell(rest[k - 1].cell, data, size, k - 1, l.cursor, ByteTime(c), lat);
        }
      } else {
        assert data[n..] == [];
        NoChunks(c, l1, lat);
        LineTimeGrows(size, 1, k);
      }
    }
  }

  lemma CellSizeIs(c: Config)
    ensures CellBytes(c) == CellSize(c.baud)
  {
  }

  /** The jitter of one call: its scale applied to the top 53 bits of the next word. */
  function JitterDrawn(c: Config, rng: bv64): nat {
    if c.jitter == 0 then 0 else c.scale(c.jitter, Output(Shifted(rng)) >> 11)
  }

  lemma JitterIsDrawn(c: Config, rng: bv64)
    ensures JitterSample(c, rng).1 == JitterDrawn(c, rng)
  {
    hide Shifted, Output;
  }

  /**
   * One call on a line without noise: the bytes are cut, in order, into cells of one size,
   * the last one the rest; each cell is due when its last byte is through, counted from
   * when the line is free, plus the latency and one draw of jitter for the whole call.
   */
  lemma PlanIsEven(c: Config, l: Line, now: nat, data: seq<byte>, k: nat)
    requires !On(c.rates.drop) && !On(c.rates.corrupt)
    ensures var xs, size := Planned(c, l, now, data).1, CellSize(c.baud);
            var start := if l.cursor < now then now else l.cursor;
            var bt := if c.baud.Some? then c.byteTime else 0;
            && (k < |xs| <==> size * k < |data|)
            && (k < |xs| ==> IsCell(xs[k].cell, data, size, k, start, bt, c.latency + JitterDrawn(c, l.rng)))
  {
    hide CrossChunks, Shifted, IsCell, On, CellBytes, JitterDrawn, Draw, CellSize, Through;
    JitterIsDrawn(c, l.rng);
    var start := l.(cursor := Max(l.cursor, now), rng := JitterSample(c, l.rng).0);
    CellSizeIs(c);
    ChunksAreEven(c, start, LatencyAt(c, l), data, k);
  }

  /** Jitter stays within what was asked for, if scaling by a fraction does. */
  lemma JitterIsBounded(c: Config, l: Line)
    requires forall jitter, draw: bv64 :: draw < 0x20_0000_0000_0000 ==> c.scale(jitter, draw) <= jitter
    ensures c.latency <= LatencyAt(c, l) <= c.latency + c.jitter
  {
    hide Shifted, Draw;
    DrawIsSmall(Shifted(l.rng));
  }
}
