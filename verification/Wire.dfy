/**
 * The simulated wire: which cells a call makes of its bytes, and when each is due. The
 * mutable wire is proved against that schedule. Time is in nanoseconds; `now` is the
 * clock reading a call starts from.
 */
module Wire {
  import opened Common
  import opened Rng
  import opened Noise

  /** A resolved wire configuration: features that are off are 0, and no baud means no byte time. */
  datatype Config = Config(
    baud: Option<nat>,
    byteTime: nat,                  // line time of one byte; given, since the source divides floats
    latency: nat,
    jitter: nat,
    scale: (nat, bv64) -> nat,      // jitter times a 53-bit draw, as the source's rounding has it
    rates: Rates)

  /** usize::MAX: without throttling one cell holds the whole chunk. */
  const UNLIMITED: nat := 0xFFFF_FFFF_FFFF_FFFF

  function CellBytes(c: Config): (n: nat)
    ensures n >= 1
  {
    match c.baud
    case Some(b) => if b / 10 / 200 > 1 then b / 10 / 200 else 1
    case None => UNLIMITED
  }

  function ByteTime(c: Config): nat {
    if c.baud.Some? then c.byteTime else 0
  }

  /** Bytes that leave together, and the earliest time they may. */
  datatype Cell = Cell(data: seq<byte>, due: nat)

  /** The moving parts of a wire, and how many bytes it has been handed so far. */
  datatype Line = Line(cursor: nat, rng: bv64, crossed: nat)

  /** A cell, with the number of bytes that had crossed the line when its last byte did. */
  datatype Crossing = Crossing(cell: Cell, crossed: nat)

  function Max(a: nat, b: nat): nat {
    if a < b then b else a
  }

  function JitterSample(c: Config, rng: bv64): (bv64, nat) {
    if c.jitter == 0 then (rng, 0) else (Shifted(rng), c.scale(c.jitter, Draw(Shifted(rng))))
  }

  function ChunkSize(c: Config, data: seq<byte>): (n: nat)
    requires data != []
    ensures 1 <= n <= |data|
  {
    if CellBytes(c) < |data| then CellBytes(c) else |data|
  }

  /** One chunk: it takes line time for all its bytes, then noise takes its toll. */
  function CrossChunk(c: Config, l: Line, lat: nat, chunk: seq<byte>): (Line, seq<Crossing>) {
    var cursor := l.cursor + ByteTime(c) * |chunk|;
    var (rng, out) := Transformed(c.rates, l.rng, chunk);
    (Line(cursor, rng, l.crossed + |chunk|),
     if out == [] then [] else [Crossing(Cell(out, cursor + lat), l.crossed + |chunk|)])
  }

  function CrossChunks(c: Config, l: Line, lat: nat, data: seq<byte>): (Line, seq<Crossing>)
    decreases |data|
  {
    if data == [] then (l, [])
    else
      var n := ChunkSize(c, data);
      var (l1, first) := CrossChunk(c, l, lat, data[..n]);
      var (l2, rest) := CrossChunks(c, l1, lat, data[n..]);
      (l2, first + rest)
  }

  /** One `plan` call: an idle line starts from now, and one latency serves the whole call. */
  function Planned(c: Config, l: Line, now: nat, data: seq<byte>): (Line, seq<Crossing>) {
    var (rng, extra) := JitterSample(c, l.rng);
    CrossChunks(c, l.(cursor := Max(l.cursor, now), rng := rng), c.latency + extra, data)
  }

  function CellOf(x: Crossing): seq<Cell> {
    [x.cell]
  }

  function CellsOf(xs: seq<Crossing>): seq<Cell> {
    FlatMap(CellOf, xs)
  }

  function CellData(x: Crossing): seq<byte> {
    x.cell.data
  }

  /** The bytes a list of cells delivers. */
  function BytesOf(xs: seq<Crossing>): seq<byte> {
    FlatMap(CellData, xs)
  }

  // ── the mutable wire ────────────────────────────────────────────────────

  class PacedWire {
    const config: Config
    var rng: Generator
    var cursor: nat
    ghost var crossed: nat

    ghost predicate Valid()
      reads this, rng
    {
      rng.state != 0
    }

    ghost function View(): Line
      reads this, rng
    {
      Line(cursor, rng.state, crossed)
    }

    /** `Wire::new`: each direction of each session is seeded apart. */
    constructor (config: Config, seed: bv64, session: bv64, back: bool, now: nat)
      ensures Valid() && fresh(rng) && this.config == config
      ensures View() == Line(now, InitialState(seed, session, back), 0)
    {
      this.config := config;
      rng := new Generator(WireSeed(seed, WireNumber(session, back)));
      cursor := now;
      crossed := 0;
    }

    /** Transform and schedule one chunk of the stream. */
    method Plan(now: nat, data: seq<byte>) returns (cells: seq<Cell>)
      requires Valid()
      modifies this, rng
      ensures Valid() && rng == old(rng)
      ensures View() == Planned(config, old(View()), now, data).0
      ensures cells == CellsOf(Planned(config, old(View()), now, data).1)
    {
      hide CrossChunks;
      if cursor < now {
        cursor := now;
      }
      var extra := SampleJitter();
      cells := PlanChunks(config.latency + extra, data);
    }

    method PlanChunks(lat: nat, data: seq<byte>) returns (cells: seq<Cell>)
      requires Valid()
      modifies this, rng
      ensures Valid() && rng == old(rng)
      ensures View() == CrossChunks(config, old(View()), lat, data).0
      ensures cells == CellsOf(CrossChunks(config, old(View()), lat, data).1)
    {
      hide CrossChunk, CrossChunks, CellsOf, CellBytes, Resume;
      ghost var whole := CrossChunks(config, View(), lat, data);
      ghost var planned: seq<Crossing> := [];
      cells := [];
      var i := 0;
      ResumeEnds(config, View(), lat, data);
      assert data[0..] == data;
      while i < |data|
        invariant 0 <= i <= |data|
        invariant Valid() && rng == old(rng)
        invariant cells == CellsOf(planned)
        invariant whole == Resume(config, View(), lat, data[i..], planned)
      {
        var n := if CellBytes(config) < |data| - i then CellBytes(config) else |data| - i;
        ghost var xs := CrossChunk(config, View(), lat, data[i..i + n]).1;
        ResumeStep(config, View(), lat, data[i..], planned);
        assert data[i..][..n] == data[i..i + n] && data[i..][n..] == data[i + n..];
        var out := CrossOne(lat, data[i..i + n]);
        cells := cells + out;
        i := i + n;
        CellsOfConcat(planned, xs);
        planned := planned + xs;
      }
      assert data[i..] == [];
      ResumeDone(config, View(), lat, planned);
    }

    /** One turn of the planning loop. */
    method CrossOne(lat: nat, chunk: seq<byte>) returns (cells: seq<Cell>)
      requires Valid()
      modifies this, rng
      ensures Valid() && rng == old(rng)
      ensures View() == CrossChunk(config, old(View()), lat, chunk).0
      ensures cells == CellsOf(CrossChunk(config, old(View()), lat, chunk).1)
    {
      hide Transformed;
      Crossed(config, View(), lat, chunk);
      if config.baud.Some? {
        cursor := cursor + config.byteTime * |chunk|;
      }
      var out := Transform(chunk);
      cells := [];
      if out != [] {
        cells := cells + [Cell(out, cursor + lat)];
      }
      crossed := crossed + |chunk|;
    }

    method SampleJitter() returns (extra: nat)
      requires Valid()
      modifies rng
      ensures Valid() && (rng.state, extra) == JitterSample(config, old(rng.state))
    {
      if config.jitter == 0 {
        extra := 0;
      } else {
        hide Shifted, Draw;
        var draw := rng.Uniform();
        extra := config.scale(config.jitter, draw);
      }
    }

    /** Drop, flip or keep each byte in turn. */
    method Transform(chunk: seq<byte>) returns (out: seq<byte>)
      requires Valid()
      modifies rng
      ensures Valid()
      ensures (rng.state, out) == Transformed(config.rates, old(rng.state), chunk)
    {
      hide Transformed, On, FateOf, Suffered;
      if !On(config.rates.drop) && !On(config.rates.corrupt) {
        QuietLine(config.rates, rng.state, chunk);
        return chunk;
      }
      out := [];
      ghost var x := rng.state;
      TransformedNone(config.rates, x);
      for i := 0 to |chunk|
        invariant Valid()
        invariant (rng.state, out) == Transformed(config.rates, x, chunk[..i])
      {
        TransformedSnoc(config.rates, x, chunk[..i], chunk[i]);
        assert chunk[..i + 1] == chunk[..i] + [chunk[i]];
        var survived := TransformByte(chunk[i]);
        out := out + survived;
      }
      assert chunk[..|chunk|] == chunk;
    }

    method TransformByte(b: byte) returns (out: seq<byte>)
      requires Valid()
      modifies rng
      ensures Valid()
      ensures var (x, f) := FateOf(config.rates, old(rng.state)); rng.state == x && out == Suffered(b, f)
    {
      hide On, Shifted, Struck, Output, Flipped, BitFrom;
      if On(config.rates.drop) {
        var hit := Strike(config.rates.drop);
        if hit {
          return [];
        }
      }
      if On(config.rates.corrupt) {
        var hit := Strike(config.rates.corrupt);
        if hit {
          var word := rng.Next();
          return [Flipped(b, BitFrom(word))];
        }
      }
      return [b];
    }

    /** One draw against a probability. */
    method Strike(threshold: bv64) returns (hit: bool)
      requires Valid()
      modifies rng
      ensures Valid() && rng.state == Shifted(old(rng.state)) && hit == Struck(rng.state, threshold)
    {
      hide Shifted, Draw, Below;
      var draw := rng.Uniform();
      hit := Below(draw, threshold);
    }
  }

  lemma Crossed(c: Config, l: Line, lat: nat, chunk: seq<byte>)
    ensures var (l1, xs) := CrossChunk(c, l, lat, chunk);
            var (rng, out) := Transformed(c.rates, l.rng, chunk);
            CellsOf(xs) == if out == [] then [] else [Cell(out, l1.cursor + lat)]
  {
    hide Transformed;
    var xs := CrossChunk(c, l, lat, chunk).1;
    if xs != [] {
      FlatMapOne(CellOf, xs[0]);
    }
  }

  /** The planning loop part way: what is planned so far, then the rest of the data. */
  ghost function Resume(c: Config, l: Line, lat: nat, rest: seq<byte>, planned: seq<Crossing>): (Line, seq<Crossing>) {
    (CrossChunks(c, l, lat, rest).0, planned + CrossChunks(c, l, lat, rest).1)
  }

  lemma CellsOfConcat(a: seq<Crossing>, b: seq<Crossing>)
    ensures CellsOf(a + b) == CellsOf(a) + CellsOf(b)
  {
    FlatMapConcat(CellOf, a, b);
  }

  lemma ResumeEnds(c: Config, l: Line, lat: nat, data: seq<byte>)
    ensures CrossChunks(c, l, lat, data) == Resume(c, l, lat, data, []) && CellsOf([]) == []
  {
    assert [] + CrossChunks(c, l, lat, data).1 == CrossChunks(c, l, lat, data).1;
  }

  lemma ResumeDone(c: Config, l: Line, lat: nat, planned: seq<Crossing>)
    ensures Resume(c, l, lat, [], planned) == (l, planned)
  {
    assert planned + [] == planned;
  }

  lemma ResumeStep(c: Config, l: Line, lat: nat, rest: seq<byte>, planned: seq<Crossing>)
    requires rest != []
    ensures var n := ChunkSize(c, rest);
            var (l1, xs) := CrossChunk(c, l, lat, rest[..n]);
            Resume(c, l, lat, rest, planned) == Resume(c, l1, lat, rest[n..], planned + xs)
  {
    hide CrossChunk;
    var n := ChunkSize(c, rest);
    var (l1, xs) := CrossChunk(c, l, lat, rest[..n]);
    Assoc(planned, xs, CrossChunks(c, l1, lat, rest[n..]).1);
  }
}
