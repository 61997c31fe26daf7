/**
 * A simulated device behind its two wires: what is typed crosses one wire, cell by cell,
 * into the device, and each of its answers crosses the other back to the user. Runs of
 * that loop, and what the user reads in the end.
 */
module SimLoop {
  import opened Common
  import opened Noise
  import opened Wire
  import opened WireRuns
  import opened LineDiscipline
  import opened Screen

  // ── devices ─────────────────────────────────────────────────────────────

  /** A preset: what it says first, and its answer to some input. */
  datatype Preset<!D> = Preset(greeting: seq<byte>, feed: (D, seq<byte>) -> (D, seq<byte>))

  ghost predicate Splits<D>(p: Preset<D>, d: D, a: seq<byte>, b: seq<byte>) {
    p.feed(d, a + b) == (p.feed(p.feed(d, a).0, b).0, p.feed(d, a).1 + p.feed(p.feed(d, a).0, b).1)
  }

  /** A device that does not see how its input is cut. */
  ghost predicate Streams<D(!new)>(p: Preset<D>) {
    && (forall d :: p.feed(d, []) == (d, []))
    && forall d, a, b :: Splits(p, d, a, b)
  }

  // ── the loop ────────────────────────────────────────────────────────────

  /** The device, the cells on their way in and out, and the history of both wires. */
  datatype Sim<D> = Sim(
    device: D,
    arriving: seq<Crossing>,     // cells of the last read, still to be fed
    leaving: seq<Crossing>,      // cells of the last answer, still to be written
    typed: seq<byte>,
    callsIn: seq<Call>,
    fed: seq<byte>,
    callsOut: seq<Call>,
    written: seq<byte>)

  /** Both wires before any byte. */
  datatype Wires = Wires(input: Line, output: Line)

  datatype Action =
    | Read(now: nat, data: seq<byte>)   // a read of the port crosses the inbound wire
    | Feed(now: nat)                    // the next cell reaches the device, and its answer sets out
    | Write                             // the next cell of the answer is written

  /** The greeting has set out, nothing is typed yet. */
  function Begun<D>(c: Config, w: Wires, p: Preset<D>, d: D, now: nat): Sim<D> {
    Sim(d, [], Planned(c, w.output, now, p.greeting).1, [], [], [], [Call(now, p.greeting, 0)], [])
  }

  predicate Idle<D>(s: Sim<D>) {
    s.arriving == [] && s.leaving == []
  }

  predicate Enabled<D>(s: Sim<D>, a: Action) {
    match a
    case Read(_, data) => Idle(s) && data != []
    case Feed(_) => s.leaving == [] && s.arriving != []
    case Write => s.leaving != []
  }

  function Step<D>(c: Config, w: Wires, p: Preset<D>, s: Sim<D>, a: Action): Sim<D>
    requires Enabled(s, a)
  {
    match a
    case Read(now, data) =>
      s.(typed := s.typed + data, callsIn := s.callsIn + [Call(now, data, 0)],
         arriving := Planned(c, Run(c, w.input, s.callsIn).0, now, data).1)
    case Feed(now) =>
      var input := s.arriving[0].cell.data;
      var (d, out) := p.feed(s.device, input);
      s.(device := d, arriving := s.arriving[1..], fed := s.fed + input,
         callsOut := s.callsOut + [Call(now, out, 0)],
         leaving := Planned(c, Run(c, w.output, s.callsOut).0, now, out).1)
    case Write =>
      s.(written := s.written + s.leaving[0].cell.data, leaving := s.leaving[1..])
  }

  /**
   * Each wire has delivered what it made of what it was handed, up to the cells on their
   * way; the device stands where all it was fed leaves it; and the outbound wire was
   * handed the greeting and the device's answers.
   */
  ghost predicate Inv<D>(c: Config, w: Wires, p: Preset<D>, d: D, s: Sim<D>) {
    && Stream(s.callsIn) == s.typed
    && s.fed + BytesOf(s.arriving) == BytesOf(Run(c, w.input, s.callsIn).1)
    && s.device == p.feed(d, s.fed).0
    && Stream(s.callsOut) == p.greeting + p.feed(d, s.fed).1
    && s.written + BytesOf(s.leaving) == BytesOf(Run(c, w.output, s.callsOut).1)
  }

  lemma BegunInv<D(!new)>(c: Config, w: Wires, p: Preset<D>, d: D, now: nat)
    requires Streams(p)
    ensures Inv(c, w, p, d, Begun(c, w, p, d, now))
  {
    hide Planned;
    var call := Call(now, p.greeting, 0);
    FlatMapOne(DataIn, call);
    assert p.greeting + [] == p.greeting;
    RunSnoc(c, w.output, [], call);
    assert [] + [call] == [call];
    var cells := Planned(c, w.output, now, p.greeting).1;
    assert [] + cells == cells && [] + BytesOf(cells) == BytesOf(cells);
  }

  /** One more call: the stream grows by its bytes, the cells by its own. */
  lemma OneMoreCall(c: Config, l: Line, calls: seq<Call>, now: nat, data: seq<byte>)
    ensures var more := Planned(c, Run(c, l, calls).0, now, data).1;
            && Stream(calls + [Call(now, data, 0)]) == Stream(calls) + data
            && BytesOf(Run(c, l, calls + [Call(now, data, 0)]).1) == BytesOf(Run(c, l, calls).1) + BytesOf(more)
  {
    hide Planned, Run;
    var call := Call(now, data, 0);
    RunSnoc(c, l, calls, call);
    FlatMapSnoc(DataIn, calls, call);
    FlatMapConcat(CellData, Run(c, l, calls).1, Planned(c, Run(c, l, calls).0, now, data).1);
  }

  lemma NextCell(before: seq<byte>, xs: seq<Crossing>)
    requires xs != []
    ensures before + xs[0].cell.data + BytesOf(xs[1..]) == before + BytesOf(xs)
  {
    Assoc(before, xs[0].cell.data, BytesOf(xs[1..]));
  }

  lemma NoneLeft(before: seq<byte>)
    ensures before + BytesOf([]) == before
  {
  }

  lemma StepKeeps<D(!new)>(c: Config, w: Wires, p: Preset<D>, d: D, s: Sim<D>, a: Action)
    requires Streams(p) && Enabled(s, a) && Inv(c, w, p, d, s)
    ensures Inv(c, w, p, d, Step(c, w, p, s, a))
  {
    hide Planned, Run, Stream, BytesOf, Streams;
    NoneLeft(s.fed);
    NoneLeft(s.written);
    match a
    case Read(now, data) =>
      OneMoreCall(c, w.input, s.callsIn, now, data);
    case Feed(now) =>
      FeedKeeps(c, w, p, d, s, now);
    case Write =>
      NextCell(s.written, s.leaving);
  }

  lemma FeedKeeps<D(!new)>(c: Config, w: Wires, p: Preset<D>, d: D, s: Sim<D>, now: nat)
    requires Streams(p) && Enabled(s, Feed(now)) && Inv(c, w, p, d, s)
    ensures Inv(c, w, p, d, Step(c, w, p, s, Feed(now)))
  {
    hide Planned, Run, Stream, BytesOf;
    var input := s.arriving[0].cell.data;
    assert Splits(p, d, s.fed, input);
    var out := p.feed(s.device, input).1;
    NoneLeft(s.written);
    NextCell(s.fed, s.arriving);
    OneMoreCall(c, w.output, s.callsOut, now, out);
    Assoc(p.greeting, p.feed(d, s.fed).1, out);
  }

  // ── whole runs ──────────────────────────────────────────────────────────

  predicate Possible<D>(c: Config, w: Wires, p: Preset<D>, s: Sim<D>, actions: seq<Action>)
    decreases |actions|
  {
    actions == [] || (Enabled(s, actions[0]) && Possible(c, w, p, Step(c, w, p, s, actions[0]), actions[1..]))
  }

  function After<D>(c: Config, w: Wires, p: Preset<D>, s: Sim<D>, actions: seq<Action>): Sim<D>
    requires Possible(c, w, p, s, actions)
    decreases |actions|
  {
    if actions == [] then s else After(c, w, p, Step(c, w, p, s, actions[0]), actions[1..])
  }

  /** Runs from the greeting on, and where they lead. */
  predicate Plays<D>(c: Config, w: Wires, p: Preset<D>, d: D, now: nat, actions: seq<Action>) {
    Possible(c, w, p, Begun(c, w, p, d, now), actions)
  }

  function Played<D>(c: Config, w: Wires, p: Preset<D>, d: D, now: nat, actions: seq<Action>): Sim<D>
    requires Plays(c, w, p, d, now, actions)
  {
    After(c, w, p, Begun(c, w, p, d, now), actions)
  }

  lemma {:induction false} RunKeeps<D(!new)>(c: Config, w: Wires, p: Preset<D>, d: D, s: Sim<D>, actions: seq<Action>)
    requires Streams(p) && Inv(c, w, p, d, s) && Possible(c, w, p, s, actions)
    ensures Inv(c, w, p, d, After(c, w, p, s, actions))
    decreases |actions|
  {
    hide Streams, Inv, Enabled, Step;
    if actions != [] {
      StepKeeps(c, w, p, d, s, actions[0]);
      RunKeeps(c, w, p, d, Step(c, w, p, s, actions[0]), actions[1..]);
    }
  }

  /** What the inbound wire makes of some typing. */
  function Heard(c: Config, w: Wires, typed: seq<byte>): seq<byte> {
    Transformed(c.rates, w.input.rng, typed).1
  }

  /** What the outbound wire makes of the greeting and the answers to some input. */
  function Told<D>(c: Config, w: Wires, p: Preset<D>, d: D, input: seq<byte>): seq<byte> {
    Transformed(c.rates, w.output.rng, p.greeting + p.feed(d, input).1).1
  }

  /**
   * The loop in any run, without jitter: the device has been fed one noisy copy of the
   * typing, and the user has been written one noisy copy of the greeting and the answers to
   * that, each short only of the cells on their way. Cells, line rate, latency and the
   * cutting of the typing into reads do not enter.
   */
  lemma LoopIsTwoTransformations<D(!new)>(c: Config, w: Wires, p: Preset<D>, d: D, now: nat, actions: seq<Action>)
    requires Streams(p) && c.jitter == 0 && Plays(c, w, p, d, now, actions)
    ensures var s := Played(c, w, p, d, now, actions);
            && s.fed + BytesOf(s.arriving) == Heard(c, w, s.typed)
            && s.device == p.feed(d, s.fed).0
            && s.written + BytesOf(s.leaving) == Told(c, w, p, d, s.fed)
            && (Idle(s) ==>
                  && s.device == p.feed(d, Heard(c, w, s.typed)).0
                  && s.written == Told(c, w, p, d, Heard(c, w, s.typed)))
  {
    hide Streams, After, Possible, Run, Transformed, BytesOf;
    BegunInv(c, w, p, d, now);
    RunKeeps(c, w, p, d, Begun(c, w, p, d, now), actions);
    var s := Played(c, w, p, d, now, actions);
    RunTransforms(c, w.input, s.callsIn);
    RunTransforms(c, w.output, s.callsOut);
    NoneLeft(s.fed);
    NoneLeft(s.written);
  }

  /** So two idle loops with the same noise that were typed the same end the same, whatever their speeds and reads. */
  lemma PacingDoesNotShow<D(!new)>(
    c: Config, e: Config, w: Wires, v: Wires, p: Preset<D>, d: D, now: nat, then': nat,
    these: seq<Action>, those: seq<Action>)
    requires Streams(p) && c.jitter == 0 && e.jitter == 0 && c.rates == e.rates
    requires w.input.rng == v.input.rng && w.output.rng == v.output.rng
    requires Plays(c, w, p, d, now, these) && Plays(e, v, p, d, then', those)
    requires Idle(Played(c, w, p, d, now, these)) && Idle(Played(e, v, p, d, then', those))
    requires Played(c, w, p, d, now, these).typed == Played(e, v, p, d, then', those).typed
    ensures var s, t := Played(c, w, p, d, now, these), Played(e, v, p, d, then', those);
            s.device == t.device && s.written == t.written
  {
    hide Streams, After, Possible, Transformed;
    LoopIsTwoTransformations(c, w, p, d, now, these);
    LoopIsTwoTransformations(e, v, p, d, then', those);
  }

  /** Without noise, and with any jitter, an idle loop has written the greeting and the answers to the very typing. */
  lemma QuietLoopAnswers<D(!new)>(c: Config, w: Wires, p: Preset<D>, d: D, now: nat, actions: seq<Action>)
    requires Streams(p) && !On(c.rates.drop) && !On(c.rates.corrupt)
    requires Plays(c, w, p, d, now, actions) && Idle(Played(c, w, p, d, now, actions))
    ensures var s := Played(c, w, p, d, now, actions);
            s.device == p.feed(d, s.typed).0 && s.written == p.greeting + p.feed(d, s.typed).1
  {
    hide Streams, After, Possible, Run, On, BytesOf;
    BegunInv(c, w, p, d, now);
    RunKeeps(c, w, p, d, Begun(c, w, p, d, now), actions);
    var s := Played(c, w, p, d, now, actions);
    QuietRunDelivers(c, w.input, s.callsIn);
    QuietRunDelivers(c, w.output, s.callsOut);
    NoneLeft(s.fed);
    NoneLeft(s.written);
  }

  // ── coming to rest ──────────────────────────────────────────────────────

  function TypedIn(a: Action): seq<byte> {
    if a.Read? then a.data else []
  }

  /** Everything typed in a run. */
  function Typed(actions: seq<Action>): seq<byte> {
    FlatMap(TypedIn, actions)
  }

  lemma {:induction false} RunTypes<D>(c: Config, w: Wires, p: Preset<D>, s: Sim<D>, actions: seq<Action>)
    requires Possible(c, w, p, s, actions)
    ensures After(c, w, p, s, actions).typed == s.typed + Typed(actions)
    decreases |actions|
  {
    hide Planned, Run;
    if actions == [] {
      assert s.typed + [] == s.typed;
    } else {
      var s1 := Step(c, w, p, s, actions[0]);
      RunTypes(c, w, p, s1, actions[1..]);
      assert s1.typed == s.typed + TypedIn(actions[0]);
      Assoc(s.typed, TypedIn(actions[0]), Typed(actions[1..]));
    }
  }

  /** A loop that is not idle always has a cell to move, and moving them makes it idle. */
  lemma {:induction false} ComesToRest<D>(c: Config, w: Wires, p: Preset<D>, s: Sim<D>, now: nat)
    returns (more: seq<Action>)
    ensures Possible(c, w, p, s, more) && Idle(After(c, w, p, s, more)) && Typed(more) == []
    decreases |s.arriving|, |s.leaving|
  {
    hide Planned, Run;
    if Idle(s) {
      more := [];
    } else {
      var a := if s.leaving != [] then Write else Feed(now);
      var rest := ComesToRest(c, w, p, Step(c, w, p, s, a), now);
      more := [a] + rest;
      assert more[1..] == rest;
      FlatMapCons(TypedIn, a, rest);
    }
  }

  lemma {:induction false} RunsOn<D>(c: Config, w: Wires, p: Preset<D>, s: Sim<D>, a: seq<Action>, b: seq<Action>)
    requires Possible(c, w, p, s, a) && Possible(c, w, p, After(c, w, p, s, a), b)
    ensures Possible(c, w, p, s, a + b)
    ensures After(c, w, p, s, a + b) == After(c, w, p, After(c, w, p, s, a), b)
    decreases |a|
  {
    hide Enabled, Step;
    if a == [] {
      assert a + b == b;
    } else {
      assert (a + b)[1..] == a[1..] + b;
      RunsOn(c, w, p, Step(c, w, p, s, a[0]), a[1..], b);
    }
  }

  /**
   * Everything is answered: whatever has happened so far, the cells on their way lead to an
   * idle loop, and without jitter it has then written one noisy copy of the greeting and
   * the answers to one noisy copy of everything typed.
   */
  lemma EverythingIsAnswered<D(!new)>(c: Config, w: Wires, p: Preset<D>, d: D, now: nat, actions: seq<Action>)
    returns (more: seq<Action>)
    requires Streams(p) && c.jitter == 0 && Plays(c, w, p, d, now, actions)
    ensures Typed(more) == [] && Plays(c, w, p, d, now, actions + more)
    ensures var s := Played(c, w, p, d, now, actions + more);
            && Idle(s) && (forall t: nat, data: seq<byte> :: data != [] ==> Enabled(s, Read(t, data)))
            && s.written == Told(c, w, p, d, Heard(c, w, Typed(actions)))
            && s.device == p.feed(d, Heard(c, w, Typed(actions))).0
  {
    hide Streams, After, Possible, Told, Heard, Typed, Begun;
    var s0 := Begun(c, w, p, d, now);
    more := ComesToRest(c, w, p, After(c, w, p, s0, actions), now);
    RunsOn(c, w, p, s0, actions, more);
    LoopIsTwoTransformations(c, w, p, d, now, actions + more);
    BegunTyped(c, w, p, d, now);
    RunTypes(c, w, p, s0, actions + more);
    TypedJoins(actions, more);
    var typed := Typed(actions);
    assert typed + [] == typed && [] + typed == typed;
  }

  lemma TypedJoins(a: seq<Action>, b: seq<Action>)
    ensures Typed(a + b) == Typed(a) + Typed(b)
  {
    FlatMapConcat(TypedIn, a, b);
  }

  lemma BegunTyped<D>(c: Config, w: Wires, p: Preset<D>, d: D, now: nat)
    ensures Begun(c, w, p, d, now).typed == []
  {
  }

  // ── the line consoles, byte by byte ─────────────────────────────────────

  function CharIn(b: byte): string {
    [b as int as char]
  }

  /** The byte a character stands for; the consoles say nothing above 0xFF. */
  function ByteIn(c: char): seq<byte> {
    [if c as int < 0x100 then c as int as byte else 0]
  }

  function Chars(bytes: seq<byte>): string {
    FlatMap(CharIn, bytes)
  }

  function Bytes(text: string): seq<byte> {
    FlatMap(ByteIn, text)
  }

  function PoweredUp<H>(h: H): Device<H> {
    Device(false, Session("", h))
  }

  function FedBytes<H>(con: Console<H>, d: Device<H>, input: seq<byte>): (Device<H>, seq<byte>) {
    var (d1, out) := Fed(con, d, Chars(input));
    (d1, Bytes(out))
  }

  function LinePreset<H>(con: Console<H>): Preset<Device<H>> {
    Preset(Bytes(con.prompt), (d: Device<H>, input: seq<byte>) => FedBytes(con, d, input))
  }

  lemma LineSplits<H(!new)>(con: Console<H>, d: Device<H>, a: seq<byte>, b: seq<byte>)
    ensures Splits(LinePreset(con), d, a, b)
  {
    hide Fed;
    FlatMapConcat(CharIn, a, b);
    FedConcat(con, d, Chars(a), Chars(b));
    FlatMapConcat(ByteIn, Fed(con, d, Chars(a)).1, Fed(con, Fed(con, d, Chars(a)).0, Chars(b)).1);
  }

  /** Every line console is such a device. */
  lemma LinePresetStreams<H(!new)>(con: Console<H>)
    ensures Streams(LinePreset(con))
  {
    forall d: Device<H>, a, b
      ensures Splits(LinePreset(con), d, a, b)
    {
      LineSplits(con, d, a, b);
    }
  }

  /** The echo preset: it returns what it is sent. */
  const ECHO: Preset<()> := Preset([], (d: (), input: seq<byte>) => (d, input))

  lemma EchoStreams()
    ensures Streams(ECHO)
  {
  }

  /** Over quiet wires an idle echo preset has written back exactly what was typed. */
  lemma EchoReturnsTyping(c: Config, w: Wires, now: nat, actions: seq<Action>)
    requires !On(c.rates.drop) && !On(c.rates.corrupt)
    requires Plays(c, w, ECHO, (), now, actions) && Idle(Played(c, w, ECHO, (), now, actions))
    ensures Played(c, w, ECHO, (), now, actions).written == Typed(actions)
  {
    hide After, Possible, Streams, On, Begun;
    EchoStreams();
    QuietLoopAnswers(c, w, ECHO, (), now, actions);
    BegunTyped(c, w, ECHO, (), now);
    RunTypes(c, w, ECHO, Begun(c, w, ECHO, (), now), actions);
    var typed := Typed(actions);
    assert [] + typed == typed;
  }

  // ── what the terminal shows ─────────────────────────────────────────────

  predicate OneByteEach(text: string) {
    forall i :: 0 <= i < |text| ==> text[i] as int < 0x100
  }

  lemma {:induction false} BytesBack(text: string)
    requires OneByteEach(text)
    ensures Chars(Bytes(text)) == text
  {
    if text != "" {
      assert forall i :: 0 <= i < |text[1..]| ==> text[1..][i] == text[i + 1];
      BytesBack(text[1..]);
      FlatMapConcat(CharIn, ByteIn(text[0]), Bytes(text[1..]));
      FlatMapOne(CharIn, ByteIn(text[0])[0]);
    }
  }

  lemma {:induction false} TidyIsOneByteEach(atStart: bool, out: string)
    requires TidyFrom(atStart, out)
    ensures OneByteEach(out)
    decreases |out|
  {
    if out != "" {
      if out[0] == '\r' {
        TidyIsOneByteEach(true, out[2..]);
        assert forall i :: 2 <= i < |out| ==> out[i] == out[2..][i - 2];
      } else {
        TidyIsOneByteEach(false, out[1..]);
        assert forall i :: 1 <= i < |out| ==> out[i] == out[1..][i - 1];
      }
    }
  }

  lemma PressSaysBytes<H(!new)>(con: Console<H>, ok: H -> bool, s: LineDiscipline.Session<H>, k: Key)
    requires Neat(con, ok) && ok(s.handler) && AllPrintable(s.line) && KeyPrintable(k)
    ensures OneByteEach(Press(con, s, k).1)
  {
    if k == EndLine {
      TidyIsOneByteEach(true, con.onLine(s.handler, s.line).1);
    }
  }

  lemma {:induction false} PressAllSaysBytes<H(!new)>(
    con: Console<H>, ok: H -> bool, s: LineDiscipline.Session<H>, keys: seq<Key>)
    requires Neat(con, ok) && ok(s.handler) && AllPrintable(s.line)
    requires forall i :: 0 <= i < |keys| ==> KeyPrintable(keys[i])
    ensures OneByteEach(PressAll(con, s, keys).1)
    decreases |keys|
  {
    hide Press;
    if keys != [] {
      PressSaysBytes(con, ok, s, keys[0]);
      var shown := con.prompt + s.line;
      ShowsItself(shown);
      PressKeepsScreen(con, ok, s, keys[0], Terminal([], shown, |shown|));
      PressAllSaysBytes(con, ok, Press(con, s, keys[0]).0, keys[1..]);
    }
  }

  lemma ShowsItself(text: string)
    ensures Shows(Terminal([], text, |text|), text)
  {
    assert text[..|text|] == text;
  }

  lemma FedSaysBytes<H(!new)>(con: Console<H>, ok: H -> bool, h: H, typed: string)
    requires Neat(con, ok) && ok(h) && AllTypable(typed)
    ensures OneByteEach(con.prompt + Fed(con, PoweredUp(h), typed).1)
  {
    var keys := Fold(false, typed).1;
    forall i | 0 <= i < |keys|
      ensures KeyPrintable(keys[i])
    {
      FoldKeepsPrintable(false, typed, i);
    }
    PressAllSaysBytes(con, ok, Session("", h), keys);
  }

  /**
   * From the keyboard to the screen: over wires without noise, whatever their speed,
   * latency and jitter and however the typing was read, an idle console's bytes, rendered,
   * show the prompt and the line the device holds up to the cursor, and blanks after it.
   */
  lemma TerminalShowsTheLine<H(!new)>(
    c: Config, w: Wires, con: Console<H>, ok: H -> bool, h: H, now: nat, actions: seq<Action>)
    requires Neat(con, ok) && ok(h) && !On(c.rates.drop) && !On(c.rates.corrupt)
    requires Plays(c, w, LinePreset(con), PoweredUp(h), now, actions)
    requires Idle(Played(c, w, LinePreset(con), PoweredUp(h), now, actions))
    requires AllTypable(Chars(Played(c, w, LinePreset(con), PoweredUp(h), now, actions).typed))
    ensures var s := Played(c, w, LinePreset(con), PoweredUp(h), now, actions);
            Shows(Render(BLANK, Chars(s.written)), con.prompt + s.device.session.line)
  {
    hide After, Possible, Begun, On, Fed, Shows, Neat, Streams, Chars, Bytes;
    var d := PoweredUp(h);
    var s := Played(c, w, LinePreset(con), d, now, actions);
    LinePresetStreams(con);
    QuietLoopAnswers(c, w, LinePreset(con), d, now, actions);
    var typed := Chars(s.typed);
    var out := Fed(con, d, typed).1;
    FedWhole(con, d, typed);
    ScreenAgrees(con, ok, h, [typed]);
    FedSaysBytes(con, ok, h, typed);
    BytesJoin(con.prompt, out);
    BytesBack(con.prompt + out);
  }

  lemma BytesJoin(a: string, b: string)
    ensures Bytes(a + b) == Bytes(a) + Bytes(b)
  {
    FlatMapConcat(ByteIn, a, b);
  }

  lemma FedWhole<H>(con: Console<H>, d: Device<H>, typed: string)
    ensures Flatten([typed]) == typed && FedParts(con, d, [typed]) == Fed(con, d, typed)
  {
    hide Fed;
    assert [typed][1..] == [] && typed + [] == typed;
    assert Flatten([typed]) == typed + Flatten([typed][1..]);
    FeedingIsSplitIndependent(con, d, [typed]);
  }
}
