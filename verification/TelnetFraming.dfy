/**
 * Telnet framing (RFC 854, "TELNET Command Structure"; RFC 855): the byte-at-a-time
 * state machine of the codec, seen as a translator from bytes to protocol events.
 *
 * `Scan` is the specification the mutable decoder in `TelnetCodec` is proved against.
 * The two inverse theorems say that framing loses nothing and invents nothing: every
 * event list survives encoding, and every byte stream is the encoding of its events
 * followed by the bytes of one unfinished event.
 */
module TelnetFraming {
  import opened Common

  const IAC: byte := 255
  const DONT: byte := 254
  const DO: byte := 253
  const WONT: byte := 252
  const WILL: byte := 251
  const SB: byte := 250
  const SE: byte := 240

  predicate IsNegotiation(b: byte) {
    b == WILL || b == WONT || b == DO || b == DONT
  }

  datatype State = Data | Iac | Negotiate(cmd: byte) | Sub | SubIac

  /** The parsing half of the codec: where we are, and the subnegotiation collected so far. */
  datatype Frame = Frame(state: State, sub: seq<byte>)

  const CLEAN := Frame(Data, [])

  datatype Event =
    | Payload(b: byte)
    | Command(cmd: byte, opt: byte)
    | Subneg(payload: seq<byte>)
    | Ignored(code: byte)                        // IAC NOP, IAC DM, ...
    | Broken(payload: seq<byte>, code: byte)     // IAC <code> inside a subnegotiation

  /** The only frames a decoder ever holds. */
  predicate Reachable(f: Frame) {
    && (f.state.Negotiate? ==> IsNegotiation(f.state.cmd))
    && (!f.state.Sub? && !f.state.SubIac? ==> f.sub == [])
  }

  /** The events an encoder may emit; anything else has no framing of its own. */
  predicate Legal(e: Event) {
    match e
    case Payload(_) => true
    case Command(cmd, _) => IsNegotiation(cmd)
    case Subneg(_) => true
    case Ignored(code) => code != IAC && code != SB && !IsNegotiation(code)
    case Broken(_, code) => code != IAC && code != SE
  }

  predicate AllLegal(es: seq<Event>) {
    forall i :: 0 <= i < |es| ==> Legal(es[i])
  }

  function Step(f: Frame, b: byte): (Frame, seq<Event>) {
    match f.state
    case Data =>
      if b == IAC then (f.(state := Iac), []) else (f, [Payload(b)])
    case Iac =>
      if b == IAC then (f.(state := Data), [Payload(IAC)])
      else if IsNegotiation(b) then (f.(state := Negotiate(b)), [])
      else if b == SB then (Frame(Sub, []), [])
      else (f.(state := Data), [Ignored(b)])
    case Negotiate(cmd) =>
      (f.(state := Data), [Command(cmd, b)])
    case Sub =>
      if b == IAC then (f.(state := SubIac), []) else (f.(sub := f.sub + [b]), [])
    case SubIac =>
      if b == IAC then (Frame(Sub, f.sub + [IAC]), [])
      else if b == SE then (CLEAN, [Subneg(f.sub)])
      else (CLEAN, [Broken(f.sub, b)])
  }

  function Scan(f: Frame, input: seq<byte>): (Frame, seq<Event>)
    decreases |input|
  {
    if input == [] then (f, [])
    else
      var (f1, e1) := Step(f, input[0]);
      var (f2, e2) := Scan(f1, input[1..]);
      (f2, e1 + e2)
  }

  /** Reading in two goes is reading in one. */
  lemma {:induction false} ScanConcat(f: Frame, a: seq<byte>, b: seq<byte>)
    ensures Scan(f, a + b) == (Scan(Scan(f, a).0, b).0, Scan(f, a).1 + Scan(Scan(f, a).0, b).1)
    decreases |a|
  {
    if a == [] {
      assert a + b == b;
      assert [] + Scan(f, b).1 == Scan(f, b).1;
    } else {
      assert (a + b)[0] == a[0] && (a + b)[1..] == a[1..] + b;
      var (f1, e1) := Step(f, a[0]);
      var (f2, e2) := Scan(f1, a[1..]);
      ScanConcat(f1, a[1..], b);
      Assoc(e1, e2, Scan(f2, b).1);
    }
  }

  // ── encoding ────────────────────────────────────────────────────────────

  function EscapeByte(b: byte): seq<byte> {
    if b == IAC then [IAC, IAC] else [b]
  }

  /** Data as it travels: the one byte that would start a command is sent twice. */
  function Escaped(data: seq<byte>): seq<byte> {
    FlatMap(EscapeByte, data)
  }

  lemma {:induction false} EscapedClean(data: seq<byte>)
    requires IAC !in data
    ensures Escaped(data) == data
  {
    if data != [] {
      EscapedClean(data[1..]);
    }
  }

  /** The source's `escape`: copy when there is nothing to double, otherwise push byte by byte. */
  method Escape(data: seq<byte>) returns (out: seq<byte>)
    ensures out == Escaped(data)
  {
    if IAC !in data {
      EscapedClean(data);
      return data;
    }
    out := [];
    for i := 0 to |data|
      invariant out == Escaped(data[..i])
    {
      FlatMapSnoc(EscapeByte, data[..i], data[i]);
      assert data[..i + 1] == data[..i] + [data[i]];
      out := out + [data[i]];
      if data[i] == IAC {
        out := out + [IAC];
      }
    }
    assert data[..|data|] == data;
  }

  function Encode(e: Event): seq<byte> {
    match e
    case Payload(b) => EscapeByte(b)
    case Command(cmd, opt) => [IAC, cmd, opt]
    case Subneg(p) => [IAC, SB] + Escaped(p) + [IAC, SE]
    case Ignored(code) => [IAC, code]
    case Broken(p, code) => [IAC, SB] + Escaped(p) + [IAC, code]
  }

  function EncodeAll(es: seq<Event>): seq<byte> {
    FlatMap(Encode, es)
  }

  /** The bytes of the event the decoder is in the middle of. */
  function Pending(f: Frame): seq<byte> {
    match f.state
    case Data => []
    case Iac => [IAC]
    case Negotiate(cmd) => [IAC, cmd]
    case Sub => [IAC, SB] + Escaped(f.sub)
    case SubIac => [IAC, SB] + Escaped(f.sub) + [IAC]
  }

  // ── the two inverse theorems ────────────────────────────────────────────

  lemma ScanOne(f: Frame, b: byte)
    ensures Scan(f, [b]) == Step(f, b)
  {
    var (f1, e1) := Step(f, b);
    assert [b][1..] == [] && Scan(f1, [b][1..]) == (f1, []);
    assert e1 + [] == e1;
  }

  /** Escaped bytes inside a subnegotiation come back unescaped, and emit nothing. */
  lemma {:induction false} ScanSubBody(sub: seq<byte>, p: seq<byte>)
    ensures Scan(Frame(Sub, sub), Escaped(p)) == (Frame(Sub, sub + p), [])
    decreases |p|
  {
    if p == [] {
      assert sub + p == sub;
    } else {
      ScanConcat(Frame(Sub, sub), EscapeByte(p[0]), Escaped(p[1..]));
      if p[0] == IAC {
        ScanTwo(Frame(Sub, sub), IAC, IAC);
      } else {
        ScanOne(Frame(Sub, sub), p[0]);
      }
      ScanSubBody(sub + [p[0]], p[1..]);
      assert sub + [p[0]] + p[1..] == sub + p;
    }
  }

  lemma ScanTwo(f: Frame, b: byte, c: byte)
    ensures Scan(f, [b, c]) == (Step(Step(f, b).0, c).0, Step(f, b).1 + Step(Step(f, b).0, c).1)
  {
    assert [b, c] == [b] + [c];
    ScanConcat(f, [b], [c]);
    ScanOne(f, b);
    ScanOne(Step(f, b).0, c);
  }

  lemma ScanEncode(e: Event)
    requires Legal(e)
    ensures Scan(CLEAN, Encode(e)) == (CLEAN, [e])
  {
    match e
    case Payload(b) =>
      ScanTwo(CLEAN, IAC, IAC);
      ScanOne(CLEAN, b);
      assert [] + [e] == [e];
    case Command(cmd, opt) =>
      assert Encode(e) == [IAC, cmd] + [opt];
      ScanConcat(CLEAN, [IAC, cmd], [opt]);
      ScanTwo(CLEAN, IAC, cmd);
      ScanOne(Frame(Negotiate(cmd), []), opt);
      assert [] + [e] == [e];
    case Ignored(code) =>
      ScanTwo(CLEAN, IAC, code);
      assert [] + [e] == [e];
    case Subneg(p) =>
      ScanSubneg(p, SE);
    case Broken(p, code) =>
      ScanSubneg(p, code);
  }

  lemma ScanSubneg(p: seq<byte>, code: byte)
    requires code != IAC
    ensures Scan(CLEAN, [IAC, SB] + Escaped(p) + [IAC, code])
         == (CLEAN, [if code == SE then Subneg(p) else Broken(p, code)])
  {
    ScanConcat(CLEAN, [IAC, SB] + Escaped(p), [IAC, code]);
    ScanConcat(CLEAN, [IAC, SB], Escaped(p));
    ScanTwo(CLEAN, IAC, SB);
    ScanSubBody([], p);
    assert [] + p == p;
    ScanTwo(Frame(Sub, p), IAC, code);
    assert Scan(CLEAN, [IAC, SB]) == (Frame(Sub, []), []);
    assert Scan(CLEAN, [IAC, SB] + Escaped(p)) == (Frame(Sub, p), []);
    var last := [if code == SE then Subneg(p) else Broken(p, code)];
    assert Step(Frame(Sub, p), IAC) == (Frame(SubIac, p), []);
    assert [] + last == last;
  }

  /** Printing then parsing: every legal event list comes back whole, and nothing is left over. */
  lemma {:induction false} ScanInvertsEncode(es: seq<Event>)
    requires AllLegal(es)
    ensures Scan(CLEAN, EncodeAll(es)) == (CLEAN, es)
  {
    if es != [] {
      ScanEncode(es[0]);
      ScanConcat(CLEAN, Encode(es[0]), EncodeAll(es[1..]));
      ScanInvertsEncode(es[1..]);
      assert es == [es[0]] + es[1..];
    }
  }

  lemma NothingEncoded()
    ensures EncodeAll([]) == [] && Escaped([]) == []
  {
  }

  lemma StepExact(f: Frame, b: byte)
    requires Reachable(f)
    ensures Reachable(Step(f, b).0) && AllLegal(Step(f, b).1)
    ensures Pending(f) + [b] == EncodeAll(Step(f, b).1) + Pending(Step(f, b).0)
  {
    hide FlatMap;
    NothingEncoded();
    var (f', es) := Step(f, b);
    if es != [] {
      FlatMapOne(Encode, es[0]);
      assert es == [es[0]];
    }
    if f.state.Sub? || f.state.SubIac? {
      FlatMapSnoc(EscapeByte, f.sub, b);
    }
  }

  /** Parsing then printing: any stream is its own events, in order, plus one unfinished event. */
  lemma {:induction false} EncodeInvertsScan(f: Frame, input: seq<byte>)
    requires Reachable(f)
    ensures Reachable(Scan(f, input).0) && AllLegal(Scan(f, input).1)
    ensures Pending(f) + input == EncodeAll(Scan(f, input).1) + Pending(Scan(f, input).0)
    decreases |input|
  {
    if input != [] {
      var (f1, e1) := Step(f, input[0]);
      var (f2, e2) := Scan(f1, input[1..]);
      StepExact(f, input[0]);
      EncodeInvertsScan(f1, input[1..]);
      FlatMapConcat(Encode, e1, e2);
      Assoc(Pending(f), [input[0]], input[1..]);
      assert input == [input[0]] + input[1..];
      Assoc(EncodeAll(e1), Pending(f1), input[1..]);
      Assoc(EncodeAll(e1), EncodeAll(e2), Pending(f2));
    } else {
      assert Pending(f) + input == EncodeAll([]) + Pending(f);
    }
  }
}
