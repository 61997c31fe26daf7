/**
 * Option negotiation (RFC 854, "General Considerations"): one slot per known option
 * and direction, answered only when the incoming verdict changes it.
 */
module TelnetNegotiation {
  import opened Common
  import opened TelnetFraming

  const OPT_BINARY: byte := 0
  const OPT_SGA: byte := 3
  const OPT_COM_PORT: byte := 44

  /** What the codec believes each side has agreed to; COM-PORT has one slot for both directions. */
  datatype Slots = Slots(binaryUs: bool, binaryThem: bool, sgaUs: bool, sgaThem: bool, comPort: bool)

  /** Optimistic: the opening offers are on their way, so a confirmation draws no reply. */
  const FRESH := Slots(true, true, true, true, true)

  datatype Slot = BinaryUs | BinaryThem | SgaUs | SgaThem | ComPort

  /** One WILL/WONT/DO/DONT with its option. */
  datatype Cmd = Cmd(verb: byte, opt: byte)

  predicate IsCmd(c: Cmd) {
    IsNegotiation(c.verb)
  }

  predicate AllCmds(cs: seq<Cmd>) {
    forall i :: 0 <= i < |cs| ==> IsCmd(cs[i])
  }

  predicate Known(opt: byte) {
    opt == OPT_BINARY || opt == OPT_SGA || opt == OPT_COM_PORT
  }

  predicate Agrees(verb: byte) {
    verb == WILL || verb == DO
  }

  /** WILL and WONT speak of what the peer does itself; DO and DONT of what it wants from us. */
  predicate AboutPeer(verb: byte) {
    verb == WILL || verb == WONT
  }

  function SlotFor(c: Cmd): Option<Slot> {
    if c.opt == OPT_BINARY then Some(if AboutPeer(c.verb) then BinaryThem else BinaryUs)
    else if c.opt == OPT_SGA then Some(if AboutPeer(c.verb) then SgaThem else SgaUs)
    else if c.opt == OPT_COM_PORT then Some(ComPort)
    else None
  }

  function Get(s: Slots, k: Slot): bool {
    match k
    case BinaryUs => s.binaryUs
    case BinaryThem => s.binaryThem
    case SgaUs => s.sgaUs
    case SgaThem => s.sgaThem
    case ComPort => s.comPort
  }

  function Set(s: Slots, k: Slot, v: bool): Slots {
    match k
    case BinaryUs => s.(binaryUs := v)
    case BinaryThem => s.(binaryThem := v)
    case SgaUs => s.(sgaUs := v)
    case SgaThem => s.(sgaThem := v)
    case ComPort => s.(comPort := v)
  }

  /** The same verdict seen from the other end of the wire. */
  function Counter(verb: byte): byte {
    if verb == WILL then DO
    else if verb == WONT then DONT
    else if verb == DO then WILL
    else WONT
  }

  /** The answer to one command: at most one command back. */
  function Answer(s: Slots, c: Cmd): (Slots, seq<Cmd>) {
    match SlotFor(c)
    case None => (s, [Cmd(if AboutPeer(c.verb) then DONT else WONT, c.opt)])
    case Some(k) =>
      if Get(s, k) == Agrees(c.verb) then (s, [])
      else (Set(s, k, Agrees(c.verb)), [Cmd(Counter(c.verb), c.opt)])
  }

  function AnswerAll(s: Slots, cs: seq<Cmd>): (Slots, seq<Cmd>)
    decreases |cs|
  {
    if cs == [] then (s, [])
    else
      var (s1, r1) := Answer(s, cs[0]);
      var (s2, r2) := AnswerAll(s1, cs[1..]);
      (s2, r1 + r2)
  }

  lemma {:induction false} AnswerAllConcat(s: Slots, a: seq<Cmd>, b: seq<Cmd>)
    ensures AnswerAll(s, a + b)
         == (AnswerAll(AnswerAll(s, a).0, b).0, AnswerAll(s, a).1 + AnswerAll(AnswerAll(s, a).0, b).1)
    decreases |a|
  {
    if a == [] {
      assert a + b == b;
      assert [] + AnswerAll(s, b).1 == AnswerAll(s, b).1;
    } else {
      assert (a + b)[1..] == a[1..] + b;
      var (s1, r1) := Answer(s, a[0]);
      var (s2, r2) := AnswerAll(s1, a[1..]);
      AnswerAllConcat(s1, a[1..], b);
      Assoc(r1, r2, AnswerAll(s2, b).1);
    }
  }

  lemma AnswerAllOne(s: Slots, c: Cmd)
    ensures AnswerAll(s, [c]) == Answer(s, c)
  {
    var (s1, r1) := Answer(s, c);
    assert [c][1..] == [] && AnswerAll(s1, [c][1..]) == (s1, []);
    assert r1 + [] == r1;
  }

  function CmdEncoding(c: Cmd): seq<byte> {
    [IAC, c.verb, c.opt]
  }

  /** The bytes of a list of commands. */
  function CmdBytes(cs: seq<Cmd>): seq<byte> {
    FlatMap(CmdEncoding, cs)
  }

  lemma {:induction false} CmdBytesLength(cs: seq<Cmd>)
    ensures |CmdBytes(cs)| == 3 * |cs|
  {
    if cs != [] {
      CmdBytesLength(cs[1..]);
    }
  }

  /** Commands in: never more commands out, and every command out is a real one. */
  lemma {:induction false} AnswersNeverMultiply(s: Slots, cs: seq<Cmd>)
    ensures |AnswerAll(s, cs).1| <= |cs|
    ensures AllCmds(AnswerAll(s, cs).1)
    decreases |cs|
  {
    if cs != [] {
      AnswersNeverMultiply(Answer(s, cs[0]).0, cs[1..]);
    }
  }

  // ── what one slot sees ──────────────────────────────────────────────────

  function VerdictIn(k: Slot, c: Cmd): seq<bool> {
    if SlotFor(c) == Some(k) then [Agrees(c.verb)] else []
  }

  /** The verdicts addressed to slot `k`, in order. */
  function VerdictsFor(k: Slot, cs: seq<Cmd>): seq<bool> {
    if cs == [] then [] else VerdictIn(k, cs[0]) + VerdictsFor(k, cs[1..])
  }

  /** The slot at the other end that our slot `k` talks to. */
  function Mirror(k: Slot): Slot {
    match k
    case BinaryUs => BinaryThem
    case BinaryThem => BinaryUs
    case SgaUs => SgaThem
    case SgaThem => SgaUs
    case ComPort => ComPort
  }

  lemma {:induction false} VerdictsForConcat(k: Slot, a: seq<Cmd>, b: seq<Cmd>)
    ensures VerdictsFor(k, a + b) == VerdictsFor(k, a) + VerdictsFor(k, b)
  {
    hide VerdictIn;
    if a == [] {
      assert a + b == b;
    } else {
      VerdictsForConcat(k, a[1..], b);
      assert (a + b)[1..] == a[1..] + b;
      Assoc(VerdictIn(k, a[0]), VerdictsFor(k, a[1..]), VerdictsFor(k, b));
    }
  }

  /** A verdict list without its consecutive repeats, given the verdict in force before it. */
  function Dedup(prev: bool, vs: seq<bool>): seq<bool>
    decreases |vs|
  {
    if vs == [] then []
    else if vs[0] == prev then Dedup(prev, vs[1..])
    else [vs[0]] + Dedup(vs[0], vs[1..])
  }

  lemma DedupCons(prev: bool, v: bool, vs: seq<bool>)
    ensures Dedup(prev, [v] + vs) == (if v == prev then [] else [v]) + Dedup(v, vs)
  {
    assert ([v] + vs)[1..] == vs;
  }

  lemma GetAfterSet(s: Slots, k: Slot, v: bool, j: Slot)
    ensures Get(Set(s, k, v), j) == if j == k then v else Get(s, j)
  {
  }

  lemma NoneFor(k: Slot)
    ensures VerdictsFor(k, []) == []
  {
  }

  lemma OneVerdict(k: Slot, c: Cmd)
    ensures VerdictsFor(k, [c]) == VerdictIn(k, c)
  {
    assert [c][1..] == [] && VerdictsFor(k, [c][1..]) == [];
  }

  /** A counter speaks for the mirrored slot, and for no other, with the same verdict. */
  lemma CounterSpeaks(c: Cmd, k: Slot)
    requires IsCmd(c) && SlotFor(c).Some?
    ensures VerdictIn(Mirror(k), Cmd(Counter(c.verb), c.opt)) == VerdictIn(k, c)
  {
  }

  /** What one command does to slot `k`: a command for another slot neither moves it nor speaks for it. */
  lemma AnswerAtSlot(s: Slots, c: Cmd, k: Slot)
    requires IsCmd(c)
    ensures SlotFor(c) == Some(k) ==>
      && Get(Answer(s, c).0, k) == Agrees(c.verb)
      && VerdictsFor(Mirror(k), Answer(s, c).1) == if Get(s, k) == Agrees(c.verb) then [] else [Agrees(c.verb)]
    ensures SlotFor(c) != Some(k) ==>
      && Get(Answer(s, c).0, k) == Get(s, k)
      && VerdictsFor(Mirror(k), Answer(s, c).1) == []
  {
    hide VerdictsFor, Get, Set;
    NoneFor(Mirror(k));
    match SlotFor(c)
    case None =>
      OneVerdict(Mirror(k), Answer(s, c).1[0]);
    case Some(j) =>
      GetAfterSet(s, j, Agrees(c.verb), k);
      OneVerdict(Mirror(k), Cmd(Counter(c.verb), c.opt));
      CounterSpeaks(c, k);
  }

  /**
   * The reply rule, exactly: what slot `k` sends back, as the peer's slot hears it, is
   * what it was told with consecutive repeats removed.
   */
  lemma {:induction false} RepliesAreDedupedVerdicts(s: Slots, cs: seq<Cmd>, k: Slot)
    requires AllCmds(cs)
    ensures VerdictsFor(Mirror(k), AnswerAll(s, cs).1) == Dedup(Get(s, k), VerdictsFor(k, cs))
    decreases |cs|
  {
    if cs == [] {
      return;
    }
    assert IsCmd(cs[0]);
    var (s1, r1) := Answer(s, cs[0]);
    var rest, replies := VerdictsFor(k, cs[1..]), AnswerAll(s1, cs[1..]).1;
    RepliesAreDedupedVerdicts(s1, cs[1..], k);
    AnswerAtSlot(s, cs[0], k);
    VerdictsForConcat(Mirror(k), r1, replies);
    if SlotFor(cs[0]) == Some(k) {
      DedupCons(Get(s, k), Agrees(cs[0].verb), rest);
    } else {
      assert VerdictsFor(k, cs) == rest;
    }
  }

  /** The slot ends at the last verdict it was told. */
  lemma {:induction false} SlotHoldsLastVerdict(s: Slots, cs: seq<Cmd>, k: Slot)
    requires AllCmds(cs)
    ensures Get(AnswerAll(s, cs).0, k)
         == var vs := VerdictsFor(k, cs); if vs == [] then Get(s, k) else vs[|vs| - 1]
    decreases |cs|
  {
    if cs != [] {
      assert IsCmd(cs[0]);
      AnswerAtSlot(s, cs[0], k);
      SlotHoldsLastVerdict(Answer(s, cs[0]).0, cs[1..], k);
    }
  }

  /** So the replies of one slot alternate, beginning with the opposite of where it started. */
  lemma {:induction false} DedupAlternates(prev: bool, vs: seq<bool>, i: nat)
    requires i < |Dedup(prev, vs)|
    ensures Dedup(prev, vs)[i] == if i % 2 == 0 then !prev else prev
    decreases |vs|
  {
    if vs[0] == prev {
      DedupAlternates(prev, vs[1..], i);
    } else if i > 0 {
      DedupAlternates(vs[0], vs[1..], i - 1);
    }
  }

  /** Every command for an unknown option is refused, every time: one refusal per command, in order. */
  lemma {:induction false} UnknownAlwaysRefused(s: Slots, cs: seq<Cmd>)
    requires AllCmds(cs)
    requires forall i :: 0 <= i < |cs| ==> !Known(cs[i].opt)
    ensures AnswerAll(s, cs).0 == s && |AnswerAll(s, cs).1| == |cs|
    ensures forall i :: 0 <= i < |cs| ==>
      AnswerAll(s, cs).1[i] == Cmd(if AboutPeer(cs[i].verb) then DONT else WONT, cs[i].opt)
    decreases |cs|
  {
    if cs != [] {
      assert !Known(cs[0].opt);
      UnknownAlwaysRefused(s, cs[1..]);
    }
  }
}
