/**
 * Negotiation option by option, in the numbers of RFC 854, RFC 856, RFC 858 and RFC 2217:
 * what a codec answers about one option depends on what it was told about that option
 * alone, and is the list of changes of verdict.
 *
 * WILL is 251, WONT 252, DO 253, DONT 254; BINARY is option 0, SGA 3, COM-PORT 44.
 */
module OptionRules {
  import opened Common
  import opened TelnetFraming
  import opened TelnetNegotiation
  import opened TelnetCodec

  // ── reading a command list by number ────────────────────────────────────

  /** The commands about one option. */
  function About(opt: byte, cs: seq<Cmd>): seq<Cmd> {
    if cs == [] then [] else OnlyIf(cs[0].opt == opt, cs[0]) + About(opt, cs[1..])
  }

  function OnlyIf(kept: bool, c: Cmd): seq<Cmd> {
    if kept then [c] else []
  }

  /** The verdicts on one option spoken with one pair of verbs. */
  function Spoken(opt: byte, yes: byte, no: byte, cs: seq<Cmd>): seq<bool> {
    if cs == [] then []
    else (if cs[0].opt == opt && cs[0].verb == yes then [true]
          else if cs[0].opt == opt && cs[0].verb == no then [false]
          else []) + Spoken(opt, yes, no, cs[1..])
  }

  function LastOr(before: bool, verdicts: seq<bool>): bool {
    if verdicts == [] then before else verdicts[|verdicts| - 1]
  }

  /** COM-PORT answers: each change of verdict, whichever side it is about, mirrored to the other side's verb. */
  function ComPortAnswers(prev: bool, cs: seq<Cmd>): seq<Cmd>
    decreases |cs|
  {
    if cs == [] then []
    else if cs[0].opt != 44 then ComPortAnswers(prev, cs[1..])
    else
      var verdict := cs[0].verb == 251 || cs[0].verb == 253;
      (if verdict == prev then []
       else if cs[0].verb == 251 then [Cmd(253, 44)]
       else if cs[0].verb == 252 then [Cmd(254, 44)]
       else if cs[0].verb == 253 then [Cmd(251, 44)]
       else [Cmd(252, 44)]) + ComPortAnswers(verdict, cs[1..])
  }

  /** The verdicts on COM-PORT, about either side. */
  function ComPortVerdicts(cs: seq<Cmd>): seq<bool> {
    if cs == [] then []
    else (if cs[0].opt == 44 then [cs[0].verb == 251 || cs[0].verb == 253] else []) + ComPortVerdicts(cs[1..])
  }

  /** A refusal for each command: DONT against WILL and WONT, WONT against DO and DONT. */
  function Refusals(cs: seq<Cmd>): seq<Cmd> {
    if cs == [] then []
    else [Cmd(if cs[0].verb == 251 || cs[0].verb == 252 then 254 else 252, cs[0].opt)] + Refusals(cs[1..])
  }

  // ── BINARY and SGA, each direction of each ──────────────────────────────

  lemma {:induction false} SlotsByNumber(cs: seq<Cmd>)
    requires AllCmds(cs)
    ensures VerdictsFor(BinaryThem, cs) == Spoken(0, 251, 252, cs)
    ensures VerdictsFor(BinaryUs, cs) == Spoken(0, 253, 254, cs)
    ensures VerdictsFor(SgaThem, cs) == Spoken(3, 251, 252, cs)
    ensures VerdictsFor(SgaUs, cs) == Spoken(3, 253, 254, cs)
    ensures VerdictsFor(ComPort, cs) == ComPortVerdicts(cs)
    decreases |cs|
  {
    if cs != [] {
      assert IsCmd(cs[0]);
      assert forall k :: 0 <= k < |cs[1..]| ==> cs[1..][k] == cs[k + 1];
      SlotsByNumber(cs[1..]);
    }
  }

  /**
   * BINARY and SGA by the book: WILL and WONT are answered by DO and DONT, DO and DONT by
   * WILL and WONT, each time the verdict changes and never otherwise; and each of the four
   * slots ends at the last verdict spoken about it.
   */
  lemma DirectionsAreIndependent(s: Slots, cs: seq<Cmd>)
    requires AllCmds(cs)
    ensures var (t, replies) := AnswerAll(s, cs);
            && Spoken(0, 253, 254, replies) == Dedup(s.binaryThem, Spoken(0, 251, 252, cs))
            && Spoken(0, 251, 252, replies) == Dedup(s.binaryUs, Spoken(0, 253, 254, cs))
            && Spoken(3, 253, 254, replies) == Dedup(s.sgaThem, Spoken(3, 251, 252, cs))
            && Spoken(3, 251, 252, replies) == Dedup(s.sgaUs, Spoken(3, 253, 254, cs))
    ensures var t := AnswerAll(s, cs).0;
            && t.binaryThem == LastOr(s.binaryThem, Spoken(0, 251, 252, cs))
            && t.binaryUs == LastOr(s.binaryUs, Spoken(0, 253, 254, cs))
            && t.sgaThem == LastOr(s.sgaThem, Spoken(3, 251, 252, cs))
            && t.sgaUs == LastOr(s.sgaUs, Spoken(3, 253, 254, cs))
            && t.comPort == LastOr(s.comPort, ComPortVerdicts(cs))
  {
    hide AnswerAll, VerdictsFor, Spoken, ComPortVerdicts, Dedup, AllCmds;
    SlotsByNumber(cs);
    AnswersNeverMultiply(s, cs);
    SlotsByNumber(AnswerAll(s, cs).1);
    EachSlot(s, cs, BinaryThem);
    EachSlot(s, cs, BinaryUs);
    EachSlot(s, cs, SgaThem);
    EachSlot(s, cs, SgaUs);
    EachSlot(s, cs, ComPort);
  }

  lemma EachSlot(s: Slots, cs: seq<Cmd>, k: Slot)
    requires AllCmds(cs)
    ensures VerdictsFor(Mirror(k), AnswerAll(s, cs).1) == Dedup(Get(s, k), VerdictsFor(k, cs))
    ensures Get(AnswerAll(s, cs).0, k) == LastOr(Get(s, k), VerdictsFor(k, cs))
  {
    RepliesAreDedupedVerdicts(s, cs, k);
    SlotHoldsLastVerdict(s, cs, k);
  }

  // ── COM-PORT ────────────────────────────────────────────────────────────

  lemma {:induction false} AboutConcat(opt: byte, a: seq<Cmd>, b: seq<Cmd>)
    ensures About(opt, a + b) == About(opt, a) + About(opt, b)
  {
    if a == [] {
      assert a + b == b;
    } else {
      hide OnlyIf;
      assert (a + b)[1..] == a[1..] + b && (a + b)[0] == a[0];
      AboutConcat(opt, a[1..], b);
      Assoc(OnlyIf(a[0].opt == opt, a[0]), About(opt, a[1..]), About(opt, b));
    }
  }

  lemma AboutFew(opt: byte, cs: seq<Cmd>)
    requires |cs| <= 1
    ensures About(opt, cs) == if cs != [] && cs[0].opt == opt then cs else []
  {
    if cs != [] {
      assert cs[1..] == [] && About(opt, cs[1..]) == [];
    }
  }

  /** At most one command back, about the same option. */
  lemma AnswerIsAbout(s: Slots, c: Cmd)
    ensures |Answer(s, c).1| <= 1 && (Answer(s, c).1 != [] ==> Answer(s, c).1[0].opt == c.opt)
  {
    hide Get, Set;
  }

  lemma AnswerOnComPort(s: Slots, verb: byte)
    requires IsNegotiation(verb)
    ensures var verdict := verb == 251 || verb == 253;
            && Answer(s, Cmd(verb, 44)).0 == s.(comPort := verdict)
            && ComPortAnswers(s.comPort, [Cmd(verb, 44)]) == Answer(s, Cmd(verb, 44)).1
  {
    var c := Cmd(verb, 44);
    assert [c][1..] == [];
    assert SlotFor(c) == Some(ComPort) && ComPortAnswers(verb == 251 || verb == 253, [c][1..]) == [];
  }

  lemma AnswerOffComPort(s: Slots, c: Cmd)
    requires c.opt != 44
    ensures Answer(s, c).0.comPort == s.comPort
  {
  }

  lemma ComPortAnswersCons(prev: bool, c: Cmd, rest: seq<Cmd>)
    ensures c.opt != 44 ==> ComPortAnswers(prev, [c] + rest) == ComPortAnswers(prev, rest)
    ensures c.opt == 44 ==>
              ComPortAnswers(prev, [c] + rest)
              == ComPortAnswers(prev, [c]) + ComPortAnswers(c.verb == 251 || c.verb == 253, rest)
    ensures ComPortAnswers(prev, []) == []
  {
    assert ([c] + rest)[1..] == rest && [c][1..] == [];
    assert ComPortAnswers(c.verb == 251 || c.verb == 253, [c][1..]) == [];
  }

  /** COM-PORT by the book: exactly the changes of verdict are answered, by the verb of the other side. */
  lemma {:induction false} ComPortByTheBook(s: Slots, cs: seq<Cmd>)
    requires AllCmds(cs)
    ensures About(44, AnswerAll(s, cs).1) == ComPortAnswers(s.comPort, cs)
    decreases |cs|
  {
    hide Answer, ComPortAnswers, About;
    if cs == [] {
      ComPortAnswersCons(s.comPort, Cmd(251, 44), []);
      AboutFew(44, []);
    } else {
      assert IsCmd(cs[0]);
      assert forall k :: 0 <= k < |cs[1..]| ==> cs[1..][k] == cs[k + 1];
      var (s1, r1) := Answer(s, cs[0]);
      ComPortByTheBook(s1, cs[1..]);
      AboutConcat(44, r1, AnswerAll(s1, cs[1..]).1);
      AnswerIsAbout(s, cs[0]);
      AboutFew(44, r1);
      assert cs == [cs[0]] + cs[1..];
      ComPortAnswersCons(s.comPort, cs[0], cs[1..]);
      if cs[0].opt == 44 {
        AnswerOnComPort(s, cs[0].verb);
      } else {
        AnswerOffComPort(s, cs[0]);
      }
    }
  }

  // ── independence ────────────────────────────────────────────────────────

  function OptionOf(k: Slot): byte {
    match k
    case BinaryUs => 0
    case BinaryThem => 0
    case SgaUs => 3
    case SgaThem => 3
    case ComPort => 44
  }

  /** Two codecs that hold the same about one option. */
  predicate AlikeOn(opt: byte, s: Slots, t: Slots) {
    forall k :: OptionOf(k) == opt ==> Get(s, k) == Get(t, k)
  }

  lemma SetSlots(s: Slots, k: Slot, v: bool)
    ensures forall j :: Get(Set(s, k, v), j) == if j == k then v else Get(s, j)
  {
    forall j
      ensures Get(Set(s, k, v), j) == if j == k then v else Get(s, j)
    {
      GetAfterSet(s, k, v, j);
    }
  }

  lemma SlotOption(c: Cmd)
    ensures SlotFor(c).Some? ==> OptionOf(SlotFor(c).value) == c.opt
  {
  }

  lemma AnswerAlike(opt: byte, s: Slots, t: Slots, c: Cmd)
    requires AlikeOn(opt, s, t)
    ensures c.opt == opt ==> Answer(s, c).1 == Answer(t, c).1 && AlikeOn(opt, Answer(s, c).0, Answer(t, c).0)
    ensures c.opt != opt ==> AlikeOn(opt, Answer(s, c).0, t)
  {
    hide Get, Set, Counter, SlotFor, OptionOf;
    SlotOption(c);
    if SlotFor(c).Some? {
      SetSlots(s, SlotFor(c).value, Agrees(c.verb));
      SetSlots(t, SlotFor(c).value, Agrees(c.verb));
    }
  }

  /**
   * No option disturbs another: what a codec answers about one option is what it, or any
   * codec that holds the same about it, answers to the commands about that option alone.
   */
  lemma {:induction false} OptionsAreIndependent(opt: byte, s: Slots, t: Slots, cs: seq<Cmd>)
    requires AlikeOn(opt, s, t)
    ensures About(opt, AnswerAll(s, cs).1) == AnswerAll(t, About(opt, cs)).1
    ensures AlikeOn(opt, AnswerAll(s, cs).0, AnswerAll(t, About(opt, cs)).0)
    decreases |cs|
  {
    hide Answer, AlikeOn;
    if cs != [] {
      var (s1, r1) := Answer(s, cs[0]);
      AnswerIsAbout(s, cs[0]);
      AnswerAlike(opt, s, t, cs[0]);
      AboutConcat(opt, r1, AnswerAll(s1, cs[1..]).1);
      AboutFew(opt, r1);
      var rest := About(opt, cs[1..]);
      if cs[0].opt == opt {
        assert About(opt, cs) == [cs[0]] + rest && ([cs[0]] + rest)[1..] == rest;
        OptionsAreIndependent(opt, s1, Answer(t, cs[0]).0, cs[1..]);
      } else {
        assert About(opt, cs) == rest;
        OptionsAreIndependent(opt, s1, t, cs[1..]);
      }
    }
  }

  lemma {:induction false} AllRefused(s: Slots, cs: seq<Cmd>)
    requires forall i :: 0 <= i < |cs| ==> cs[i].opt != 0 && cs[i].opt != 3 && cs[i].opt != 44
    ensures AnswerAll(s, cs) == (s, Refusals(cs))
    decreases |cs|
  {
    if cs != [] {
      assert forall k :: 0 <= k < |cs[1..]| ==> cs[1..][k] == cs[k + 1];
      AllRefused(s, cs[1..]);
    }
  }

  lemma {:induction false} AboutOnly(opt: byte, cs: seq<Cmd>, i: nat)
    requires i < |About(opt, cs)|
    ensures About(opt, cs)[i].opt == opt
  {
    var here := if cs[0].opt == opt then 1 else 0;
    if i >= here {
      AboutOnly(opt, cs[1..], i - here);
    }
  }

  /** Any other option is refused each time it is mentioned, whatever comes between. */
  lemma OthersAreRefused(opt: byte, s: Slots, cs: seq<Cmd>)
    requires opt != 0 && opt != 3 && opt != 44
    ensures About(opt, AnswerAll(s, cs).1) == Refusals(About(opt, cs))
  {
    OptionsAreIndependent(opt, s, s, cs);
    forall i | 0 <= i < |About(opt, cs)|
      ensures About(opt, cs)[i].opt == opt
    {
      AboutOnly(opt, cs, i);
    }
    AllRefused(s, About(opt, cs));
  }

  // ── over raw bytes ──────────────────────────────────────────────────────

  /** The commands in a stream read from the start. */
  function CommandsIn(stream: seq<byte>): seq<Cmd> {
    CommandsOf(Scan(CLEAN, stream).1)
  }

  /**
   * On the wire: whatever bytes a fresh codec is fed, the commands in its reply obey the
   * rules for every option, starting from everything agreed.
   */
  lemma RepliesByTheBook(input: seq<byte>, opt: byte)
    ensures var cs, replies := CommandsIn(input), CommandsIn(Decoding(NEW, input).1.reply);
            && Spoken(0, 253, 254, replies) == Dedup(true, Spoken(0, 251, 252, cs))
            && Spoken(0, 251, 252, replies) == Dedup(true, Spoken(0, 253, 254, cs))
            && Spoken(3, 253, 254, replies) == Dedup(true, Spoken(3, 251, 252, cs))
            && Spoken(3, 251, 252, replies) == Dedup(true, Spoken(3, 253, 254, cs))
            && About(44, replies) == ComPortAnswers(true, cs)
            && (opt != 0 && opt != 3 && opt != 44 ==> About(opt, replies) == Refusals(About(opt, cs)))
  {
    hide Scan, AnswerAll, Spoken, About, Refusals, ComPortAnswers, ComPortVerdicts, Dedup, CmdBytes, AllCmds, LastOr;
    var cs := CommandsIn(input);
    EncodeInvertsScan(CLEAN, input);
    CommandsAreCmds(Scan(CLEAN, input).1);
    var replies := AnswerAll(FRESH, cs).1;
    AnswersNeverMultiply(FRESH, cs);
    CmdBytesEvents(replies);
    ScanInvertsEncode(CmdEvents(replies));
    DirectionsAreIndependent(FRESH, cs);
    ComPortByTheBook(FRESH, cs);
    if opt != 0 && opt != 3 && opt != 44 {
      OthersAreRefused(opt, FRESH, cs);
    }
  }

  /** The opening bytes: WILL and DO BINARY, WILL and DO SGA, WILL COM-PORT. */
  lemma OpeningBytes()
    ensures CmdBytes(OFFERS) == [255, 251, 0, 255, 253, 0, 255, 251, 3, 255, 253, 3, 255, 251, 44]
  {
    var o := OFFERS;
    assert o == [o[0]] + ([o[1]] + ([o[2]] + ([o[3]] + [o[4]])));
    FlatMapCons(CmdEncoding, o[0], [o[1]] + ([o[2]] + ([o[3]] + [o[4]])));
    FlatMapCons(CmdEncoding, o[1], [o[2]] + ([o[3]] + [o[4]]));
    FlatMapCons(CmdEncoding, o[2], [o[3]] + [o[4]]);
    FlatMapCons(CmdEncoding, o[3], [o[4]]);
    FlatMapOne(CmdEncoding, o[4]);
  }
}
