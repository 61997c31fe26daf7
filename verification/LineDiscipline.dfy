/**
 * The console's line editing: echo, rub-out, Ctrl-C, and CR, LF or CRLF as one line end.
 *
 * The device works in one pass over raw characters. Its specification takes two: first
 * fold the characters into keys, then let each key act on the line.
 */
module LineDiscipline {
  import opened Common

  const BS := '\U{08}'
  const DEL := '\U{7F}'
  const ETX := '\U{03}'
  const CRLF := "\r\n"

  // ── pass one: characters to keys ────────────────────────────────────────

  datatype Key = EndLine | RubOut | Abandon | Type(c: char)

  function KeyOf(c: char): Key {
    if c == '\r' || c == '\n' then EndLine
    else if c == BS || c == DEL then RubOut
    else if c == ETX then Abandon
    else Type(c)
  }

  /** The key of one character, unless it is the LF of a CRLF pair. */
  function KeysFor(wasCr: bool, c: char): seq<Key> {
    if c == '\n' && wasCr then [] else [KeyOf(c)]
  }

  /** Fold line ends; the flag says whether the last character was a CR. */
  function Fold(wasCr: bool, input: string): (bool, seq<Key>)
    decreases |input|
  {
    if input == [] then (wasCr, [])
    else
      var (cr, keys) := Fold(input[0] == '\r', input[1..]);
      (cr, KeysFor(wasCr, input[0]) + keys)
  }

  lemma {:induction false} FoldConcat(wasCr: bool, a: string, b: string)
    ensures Fold(wasCr, a + b) == (Fold(Fold(wasCr, a).0, b).0, Fold(wasCr, a).1 + Fold(Fold(wasCr, a).0, b).1)
    decreases |a|
  {
    if a == [] {
      assert a + b == b;
      assert [] + Fold(wasCr, b).1 == Fold(wasCr, b).1;
    } else {
      assert (a + b)[1..] == a[1..] + b;
      FoldConcat(a[0] == '\r', a[1..], b);
      Assoc(KeysFor(wasCr, a[0]), Fold(a[0] == '\r', a[1..]).1, Fold(Fold(wasCr, a).0, b).1);
    }
  }

  lemma FoldOne(wasCr: bool, c: char)
    ensures Fold(wasCr, [c]) == (c == '\r', KeysFor(wasCr, c))
  {
    assert [c][1..] == [] && KeysFor(wasCr, c) + [] == KeysFor(wasCr, c);
    assert Fold(c == '\r', [c][1..]) == (c == '\r', []);
  }

  // ── pass two: keys to lines ─────────────────────────────────────────────

  /** A console preset: a prompt, and a state that each entered line moves and draws an answer from. */
  datatype Console<!H> = Console(prompt: string, onLine: (H, string) -> (H, string))

  datatype Session<H> = Session(line: string, handler: H)

  function Press<H>(con: Console<H>, s: Session<H>, k: Key): (Session<H>, string) {
    match k
    case EndLine =>
      var (h, answer) := con.onLine(s.handler, s.line);
      (Session("", h), CRLF + answer + con.prompt)
    case RubOut =>
      if s.line == "" then (s, "") else (s.(line := s.line[..|s.line| - 1]), [BS, ' ', BS])
    case Abandon => (s.(line := ""), "^C" + CRLF + con.prompt)
    case Type(c) => (s.(line := s.line + [c]), [c])
  }

  function PressAll<H>(con: Console<H>, s: Session<H>, keys: seq<Key>): (Session<H>, string)
    decreases |keys|
  {
    if keys == [] then (s, "")
    else
      var (s1, out) := Press(con, s, keys[0]);
      var (s2, rest) := PressAll(con, s1, keys[1..]);
      (s2, out + rest)
  }

  lemma {:induction false} PressAllConcat<H>(con: Console<H>, s: Session<H>, a: seq<Key>, b: seq<Key>)
    ensures PressAll(con, s, a + b)
         == (PressAll(con, PressAll(con, s, a).0, b).0,
             PressAll(con, s, a).1 + PressAll(con, PressAll(con, s, a).0, b).1)
    decreases |a|
  {
    if a == [] {
      assert a + b == b;
      assert "" + PressAll(con, s, b).1 == PressAll(con, s, b).1;
    } else {
      assert (a + b)[1..] == a[1..] + b;
      var (s1, out) := Press(con, s, a[0]);
      PressAllConcat(con, s1, a[1..], b);
      Assoc(out, PressAll(con, s1, a[1..]).1, PressAll(con, PressAll(con, s, a).0, b).1);
    }
  }

  lemma PressAllShort<H>(con: Console<H>, s: Session<H>, keys: seq<Key>)
    requires |keys| <= 1
    ensures PressAll(con, s, keys) == if keys == [] then (s, "") else Press(con, s, keys[0])
  {
    if keys != [] {
      var (s1, out) := Press(con, s, keys[0]);
      assert keys[1..] == [] && PressAll(con, s1, keys[1..]) == (s1, "") && out + "" == out;
    }
  }

  /** A device: what it remembers between reads. */
  datatype Device<H> = Device(wasCr: bool, session: Session<H>)

  function Fed<H>(con: Console<H>, d: Device<H>, input: string): (Device<H>, string) {
    var (cr, keys) := Fold(d.wasCr, input);
    var (s, out) := PressAll(con, d.session, keys);
    (Device(cr, s), out)
  }

  function FedParts<H>(con: Console<H>, d: Device<H>, parts: seq<string>): (Device<H>, string)
    decreases |parts|
  {
    if parts == [] then (d, "")
    else
      var (d1, out) := Fed(con, d, parts[0]);
      var (d2, rest) := FedParts(con, d1, parts[1..]);
      (d2, out + rest)
  }

  lemma FedConcat<H>(con: Console<H>, d: Device<H>, a: string, b: string)
    ensures Fed(con, d, a + b) == (Fed(con, Fed(con, d, a).0, b).0, Fed(con, d, a).1 + Fed(con, Fed(con, d, a).0, b).1)
  {
    FoldConcat(d.wasCr, a, b);
    PressAllConcat(con, d.session, Fold(d.wasCr, a).1, Fold(Fold(d.wasCr, a).0, b).1);
  }

  /** However the typing is cut into reads, the device ends the same and says the same. */
  lemma {:induction false} FeedingIsSplitIndependent<H>(con: Console<H>, d: Device<H>, parts: seq<string>)
    ensures FedParts(con, d, parts) == Fed(con, d, Flatten(parts))
    decreases |parts|
  {
    if parts != [] {
      FeedingIsSplitIndependent(con, Fed(con, d, parts[0]).0, parts[1..]);
      FedConcat(con, d, parts[0], Flatten(parts[1..]));
    }
  }

  // ── the lines handed over ───────────────────────────────────────────────

  /** Cut keys at line ends; the last segment is the line still being typed. */
  function Segments(keys: seq<Key>): (segs: seq<seq<Key>>)
    ensures segs != []
  {
    if keys == [] then [[]]
    else
      var rest := Segments(keys[1..]);
      if keys[0] == EndLine then [[]] + rest else [[keys[0]] + rest[0]] + rest[1..]
  }

  /** One line as a stack: pushes, rub-outs of the top, and clears. */
  function Edited(line: string, keys: seq<Key>): string
    decreases |keys|
  {
    if keys == [] then line
    else Edited(match keys[0]
                case Type(c) => line + [c]
                case RubOut => if line == "" then "" else line[..|line| - 1]
                case _ => "", keys[1..])
  }

  function EditedAll(segs: seq<seq<Key>>): seq<string> {
    if segs == [] then [] else [Edited("", segs[0])] + EditedAll(segs[1..])
  }

  /** The handler after a list of whole lines. */
  function HandleAll<H>(con: Console<H>, h: H, lines: seq<string>): H
    decreases |lines|
  {
    if lines == [] then h else HandleAll(con, con.onLine(h, lines[0]).0, lines[1..])
  }

  /** A line end hands the line over; any other key only edits it. */
  lemma PressEdits<H>(con: Console<H>, s: Session<H>, k: Key)
    ensures k == EndLine ==> Press(con, s, k).0 == Session("", con.onLine(s.handler, s.line).0)
    ensures k != EndLine ==> Press(con, s, k).0 == Session(Edited(s.line, [k]), s.handler)
    ensures k != EndLine ==> forall keys :: Edited(s.line, [k] + keys) == Edited(Edited(s.line, [k]), keys)
  {
    assert [k][1..] == [];
    assert forall keys: seq<Key> :: ([k] + keys)[0] == k && ([k] + keys)[1..] == keys;
  }

  /** From a line in progress: the first segment continues it, every later one starts empty. */
  lemma {:induction false} KeysMakeLines<H>(con: Console<H>, s: Session<H>, keys: seq<Key>)
    ensures var segs := Segments(keys);
            PressAll(con, s, keys).0 ==
              if |segs| == 1 then Session(Edited(s.line, segs[0]), s.handler)
              else Session(Edited("", segs[|segs| - 1]),
                           HandleAll(con, s.handler, [Edited(s.line, segs[0])] + EditedAll(segs[1..|segs| - 1])))
    decreases |keys|
  {
    if keys == [] {
      return;
    }
    var rest := Segments(keys[1..]);
    var segs := Segments(keys);
    var s1 := Press(con, s, keys[0]).0;
    hide Press;
    PressEdits(con, s, keys[0]);
    KeysMakeLines(con, s1, keys[1..]);
    if keys[0] == EndLine {
      assert segs[1..] == rest && segs[1..|segs| - 1] == rest[..|rest| - 1];
      var lines := EditedAll(rest[..|rest| - 1]);
      assert ([s.line] + lines)[1..] == lines;
      if |rest| > 1 {
        assert rest[..|rest| - 1][1..] == rest[1..|rest| - 1];
      } else {
        assert rest[..0] == [] && lines == [];
      }
    } else {
      assert segs[0][1..] == rest[0] && segs[1..] == rest[1..];
      if |rest| > 1 {
        assert segs[1..|segs| - 1] == rest[1..|rest| - 1];
      }
    }
  }

  /**
   * The device's lines are those of the two-pass specification: whatever is typed at a
   * fresh device, in whatever reads, the handler gets exactly the edited segments between
   * line ends, in order, and the line left over is the last segment edited so far.
   */
  lemma LinesAreTwoPass<H>(con: Console<H>, h: H, parts: seq<string>)
    ensures var segs := Segments(Fold(false, Flatten(parts)).1);
            FedParts(con, Device(false, Session("", h)), parts).0.session
            == Session(Edited("", segs[|segs| - 1]), HandleAll(con, h, EditedAll(segs[..|segs| - 1])))
  {
    var d := Device(false, Session("", h));
    FeedingIsSplitIndependent(con, d, parts);
    var keys := Fold(false, Flatten(parts)).1;
    var segs := Segments(keys);
    KeysMakeLines(con, d.session, keys);
    if |segs| == 1 {
      assert segs[..0] == [];
    } else {
      assert segs[..|segs| - 1][1..] == segs[1..|segs| - 1];
    }
  }

  datatype Terminator = CR | LF | CRLFPair

  function Ending(t: Terminator): string {
    match t
    case CR => "\r"
    case LF => "\n"
    case CRLFPair => CRLF
  }

  datatype TypedLine = TypedLine(text: string, end: Terminator)

  function Typing(lines: seq<TypedLine>): string {
    if lines == [] then "" else lines[0].text + Ending(lines[0].end) + Typing(lines[1..])
  }

  predicate NoLineEnd(text: string) {
    '\r' !in text && '\n' !in text
  }

  /** A CR directly followed by an empty LF line would read as one CRLF; every other mix is unambiguous. */
  predicate Unambiguous(wasCr: bool, lines: seq<TypedLine>)
    decreases |lines|
  {
    lines == [] ||
    (NoLineEnd(lines[0].text)
     && !(wasCr && lines[0].text == "" && lines[0].end == LF)
     && Unambiguous(lines[0].end == CR, lines[1..]))
  }

  function KeysOfText(text: string): seq<Key> {
    if text == "" then [] else [KeyOf(text[0])] + KeysOfText(text[1..])
  }

  function KeysOfLines(lines: seq<TypedLine>): seq<Key> {
    if lines == [] then [] else KeysOfText(lines[0].text) + [EndLine] + KeysOfLines(lines[1..])
  }

  lemma {:induction false} FoldText(wasCr: bool, text: string)
    requires NoLineEnd(text)
    ensures Fold(wasCr, text) == (wasCr && text == "", KeysOfText(text))
    decreases |text|
  {
    if text != "" {
      FoldText(false, text[1..]);
    }
  }

  lemma FoldEnding(wasCr: bool, end: Terminator)
    requires !(wasCr && end == LF)
    ensures Fold(wasCr, Ending(end)) == (end == CR, [EndLine])
  {
    FoldOne(wasCr, '\r');
    FoldOne(wasCr, '\n');
    FoldOne(true, '\n');
    assert CRLF == "\r" + "\n";
    FoldConcat(wasCr, "\r", "\n");
  }

  /** Any mix of CR, LF and CRLF gives each line exactly one line end. */
  lemma {:induction false} EveryLineEndsOnce(wasCr: bool, lines: seq<TypedLine>)
    requires Unambiguous(wasCr, lines)
    ensures Fold(wasCr, Typing(lines)).1 == KeysOfLines(lines)
    decreases |lines|
  {
    if lines != [] {
      var (text, end) := (lines[0].text, lines[0].end);
      FoldText(wasCr, text);
      FoldConcat(wasCr, text, Ending(end));
      FoldEnding(wasCr && text == "", end);
      FoldConcat(wasCr, text + Ending(end), Typing(lines[1..]));
      EveryLineEndsOnce(end == CR, lines[1..]);
    }
  }

  // ── the mutable device ──────────────────────────────────────────────────

  class LineDevice<H(0)> {
    const con: Console<H>
    var line: string
    var lastWasCr: bool
    var handler: H

    ghost function View(): Device<H>
      reads this
    {
      Device(lastWasCr, Session(line, handler))
    }

    constructor (con: Console<H>, handler: H)
      ensures this.con == con && View() == Device(false, Session("", handler))
    {
      this.con := con;
      this.handler := handler;
      line := "";
      lastWasCr := false;
    }

    method Greeting() returns (out: string)
      ensures out == con.prompt
    {
      out := con.prompt;
    }

    method Feed(input: string) returns (out: string)
      modifies this
      ensures (View(), out) == Fed(con, old(View()), input)
    {
      out := "";
      ghost var d := View();
      for i := 0 to |input|
        invariant (View(), out) == Fed(con, d, input[..i])
      {
        FedConcat(con, d, input[..i], [input[i]]);
        assert input[..i + 1] == input[..i] + [input[i]];
        var said := FeedChar(input[i]);
        out := out + said;
      }
      assert input[..|input|] == input;
    }

    /** One turn of the feeding loop. */
    method FeedChar(c: char) returns (out: string)
      modifies this
      ensures (View(), out) == Fed(con, old(View()), [c])
    {
      FoldOne(lastWasCr, c);
      PressAllShort(con, View().session, KeysFor(lastWasCr, c));
      out := "";
      var wasCr := lastWasCr;
      lastWasCr := false;
      if c == '\n' && wasCr {
        // the line ended at the CR
      } else if c == '\r' || c == '\n' {
        out := CRLF;
        var entered := line;
        line := "";
        var (h, answer) := con.onLine(handler, entered);
        handler := h;
        out := out + answer;
        out := out + con.prompt;
        lastWasCr := c == '\r';
      } else if c == BS || c == DEL {
        if line != "" {
          line := line[..|line| - 1];
          out := [BS, ' ', BS];
        }
      } else if c == ETX {
        line := "";
        out := "^C" + CRLF;
        out := out + con.prompt;
      } else {
        line := line + [c];
        out := [c];
      }
    }
  }
}
