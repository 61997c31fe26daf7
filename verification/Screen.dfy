/**
 * What the user sees: a terminal of unbounded width rendering the console's output, and
 * the agreement between its cursor line and the device's own line.
 */
module Screen {
  import opened Common
  import opened LineDiscipline

  // ── the terminal ────────────────────────────────────────────────────────

  /** Finished rows, the row of the cursor, and the cursor's column. */
  datatype Terminal = Terminal(above: seq<string>, row: string, col: nat)

  const BLANK := Terminal([], "", 0)

  function Blanks(n: nat): string {
    seq(n, _ => ' ')
  }

  /** CR returns, LF opens a row, BS steps back, anything else overwrites the cursor cell. */
  function Show(t: Terminal, c: char): Terminal {
    if c == '\r' then t.(col := 0)
    else if c == '\n' then Terminal(t.above + [t.row], "", t.col)
    else if c == BS then t.(col := if t.col == 0 then 0 else t.col - 1)
    else if t.col < |t.row| then t.(row := t.row[t.col := c], col := t.col + 1)
    else t.(row := t.row + Blanks(t.col - |t.row|) + [c], col := t.col + 1)
  }

  function Render(t: Terminal, out: string): Terminal
    decreases |out|
  {
    if out == "" then t else Render(Show(t, out[0]), out[1..])
  }

  lemma {:induction false} RenderConcat(t: Terminal, a: string, b: string)
    ensures Render(t, a + b) == Render(Render(t, a), b)
    decreases |a|
  {
    if a == "" {
      assert a + b == b;
    } else {
      assert (a + b)[1..] == a[1..] + b;
      RenderConcat(Show(t, a[0]), a[1..], b);
    }
  }

  // ── what the cursor line shows ──────────────────────────────────────────

  /** The cursor row reads `text` up to the cursor, and only blanks after it. */
  predicate Shows(t: Terminal, text: string) {
    && t.col == |text| <= |t.row|
    && t.row[..t.col] == text
    && forall i :: t.col <= i < |t.row| ==> t.row[i] == ' '
  }

  predicate Printable(c: char) {
    ' ' <= c <= '~'
  }

  predicate AllPrintable(s: string) {
    forall i :: 0 <= i < |s| ==> Printable(s[i])
  }

  /** What the screen model covers: printable ASCII, CR, LF, BS, DEL and Ctrl-C. */
  predicate Typable(c: char) {
    Printable(c) || c == '\r' || c == '\n' || c == BS || c == DEL || c == ETX
  }

  predicate AllTypable(s: string) {
    forall i :: 0 <= i < |s| ==> Typable(s[i])
  }

  lemma ShowPrintable(t: Terminal, text: string, c: char)
    requires Shows(t, text) && Printable(c)
    ensures Shows(Show(t, c), text + [c])
  {
    var u := Show(t, c);
    if t.col == |t.row| {
      assert t.row + Blanks(0) + [c] == t.row + [c];
    }
    assert u.row[..|text|] == text && u.row[|text|] == c;
    assert u.row[..u.col] == text + [c];
  }

  lemma {:induction false} RenderPrintable(t: Terminal, text: string, out: string)
    requires Shows(t, text) && AllPrintable(out)
    ensures Shows(Render(t, out), text + out)
    decreases |out|
  {
    if out == "" {
      assert text + out == text;
    } else {
      ShowPrintable(t, text, out[0]);
      RenderPrintable(Show(t, out[0]), text + [out[0]], out[1..]);
      assert text + [out[0]] + out[1..] == text + out;
    }
  }

  lemma RenderThree(t: Terminal, a: char, b: char, c: char)
    ensures Render(t, [a, b, c]) == Show(Show(Show(t, a), b), c)
  {
    assert [a, b, c][1..] == [b, c] && [b, c][1..] == [c] && [c][1..] == "";
    var t2 := Show(Show(t, a), b);
    assert Render(t2, [c]) == Render(Show(t2, c), "") == Show(t2, c);
    assert Render(Show(t, a), [b, c]) == Render(t2, [c]);
  }

  /** Rubbing out: step back, blank the cell, step back. */
  lemma RenderRubOut(t: Terminal, text: string)
    requires Shows(t, text) && text != ""
    ensures Shows(Render(t, [BS, ' ', BS]), text[..|text| - 1])
  {
    RenderThree(t, BS, ' ', BS);
    var u := Render(t, [BS, ' ', BS]);
    assert u.col == |text| - 1 && u.row == t.row[|text| - 1 := ' '];
    assert u.row[..u.col] == t.row[..t.col][..u.col];
  }

  /** A line end: whatever the row was, the next one is blank and the cursor at its start. */
  lemma RenderCrlf(t: Terminal)
    ensures Shows(Render(t, CRLF), "")
  {
    assert CRLF[1..] == "\n" && "\n"[1..] == "";
    assert Render(t, CRLF) == Show(Show(t, '\r'), '\n');
  }

  // ── tidy answers ────────────────────────────────────────────────────────

  /** Printable text in whole lines, each ended by CRLF; `atStart` means at the start of a row. */
  predicate TidyFrom(atStart: bool, out: string)
    decreases |out|
  {
    if out == "" then atStart
    else if out[0] == '\r' then |out| >= 2 && out[1] == '\n' && TidyFrom(true, out[2..])
    else Printable(out[0]) && TidyFrom(false, out[1..])
  }

  predicate Tidy(out: string) {
    TidyFrom(true, out)
  }

  lemma {:induction false} TidyConcat(atStart: bool, a: string, b: string)
    requires TidyFrom(atStart, a) && Tidy(b)
    ensures TidyFrom(atStart, a + b)
    decreases |a|
  {
    if a == "" {
      assert a + b == b;
    } else if a[0] == '\r' {
      assert (a + b)[2..] == a[2..] + b;
      TidyConcat(true, a[2..], b);
    } else {
      assert (a + b)[1..] == a[1..] + b;
      TidyConcat(false, a[1..], b);
    }
  }

  lemma {:induction false} TidyLine(atStart: bool, text: string)
    requires AllPrintable(text)
    ensures TidyFrom(atStart, text + CRLF)
    decreases |text|
  {
    if text == "" {
      assert text + CRLF == CRLF && CRLF[2..] == "";
    } else {
      assert (text + CRLF)[1..] == text[1..] + CRLF;
      TidyLine(false, text[1..]);
    }
  }

  /** Rendered from the start of a blank row, a tidy answer ends at the start of a blank row. */
  lemma {:induction false} RenderTidy(t: Terminal, atStart: bool, text: string, out: string)
    requires Shows(t, text) && (atStart ==> text == "") && TidyFrom(atStart, out)
    ensures Shows(Render(t, out), "")
    decreases |out|
  {
    if out != "" {
      if out[0] == '\r' {
        assert out == CRLF + out[2..];
        RenderConcat(t, CRLF, out[2..]);
        RenderCrlf(t);
        RenderTidy(Render(t, CRLF), true, "", out[2..]);
      } else {
        ShowPrintable(t, text, out[0]);
        RenderTidy(Show(t, out[0]), false, text + [out[0]], out[1..]);
      }
    }
  }

  // ── agreement ───────────────────────────────────────────────────────────

  /** A console whose prompt is printable and whose handler keeps `ok` and answers tidily. */
  ghost predicate Neat<H(!new)>(con: Console<H>, ok: H -> bool) {
    && AllPrintable(con.prompt)
    && forall h, line :: ok(h) && AllPrintable(line) ==>
         ok(con.onLine(h, line).0) && Tidy(con.onLine(h, line).1)
  }

  predicate KeyPrintable(k: Key) {
    k.Type? ==> Printable(k.c)
  }

  lemma RenderPrompt(t: Terminal, prompt: string)
    requires AllPrintable(prompt)
    ensures Shows(Render(t, CRLF + prompt), prompt)
  {
    RenderConcat(t, CRLF, prompt);
    RenderCrlf(t);
    RenderPrintable(Render(t, CRLF), "", prompt);
    assert "" + prompt == prompt;
  }

  /** Each key keeps the screen and the device's line in step. */
  lemma PressKeepsScreen<H(!new)>(con: Console<H>, ok: H -> bool, s: Session<H>, k: Key, t: Terminal)
    requires Neat(con, ok) && ok(s.handler) && AllPrintable(s.line) && KeyPrintable(k)
    requires Shows(t, con.prompt + s.line)
    ensures var (s', out) := Press(con, s, k);
            ok(s'.handler) && AllPrintable(s'.line) && Shows(Render(t, out), con.prompt + s'.line)
  {
    var (s', out) := Press(con, s, k);
    match k
    case EndLine =>
      var answer := con.onLine(s.handler, s.line).1;
      RenderConcat(t, CRLF + answer, con.prompt);
      RenderConcat(t, CRLF, answer);
      RenderCrlf(t);
      RenderTidy(Render(t, CRLF), true, "", answer);
      RenderPrintable(Render(t, CRLF + answer), "", con.prompt);
      assert "" + con.prompt == con.prompt + "";
    case RubOut =>
      if s.line != "" {
        RenderRubOut(t, con.prompt + s.line);
        assert (con.prompt + s.line)[..|con.prompt + s.line| - 1] == con.prompt + s'.line;
      }
    case Abandon =>
      assert out == "^C" + (CRLF + con.prompt);
      RenderConcat(t, "^C", CRLF + con.prompt);
      RenderPrompt(Render(t, "^C"), con.prompt);
      assert con.prompt + "" == con.prompt;
    case Type(c) =>
      assert AllPrintable([c]);
      RenderPrintable(t, con.prompt + s.line, [c]);
      assert con.prompt + s.line + [c] == con.prompt + (s.line + [c]);
  }

  lemma {:induction false} PressAllKeepsScreen<H(!new)>(con: Console<H>, ok: H -> bool, s: Session<H>, keys: seq<Key>,
                                                        t: Terminal)
    requires Neat(con, ok) && ok(s.handler) && AllPrintable(s.line)
    requires forall i :: 0 <= i < |keys| ==> KeyPrintable(keys[i])
    requires Shows(t, con.prompt + s.line)
    ensures var (s', out) := PressAll(con, s, keys);
            ok(s'.handler) && AllPrintable(s'.line) && Shows(Render(t, out), con.prompt + s'.line)
    decreases |keys|
  {
    if keys != [] {
      var (s1, out) := Press(con, s, keys[0]);
      PressKeepsScreen(con, ok, s, keys[0], t);
      PressAllKeepsScreen(con, ok, s1, keys[1..], Render(t, out));
      RenderConcat(t, out, PressAll(con, s1, keys[1..]).1);
    }
  }

  lemma {:induction false} FoldKeepsPrintable(wasCr: bool, input: string, i: nat)
    requires AllTypable(input) && i < |Fold(wasCr, input).1|
    ensures KeyPrintable(Fold(wasCr, input).1[i])
    decreases |input|
  {
    var first := KeysFor(wasCr, input[0]);
    assert Typable(input[0]);
    if i >= |first| {
      FoldKeepsPrintable(input[0] == '\r', input[1..], i - |first|);
    }
  }

  /**
   * The screen always agrees with the device: after the greeting and any typing, in any
   * reads, the cursor row shows the prompt and the current line up to the cursor, and
   * only blanks after it.
   */
  lemma ScreenAgrees<H(!new)>(con: Console<H>, ok: H -> bool, h: H, parts: seq<string>)
    requires Neat(con, ok) && ok(h) && AllTypable(Flatten(parts))
    ensures var (d, out) := FedParts(con, Device(false, Session("", h)), parts);
            ok(d.session.handler) && Shows(Render(BLANK, con.prompt + out), con.prompt + d.session.line)
  {
    var d := Device(false, Session("", h));
    FeedingIsSplitIndependent(con, d, parts);
    var keys := Fold(false, Flatten(parts)).1;
    forall i | 0 <= i < |keys|
      ensures KeyPrintable(keys[i])
    {
      FoldKeepsPrintable(false, Flatten(parts), i);
    }
    RenderPrintable(BLANK, "", con.prompt);
    assert "" + con.prompt == con.prompt + "";
    PressAllKeepsScreen(con, ok, d.session, keys, Render(BLANK, con.prompt));
    RenderConcat(BLANK, con.prompt, PressAll(con, d.session, keys).1);
  }
}
