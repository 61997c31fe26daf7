/**
 * What a console writes, character by character: the echo of the typing with its editing,
 * and after each line end the handler's answer and the prompt.
 */
module ConsoleTranscript {
  import opened Common
  import opened LineDiscipline
  import opened ShellWords
  import opened ShellHandler
  import opened Consoles
  import opened ExecWrapper
  import opened OpenQuotes

  // ── editing, by character ───────────────────────────────────────────────

  /** The line after some typing: 0x08 and 0x7F take its last character, 0x03 all of it. */
  function EditedText(line: string, typed: string): string
    decreases |typed|
  {
    if typed == "" then line
    else EditedText(if typed[0] == '\U{08}' || typed[0] == '\U{7F}' then line[..if line == "" then 0 else |line| - 1]
                    else if typed[0] == '\U{03}' then ""
                    else line + [typed[0]], typed[1..])
  }

  /** What is echoed meanwhile: the characters, a rubbed-out cell for each one taken, and ^C with a new prompt. */
  function Echoed(prompt: string, line: string, typed: string): string
    decreases |typed|
  {
    if typed == "" then ""
    else if typed[0] == '\U{08}' || typed[0] == '\U{7F}' then
      if line == "" then Echoed(prompt, "", typed[1..])
      else "\U{08} \U{08}" + Echoed(prompt, line[..|line| - 1], typed[1..])
    else if typed[0] == '\U{03}' then "^C\r\n" + prompt + Echoed(prompt, "", typed[1..])
    else [typed[0]] + Echoed(prompt, line + [typed[0]], typed[1..])
  }

  lemma FedNothing<H>(con: Console<H>, d: Device<H>)
    ensures Fed(con, d, "") == (d, "")
  {
  }

  /** One character that ends no line. */
  lemma FedOne<H>(con: Console<H>, cr: bool, line: string, h: H, c: char)
    requires c != '\r' && c != '\n'
    ensures Fed(con, Device(cr, Session(line, h)), [c])
         == (Device(false, Session(EditedText(line, [c]), h)), Echoed(con.prompt, line, [c]))
  {
    FoldOne(cr, c);
    PressAllShort(con, Session(line, h), KeysFor(cr, c));
    assert [c][1..] == "" && forall l: string :: Echoed(con.prompt, l, [c][1..]) == "" && EditedText(l, [c][1..]) == l;
    assert "^C" + CRLF + con.prompt == "^C\r\n" + con.prompt + "";
  }

  lemma OneThenRest(prompt: string, line: string, c: char, rest: string)
    ensures EditedText(line, [c] + rest) == EditedText(EditedText(line, [c]), rest)
    ensures Echoed(prompt, line, [c] + rest)
         == Echoed(prompt, line, [c]) + Echoed(prompt, EditedText(line, [c]), rest)
  {
    assert ([c] + rest)[1..] == rest && [c][1..] == "";
    assert forall l: string :: Echoed(prompt, l, [c][1..]) == "" && EditedText(l, [c][1..]) == l;
    assert "^C\r\n" + prompt + "" == "^C\r\n" + prompt;
  }

  /** Typing without line ends only edits and echoes. */
  lemma {:induction false} EditingIsEchoed<H>(con: Console<H>, cr: bool, line: string, h: H, typed: string)
    requires NoLineEnd(typed)
    ensures Fed(con, Device(cr, Session(line, h)), typed)
         == (Device(cr && typed == "", Session(EditedText(line, typed), h)), Echoed(con.prompt, line, typed))
    decreases |typed|
  {
    hide Fed, Echoed, EditedText;
    var d := Device(cr, Session(line, h));
    if typed == "" {
      FedNothing(con, d);
      NothingTyped(con.prompt, line);
    } else {
      var c, rest := typed[0], typed[1..];
      assert typed == [c] + rest && NoLineEnd(rest);
      FedConcat(con, d, [c], rest);
      FedOne(con, cr, line, h, c);
      EditingIsEchoed(con, false, EditedText(line, [c]), h, rest);
      OneThenRest(con.prompt, line, c, rest);
    }
  }

  lemma NothingTyped(prompt: string, line: string)
    ensures EditedText(line, "") == line && Echoed(prompt, line, "") == ""
  {
  }

  // ── a line end ──────────────────────────────────────────────────────────

  lemma FedEnding<H>(con: Console<H>, cr: bool, line: string, h: H, end: Terminator)
    requires !(cr && end == LF)
    ensures Fed(con, Device(cr, Session(line, h)), Ending(end))
         == (Device(end == CR, Session("", con.onLine(h, line).0)), "\r\n" + con.onLine(h, line).1 + con.prompt)
  {
    FoldEnding(cr, end);
    PressAllShort(con, Session(line, h), [EndLine]);
  }

  /** One line: its echo, a new row, the answer to the edited line, and the prompt. */
  lemma LineIsAnswered<H>(con: Console<H>, cr: bool, h: H, text: string, end: Terminator)
    requires NoLineEnd(text) && !(cr && text == "" && end == LF)
    ensures var (h1, answer) := con.onLine(h, EditedText("", text));
            Fed(con, Device(cr, Session("", h)), text + Ending(end))
            == (Device(end == CR, Session("", h1)), Echoed(con.prompt, "", text) + ("\r\n" + answer + con.prompt))
  {
    hide Fed, Echoed, EditedText, Ending;
    FedConcat(con, Device(cr, Session("", h)), text, Ending(end));
    EditingIsEchoed(con, cr, "", h, text);
    FedEnding(con, cr && text == "", EditedText("", text), h, end);
  }

  // ── whole sittings ──────────────────────────────────────────────────────

  /** What a sitting puts on the line, from the first prompt on. */
  function Transcript<H>(con: Console<H>, h: H, lines: seq<TypedLine>): string
    decreases |lines|
  {
    if lines == [] then ""
    else
      var (h1, answer) := con.onLine(h, EditedText("", lines[0].text));
      Echoed(con.prompt, "", lines[0].text) + ("\r\n" + answer + con.prompt) + Transcript(con, h1, lines[1..])
  }

  /** The handler after it. */
  function Afterwards<H>(con: Console<H>, h: H, lines: seq<TypedLine>): H
    decreases |lines|
  {
    if lines == [] then h else Afterwards(con, con.onLine(h, EditedText("", lines[0].text)).0, lines[1..])
  }

  lemma {:induction false} LinesAreAnswered<H>(con: Console<H>, cr: bool, h: H, lines: seq<TypedLine>)
    requires Unambiguous(cr, lines)
    ensures var (d, out) := Fed(con, Device(cr, Session("", h)), Typing(lines));
            d.session == Session("", Afterwards(con, h, lines)) && out == Transcript(con, h, lines)
    decreases |lines|
  {
    hide Fed, Echoed, EditedText, Ending;
    if lines == [] {
      FedNothing(con, Device(cr, Session("", h)));
    } else {
      var (text, end) := (lines[0].text, lines[0].end);
      var h1 := con.onLine(h, EditedText("", text)).0;
      LineIsAnswered(con, cr, h, text, end);
      FedConcat(con, Device(cr, Session("", h)), text + Ending(end), Typing(lines[1..]));
      LinesAreAnswered(con, end == CR, h1, lines[1..]);
    }
  }

  /**
   * The transcript: typed at a fresh console in any reads, lines with any editing and any
   * unambiguous line ends put exactly this on the line, and leave the handler here.
   */
  lemma ConsoleWritesTranscript<H>(con: Console<H>, h: H, lines: seq<TypedLine>, parts: seq<string>)
    requires Unambiguous(false, lines) && Flatten(parts) == Typing(lines)
    ensures var (d, out) := FedParts(con, Device(false, Session("", h)), parts);
            d.session == Session("", Afterwards(con, h, lines)) && out == Transcript(con, h, lines)
  {
    hide Fed;
    FeedingIsSplitIndependent(con, Device(false, Session("", h)), parts);
    LinesAreAnswered(con, false, h, lines);
  }

  // ── plain text ──────────────────────────────────────────────────────────

  /** No line end and no editing key. */
  predicate Plain(text: string) {
    forall i :: 0 <= i < |text| ==>
      text[i] != '\r' && text[i] != '\n' && text[i] != '\U{08}' && text[i] != '\U{7F}' && text[i] != '\U{03}'
  }

  lemma {:induction false} PlainIsItself(prompt: string, line: string, text: string)
    requires Plain(text)
    ensures EditedText(line, text) == line + text && Echoed(prompt, line, text) == text
    decreases |text|
  {
    if text == "" {
      assert line + text == line;
    } else {
      assert Plain(text[1..]);
      PlainIsItself(prompt, line + [text[0]], text[1..]);
      assert line + [text[0]] + text[1..] == line + text;
    }
  }

  /** A plain line and Return: the text, a new row, the answer, and the prompt. */
  lemma PlainLineIsAnswered<H>(con: Console<H>, cr: bool, h: H, text: string)
    requires Plain(text)
    ensures var (h1, answer) := con.onLine(h, text);
            Fed(con, Device(cr, Session("", h)), text + "\r")
            == (Device(true, Session("", h1)), text + ("\r\n" + answer + con.prompt))
  {
    hide Fed, Echoed, EditedText;
    LineIsAnswered(con, cr, h, text, CR);
    PlainIsItself(con.prompt, "", text);
    assert "" + text == text;
  }

  // ── the exec wrapper at the console ─────────────────────────────────────

  lemma AlphanumericIsPlain(text: string)
    requires AllAlphanumeric(text)
    ensures Plain(text)
  {
    forall i | 0 <= i < |text|
      ensures text[i] != '\r' && text[i] != '\n' && text[i] != '\U{08}' && text[i] != '\U{7F}' && text[i] != '\U{03}'
    {
      assert IsAlphanumeric(text[i]);
    }
  }

  lemma PlainConcat(a: string, b: string)
    requires Plain(a) && Plain(b)
    ensures Plain(a + b)
  {
  }

  lemma WrappedIsPlain(prefix: string, tag: string, user: string)
    requires AllAlphanumeric(prefix) && AllAlphanumeric(tag) && Plain(user)
    ensures Plain(Wrapped(prefix, tag, user))
  {
    AlphanumericIsPlain(prefix);
    AlphanumericIsPlain(tag);
    assert Plain(BeginCommand(prefix, tag)) && Plain(EndCommand(prefix, tag));
    hide BeginCommand, EndCommand;
    PlainConcat(" " + user, ";" + EndCommand(prefix, tag));
    assert " " + user + ";" + EndCommand(prefix, tag) == " " + user + (";" + EndCommand(prefix, tag));
    PlainConcat(BeginCommand(prefix, tag) + ";", " " + user + ";" + EndCommand(prefix, tag));
  }

  /**
   * The wrapper end to end: typed at either shell with Return, it is echoed, and the
   * console writes the begin marker, what the user's commands print on their own, the end
   * marker with their status and the prompt, if and only if the user's text closes its
   * quotes.
   */
  lemma ConsoleRunsWrapper(sh: Shell, cr: bool, prefix: string, tag: string, user: string)
    requires AllAlphanumeric(prefix) && AllAlphanumeric(tag) && Plain(user)
    ensures var line, prompt := Wrapped(prefix, tag, user), if sh.kind == Posix then "$ " else "=> ";
            var (sh1, printed) := Answered(sh.(lastStatus := 0), user);
            var (_, out) := Fed(ShellConsole(sh.kind), Device(cr, Session("", sh)), line + "\r");
            out == line + ("\r\n" + (prefix + "BEG" + tag + "\r\n" + printed
                                     + (prefix + "END" + tag + "=" + StatusText(sh1.lastStatus) + "\r\n")) + prompt)
            <==> Balanced(user)
  {
    hide Fed, Answered, Wrapped, Balanced, StatusText;
    var line, prompt := Wrapped(prefix, tag, user), ShellPrompt(sh.kind);
    WrappedIsPlain(prefix, tag, user);
    PlainLineIsAnswered(ShellConsole(sh.kind), cr, sh, line);
    FaithfulExactlyWhenBalanced(sh, prefix, tag, user);
    var (sh1, printed) := Answered(sh.(lastStatus := 0), user);
    SameMiddle(line, Answered(sh, line).1, BeginMarker(prefix, tag) + CRLF + printed
               + (EndMarker(prefix, tag) + StatusText(sh1.lastStatus) + CRLF), prompt);
  }

  lemma SameMiddle(head: string, a: string, b: string, tail: string)
    ensures head + ("\r\n" + a + tail) == head + ("\r\n" + b + tail) <==> a == b
  {
    var s, t := head + ("\r\n" + a + tail), head + ("\r\n" + b + tail);
    if s == t {
      assert |a| == |b|;
      assert s[|head| + 2..|head| + 2 + |a|] == a && t[|head| + 2..|head| + 2 + |b|] == b;
    }
  }

  // ── the AT modem ────────────────────────────────────────────────────────

  lemma {:induction false} LeadIsTrimmed(lead: string, body: string)
    requires IsBlank(lead) && (body == "" || !IsWhitespace(body[0]))
    ensures TrimStart(lead + body) == body
  {
    if lead == "" {
      assert lead + body == body;
    } else {
      assert IsWhitespace(lead[0]) && (lead + body)[1..] == lead[1..] + body;
      assert forall i :: 0 <= i < |lead| - 1 ==> lead[1..][i] == lead[i + 1];
      LeadIsTrimmed(lead[1..], body);
    }
  }

  lemma {:induction false} TrimKeepsFront(body: string)
    requires body != "" && !IsWhitespace(body[0])
    ensures TrimEnd(body) != "" && TrimEnd(body) <= body
    ensures |body| >= 2 && !IsWhitespace(body[1]) ==> |TrimEnd(body)| >= 2
    decreases |body|
  {
    if IsWhitespace(body[|body| - 1]) {
      TrimKeepsFront(body[..|body| - 1]);
    }
  }

  /**
   * The modem's answers: after leading blanks, `at` in either case is OK, anything else is
   * ERROR, and a blank line is answered by nothing but the row.
   */
  lemma ModemAnswers(cr: bool, lead: string, body: string)
    requires Plain(lead + body) && IsBlank(lead) && (body == "" || !IsWhitespace(body[0]))
    ensures Fed(AT_CONSOLE, Device(cr, Session("", ())), lead + body + "\r").1
         == lead + body + (if body == "" then "\r\n"
                           else if |body| >= 2 && (body[..2] == "AT" || body[..2] == "At"
                                                   || body[..2] == "aT" || body[..2] == "at") then "\r\nOK\r\n"
                           else "\r\nERROR\r\n")
  {
    hide Fed, IsWhitespace;
    PlainLineIsAnswered(AT_CONSOLE, cr, (), lead + body);
    LeadIsTrimmed(lead, body);
    if body != "" {
      TrimKeepsFront(body);
      LettersAreNotBlank();
    }
  }

  lemma LettersAreNotBlank()
    ensures !IsWhitespace('t') && !IsWhitespace('T')
  {
  }
}
