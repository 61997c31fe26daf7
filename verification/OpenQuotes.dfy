/**
 * The exec wrapper around text that leaves a quote open: the end marker is swallowed by
 * the last command, and no shell state makes up for it. So the wrapper is faithful
 * exactly for balanced text.
 */
module OpenQuotes {
  import opened Common
  import opened LineDiscipline
  import opened ShellWords
  import opened ShellHandler
  import opened ExecWrapper

  // ── the last command runs on through the end marker ─────────────────────

  /** Text behind an open quote joins the last piece, whose quotes are those of the whole text. */
  lemma {:induction false} LastPieceRunsOn(q: Quotes, cur: string, a: string, b: string)
    requires QuotesAfter(OUTSIDE, cur) == q && QuotesAfter(q, a) != OUTSIDE && ';' !in b
    ensures var ps := Pieces(q, cur, a);
            var n := |ps| - 1;
            && Pieces(q, cur, a + ";" + b) == ps[..n] + [ps[n] + (";" + b)]
            && QuotesAfter(OUTSIDE, ps[n]) == QuotesAfter(q, a)
    decreases |a|
  {
    var joined := a + ";" + b;
    if a == "" {
      assert joined == ";" + b && joined[1..] == b;
      NoSemicolonOnePiece(q, cur + ";", b);
      assert cur + ";" + b == cur + (";" + b);
    } else {
      assert joined[1..] == a[1..] + ";" + b && joined[0] == a[0];
      if Cuts(q, a[0]) {
        LastPieceRunsOn(q, "", a[1..], b);
      } else {
        QuotesAfterConcat(OUTSIDE, cur, [a[0]]);
        QuoteOne(q, a[0]);
        LastPieceRunsOn(Toggle(q, a[0]), cur + [a[0]], a[1..], b);
      }
    }
  }

  lemma {:induction false} BlankOpensNothing(text: string)
    requires IsBlank(text)
    ensures QuotesAfter(OUTSIDE, text) == OUTSIDE
  {
    if text != "" {
      assert IsWhitespace(text[0]);
      assert forall i :: 0 <= i < |text| - 1 ==> text[1..][i] == text[i + 1];
      BlankOpensNothing(text[1..]);
    }
  }

  /** So the commands are the same but for the last, which is extended. */
  lemma LastCommandRunsOn(text: string, b: string) returns (before: seq<string>, last: string)
    requires !Balanced(text) && ';' !in b
    ensures Commands(text) == before + [last]
    ensures Commands(text + ";" + b) == before + [last + (";" + b)]
    ensures !Balanced(last)
  {
    var ps := Pieces(OUTSIDE, "", text);
    var n := |ps| - 1;
    LastPieceRunsOn(OUTSIDE, "", text, b);
    before, last := FlatMap(UnlessBlank, ps[..n]), ps[n];
    var longer := last + (";" + b);
    if IsBlank(last) {
      BlankOpensNothing(last);
    }
    assert longer[|last|] == ';' && !IsWhitespace(';');
    FlatMapSnoc(UnlessBlank, ps[..n], last);
    FlatMapSnoc(UnlessBlank, ps[..n], longer);
    assert ps == ps[..n] + [last];
  }

  // ── its last word does too ──────────────────────────────────────────────

  function QuotesOf(m: Mode): Quotes {
    match m
    case Bare => OUTSIDE
    case Single => Quotes(true, false)
    case Double => Quotes(false, true)
  }

  lemma {:induction false} NameStopsAt(s: string, r: string)
    ensures NameLength(s + (";" + r)) == NameLength(s)
  {
    if s != "" {
      assert (s + (";" + r))[1..] == s[1..] + (";" + r);
      NameStopsAt(s[1..], r);
    }
  }

  /** A variable reference ends before a `;`. */
  lemma DollarStopsAt(env: Env, status: int, s: string, r: string)
    ensures Dollar(env, status, s + (";" + r)) == Dollar(env, status, s)
    ensures (s + (";" + r))[Dollar(env, status, s).1..] == s[Dollar(env, status, s).1..] + (";" + r)
  {
    NameStopsAt(s, r);
    var n := NameLength(s);
    assert (s + (";" + r))[..n] == s[..n];
  }

  lemma {:induction false} NameKeepsQuotes(q: Quotes, s: string)
    ensures QuotesAfter(q, s) == QuotesAfter(q, s[NameLength(s)..])
  {
    if NameLength(s) > 0 {
      NameKeepsQuotes(q, s[1..]);
      assert s[1..][NameLength(s[1..])..] == s[NameLength(s)..];
    }
  }

  lemma DollarKeepsQuotes(env: Env, status: int, q: Quotes, s: string)
    ensures QuotesAfter(q, s) == QuotesAfter(q, s[Dollar(env, status, s).1..])
  {
    NameKeepsQuotes(q, s);
  }

  /** Text that leaves a quote open leaves its last word open: whatever follows continues it. */
  lemma {:induction false} OpenWordRunsOn(
    env: Env, status: int, m: Mode, s: string, cur: string, has: bool, r: string)
    returns (ws: seq<string>, w: string, end: Mode)
    requires QuotesAfter(QuotesOf(m), s) != OUTSIDE && (m != Bare ==> has)
    ensures end != Bare && QuotesOf(end) == QuotesAfter(QuotesOf(m), s)
    ensures Words(env, status, m, s, cur, has) == ws + [w]
    ensures Words(env, status, m, s + (";" + r), cur, has) == ws + Words(env, status, end, ";" + r, w, true)
    decreases |s|
  {
    var longer := s + (";" + r);
    if s == "" {
      assert longer == ";" + r;
      ws, w, end := [], cur, m;
      return;
    }
    var c, rest := s[0], s[1..];
    assert longer[0] == c && longer[1..] == rest + (";" + r);
    if c == '$' && m != Single {
      var (text, used) := Dollar(env, status, rest);
      DollarStopsAt(env, status, rest, r);
      DollarKeepsQuotes(env, status, QuotesOf(m), rest);
      ws, w, end := OpenWordRunsOn(env, status, m, rest[used..], cur + text, has || text != "", r);
    } else if m == Bare && IsWhitespace(c) {
      ws, w, end := OpenWordRunsOn(env, status, m, rest, if has then "" else cur, false, r);
      if has {
        Assoc([cur], ws, [w]);
        Assoc([cur], ws, Words(env, status, end, ";" + r, w, true));
        ws := [cur] + ws;
      }
    } else {
      var m' := if c == '\'' && m != Double then (if m == Single then Bare else Single)
                else if c == '"' && m != Single then (if m == Double then Bare else Double)
                else m;
      ws, w, end := OpenWordRunsOn(env, status, m', rest, if m' == m then cur + [c] else cur, true, r);
    }
  }

  // ── what the end command adds to an open word ───────────────────────────

  lemma {:induction false} SingleTakesRest(env: Env, status: int, text: string, cur: string)
    requires '\'' !in text
    ensures Words(env, status, Single, text, cur, true) == [cur + text]
    decreases |text|
  {
    if text == "" {
      assert cur + text == cur;
    } else {
      assert text[0] in text && cur + [text[0]] + text[1..] == cur + text;
      SingleTakesRest(env, status, text[1..], cur + [text[0]]);
    }
  }

  /** What an open quote makes of the end command: its text, or its text less the quotes and with the status. */
  function Swallowed(m: Mode, prefix: string, tag: string, status: int): string {
    if m == Single then ";" + EndCommand(prefix, tag)
    else "; echo " + (EndMarker(prefix, tag) + StatusText(status))
  }

  lemma EndInSingle(env: Env, status: int, prefix: string, tag: string, w: string)
    requires AllAlphanumeric(prefix) && AllAlphanumeric(tag)
    ensures Words(env, status, Single, ";" + EndCommand(prefix, tag), w, true)
         == [w + Swallowed(Single, prefix, tag, status)]
  {
    SingleTakesRest(env, status, ";" + EndCommand(prefix, tag), w);
  }

  lemma DoubleTakesEcho(env: Env, status: int, rest: string, w: string)
    ensures Words(env, status, Double, "; echo \"" + rest, w, true)
         == Words(env, status, Bare, rest, w + "; echo ", true)
  {
    var s := "; echo \"" + rest;
    assert s[1..] == " echo \"" + rest && s[2..] == "echo" + (" \"" + rest);
    assert s[1..][1..] == s[2..];
    DoubleTakesText(env, status, "echo", " \"" + rest, w + ";" + " ");
    assert (" \"" + rest)[1..] == "\"" + rest && ("\"" + rest)[1..] == rest;
    assert w + ";" + " " + "echo" + " " == w + "; echo ";
  }

  lemma EndInDouble(env: Env, status: int, prefix: string, tag: string, w: string)
    requires AllAlphanumeric(prefix) && AllAlphanumeric(tag)
    ensures Words(env, status, Double, ";" + EndCommand(prefix, tag), w, true)
         == [w + Swallowed(Double, prefix, tag, status)]
  {
    hide Words;
    var left, right := prefix + "EN", "D" + tag;
    var s2 := right + "=$?\"";
    var s1 := left + ("\"\"" + s2);
    var w0 := w + "; echo ";
    assert ";" + EndCommand(prefix, tag) == "; echo \"" + s1;
    DoubleTakesEcho(env, status, s1, w);
    BareTakesText(env, status, left, "\"\"" + s2, w0, true);
    BareReopens(env, status, s2, w0 + left);
    BareTakesText(env, status, right, "=$?\"", w0 + left, true);
    BareStatus(env, status, w0 + left + right);
    assert w0 + left + right + "=" + StatusText(status) == w + Swallowed(Double, prefix, tag, status);
  }

  lemma BareReopens(env: Env, status: int, rest: string, cur: string)
    ensures Words(env, status, Bare, "\"\"" + rest, cur, true) == Words(env, status, Bare, rest, cur, true)
  {
    var s := "\"" + rest;
    assert ("\"\"" + rest)[1..] == s && s[1..] == rest;
    assert Words(env, status, Bare, "\"\"" + rest, cur, true) == Words(env, status, Double, s, cur, true);
  }

  lemma BareStatus(env: Env, status: int, cur: string)
    ensures Words(env, status, Bare, "=$?\"", cur, true) == [cur + "=" + StatusText(status)]
  {
    assert "=$?\""[1..] == "$?\"" && "$?\""[1..] == "?\"" && "?\""[1..] == "\"" && "\""[1..] == "";
    var word := cur + "=" + StatusText(status);
    calc {
      Words(env, status, Bare, "=$?\"", cur, true);
      Words(env, status, Bare, "$?\"", cur + "=", true);
      Words(env, status, Bare, "\"", word, true);
      Words(env, status, Double, "", word, true);
      [word];
    }
  }

  // ── no command prints the end marker for it ─────────────────────────────

  /** What the wrapper promises after the user's own output. */
  function EndLine(prefix: string, tag: string, status: int): string {
    EndMarker(prefix, tag) + StatusText(status) + CRLF
  }

  lemma {:induction false} DecimalEnds(n: nat)
    ensures Decimal(n) != "" && '0' <= Decimal(n)[|Decimal(n)| - 1] <= '9'
  {
  }

  /** An output that ends like the wrapper's ends in a digit and a line end. */
  lemma EndsInDigit(out: string, prefix: string, tag: string, status: int)
    ensures var s := out + EndLine(prefix, tag, status); |s| >= 3 && '0' <= s[|s| - 3] <= '9'
  {
    hide Decimal, EndMarker;
    DecimalEnds(if status < 0 then -status else status);
    var t := StatusText(status);
    assert t != "" && '0' <= t[|t| - 1] <= '9';
    var s := out + EndLine(prefix, tag, status);
    assert s == (out + EndMarker(prefix, tag)) + t + CRLF;
    assert s[|s| - 3] == t[|t| - 1];
  }

  lemma {:induction false} JoinedSnoc(ws: seq<string>, w: string, more: string)
    ensures Joined(ws + [w + more]) == Joined(ws + [w]) + more
  {
    if ws != [] {
      JoinedSnoc(ws[1..], w, more);
      assert (ws + [w])[1..] == ws[1..] + [w] && (ws + [w + more])[1..] == ws[1..] + [w + more];
      Assoc(ws[0] + " ", Joined(ws[1..] + [w]), more);
    }
  }

  lemma {:induction false} NameLinesSnoc(env: Env, names: seq<string>, name: string)
    ensures NameLines(env, names + [name]) == NameLines(env, names) + NameLine(env, name)
  {
    hide NameLine;
    if names == [] {
      assert [name][1..] == [] && NameLine(env, name) + "" == NameLine(env, name);
      assert names + [name] == [name] && "" + NameLine(env, name) == NameLine(env, name);
    } else {
      assert (names + [name])[1..] == names[1..] + [name];
      NameLinesSnoc(env, names[1..], name);
      Assoc(NameLine(env, names[0]), NameLines(env, names[1..]), NameLine(env, name));
    }
  }

  const ERROR_HEAD := "## Error: \""

  /** A text that begins with itself shifted by the error's head holds only that head's characters. */
  lemma {:induction false} ShiftedText(w: string, out: string, i: nat)
    requires |w| <= |out| && out[..|w|] == w
    requires |ERROR_HEAD + w| <= |out| && out[..|ERROR_HEAD + w|] == ERROR_HEAD + w
    requires i <= |w|
    ensures out[i] in ERROR_HEAD
    decreases i
  {
    var both := ERROR_HEAD + w;
    assert out[i] == both[i];
    if i >= |ERROR_HEAD| {
      var k := i - |ERROR_HEAD|;
      ShiftedText(w, out, k);
      assert both[i] == w[k] == out[..|w|][k];
    }
  }

  /** `printenv` of an extended name never prints the shorter name's line and the end marker. */
  lemma NameLineDiffers(env: Env, w: string, more: string, prefix: string, tag: string, status: int)
    requires more != "" && more[0] == ';'
    ensures NameLine(env, w + more) != NameLine(env, w) + EndLine(prefix, tag, status)
  {
    hide EndLine, Lookup;
    var one, two := NameLine(env, w + more), NameLine(env, w) + EndLine(prefix, tag, status);
    EndsInDigit(NameLine(env, w), prefix, tag, status);
    match (Lookup(env, w + more), Lookup(env, w))
    case (Some(_), Some(_)) =>
      assert one[|w|] == ';' && two[|w|] == '=';
    case (None, None) =>
      assert one[|ERROR_HEAD| + |w|] == ';' && two[|ERROR_HEAD| + |w|] == '"';
    case (None, Some(_)) =>
      assert one[|one| - 3] == 'd';
    case (Some(_), None) =>
      if one == two {
        assert one[..|w|] == w && one[|w|] == ';';
        assert two[..|ERROR_HEAD + w|] == ERROR_HEAD + w;
        ShiftedText(w, one, |w|);
      }
  }

  lemma EchoPrints(sh: Shell, args: seq<string>)
    ensures Executed(sh, ["echo"] + args).1 == Joined(args) + CRLF
  {
    hide Joined;
    assert (["echo"] + args)[1..] == args;
  }

  lemma PrintenvPrints(sh: Shell, args: seq<string>, name: string)
    requires sh.kind == Uboot
    ensures Executed(sh, ["printenv"] + (args + [name])).1 == NameLines(sh.env, args) + NameLine(sh.env, name)
  {
    hide AllDefined, NameLine;
    assert (["printenv"] + (args + [name]))[1..] == args + [name];
    NameLinesSnoc(sh.env, args, name);
  }

  /** Every other command prints the same whatever its arguments. */
  lemma OthersIgnoreArguments(sh: Shell, head: string, some: seq<string>, other: seq<string>)
    requires head != "echo" && !(head == "printenv" && sh.kind == Uboot)
    ensures Executed(sh, [head] + some).1 == Executed(sh, [head] + other).1
  {
    hide AllDefined, SetEnv;
  }

  lemma EchoDiffers(sh: Shell, args: seq<string>, w: string, more: string, end: string)
    requires more != "" && more[0] == ';'
    ensures Executed(sh, ["echo"] + (args + [w + more])).1 != Executed(sh, ["echo"] + (args + [w])).1 + end
  {
    hide Executed;
    EchoPrints(sh, args + [w]);
    EchoPrints(sh, args + [w + more]);
    JoinedSnoc(args, w, more);
    var j := Joined(args + [w]);
    assert (j + more + CRLF)[|j|] == ';' && (j + CRLF + end)[|j|] == '\r';
  }

  lemma PrintenvDiffers(sh: Shell, args: seq<string>, w: string, more: string, prefix: string, tag: string, status: int)
    requires sh.kind == Uboot && more != "" && more[0] == ';'
    ensures Executed(sh, ["printenv"] + (args + [w + more])).1
         != Executed(sh, ["printenv"] + (args + [w])).1 + EndLine(prefix, tag, status)
  {
    hide Executed, NameLine, EndLine;
    PrintenvPrints(sh, args, w);
    PrintenvPrints(sh, args, w + more);
    NameLineDiffers(sh.env, w, more, prefix, tag, status);
    var shared, end := NameLines(sh.env, args), EndLine(prefix, tag, status);
    Assoc(shared, NameLine(sh.env, w), end);
    assert (shared + NameLine(sh.env, w + more))[|shared|..] == NameLine(sh.env, w + more);
    assert (shared + (NameLine(sh.env, w) + end))[|shared|..] == NameLine(sh.env, w) + end;
  }

  /** A command whose last word is extended never prints its own output and the end marker. */
  lemma ExecutedDiffers(sh: Shell, ws: seq<string>, w: string, more: string, prefix: string, tag: string, status: int)
    requires more != "" && more[0] == ';'
    ensures Executed(sh, ws + [w + more]).1 != Executed(sh, ws + [w]).1 + EndLine(prefix, tag, status)
  {
    hide Executed;
    if ws == [] {
      EndsInDigit(Executed(sh, [w]).1, prefix, tag, status);
      assert (w + more)[|w|] == ';';
      LoneWordUnknown(sh, w + more);
      assert ws + [w] == [w] && ws + [w + more] == [w + more];
    } else {
      var head, args := ws[0], ws[1..];
      assert ws + [w] == [head] + (args + [w]) && ws + [w + more] == [head] + (args + [w + more]);
      if head == "echo" {
        EchoDiffers(sh, args, w, more, EndLine(prefix, tag, status));
      } else if head == "printenv" && sh.kind == Uboot {
        PrintenvDiffers(sh, args, w, more, prefix, tag, status);
      } else {
        OthersIgnoreArguments(sh, head, args + [w], args + [w + more]);
      }
    }
  }

  /** A lone word holding a `;` is no command, and the complaint does not end in a digit. */
  lemma LoneWordUnknown(sh: Shell, word: string)
    requires ';' in word
    ensures var out := Executed(sh, [word]).1; |out| >= 3 && !('0' <= out[|out| - 3] <= '9')
  {
    hide Listing, NameLines, AllDefined, SetEnv;
    var out := Executed(sh, [word]).1;
    assert word != "echo" && word != "true" && word != "false" && word != "printenv" && word != "setenv"
        && word != "version";
    if sh.kind == Posix {
      assert out[|out| - 3] == 'd';
    } else {
      assert out[|out| - 3] == '\'';
    }
  }

  // ── the wrapper, exactly ────────────────────────────────────────────────

  /** One command that leaves a quote open, on its own and with the end command swallowed. */
  lemma OpenCommandDiffers(sh: Shell, last: string, prefix: string, tag: string, status: int)
    requires AllAlphanumeric(prefix) && AllAlphanumeric(tag) && !Balanced(last)
    ensures Ran(sh, last + (";" + EndCommand(prefix, tag))).1 != Ran(sh, last).1 + EndLine(prefix, tag, status)
  {
    hide Executed, Words, EndCommand, EndLine;
    var ws, w, m := OpenWordRunsOn(sh.env, sh.lastStatus, Bare, last, "", false, EndCommand(prefix, tag));
    if m == Single {
      EndInSingle(sh.env, sh.lastStatus, prefix, tag, w);
    } else {
      EndInDouble(sh.env, sh.lastStatus, prefix, tag, w);
    }
    ExecutedDiffers(sh, ws, w, Swallowed(m, prefix, tag, sh.lastStatus), prefix, tag, status);
  }

  /** Unbalanced user text: what is printed after the begin marker is not the user's output and the end marker. */
  lemma OpenTextDiffers(sh: Shell, prefix: string, tag: string, user: string, status: int)
    requires AllAlphanumeric(prefix) && AllAlphanumeric(tag) && !Balanced(user)
    ensures Answered(sh, " " + user + ";" + EndCommand(prefix, tag)).1
         != Answered(sh, user).1 + EndLine(prefix, tag, status)
  {
    hide Commands, Ran, EndCommand, EndLine;
    var text, end := " " + user, EndCommand(prefix, tag);
    SpaceKeepsBalance(user);
    NoSemicolonInEnd(prefix, tag);
    var before, last := LastCommandRunsOn(text, end);
    LeadingSpaceSameAnswer(sh, user);
    RanAllConcat(sh, before, [last]);
    RanAllConcat(sh, before, [last + (";" + end)]);
    var (sh1, out) := RanAll(sh, before);
    RanAllOne(sh1, last);
    RanAllOne(sh1, last + (";" + end));
    OpenCommandDiffers(sh1, last, prefix, tag, status);
    Assoc(out, Ran(sh1, last).1, EndLine(prefix, tag, status));
    var one, two := Ran(sh1, last + (";" + end)).1, Ran(sh1, last).1 + EndLine(prefix, tag, status);
    assert (out + one)[|out|..] == one && (out + two)[|out|..] == two;
  }

  lemma SpaceKeepsBalance(user: string)
    ensures Balanced(" " + user) == Balanced(user)
  {
    QuoteOne(OUTSIDE, ' ');
    QuotesAfterConcat(OUTSIDE, " ", user);
  }

  lemma NoSemicolonInEnd(prefix: string, tag: string)
    requires AllAlphanumeric(prefix) && AllAlphanumeric(tag)
    ensures ';' !in EndCommand(prefix, tag)
  {
  }

  /** The wrapped line always starts with its begin marker; the rest is answered as a line of its own. */
  lemma BeginThenRest(sh: Shell, prefix: string, tag: string, user: string)
    requires AllAlphanumeric(prefix) && AllAlphanumeric(tag)
    ensures Answered(sh, Wrapped(prefix, tag, user)).1
         == BeginMarker(prefix, tag) + CRLF
            + Answered(sh.(lastStatus := 0), " " + user + ";" + EndCommand(prefix, tag)).1
  {
    hide Commands, Executed, BeginCommand, EndCommand, Expanded;
    var begin, rest := BeginCommand(prefix, tag), " " + user + ";" + EndCommand(prefix, tag);
    BeginBalanced(prefix, tag);
    CommandsJoin(begin, rest);
    BeginIsOneCommand(prefix, tag);
    BeginWords(sh.env, sh.lastStatus, prefix, tag);
    EchoRuns(sh, begin, BeginMarker(prefix, tag));
    RanAllConcat(sh, [begin], Commands(rest));
    RanAllOne(sh, begin);
  }

  lemma BeginIsOneCommand(prefix: string, tag: string)
    requires AllAlphanumeric(prefix) && AllAlphanumeric(tag)
    ensures Commands(BeginCommand(prefix, tag)) == [BeginCommand(prefix, tag)]
  {
    assert BeginCommand(prefix, tag)[0] == 'e';
    MarkerIsOneCommand(BeginCommand(prefix, tag));
  }

  /**
   * The wrapper is faithful exactly for balanced text: whatever the shell holds, the
   * console prints the begin marker, the user's own output and the end marker with the
   * status it left if and only if the user's text closes its quotes.
   */
  lemma FaithfulExactlyWhenBalanced(sh: Shell, prefix: string, tag: string, user: string)
    requires AllAlphanumeric(prefix) && AllAlphanumeric(tag)
    ensures var (sh1, printed) := Answered(sh.(lastStatus := 0), user);
            Answered(sh, Wrapped(prefix, tag, user)).1
              == BeginMarker(prefix, tag) + CRLF + printed
                 + (EndMarker(prefix, tag) + StatusText(sh1.lastStatus) + CRLF)
            <==> Balanced(user)
  {
    hide Answered, Balanced, Wrapped, EndMarker, BeginMarker, StatusText, EndCommand;
    if Balanced(user) {
      WrapperIsFaithful(sh, prefix, tag, user);
    } else {
      var started := sh.(lastStatus := 0);
      var (sh1, printed) := Answered(started, user);
      var head, rest := BeginMarker(prefix, tag) + CRLF, " " + user + ";" + EndCommand(prefix, tag);
      BeginThenRest(sh, prefix, tag, user);
      OpenTextDiffers(started, prefix, tag, user, sh1.lastStatus);
      var one, two := Answered(started, rest).1, printed + EndLine(prefix, tag, sh1.lastStatus);
      Assoc(head, printed, EndLine(prefix, tag, sh1.lastStatus));
      assert (head + one)[|head|..] == one && (head + two)[|head|..] == two;
    }
  }
}
