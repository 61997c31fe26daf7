/**
 * The exec wrapper a remote tool types at the console: a begin marker, the user's
 * commands, and an end marker carrying their status. The markers are typed in two quoted
 * halves, so that they appear whole in the output but never in the echo.
 */
module ExecWrapper {
  import opened Common
  import opened LineDiscipline
  import opened ShellWords
  import opened ShellHandler

  predicate AllAlphanumeric(s: string) {
    forall i :: 0 <= i < |s| ==> IsAlphanumeric(s[i])
  }

  function BeginCommand(prefix: string, tag: string): string {
    "echo \"" + prefix + "BE\"\"G" + tag + "\""
  }

  function EndCommand(prefix: string, tag: string): string {
    " echo \"" + prefix + "EN\"\"D" + tag + "=$?\""
  }

  /** The line as typed. */
  function Wrapped(prefix: string, tag: string, user: string): string {
    BeginCommand(prefix, tag) + ";" + (" " + user + ";" + EndCommand(prefix, tag))
  }

  function BeginMarker(prefix: string, tag: string): string {
    prefix + "BEG" + tag
  }

  function EndMarker(prefix: string, tag: string): string {
    prefix + "END" + tag + "="
  }

  // ── words of the two marker commands ────────────────────────────────────

  lemma {:induction false} DoubleTakesText(env: Env, status: int, text: string, rest: string, cur: string)
    requires AllAlphanumeric(text)
    ensures Words(env, status, Double, text + rest, cur, true) == Words(env, status, Double, rest, cur + text, true)
    decreases |text|
  {
    if text == "" {
      assert text + rest == rest && cur + text == cur;
    } else {
      assert (text + rest)[1..] == text[1..] + rest && cur + [text[0]] + text[1..] == cur + text;
      assert IsAlphanumeric(text[0]);
      DoubleTakesText(env, status, text[1..], rest, cur + [text[0]]);
    }
  }

  lemma {:induction false} BareTakesText(env: Env, status: int, text: string, rest: string, cur: string, has: bool)
    requires AllAlphanumeric(text) && text != ""
    ensures Words(env, status, Bare, text + rest, cur, has) == Words(env, status, Bare, rest, cur + text, true)
    decreases |text|
  {
    assert (text + rest)[1..] == text[1..] + rest && cur + [text[0]] + text[1..] == cur + text;
    assert IsAlphanumeric(text[0]);
    if |text| == 1 {
      assert text[1..] + rest == rest && text == [text[0]];
    } else {
      BareTakesText(env, status, text[1..], rest, cur + [text[0]], true);
    }
  }

  lemma EchoFirst(env: Env, status: int, rest: string)
    ensures Words(env, status, Bare, "echo " + rest, "", false)
         == ["echo"] + Words(env, status, Bare, rest, "", false)
  {
    assert "echo " + rest == "echo" + (" " + rest) && (" " + rest)[1..] == rest;
    BareTakesText(env, status, "echo", " " + rest, "", false);
    assert "" + "echo" == "echo";
    assert Words(env, status, Bare, " " + rest, "echo", true) == ["echo"] + Words(env, status, Bare, rest, "", false);
  }

  lemma OpensDouble(env: Env, status: int, rest: string)
    ensures Words(env, status, Bare, "\"" + rest, "", false) == Words(env, status, Double, rest, "", true)
  {
    assert ("\"" + rest)[1..] == rest;
  }

  /** `echo "<left>""<right>` leaves the two halves joined in one word still open. */
  lemma JoinedHalves(env: Env, status: int, left: string, right: string, rest: string)
    requires AllAlphanumeric(left) && AllAlphanumeric(right)
    ensures Words(env, status, Bare, "echo \"" + left + "\"\"" + right + rest, "", false)
         == ["echo"] + Words(env, status, Double, rest, left + right, true)
  {
    hide Words, AllAlphanumeric;
    var s2 := right + rest;
    var s1 := left + ("\"\"" + s2);
    assert "echo \"" + left + "\"\"" + right + rest == "echo " + ("\"" + s1);
    EchoFirst(env, status, "\"" + s1);
    OpensDouble(env, status, s1);
    DoubleTakesText(env, status, left, "\"\"" + s2, "");
    CloseAndReopen(env, status, s2, left);
    DoubleTakesText(env, status, right, rest, left);
    assert "" + left == left;
  }

  /** `""` inside a double-quoted word closes and reopens it: adjacent strings concatenate. */
  lemma CloseAndReopen(env: Env, status: int, rest: string, cur: string)
    ensures Words(env, status, Double, "\"\"" + rest, cur, true) == Words(env, status, Double, rest, cur, true)
  {
    var s := "\"" + rest;
    assert ("\"\"" + rest)[1..] == s && s[1..] == rest;
    assert Words(env, status, Double, "\"\"" + rest, cur, true) == Words(env, status, Bare, s, cur, true);
  }

  lemma BeginWords(env: Env, status: int, prefix: string, tag: string)
    requires AllAlphanumeric(prefix) && AllAlphanumeric(tag)
    ensures Expanded(env, status, BeginCommand(prefix, tag)) == ["echo", BeginMarker(prefix, tag)]
  {
    var left, right := prefix + "BE", "G" + tag;
    assert BeginCommand(prefix, tag) == "echo \"" + left + "\"\"" + right + "\"";
    JoinedHalves(env, status, left, right, "\"");
    assert left + right == BeginMarker(prefix, tag);
    assert "\""[1..] == "";
    assert Words(env, status, Double, "\"", left + right, true) == [left + right];
  }

  lemma EndWords(env: Env, status: int, prefix: string, tag: string)
    requires AllAlphanumeric(prefix) && AllAlphanumeric(tag)
    ensures Expanded(env, status, EndCommand(prefix, tag)) == ["echo", EndMarker(prefix, tag) + StatusText(status)]
  {
    var left, right := prefix + "EN", "D" + tag;
    var core := "echo \"" + left + "\"\"" + right + "=$?\"";
    assert EndCommand(prefix, tag) == " " + core && (" " + core)[1..] == core;
    JoinedHalves(env, status, left, right, "=$?\"");
    var word := left + right;
    assert "=$?\""[1..] == "$?\"" && "$?\""[1..] == "?\"" && "?\""[1..] == "\"" && "\""[1..] == "";
    calc {
      Words(env, status, Double, "=$?\"", word, true);
      Words(env, status, Double, "$?\"", word + "=", true);
      Words(env, status, Double, "\"", word + "=" + StatusText(status), true);
      [word + "=" + StatusText(status)];
    }
    assert word + "=" == EndMarker(prefix, tag);
  }

  // ── cutting the line ────────────────────────────────────────────────────

  lemma {:induction false} NoSemicolonOnePiece(q: Quotes, cur: string, s: string)
    requires ';' !in s
    ensures Pieces(q, cur, s) == [cur + s]
    decreases |s|
  {
    if s == "" {
      assert cur + s == cur;
    } else {
      assert s[0] in s && cur + [s[0]] + s[1..] == cur + s;
      NoSemicolonOnePiece(Toggle(q, s[0]), cur + [s[0]], s[1..]);
    }
  }

  lemma MarkerIsOneCommand(cmd: string)
    requires ';' !in cmd && 'e' in cmd
    ensures Commands(cmd) == [cmd]
  {
    NoSemicolonOnePiece(OUTSIDE, "", cmd);
    assert "" + cmd == cmd;
    var i :| 0 <= i < |cmd| && cmd[i] == 'e';
    assert !IsWhitespace(cmd[i]) && !IsBlank(cmd);
    FlatMapOne(UnlessBlank, cmd);
  }

  lemma {:induction false} TextKeepsQuotes(q: Quotes, text: string)
    requires AllAlphanumeric(text)
    ensures QuotesAfter(q, text) == q
    decreases |text|
  {
    if text != "" {
      assert IsAlphanumeric(text[0]);
      TextKeepsQuotes(q, text[1..]);
    }
  }

  lemma BeginBalanced(prefix: string, tag: string)
    requires AllAlphanumeric(prefix) && AllAlphanumeric(tag)
    ensures Balanced(BeginCommand(prefix, tag))
  {
    var open := Quotes(false, true);
    QuotesAfterConcat(OUTSIDE, "echo \"" + prefix + "BE\"\"G" + tag, "\"");
    QuotesAfterConcat(OUTSIDE, "echo \"" + prefix + "BE\"\"G", tag);
    QuotesAfterConcat(OUTSIDE, "echo \"" + prefix, "BE\"\"G");
    QuotesAfterConcat(OUTSIDE, "echo \"", prefix);
    QuotesAfterConcat(OUTSIDE, "echo ", "\"");
    assert "echo \"" == "echo " + "\"" && "echo " == "echo" + " ";
    TextKeepsQuotes(OUTSIDE, "echo");
    QuotesAfterConcat(OUTSIDE, "echo", " ");
    QuoteOne(OUTSIDE, ' ');
    QuoteOne(OUTSIDE, '"');
    TextKeepsQuotes(open, prefix);
    assert "BE\"\"G" == "BE" + "\"" + "\"" + "G";
    TextKeepsQuotes(open, "BE");
    QuotesAfterConcat(open, "BE", "\"");
    QuotesAfterConcat(open, "BE" + "\"", "\"");
    QuotesAfterConcat(open, "BE" + "\"" + "\"", "G");
    QuoteOne(open, '"');
    TextKeepsQuotes(open, "G");
    TextKeepsQuotes(open, tag);
  }

  lemma QuoteOne(q: Quotes, c: char)
    ensures QuotesAfter(q, [c]) == Toggle(q, c)
  {
    assert [c][1..] == "";
    assert QuotesAfter(Toggle(q, c), [c][1..]) == Toggle(q, c);
  }

  // ── a leading space changes nothing ─────────────────────────────────────

  lemma {:induction false} PrefixJoinsFirstPiece(q: Quotes, x: string, cur: string, s: string)
    ensures Pieces(q, x + cur, s) == [x + Pieces(q, cur, s)[0]] + Pieces(q, cur, s)[1..]
    decreases |s|
  {
    if s != "" && !Cuts(q, s[0]) {
      PrefixJoinsFirstPiece(Toggle(q, s[0]), x, cur + [s[0]], s[1..]);
      assert x + cur + [s[0]] == x + (cur + [s[0]]);
    }
  }

  lemma LeadingSpaceSameWords(env: Env, status: int, cmd: string)
    ensures Expanded(env, status, " " + cmd) == Expanded(env, status, cmd)
  {
    assert (" " + cmd)[1..] == cmd;
  }

  lemma LeadingSpaceSameAnswer(sh: Shell, user: string)
    ensures Answered(sh, " " + user) == Answered(sh, user)
  {
    hide Executed;
    var ps := Pieces(OUTSIDE, "", user);
    assert (" " + user)[1..] == user && "" + [' '] == " " && " " + "" == " ";
    PrefixJoinsFirstPiece(OUTSIDE, " ", "", user);
    var first := " " + ps[0];
    assert Pieces(OUTSIDE, "", " " + user) == [first] + ps[1..];
    FlatMapCons(UnlessBlank, first, ps[1..]);
    FlatMapCons(UnlessBlank, ps[0], ps[1..]);
    assert ps == [ps[0]] + ps[1..];
    assert IsBlank(first) <==> IsBlank(ps[0]) by {
      assert first[0] == ' ' && first[1..] == ps[0];
      assert forall i :: 0 <= i < |ps[0]| ==> ps[0][i] == first[i + 1];
    }
    if !IsBlank(ps[0]) {
      var rest := FlatMap(UnlessBlank, ps[1..]);
      LeadingSpaceSameWords(sh.env, sh.lastStatus, ps[0]);
      assert ([first] + rest)[1..] == rest && ([ps[0]] + rest)[1..] == rest;
    }
  }

  // ── the wrapper is faithful ─────────────────────────────────────────────

  /** Running the wrapped line is running its three parts in turn. */
  lemma WrappedSplits(prefix: string, tag: string, user: string)
    requires AllAlphanumeric(prefix) && AllAlphanumeric(tag) && Balanced(user)
    ensures Commands(Wrapped(prefix, tag, user))
         == [BeginCommand(prefix, tag)] + (Commands(" " + user) + [EndCommand(prefix, tag)])
  {
    BeginBalanced(prefix, tag);
    CommandsJoin(BeginCommand(prefix, tag), " " + user + ";" + EndCommand(prefix, tag));
    QuoteOne(OUTSIDE, ' ');
    QuotesAfterConcat(OUTSIDE, " ", user);
    CommandsJoin(" " + user, EndCommand(prefix, tag));
    assert BeginCommand(prefix, tag)[0] == 'e' && EndCommand(prefix, tag)[1] == 'e';
    MarkerIsOneCommand(BeginCommand(prefix, tag));
    MarkerIsOneCommand(EndCommand(prefix, tag));
  }

  /**
   * The wrapper is faithful: for any balanced user text, the console prints the joined
   * begin marker, exactly what the user's commands print when run on their own after a
   * successful command, and the end marker with the status they left.
   */
  lemma WrapperIsFaithful(sh: Shell, prefix: string, tag: string, user: string)
    requires AllAlphanumeric(prefix) && AllAlphanumeric(tag) && Balanced(user)
    ensures var (sh1, printed) := Answered(sh.(lastStatus := 0), user);
            Answered(sh, Wrapped(prefix, tag, user)) ==
              (sh1.(lastStatus := 0),
               BeginMarker(prefix, tag) + CRLF + printed
               + (EndMarker(prefix, tag) + StatusText(sh1.lastStatus) + CRLF))
  {
    hide Commands, Executed, BeginCommand, EndCommand, Expanded;
    var started := sh.(lastStatus := 0);
    var begin, end := BeginCommand(prefix, tag), EndCommand(prefix, tag);
    WrappedSplits(prefix, tag, user);
    LeadingSpaceSameAnswer(started, user);
    BeginWords(sh.env, sh.lastStatus, prefix, tag);
    EchoRuns(sh, begin, BeginMarker(prefix, tag));
    RanAllConcat(sh, [begin], Commands(" " + user) + [end]);
    RanAllOne(sh, begin);
    RanAllConcat(started, Commands(" " + user), [end]);
    var (sh1, printed) := Answered(started, user);
    RanAllOne(sh1, end);
    EndWords(sh1.env, sh1.lastStatus, prefix, tag);
    EchoRuns(sh1, end, EndMarker(prefix, tag) + StatusText(sh1.lastStatus));
    Assoc(BeginMarker(prefix, tag) + CRLF, printed, EndMarker(prefix, tag) + StatusText(sh1.lastStatus) + CRLF);
  }

  lemma EchoRuns(sh: Shell, cmd: string, text: string)
    requires Expanded(sh.env, sh.lastStatus, cmd) == ["echo", text]
    ensures Ran(sh, cmd) == (sh.(lastStatus := 0), text + CRLF)
  {
    assert ["echo", text][1..] == [text];
  }

  /** Behind an open quote a `;` does not cut: the last piece runs on through it. */
  lemma {:induction false} OpenQuoteSwallows(q: Quotes, cur: string, a: string, b: string)
    requires QuotesAfter(q, a) != OUTSIDE && ';' !in b
    ensures var ps := Pieces(q, cur, a + ";" + b); ';' in ps[|ps| - 1] && !IsBlank(ps[|ps| - 1])
    decreases |a|
  {
    var joined := a + ";" + b;
    if a == "" {
      assert joined == ";" + b && joined[1..] == b;
      NoSemicolonOnePiece(q, cur + ";", b);
      assert (cur + ";" + b)[|cur|] == ';' && !IsWhitespace(';');
    } else {
      assert joined[1..] == a[1..] + ";" + b && joined[0] == a[0];
      if Cuts(q, a[0]) {
        OpenQuoteSwallows(q, "", a[1..], b);
      } else {
        OpenQuoteSwallows(Toggle(q, a[0]), cur + [a[0]], a[1..], b);
      }
    }
  }

  lemma {:induction false} LastPieceIsLastCommand(ps: seq<string>)
    requires ps != [] && !IsBlank(ps[|ps| - 1])
    ensures var cs := FlatMap(UnlessBlank, ps); cs != [] && cs[|cs| - 1] == ps[|ps| - 1]
  {
    FlatMapSnoc(UnlessBlank, ps[..|ps| - 1], ps[|ps| - 1]);
    assert ps == ps[..|ps| - 1] + [ps[|ps| - 1]];
  }

  /** Balance is exactly what the wrapper needs: otherwise the end marker is never a command of its own. */
  lemma WrappedSplitsExactly(prefix: string, tag: string, user: string)
    requires AllAlphanumeric(prefix) && AllAlphanumeric(tag)
    ensures Commands(Wrapped(prefix, tag, user))
         == [BeginCommand(prefix, tag)] + (Commands(" " + user) + [EndCommand(prefix, tag)])
       <==> Balanced(user)
  {
    var begin, end := BeginCommand(prefix, tag), EndCommand(prefix, tag);
    if Balanced(user) {
      WrappedSplits(prefix, tag, user);
    } else {
      var a := begin + ";" + (" " + user);
      BeginBalanced(prefix, tag);
      QuotesAfterConcat(OUTSIDE, begin + ";", " " + user);
      QuotesAfterConcat(OUTSIDE, begin, ";");
      QuotesAfterConcat(OUTSIDE, " ", user);
      QuoteOne(OUTSIDE, ';');
      QuoteOne(OUTSIDE, ' ');
      assert ';' !in end;
      OpenQuoteSwallows(OUTSIDE, "", a, end);
      assert Wrapped(prefix, tag, user) == a + ";" + end;
      LastPieceIsLastCommand(Pieces(OUTSIDE, "", a + ";" + end));
    }
  }

  // ── the echo never shows the marker ─────────────────────────────────────

  predicate At(hay: string, needle: string, i: nat) {
    i + |needle| <= |hay| && hay[i..i + |needle|] == needle
  }

  ghost predicate Contains(hay: string, needle: string) {
    exists i: nat :: At(hay, needle, i)
  }

  /** An alphanumeric needle cannot span a character that is not alphanumeric. */
  lemma NoSpanning(a: string, c: char, b: string, needle: string)
    requires AllAlphanumeric(needle) && !IsAlphanumeric(c)
    ensures Contains(a + [c] + b, needle) ==> Contains(a, needle) || Contains(b, needle)
  {
    var hay := a + [c] + b;
    if i: nat :| At(hay, needle, i) {
      if i + |needle| <= |a| {
        assert a[i..i + |needle|] == hay[i..i + |needle|];
        assert At(a, needle, i);
      } else if i > |a| {
        var j := i - |a| - 1;
        assert b[j..j + |needle|] == hay[i..i + |needle|];
        assert At(b, needle, j);
      } else {
        assert hay[i..i + |needle|][|a| - i] == hay[|a|] == c;
        assert IsAlphanumeric(needle[|a| - i]);
      }
    }
  }

  lemma ContainsExtends(a: string, mid: string, b: string, needle: string)
    requires Contains(mid, needle)
    ensures Contains(a + mid + b, needle)
  {
    var i: nat :| At(mid, needle, i);
    assert (a + mid + b)[|a| + i..|a| + i + |needle|] == mid[i..i + |needle|];
    assert At(a + mid + b, needle, |a| + i);
  }

  lemma TooShort(hay: string, needle: string)
    requires |hay| < |needle|
    ensures !Contains(hay, needle)
  {
  }

  lemma EchoLacksMarker(prefix: string, tag: string)
    ensures !Contains("echo", BeginMarker(prefix, tag))
  {
    var m := BeginMarker(prefix, tag);
    assert m[|prefix|] == 'B';
    forall i: nat
      ensures !At("echo", m, i)
    {
      if i + |m| <= 4 {
        assert "echo"[i..i + |m|][|prefix|] == "echo"[i + |prefix|] != 'B';
      }
    }
  }

  /** The begin command, as typed, does not contain the joined marker. */
  lemma BeginLacksMarker(prefix: string, tag: string)
    requires AllAlphanumeric(prefix) && AllAlphanumeric(tag)
    ensures !Contains(BeginCommand(prefix, tag), BeginMarker(prefix, tag))
  {
    var m := BeginMarker(prefix, tag);
    var right := "G" + tag;
    assert BeginCommand(prefix, tag) == ("echo \"" + (prefix + "BE") + "\"\"" + right) + ['"'] + "";
    NoSpanning("echo \"" + (prefix + "BE") + "\"\"" + right, '"', "", m);
    HalvesLackMarker(prefix + "BE", right, prefix, tag);
    TooShort("", m);
  }

  lemma EndLacksMarker(prefix: string, tag: string)
    requires AllAlphanumeric(prefix) && AllAlphanumeric(tag)
    ensures !Contains(EndCommand(prefix, tag), BeginMarker(prefix, tag))
  {
    var m := BeginMarker(prefix, tag);
    var core := "echo \"" + (prefix + "EN") + "\"\"" + ("D" + tag);
    assert EndCommand(prefix, tag) == "" + [' '] + (core + ['='] + "$?\"");
    NoSpanning("", ' ', core + ['='] + "$?\"", m);
    NoSpanning(core, '=', "$?\"", m);
    assert "$?\"" == "" + ['$'] + ("" + ['?'] + ("" + ['"'] + ""));
    NoSpanning("", '$', "" + ['?'] + ("" + ['"'] + ""), m);
    NoSpanning("", '?', "" + ['"'] + "", m);
    NoSpanning("", '"', "", m);
    HalvesLackMarker(prefix + "EN", "D" + tag, prefix, tag);
    TooShort("", m);
  }

  lemma HalvesLackMarker(left: string, right: string, prefix: string, tag: string)
    requires AllAlphanumeric(prefix) && AllAlphanumeric(tag)
    requires |left| == |prefix| + 2 && |right| == |tag| + 1
    ensures !Contains("echo \"" + left + "\"\"" + right, BeginMarker(prefix, tag))
  {
    var m := BeginMarker(prefix, tag);
    var tail := left + ['"'] + ("" + ['"'] + right);
    assert "echo \"" + left + "\"\"" + right == "echo" + [' '] + ("" + ['"'] + tail);
    NoSpanning("echo", ' ', "" + ['"'] + tail, m);
    NoSpanning("", '"', tail, m);
    NoSpanning(left, '"', "" + ['"'] + right, m);
    NoSpanning("", '"', right, m);
    EchoLacksMarker(prefix, tag);
    TooShort("", m);
    TooShort(left, m);
    TooShort(right, m);
  }

  /** The typed line shows the begin marker exactly when the user typed it themselves. */
  lemma EchoStaysSplit(prefix: string, tag: string, user: string)
    requires AllAlphanumeric(prefix) && AllAlphanumeric(tag)
    ensures Contains(Wrapped(prefix, tag, user), BeginMarker(prefix, tag)) <==> Contains(user, BeginMarker(prefix, tag))
  {
    hide BeginCommand, EndCommand, Contains;
    var m := BeginMarker(prefix, tag);
    var begin, end := BeginCommand(prefix, tag), EndCommand(prefix, tag);
    var after := user + [';'] + end;
    assert Wrapped(prefix, tag, user) == begin + [';'] + ("" + [' '] + after);
    assert Wrapped(prefix, tag, user) == (begin + "; ") + user + (";" + end);
    BeginLacksMarker(prefix, tag);
    EndLacksMarker(prefix, tag);
    TooShort("", m);
    NoSpanning(begin, ';', "" + [' '] + after, m);
    NoSpanning("", ' ', after, m);
    NoSpanning(user, ';', end, m);
    if Contains(user, m) {
      ContainsExtends(begin + "; ", user, ";" + end, m);
    }
  }
}
