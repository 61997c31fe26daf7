/**
 * The console shell's text handling: cutting a line into commands at `;` outside quotes,
 * and turning one command into words.
 */
module ShellWords {
  import opened Common

  /** The Unicode White_Space characters. */
  predicate IsWhitespace(c: char) {
    ('\t' <= c <= '\r') || c == ' ' || c == '\U{85}' || c == '\U{A0}' || c == '\U{1680}'
    || ('\U{2000}' <= c <= '\U{200A}') || c == '\U{2028}' || c == '\U{2029}' || c == '\U{202F}'
    || c == '\U{205F}' || c == '\U{3000}'
  }

  predicate IsAlphanumeric(c: char) {
    'a' <= c <= 'z' || 'A' <= c <= 'Z' || '0' <= c <= '9'
  }

  predicate IsNameChar(c: char) {
    IsAlphanumeric(c) || c == '_'
  }

  predicate IsBlank(s: string) {
    forall i :: 0 <= i < |s| ==> IsWhitespace(s[i])
  }

  // ── cutting a line into commands ────────────────────────────────────────

  datatype Quotes = Quotes(single: bool, double: bool)

  const OUTSIDE := Quotes(false, false)

  function Toggle(q: Quotes, c: char): Quotes {
    if c == '\'' && !q.double then q.(single := !q.single)
    else if c == '"' && !q.single then q.(double := !q.double)
    else q
  }

  predicate Cuts(q: Quotes, c: char) {
    c == ';' && !q.single && !q.double
  }

  /** The pieces of a line, given the piece in progress and the quotes open around it. */
  function Pieces(q: Quotes, cur: string, line: string): (ps: seq<string>)
    ensures ps != []
    decreases |line|
  {
    if line == "" then [cur]
    else if Cuts(q, line[0]) then [cur] + Pieces(q, "", line[1..])
    else Pieces(Toggle(q, line[0]), cur + [line[0]], line[1..])
  }

  function UnlessBlank(piece: string): seq<string> {
    if IsBlank(piece) then [] else [piece]
  }

  /** The commands of a line: its pieces, without the blank ones. */
  function Commands(line: string): seq<string> {
    FlatMap(UnlessBlank, Pieces(OUTSIDE, "", line))
  }

  method SplitCommands(line: string) returns (commands: seq<string>)
    ensures commands == Commands(line)
  {
    var pieces: seq<string> := [];
    var cur := "";
    var q := OUTSIDE;
    for i := 0 to |line|
      invariant pieces + Pieces(q, cur, line[i..]) == Pieces(OUTSIDE, "", line)
    {
      var c := line[i];
      assert line[i..][1..] == line[i + 1..];
      if c == '\'' && !q.double {
        q := q.(single := !q.single);
        cur := cur + [c];
      } else if c == '"' && !q.single {
        q := q.(double := !q.double);
        cur := cur + [c];
      } else if c == ';' && !q.single && !q.double {
        Assoc(pieces, [cur], Pieces(q, "", line[i + 1..]));
        pieces := pieces + [cur];
        cur := "";
      } else {
        cur := cur + [c];
      }
    }
    pieces := pieces + [cur];
    commands := Retain(pieces);
  }

  /** Keep the pieces that are not blank. */
  method Retain(pieces: seq<string>) returns (kept: seq<string>)
    ensures kept == FlatMap(UnlessBlank, pieces)
  {
    kept := [];
    for i := 0 to |pieces|
      invariant kept == FlatMap(UnlessBlank, pieces[..i])
    {
      FlatMapSnoc(UnlessBlank, pieces[..i], pieces[i]);
      assert pieces[..i + 1] == pieces[..i] + [pieces[i]];
      if !IsBlank(pieces[i]) {
        kept := kept + [pieces[i]];
      }
    }
    assert pieces[..|pieces|] == pieces;
  }

  /** The quotes open after some text. */
  function QuotesAfter(q: Quotes, text: string): Quotes
    decreases |text|
  {
    if text == "" then q else QuotesAfter(Toggle(q, text[0]), text[1..])
  }

  predicate Balanced(text: string) {
    QuotesAfter(OUTSIDE, text) == OUTSIDE
  }

  lemma {:induction false} QuotesAfterConcat(q: Quotes, a: string, b: string)
    ensures QuotesAfter(q, a + b) == QuotesAfter(QuotesAfter(q, a), b)
    decreases |a|
  {
    if a == "" {
      assert a + b == b;
    } else {
      assert (a + b)[1..] == a[1..] + b;
      QuotesAfterConcat(Toggle(q, a[0]), a[1..], b);
    }
  }

  /** A `;` after text that closes its quotes really cuts there. */
  lemma {:induction false} PiecesJoin(q: Quotes, cur: string, a: string, b: string)
    requires QuotesAfter(q, a) == OUTSIDE
    ensures Pieces(q, cur, a + ";" + b) == Pieces(q, cur, a) + Pieces(OUTSIDE, "", b)
    decreases |a|
  {
    var joined := a + ";" + b;
    if a == "" {
      assert joined == ";" + b && joined[1..] == b;
    } else {
      assert joined[1..] == a[1..] + ";" + b && joined[0] == a[0];
      if Cuts(q, a[0]) {
        PiecesJoin(q, "", a[1..], b);
        Assoc([cur], Pieces(q, "", a[1..]), Pieces(OUTSIDE, "", b));
      } else {
        PiecesJoin(Toggle(q, a[0]), cur + [a[0]], a[1..], b);
      }
    }
  }

  /** Splitting distributes over balanced text joined by `;`. */
  lemma CommandsJoin(a: string, b: string)
    requires Balanced(a)
    ensures Commands(a + ";" + b) == Commands(a) + Commands(b)
  {
    PiecesJoin(OUTSIDE, "", a, b);
    FlatMapConcat(UnlessBlank, Pieces(OUTSIDE, "", a), Pieces(OUTSIDE, "", b));
  }

  // ── turning a command into words ────────────────────────────────────────

  /** An environment as an ordered map keeps it: entries in strictly ascending name order. */
  type Env = seq<(string, string)>

  function Lookup(env: Env, name: string): Option<string> {
    if env == [] then None
    else if env[0].0 == name then Some(env[0].1)
    else Lookup(env[1..], name)
  }

  function Digit(d: nat): char
    requires d < 10
  {
    ['0', '1', '2', '3', '4', '5', '6', '7', '8', '9'][d]
  }

  function Decimal(n: nat): string {
    if n < 10 then [Digit(n)] else Decimal(n / 10) + [Digit(n % 10)]
  }

  /** `i32::to_string`. */
  function StatusText(status: int): string {
    if status < 0 then "-" + Decimal(-status) else Decimal(status)
  }

  /** The length of the longest prefix of name characters. */
  function NameLength(s: string): (n: nat)
    ensures n <= |s|
  {
    if s != "" && IsNameChar(s[0]) then 1 + NameLength(s[1..]) else 0
  }

  /** What follows a `$`: the text it stands for, and how much of `s` it uses up. */
  function Dollar(env: Env, status: int, s: string): (r: (string, nat))
    ensures r.1 <= |s|
  {
    if s != "" && s[0] == '?' then (StatusText(status), 1)
    else if NameLength(s) > 0 then
      (match Lookup(env, s[..NameLength(s)]) case Some(v) => v case None => "", NameLength(s))
    else ("$", 0)
  }

  datatype Mode = Bare | Single | Double

  /** The words of a command, given the word in progress and whether it counts yet. */
  function Words(env: Env, status: int, mode: Mode, s: string, cur: string, has: bool): seq<string>
    decreases |s|
  {
    if s == "" then (if has then [cur] else [])
    else
      var c, rest := s[0], s[1..];
      match mode
      case Bare =>
        if IsWhitespace(c) then
          if has then [cur] + Words(env, status, Bare, rest, "", false) else Words(env, status, Bare, rest, cur, false)
        else if c == '\'' then Words(env, status, Single, rest, cur, true)
        else if c == '"' then Words(env, status, Double, rest, cur, true)
        else if c == '$' then
          var (text, used) := Dollar(env, status, rest);
          Words(env, status, Bare, rest[used..], cur + text, has || text != "")
        else Words(env, status, Bare, rest, cur + [c], true)
      case Single =>
        if c == '\'' then Words(env, status, Bare, rest, cur, has)
        else Words(env, status, Single, rest, cur + [c], has)
      case Double =>
        if c == '"' then Words(env, status, Bare, rest, cur, has)
        else if c == '$' then
          var (text, used) := Dollar(env, status, rest);
          Words(env, status, Double, rest[used..], cur + text, has)
        else Words(env, status, Double, rest, cur + [c], has)
  }

  function Expanded(env: Env, status: int, cmd: string): seq<string> {
    Words(env, status, Bare, cmd, "", false)
  }

  /** The variable reference after a `$` at `cmd[i..]`: its text, and the index after it. */
  method ExpandDollar(env: Env, status: int, cmd: string, i: nat) returns (text: string, j: nat)
    requires i <= |cmd|
    ensures i <= j <= |cmd|
    ensures text == Dollar(env, status, cmd[i..]).0 && j == i + Dollar(env, status, cmd[i..]).1
  {
    if i < |cmd| && cmd[i] == '?' {
      return StatusText(status), i + 1;
    }
    if i < |cmd| && IsNameChar(cmd[i]) {
      var name := "";
      j := i;
      while j < |cmd| && IsNameChar(cmd[j])
        invariant i <= j <= |cmd| && name == cmd[i..j]
        invariant NameLength(cmd[i..]) == j - i + NameLength(cmd[j..])
      {
        assert cmd[j..][1..] == cmd[j + 1..];
        name := name + [cmd[j]];
        j := j + 1;
      }
      assert cmd[i..][..j - i] == name;
      var value := Lookup(env, name);
      return if value.Some? then value.value else "", j;
    }
    return "$", i;
  }

  /** The source's tokenizer: one loop over the command, with inner loops for quoted text. */
  method ExpandWords(env: Env, status: int, cmd: string) returns (words: seq<string>)
    ensures words == Expanded(env, status, cmd)
  {
    words := [];
    var cur, has, i := "", false, 0;
    assert cmd[0..] == cmd;
    while i < |cmd|
      invariant 0 <= i <= |cmd|
      invariant words + Words(env, status, Bare, cmd[i..], cur, has) == Expanded(env, status, cmd)
    {
      var c := cmd[i];
      assert cmd[i..][0] == c && cmd[i..][1..] == cmd[i + 1..];
      i := i + 1;
      if IsWhitespace(c) {
        if has {
          Assoc(words, [cur], Words(env, status, Bare, cmd[i..], "", false));
          words := words + [cur];
          cur, has := "", false;
        }
      } else if c == '\'' {
        has := true;
        cur, i := TakeSingle(env, status, cmd, i, cur);
      } else if c == '"' {
        has := true;
        cur, i := TakeDouble(env, status, cmd, i, cur);
      } else if c == '$' {
        var text, j := ExpandDollar(env, status, cmd, i);
        assert cmd[i..][j - i..] == cmd[j..];
        cur, has, i := cur + text, has || |text| > 0, j;
      } else {
        has := true;
        cur := cur + [c];
      }
    }
    if has {
      words := words + [cur];
    }
  }

  /** Literal text up to the closing single quote, or to the end. */
  method TakeSingle(ghost env: Env, ghost status: int, cmd: string, i: nat, cur: string)
    returns (cur': string, j: nat)
    requires i <= |cmd|
    ensures i <= j <= |cmd|
    ensures Words(env, status, Single, cmd[i..], cur, true) == Words(env, status, Bare, cmd[j..], cur', true)
  {
    cur', j := cur, i;
    while j < |cmd|
      invariant i <= j <= |cmd|
      invariant Words(env, status, Single, cmd[i..], cur, true) == Words(env, status, Single, cmd[j..], cur', true)
    {
      assert cmd[j..][1..] == cmd[j + 1..];
      if cmd[j] == '\'' {
        j := j + 1;
        return;
      }
      cur', j := cur' + [cmd[j]], j + 1;
    }
  }

  /** Text up to the closing double quote, or to the end, with `$` expanded. */
  method TakeDouble(env: Env, status: int, cmd: string, i: nat, cur: string)
    returns (cur': string, j: nat)
    requires i <= |cmd|
    ensures i <= j <= |cmd|
    ensures Words(env, status, Double, cmd[i..], cur, true) == Words(env, status, Bare, cmd[j..], cur', true)
  {
    cur', j := cur, i;
    while j < |cmd|
      invariant i <= j <= |cmd|
      invariant Words(env, status, Double, cmd[i..], cur, true) == Words(env, status, Double, cmd[j..], cur', true)
    {
      var c := cmd[j];
      assert cmd[j..][0] == c && cmd[j..][1..] == cmd[j + 1..];
      j := j + 1;
      if c == '"' {
        return;
      } else if c == '$' {
        var text, k := ExpandDollar(env, status, cmd, j);
        assert cmd[j..][k - j..] == cmd[k..];
        cur', j := cur' + text, k;
      } else {
        cur' := cur' + [c];
      }
    }
  }

  // ── variables ───────────────────────────────────────────────────────────

  predicate IsName(name: string) {
    name != "" && forall i :: 0 <= i < |name| ==> IsNameChar(name[i])
  }

  function ValueOf(env: Env, name: string): string {
    match Lookup(env, name)
    case Some(v) => v
    case None => ""
  }

  lemma {:induction false} NameEnds(name: string, rest: string)
    requires forall i :: 0 <= i < |name| ==> IsNameChar(name[i])
    requires rest == "" || !IsNameChar(rest[0])
    ensures NameLength(name + rest) == |name|
    decreases |name|
  {
    if name == "" {
      assert name + rest == rest;
    } else {
      assert (name + rest)[1..] == name[1..] + rest;
      NameEnds(name[1..], rest);
    }
  }

  lemma DollarIsValue(env: Env, status: int, name: string, rest: string)
    requires IsName(name) && (rest == "" || !IsNameChar(rest[0]))
    ensures Dollar(env, status, name + rest) == (ValueOf(env, name), |name|)
  {
    assert IsNameChar(name[0]);
    NameEnds(name, rest);
    assert (name + rest)[..|name|] == name;
  }

  /** A quoted variable is exactly one word, its value taken literally; unset, the word is empty. */
  lemma QuotedVariable(env: Env, status: int, name: string)
    requires IsName(name)
    ensures Expanded(env, status, "\"$" + name + "\"") == [ValueOf(env, name)]
  {
    var s := "\"$" + name + "\"";
    assert s[1..] == "$" + (name + "\"") && s[1..][1..] == name + "\"";
    DollarIsValue(env, status, name, "\"");
    assert (name + "\"")[|name|..] == "\"" && "\""[1..] == "" && "" + ValueOf(env, name) == ValueOf(env, name);
    calc {
      Expanded(env, status, s);
      Words(env, status, Double, "$" + (name + "\""), "", true);
      Words(env, status, Double, "\"", ValueOf(env, name), true);
      [ValueOf(env, name)];
    }
  }

  /** A bare variable is its value as one word, however many blanks it holds; unset or empty, it is no word at all. */
  lemma BareVariable(env: Env, status: int, name: string)
    requires IsName(name)
    ensures Expanded(env, status, "$" + name) == if ValueOf(env, name) == "" then [] else [ValueOf(env, name)]
  {
    var s := "$" + name;
    assert s[1..] == name + "";
    DollarIsValue(env, status, name, "");
    assert name[|name|..] == "" && "" + ValueOf(env, name) == ValueOf(env, name);
    assert name + "" == name;
    assert Expanded(env, status, s) == Words(env, status, Bare, "", ValueOf(env, name), ValueOf(env, name) != "");
  }

  // ── quoting ─────────────────────────────────────────────────────────────

  /** Inside single quotes every character stands for itself; a quote steps out, quotes itself, and steps back in. */
  function QuoteChar(c: char): string {
    if c == '\'' then "'\"'\"'" else [c]
  }

  function QuoteWord(word: string): string {
    "'" + FlatMap(QuoteChar, word) + "'"
  }

  function QuoteWords(words: seq<string>): string
    requires words != []
  {
    if |words| == 1 then QuoteWord(words[0]) else QuoteWord(words[0]) + " " + QuoteWords(words[1..])
  }

  predicate NoneEmpty(script: seq<seq<string>>) {
    forall i :: 0 <= i < |script| ==> script[i] != []
  }

  function QuoteScript(script: seq<seq<string>>): string
    requires NoneEmpty(script)
  {
    if script == [] then ""
    else if |script| == 1 then QuoteWords(script[0])
    else QuoteWords(script[0]) + ";" + QuoteScript(script[1..])
  }

  lemma {:induction false} WordsOfQuoted(env: Env, status: int, word: string, rest: string, cur: string)
    ensures Words(env, status, Single, FlatMap(QuoteChar, word) + "'" + rest, cur, true)
         == Words(env, status, Bare, rest, cur + word, true)
    decreases |word|
  {
    var tail := FlatMap(QuoteChar, word[if word == "" then 0 else 1..]) + "'" + rest;
    if word == "" {
      assert (FlatMap(QuoteChar, word) + "'" + rest)[1..] == rest && cur + word == cur;
    } else {
      assert FlatMap(QuoteChar, word) + "'" + rest == QuoteChar(word[0]) + tail;
      assert cur + [word[0]] + word[1..] == cur + word;
      if word[0] == '\'' {
        StepOutAndBack(env, status, tail, cur);
      } else {
        assert ([word[0]] + tail)[1..] == tail;
      }
      WordsOfQuoted(env, status, word[1..], rest, cur + [word[0]]);
    }
  }

  /** `'"'"'` inside single quotes is one quote. */
  lemma StepOutAndBack(env: Env, status: int, tail: string, cur: string)
    ensures Words(env, status, Single, "'\"'\"'" + tail, cur, true) == Words(env, status, Single, tail, cur + "'", true)
  {
    var s := "'\"'\"'" + tail;
    assert s[1..] == "\"'\"'" + tail && s[1..][1..] == "'\"'" + tail;
    assert s[1..][1..][1..] == "\"'" + tail && s[1..][1..][1..][1..] == "'" + tail;
    assert ("'" + tail)[1..] == tail;
    calc {
      Words(env, status, Single, s, cur, true);
      Words(env, status, Bare, "\"'\"'" + tail, cur, true);
      Words(env, status, Double, "'\"'" + tail, cur, true);
      Words(env, status, Double, "\"'" + tail, cur + "'", true);
      Words(env, status, Bare, "'" + tail, cur + "'", true);
      Words(env, status, Single, tail, cur + "'", true);
    }
  }

  lemma QuotedWordExpands(env: Env, status: int, word: string, rest: string)
    ensures Words(env, status, Bare, QuoteWord(word) + rest, "", false) == Words(env, status, Bare, rest, word, true)
  {
    var body := FlatMap(QuoteChar, word) + "'" + rest;
    assert QuoteWord(word) + rest == "'" + body && ("'" + body)[1..] == body;
    WordsOfQuoted(env, status, word, rest, "");
    assert "" + word == word;
  }

  lemma {:induction false} QuotedWordsExpand(env: Env, status: int, words: seq<string>)
    requires words != []
    ensures Expanded(env, status, QuoteWords(words)) == words
    decreases |words|
  {
    hide QuoteWord;
    if |words| == 1 {
      assert QuoteWord(words[0]) + "" == QuoteWord(words[0]);
      QuotedWordExpands(env, status, words[0], "");
      assert words == [words[0]];
    } else {
      var tail := QuoteWords(words[1..]);
      assert QuoteWords(words) == QuoteWord(words[0]) + (" " + tail);
      QuotedWordExpands(env, status, words[0], " " + tail);
      assert (" " + tail)[1..] == tail;
      QuotedWordsExpand(env, status, words[1..]);
      assert words == [words[0]] + words[1..];
    }
  }

  /** Quoted text never cuts, and leaves no quote open. */
  lemma {:induction false} QuotedBodyIsOnePiece(body: string, cur: string, rest: string)
    ensures Pieces(Quotes(true, false), cur, FlatMap(QuoteChar, body) + rest)
         == Pieces(Quotes(true, false), cur + FlatMap(QuoteChar, body), rest)
    decreases |body|
  {
    if body == "" {
      assert FlatMap(QuoteChar, body) + rest == rest && cur + FlatMap(QuoteChar, body) == cur;
    } else {
      var q := QuoteChar(body[0]);
      var tail := FlatMap(QuoteChar, body[1..]) + rest;
      assert FlatMap(QuoteChar, body) + rest == q + tail;
      assert cur + q + FlatMap(QuoteChar, body[1..]) == cur + FlatMap(QuoteChar, body);
      QuotedBodyIsOnePiece(body[1..], cur + q, rest);
      if body[0] == '\'' {
        QuoteEscapeIsOnePiece(cur, tail);
      } else {
        assert (q + tail)[1..] == tail;
      }
    }
  }

  lemma QuoteEscapeIsOnePiece(cur: string, tail: string)
    ensures Pieces(Quotes(true, false), cur, "'\"'\"'" + tail) == Pieces(Quotes(true, false), cur + "'\"'\"'", tail)
  {
    var s := "'\"'\"'" + tail;
    assert s[1..] == "\"'\"'" + tail && s[1..][1..] == "'\"'" + tail;
    assert s[1..][1..][1..] == "\"'" + tail && s[1..][1..][1..][1..] == "'" + tail;
    assert ("'" + tail)[1..] == tail;
    var in_s := Quotes(true, false);
    calc {
      Pieces(in_s, cur, s);
      Pieces(OUTSIDE, cur + "'", "\"'\"'" + tail);
      Pieces(Quotes(false, true), cur + "'" + "\"", "'\"'" + tail);
      Pieces(Quotes(false, true), cur + "'" + "\"" + "'", "\"'" + tail);
      Pieces(OUTSIDE, cur + "'" + "\"" + "'" + "\"", "'" + tail);
      Pieces(in_s, cur + "'" + "\"" + "'" + "\"" + "'", tail);
    }
    assert cur + "'" + "\"" + "'" + "\"" + "'" == cur + "'\"'\"'";
  }

  lemma QuotedWordIsOnePiece(word: string, cur: string, rest: string)
    ensures Pieces(OUTSIDE, cur, QuoteWord(word) + rest) == Pieces(OUTSIDE, cur + QuoteWord(word), rest)
  {
    var body := FlatMap(QuoteChar, word);
    assert QuoteWord(word) + rest == "'" + (body + ("'" + rest));
    assert ("'" + (body + ("'" + rest)))[1..] == body + ("'" + rest) && ("'" + rest)[1..] == rest;
    QuotedBodyIsOnePiece(word, cur + "'", "'" + rest);
    assert cur + "'" + body + "'" == cur + QuoteWord(word);
  }

  lemma {:induction false} QuotedWordsAreOnePiece(words: seq<string>, cur: string, rest: string)
    requires words != []
    ensures Pieces(OUTSIDE, cur, QuoteWords(words) + rest) == Pieces(OUTSIDE, cur + QuoteWords(words), rest)
    decreases |words|
  {
    hide QuoteWord;
    if |words| == 1 {
      QuotedWordIsOnePiece(words[0], cur, rest);
    } else {
      var q := QuoteWord(words[0]);
      var tail := QuoteWords(words[1..]) + rest;
      assert QuoteWords(words) + rest == q + (" " + tail);
      QuotedWordIsOnePiece(words[0], cur, " " + tail);
      assert (" " + tail)[1..] == tail;
      QuotedWordsAreOnePiece(words[1..], cur + q + " ", rest);
      assert Pieces(OUTSIDE, cur + q, " " + tail) == Pieces(OUTSIDE, cur + q + " ", tail);
      assert cur + q + " " + QuoteWords(words[1..]) == cur + QuoteWords(words);
    }
  }

  lemma QuotedIsNotBlank(words: seq<string>)
    requires words != []
    ensures UnlessBlank(QuoteWords(words)) == [QuoteWords(words)]
  {
    assert QuoteWords(words)[0] == '\'';
  }

  lemma LastQuotedCommand(words: seq<string>)
    requires words != []
    ensures Commands(QuoteWords(words)) == [QuoteWords(words)]
  {
    hide QuoteWords, UnlessBlank;
    var first := QuoteWords(words);
    QuotedWordsAreOnePiece(words, "", "");
    assert first + "" == first && "" + first == first;
    assert Pieces(OUTSIDE, first, "") == [first];
    QuotedIsNotBlank(words);
    FlatMapOne(UnlessBlank, first);
  }

  lemma FirstQuotedCommand(words: seq<string>, rest: string)
    requires words != []
    ensures Commands(QuoteWords(words) + ";" + rest) == [QuoteWords(words)] + Commands(rest)
  {
    hide QuoteWords, UnlessBlank;
    var first := QuoteWords(words);
    QuotedWordsAreOnePiece(words, "", ";" + rest);
    assert first + ";" + rest == first + (";" + rest) && "" + first == first && (";" + rest)[1..] == rest;
    assert Pieces(OUTSIDE, first, ";" + rest) == [first] + Pieces(OUTSIDE, "", rest);
    QuotedIsNotBlank(words);
    FlatMapCons(UnlessBlank, first, Pieces(OUTSIDE, "", rest));
  }

  /** A quoted script splits back into its quoted commands. */
  lemma {:induction false} QuotedScriptSplits(script: seq<seq<string>>)
    requires NoneEmpty(script)
    ensures |Commands(QuoteScript(script))| == |script|
    ensures forall i :: 0 <= i < |script| ==> Commands(QuoteScript(script))[i] == QuoteWords(script[i])
    decreases |script|
  {
    if script == [] {
      FlatMapOne(UnlessBlank, "");
    } else if |script| == 1 {
      LastQuotedCommand(script[0]);
    } else {
      FirstQuotedCommand(script[0], QuoteScript(script[1..]));
      QuotedScriptSplits(script[1..]);
    }
  }

  /**
   * Quoting round trip: any script of non-empty commands over arbitrary words, quoted
   * and joined, splits and expands back to the same words, whatever the environment and
   * the last status.
   */
  lemma QuotingRoundTrip(script: seq<seq<string>>, env: Env, status: int, i: nat)
    requires NoneEmpty(script) && i < |script|
    ensures |Commands(QuoteScript(script))| == |script|
    ensures Expanded(env, status, Commands(QuoteScript(script))[i]) == script[i]
  {
    QuotedScriptSplits(script);
    QuotedWordsExpand(env, status, script[i]);
  }
}
