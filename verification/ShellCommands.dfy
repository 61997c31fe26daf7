/**
 * What each command does, as typed at the console with its words quoted: output, status
 * and environment, in the texts and numbers the user sees.
 */
module ShellCommands {
  import opened Common
  import opened LineDiscipline
  import opened ShellWords
  import opened ShellHandler
  import opened ExecWrapper

  /** A command line with every word quoted. */
  function Line(words: seq<string>): string
    requires words != []
  {
    QuoteScript([words])
  }

  // ── words on one line ───────────────────────────────────────────────────

  /** Joining is by single spaces: whole lists join as their parts do. */
  lemma {:induction false} JoinedConcat(a: seq<string>, b: seq<string>)
    requires a != [] && b != []
    ensures Joined(a + b) == Joined(a) + " " + Joined(b)
    ensures |a| == 1 ==> Joined(a) == a[0]
  {
    if |a| == 1 {
      assert (a + b)[1..] == b && (a + b)[0] == a[0];
    } else {
      assert (a + b)[1..] == a[1..] + b;
      JoinedConcat(a[1..], b);
      assert a[0] + " " + (Joined(a[1..]) + " " + Joined(b)) == a[0] + " " + Joined(a[1..]) + " " + Joined(b);
    }
  }

  /** `echo`: its words on one line. */
  lemma EchoLine(sh: Shell, args: seq<string>)
    ensures Answered(sh, Line(["echo"] + args)) == (sh.(lastStatus := 0), Joined(args) + "\r\n")
  {
    hide Answered, QuoteScript;
    AnsweredQuoted(sh, ["echo"] + args);
    assert (["echo"] + args)[1..] == args;
  }

  /** `true` and `false` say nothing and set the status. */
  lemma TrueAndFalse(sh: Shell, args: seq<string>)
    ensures Answered(sh, Line(["true"] + args)) == (sh.(lastStatus := 0), "")
    ensures Answered(sh, Line(["false"] + args)) == (sh.(lastStatus := 1), "")
  {
    hide Answered, QuoteScript;
    AnsweredQuoted(sh, ["true"] + args);
    AnsweredQuoted(sh, ["false"] + args);
  }

  /** The commands each shell knows. */
  predicate Builtin(kind: Kind, head: string) {
    head in ["echo", "true", "false"] || (kind == Uboot && head in ["printenv", "setenv", "version"])
  }

  /** Anything else is complained about by name, and fails with the shell's own status. */
  lemma UnknownCommand(sh: Shell, head: string, args: seq<string>)
    requires !Builtin(sh.kind, head)
    ensures Answered(sh, Line([head] + args))
         == if sh.kind == Posix then (sh.(lastStatus := 127), "sh: " + head + ": command not found\r\n")
            else (sh.(lastStatus := 1), "Unknown command '" + head + "' - try 'help'\r\n")
  {
    hide Answered, QuoteScript;
    AnsweredQuoted(sh, [head] + args);
    var known := ["echo", "true", "false", "printenv", "setenv", "version"];
    assert known[0] == "echo" && known[1] == "true" && known[2] == "false";
    assert known[3] == "printenv" && known[4] == "setenv" && known[5] == "version";
    assert "sh: " + head + ": command not found" + CRLF == "sh: " + head + ": command not found\r\n";
    assert "Unknown command '" + head + "' - try 'help'" + CRLF == "Unknown command '" + head + "' - try 'help'\r\n";
  }

  lemma VersionLine(sh: Shell, args: seq<string>)
    requires sh.kind == Uboot
    ensures Answered(sh, Line(["version"] + args))
         == (sh.(lastStatus := 0), "U-Boot 2024.01-ttyforge-sim\r\n\r\n")
  {
    hide Answered, QuoteScript;
    AnsweredQuoted(sh, ["version"] + args);
    assert "U-Boot 2024.01-ttyforge-sim" + CRLF + CRLF == "U-Boot 2024.01-ttyforge-sim\r\n\r\n";
  }

  // ── the environment ─────────────────────────────────────────────────────

  /** `setenv` with values: the name now stands for the values joined, every other as before; nothing is said. */
  lemma SetenvLine(sh: Shell, name: string, values: seq<string>, other: string)
    requires sh.kind == Uboot && values != []
    ensures var (sh1, out) := Answered(sh, Line(["setenv", name] + values));
            && out == "" && sh1.kind == Uboot && sh1.lastStatus == 0
            && Lookup(sh1.env, other) == if other == name then Some(Joined(values)) else Lookup(sh.env, other)
  {
    hide Answered, QuoteScript, Insert, Joined;
    AnsweredQuoted(sh, ["setenv", name] + values);
    assert (["setenv", name] + values)[2..] == values;
    LookupAfterInsert(sh.env, name, Joined(values), other);
  }

  /** `setenv` alone changes nothing. */
  lemma SetenvAlone(sh: Shell)
    requires sh.kind == Uboot
    ensures Answered(sh, Line(["setenv"])) == (sh.(lastStatus := 0), "")
  {
    hide Answered, QuoteScript;
    AnsweredQuoted(sh, ["setenv"]);
  }

  lemma {:induction false} SizeOfEntries(env: Env)
    ensures EnvSize(env) + |env| == |FlatMap(EntryLine, env)|
  {
    if env != [] {
      SizeOfEntries(env[1..]);
    }
  }

  /**
   * `printenv` alone: every entry on a line of its own, in order, an empty line, and the
   * size: what the entries take up with one character for each line end.
   */
  lemma PrintenvAlone(sh: Shell)
    requires sh.kind == Uboot
    ensures var entries := FlatMap((e: (string, string)) => e.0 + "=" + e.1 + "\r\n", sh.env);
            |sh.env| <= |entries|
            && Answered(sh, Line(["printenv"]))
               == (sh.(lastStatus := 0),
                   entries + "\r\n" + "Environment size: " + Decimal(|entries| - |sh.env|) + "/8188 bytes" + "\r\n")
  {
    hide Answered, QuoteScript;
    AnsweredQuoted(sh, ["printenv"]);
    SizeOfEntries(sh.env);
    EntriesAre(sh.env, (e: (string, string)) => e.0 + "=" + e.1 + "\r\n");
    var size := Decimal(EnvSize(sh.env));
    Assoc(FlatMap(EntryLine, sh.env), CRLF, "Environment size: " + size + "/8188 bytes" + CRLF);
    assert FlatMap(EntryLine, sh.env) + CRLF + ("Environment size: " + size + "/8188 bytes" + CRLF)
        == FlatMap(EntryLine, sh.env) + "\r\n" + "Environment size: " + size + "/8188 bytes" + "\r\n";
  }

  lemma {:induction false} EntriesAre(env: Env, f: ((string, string)) -> string)
    requires forall e :: f(e) == e.0 + "=" + e.1 + "\r\n"
    ensures FlatMap(f, env) == FlatMap(EntryLine, env)
  {
    if env != [] {
      EntriesAre(env[1..], f);
    }
  }

  lemma {:induction false} NamesConcat(env: Env, a: seq<string>, b: seq<string>)
    ensures NameLines(env, a + b) == NameLines(env, a) + NameLines(env, b)
  {
    hide NameLine;
    if a == [] {
      assert a + b == b;
    } else {
      assert (a + b)[1..] == a[1..] + b;
      NamesConcat(env, a[1..], b);
      Assoc(NameLine(env, a[0]), NameLines(env, a[1..]), NameLines(env, b));
    }
  }

  /** What `printenv` says of one name. */
  function Said(env: Env, name: string): string {
    match Lookup(env, name)
    case Some(value) => name + "=" + value + "\r\n"
    case None => "## Error: \"" + name + "\" not defined\r\n"
  }

  lemma NameLineIs(env: Env, name: string)
    ensures NameLine(env, name) == Said(env, name)
  {
    assert "\" not defined" + CRLF == "\" not defined\r\n";
  }

  lemma NamesAround(env: Env, before: seq<string>, name: string, after: seq<string>)
    ensures NameLines(env, before + [name] + after) == NameLines(env, before) + Said(env, name) + NameLines(env, after)
  {
    hide NameLine, Said;
    NamesConcat(env, before + [name], after);
    NamesConcat(env, before, [name]);
    assert [name][1..] == [] && NameLines(env, [name]) == NameLine(env, name) + "" == NameLine(env, name);
    NameLineIs(env, name);
  }

  lemma DefinedMeansAll(env: Env, names: seq<string>)
    ensures AllDefined(env, names) <==> forall n :: n in names ==> Lookup(env, n).Some?
  {
    hide Lookup;
    assert forall k :: 0 <= k < |names| ==> names[k] in names;
  }

  lemma PrintenvRuns(sh: Shell, names: seq<string>)
    requires sh.kind == Uboot && names != []
    ensures Answered(sh, Line(["printenv"] + names))
         == (sh.(lastStatus := if AllDefined(sh.env, names) then 0 else 1), NameLines(sh.env, names))
  {
    hide Answered, QuoteScript, NameLines, AllDefined;
    AnsweredQuoted(sh, ["printenv"] + names);
    assert (["printenv"] + names)[1..] == names;
  }

  /**
   * `printenv` with names: one line for each, in order, `name=value` or an error; and
   * status 0 if and only if all are defined, 1 otherwise.
   */
  lemma PrintenvNames(sh: Shell, before: seq<string>, name: string, after: seq<string>)
    requires sh.kind == Uboot
    ensures var (sh1, out) := Answered(sh, Line(["printenv"] + (before + [name] + after)));
            && sh1 == sh.(lastStatus := sh1.lastStatus)
            && out == NameLines(sh.env, before) + Said(sh.env, name) + NameLines(sh.env, after)
            && (sh1.lastStatus == 0 || sh1.lastStatus == 1)
            && (sh1.lastStatus == 0 <==> forall n :: n in before + [name] + after ==> Lookup(sh.env, n).Some?)
  {
    hide Answered, QuoteScript, NameLines, AllDefined, Lookup, Said;
    PrintenvRuns(sh, before + [name] + after);
    NamesAround(sh.env, before, name, after);
    DefinedMeansAll(sh.env, before + [name] + after);
  }

  // ── the status, as `$?` shows it ────────────────────────────────────────

  /** Reading a decimal number digit by digit. */
  function Reads(s: string): int {
    if s == "" then 0 else 10 * Reads(s[..|s| - 1]) + (s[|s| - 1] as int - '0' as int)
  }

  predicate AllDigits(s: string) {
    forall i :: 0 <= i < |s| ==> '0' <= s[i] <= '9'
  }

  lemma DigitReads(d: nat)
    requires d < 10
    ensures '0' <= Digit(d) <= '9' && Digit(d) as int - '0' as int == d
  {
  }

  /** A number is written in digits that read back as that number, without leading zeros. */
  lemma {:induction false} DecimalReadsBack(n: nat)
    ensures Decimal(n) != "" && AllDigits(Decimal(n)) && Reads(Decimal(n)) == n
    ensures n > 0 ==> Decimal(n)[0] != '0'
  {
    DigitReads(n % 10);
    if n < 10 {
      assert Decimal(n)[..0] == "" && Reads("") == 0;
    } else {
      DecimalReadsBack(n / 10);
      assert Decimal(n)[..|Decimal(n)| - 1] == Decimal(n / 10);
    }
  }

  /** `echo $?` shows the status the command before it left, with a sign if it is negative. */
  lemma StatusIsShown(sh: Shell)
    ensures var (sh1, out) := Answered(sh, "echo $?");
            && sh1 == sh.(lastStatus := 0)
            && |out| > 2 && out[|out| - 2..] == "\r\n"
            && var text := out[..|out| - 2];
               if sh.lastStatus >= 0 then AllDigits(text) && Reads(text) == sh.lastStatus
               else text[0] == '-' && AllDigits(text[1..]) && Reads(text[1..]) == -sh.lastStatus
  {
    hide Executed, Decimal;
    var text := StatusText(sh.lastStatus);
    MarkerIsOneCommand("echo $?") by {
      assert "echo $?"[0] == 'e';
    }
    RanAllOne(sh, "echo $?");
    EchoStatusWords(sh.env, sh.lastStatus);
    EchoRuns(sh, "echo $?", text);
    var digits := if sh.lastStatus < 0 then -sh.lastStatus else sh.lastStatus;
    DecimalReadsBack(digits);
    assert sh.lastStatus < 0 ==> text[1..] == Decimal(digits);
    assert (text + CRLF)[|text|..] == CRLF && (text + CRLF)[..|text|] == text;
  }

  lemma BareStatusWord(env: Env, status: int)
    ensures Words(env, status, Bare, "$?", "", false) == [StatusText(status)]
  {
    hide Decimal, Lookup, StatusText, NameLength;
    assert "$?"[1..] == "?" && "?"[1..] == "";
    assert Dollar(env, status, "?") == (StatusText(status), 1);
    StatusIsText(status);
    assert "" + StatusText(status) == StatusText(status);
    assert Words(env, status, Bare, "?"[1..], StatusText(status), true) == [StatusText(status)];
  }

  lemma StatusIsText(status: int)
    ensures StatusText(status) != ""
  {
    DecimalReadsBack(if status < 0 then -status else status);
  }

  lemma EchoStatusWords(env: Env, status: int)
    ensures Expanded(env, status, "echo $?") == ["echo", StatusText(status)]
  {
    hide Words, StatusText;
    assert "echo $?" == "echo " + "$?";
    EchoFirst(env, status, "$?");
    BareStatusWord(env, status);
  }

  // ── a command that expands to nothing ───────────────────────────────────

  /** A line that comes to no words, here an unset variable, is no command: nothing is said and nothing changes. */
  lemma NoWordsNoCommand(sh: Shell, name: string)
    requires IsName(name) && ValueOf(sh.env, name) == ""
    ensures Answered(sh, "$" + name) == (sh, "")
  {
    hide Lookup;
    var cmd := "$" + name;
    assert forall i :: 0 <= i < |name| ==> name[i] != ';';
    NoSemicolonOnePiece(OUTSIDE, "", cmd);
    assert "" + cmd == cmd && cmd[0] == '$' && !IsWhitespace('$');
    FlatMapOne(UnlessBlank, cmd);
    RanAllOne(sh, cmd);
    BareVariable(sh.env, sh.lastStatus, name);
  }

  // ── a `$` that names nothing ────────────────────────────────────────────

  /** A `$` before anything but a name or `?`, or at the end, stands for itself, bare or in double quotes. */
  lemma LoneDollar(env: Env, status: int, rest: string, cur: string, has: bool)
    requires rest == "" || (rest[0] != '?' && !IsNameChar(rest[0]))
    ensures Words(env, status, Bare, "$" + rest, cur, has) == Words(env, status, Bare, rest, cur + "$", true)
    ensures Words(env, status, Double, "$" + rest, cur, has) == Words(env, status, Double, rest, cur + "$", has)
  {
    assert ("$" + rest)[1..] == rest && rest[0..] == rest;
    assert Dollar(env, status, rest) == ("$", 0);
  }

  // ── character classes ───────────────────────────────────────────────────

  /** The characters of variable names, by code: digits, capitals, underscore and small letters. */
  lemma NameCharactersAre(c: char)
    ensures IsNameChar(c)
       <==> 48 <= c as int <= 57 || 65 <= c as int <= 90 || c as int == 95 || 97 <= c as int <= 122
  {
  }

  /** Any run of blanks, of any kind, separates plain words. */
  lemma {:induction false} BlanksSeparate(env: Env, status: int, blanks: string, rest: string, cur: string)
    requires blanks != ""
    requires forall i :: 0 <= i < |blanks| ==> blanks[i] in " \t\n\r\U{0B}\U{0C}\U{85}\U{A0}\U{2003}\U{3000}"
    ensures Words(env, status, Bare, blanks + rest, cur, true) == [cur] + Words(env, status, Bare, rest, "", false)
    ensures Words(env, status, Bare, blanks + rest, "", false) == Words(env, status, Bare, rest, "", false)
    decreases |blanks|
  {
    assert IsWhitespace(blanks[0]) && (blanks + rest)[1..] == blanks[1..] + rest;
    if |blanks| == 1 {
      assert blanks[1..] + rest == rest;
    } else {
      BlanksSeparate(env, status, blanks[1..], rest, cur);
    }
  }
}
