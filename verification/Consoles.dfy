/**
 * The preset consoles (shell, U-Boot, AT modem) as instances of the line discipline, and
 * the screen agreement for each of them.
 */
module Consoles {
  import opened Common
  import opened LineDiscipline
  import opened Screen
  import opened ShellWords
  import opened ShellHandler

  function ShellPrompt(kind: Kind): string {
    match kind
    case Posix => "$ "
    case Uboot => "=> "
  }

  function ShellConsole(kind: Kind): Console<Shell> {
    Console(ShellPrompt(kind), Answered)
  }

  // ── the AT modem ────────────────────────────────────────────────────────

  function TrimStart(s: string): string {
    if s != "" && IsWhitespace(s[0]) then TrimStart(s[1..]) else s
  }

  function TrimEnd(s: string): string {
    if s != "" && IsWhitespace(s[|s| - 1]) then TrimEnd(s[..|s| - 1]) else s
  }

  function AtAnswer(line: string): string {
    var t := TrimEnd(TrimStart(line));
    if t == "" then ""
    else if |t| >= 2 && (t[0] == 'a' || t[0] == 'A') && (t[1] == 't' || t[1] == 'T') then "OK" + CRLF
    else "ERROR" + CRLF
  }

  const AT_CONSOLE: Console<()> := Console("", (h: (), line: string) => (h, AtAnswer(line)))

  // ── printable in, printable out ─────────────────────────────────────────

  predicate EnvPrintable(env: Env) {
    forall i :: 0 <= i < |env| ==> AllPrintable(env[i].0) && AllPrintable(env[i].1)
  }

  predicate WordsPrintable(words: seq<string>) {
    forall i :: 0 <= i < |words| ==> AllPrintable(words[i])
  }

  lemma {:induction false} DecimalPrintable(n: nat)
    ensures AllPrintable(Decimal(n))
  {
    if n >= 10 {
      DecimalPrintable(n / 10);
    }
  }

  lemma StatusPrintable(status: int)
    ensures AllPrintable(StatusText(status))
  {
    DecimalPrintable(if status < 0 then -status else status);
  }

  lemma {:induction false} LookupPrintable(env: Env, name: string)
    requires EnvPrintable(env)
    ensures Lookup(env, name).Some? ==> AllPrintable(Lookup(env, name).value)
  {
    if env != [] && env[0].0 != name {
      LookupPrintable(env[1..], name);
    }
  }

  lemma DollarPrintable(env: Env, status: int, s: string)
    requires EnvPrintable(env)
    ensures AllPrintable(Dollar(env, status, s).0)
  {
    StatusPrintable(status);
    LookupPrintable(env, s[..NameLength(s)]);
  }

  /** Expansion invents no control characters: words come from the command, the environment and the status. */
  lemma {:induction false} ExpansionPrintable(env: Env, status: int, mode: Mode, s: string, cur: string, has: bool)
    requires EnvPrintable(env) && AllPrintable(s) && AllPrintable(cur)
    ensures WordsPrintable(Words(env, status, mode, s, cur, has))
    decreases |s|
  {
    hide Dollar;
    if s == "" {
      return;
    }
    var c, rest := s[0], s[1..];
    assert Printable(s[0]);
    if c == '$' && mode != Single {
      DollarPrintable(env, status, rest);
      var (text, used) := Dollar(env, status, rest);
      ExpansionPrintable(env, status, mode, rest[used..], cur + text, if mode == Bare then has || text != "" else has);
    } else {
      ExpansionPrintable(env, status, Bare, rest, "", false);
      ExpansionPrintable(env, status, Bare, rest, cur, false);
      ExpansionPrintable(env, status, Bare, rest, cur, has);
      ExpansionPrintable(env, status, Bare, rest, cur + [c], true);
      ExpansionPrintable(env, status, Single, rest, cur, true);
      ExpansionPrintable(env, status, Double, rest, cur, true);
      ExpansionPrintable(env, status, Single, rest, cur + [c], has);
      ExpansionPrintable(env, status, Double, rest, cur + [c], has);
    }
  }

  lemma {:induction false} JoinedPrintable(words: seq<string>)
    requires WordsPrintable(words)
    ensures AllPrintable(Joined(words))
  {
    if |words| > 1 {
      JoinedPrintable(words[1..]);
    }
  }

  lemma {:induction false} PiecesPrintable(q: Quotes, cur: string, line: string)
    requires AllPrintable(cur) && AllPrintable(line)
    ensures WordsPrintable(Pieces(q, cur, line))
    decreases |line|
  {
    if line != "" {
      assert Printable(line[0]);
      if Cuts(q, line[0]) {
        PiecesPrintable(q, "", line[1..]);
      } else {
        PiecesPrintable(Toggle(q, line[0]), cur + [line[0]], line[1..]);
      }
    }
  }

  lemma {:induction false} RetainedPrintable(pieces: seq<string>)
    requires WordsPrintable(pieces)
    ensures WordsPrintable(FlatMap(UnlessBlank, pieces))
  {
    if pieces != [] {
      RetainedPrintable(pieces[1..]);
    }
  }

  // ── tidy answers ────────────────────────────────────────────────────────

  lemma {:induction false} EntriesTidy(env: Env)
    requires EnvPrintable(env)
    ensures Tidy(FlatMap(EntryLine, env))
  {
    if env != [] {
      EntriesTidy(env[1..]);
      TidyLine(true, env[0].0 + "=" + env[0].1);
      TidyConcat(true, EntryLine(env[0]), FlatMap(EntryLine, env[1..]));
    }
  }

  lemma ListingTidy(env: Env)
    requires EnvPrintable(env)
    ensures Tidy(Listing(env))
  {
    var size := "Environment size: " + Decimal(EnvSize(env)) + "/8188 bytes";
    EntriesTidy(env);
    DecimalPrintable(EnvSize(env));
    TidyLine(true, size);
    TidyLine(true, "");
    assert "" + CRLF == CRLF;
    TidyConcat(true, CRLF, size + CRLF);
    TidyConcat(true, FlatMap(EntryLine, env), CRLF + (size + CRLF));
  }

  lemma NameLineTidy(env: Env, name: string)
    requires EnvPrintable(env) && AllPrintable(name)
    ensures Tidy(NameLine(env, name))
  {
    LookupPrintable(env, name);
    match Lookup(env, name)
    case Some(v) => TidyLine(true, name + "=" + v);
    case None => TidyLine(true, "## Error: \"" + name + "\" not defined");
  }

  lemma {:induction false} NameLinesTidy(env: Env, names: seq<string>)
    requires EnvPrintable(env) && WordsPrintable(names)
    ensures Tidy(NameLines(env, names))
  {
    if names != [] {
      NameLineTidy(env, names[0]);
      NameLinesTidy(env, names[1..]);
      TidyConcat(true, NameLine(env, names[0]), NameLines(env, names[1..]));
    }
  }

  lemma {:induction false} InsertPrintable(env: Env, name: string, value: string)
    requires EnvPrintable(env) && AllPrintable(name) && AllPrintable(value)
    ensures EnvPrintable(Insert(env, name, value))
  {
    if env != [] && env[0].0 != name && !Less(name, env[0].0) {
      InsertPrintable(env[1..], name, value);
    }
  }

  lemma {:induction false} RemovePrintable(env: Env, name: string)
    requires EnvPrintable(env)
    ensures EnvPrintable(Remove(env, name))
  {
    if env != [] && env[0].0 != name {
      RemovePrintable(env[1..], name);
    }
  }

  lemma SetEnvPrintable(env: Env, words: seq<string>)
    requires EnvPrintable(env) && WordsPrintable(words)
    ensures EnvPrintable(SetEnv(env, words))
  {
    if |words| == 2 {
      RemovePrintable(env, words[1]);
    } else if |words| > 2 {
      JoinedPrintable(words[2..]);
      InsertPrintable(env, words[1], Joined(words[2..]));
    }
  }

  /** The fixed answers, and the complaints about an unknown command. */
  lemma FixedAnswersTidy(head: string)
    requires AllPrintable(head)
    ensures Tidy("sh: " + head + ": command not found" + CRLF)
    ensures Tidy("Unknown command '" + head + "' - try 'help'" + CRLF)
    ensures Tidy("U-Boot 2024.01-ttyforge-sim" + CRLF + CRLF)
  {
    hide TidyFrom;
    TidyLine(true, "sh: " + head + ": command not found");
    TidyLine(true, "Unknown command '" + head + "' - try 'help'");
    TidyLine(true, "U-Boot 2024.01-ttyforge-sim");
    TidyLine(true, "");
    assert "" + CRLF == CRLF;
    TidyConcat(true, "U-Boot 2024.01-ttyforge-sim" + CRLF, CRLF);
  }

  lemma NothingTidy()
    ensures Tidy("")
  {
  }

  lemma ExecutedTidy(sh: Shell, words: seq<string>)
    requires EnvPrintable(sh.env) && WordsPrintable(words)
    ensures EnvPrintable(Executed(sh, words).0.env) && Tidy(Executed(sh, words).1)
  {
    hide Listing, SetEnv, NameLines, Joined, AllPrintable, Tidy;
    NothingTidy();
    SetEnvPrintable(sh.env, words);
    ListingTidy(sh.env);
    if words != [] {
      JoinedPrintable(words[1..]);
      NameLinesTidy(sh.env, words[1..]);
      AnswerLineTidy(Joined(words[1..]));
      FixedAnswersTidy(words[0]);
    }
  }

  lemma AnswerLineTidy(text: string)
    requires AllPrintable(text)
    ensures Tidy(text + CRLF)
  {
    TidyLine(true, text);
  }

  lemma {:induction false} RanAllTidy(sh: Shell, cmds: seq<string>)
    requires EnvPrintable(sh.env) && WordsPrintable(cmds)
    ensures EnvPrintable(RanAll(sh, cmds).0.env) && Tidy(RanAll(sh, cmds).1)
    decreases |cmds|
  {
    hide Executed;
    if cmds != [] {
      var words := Expanded(sh.env, sh.lastStatus, cmds[0]);
      ExpansionPrintable(sh.env, sh.lastStatus, Bare, cmds[0], "", false);
      ExecutedTidy(sh, words);
      var (sh1, out) := Executed(sh, words);
      RanAllTidy(sh1, cmds[1..]);
      TidyConcat(true, out, RanAll(sh1, cmds[1..]).1);
    }
  }

  predicate ShellOk(sh: Shell) {
    EnvPrintable(sh.env)
  }

  lemma ShellNeat(kind: Kind)
    ensures Neat(ShellConsole(kind), ShellOk)
  {
    forall sh: Shell, line | ShellOk(sh) && AllPrintable(line)
      ensures ShellOk(Answered(sh, line).0) && Tidy(Answered(sh, line).1)
    {
      PiecesPrintable(OUTSIDE, "", line);
      RetainedPrintable(Pieces(OUTSIDE, "", line));
      RanAllTidy(sh, Commands(line));
    }
  }

  function PowerUp(kind: Kind): Shell {
    match kind
    case Posix => POSIX
    case Uboot => UBOOT
  }

  lemma LiteralsPrintable()
    ensures AllPrintable("arch") && AllPrintable("sandbox") && AllPrintable("baudrate") && AllPrintable("115200")
    ensures AllPrintable("board") && AllPrintable("ttyforge-sim") && AllPrintable("bootcmd")
  {
  }

  lemma MoreLiteralsPrintable()
    ensures AllPrintable("bootdelay") && AllPrintable("2") && AllPrintable("stderr") && AllPrintable("serial")
    ensures AllPrintable("stdin") && AllPrintable("stdout")
  {
  }

  lemma BootCommandPrintable()
    ensures AllPrintable("echo Hello from ttyforge")
  {
  }

  lemma PowerUpOk(kind: Kind)
    ensures ShellOk(PowerUp(kind))
  {
    hide AllPrintable;
    LiteralsPrintable();
    MoreLiteralsPrintable();
    BootCommandPrintable();
  }

  /** Screen agreement for the shell and U-Boot consoles, from power-up, for any typing in any reads. */
  lemma ShellScreenAgrees(kind: Kind, parts: seq<string>)
    requires AllTypable(Flatten(parts))
    ensures var con := ShellConsole(kind);
            var (d, out) := FedParts(con, Device(false, Session("", PowerUp(kind))), parts);
            Shows(Render(BLANK, con.prompt + out), con.prompt + d.session.line)
  {
    hide PowerUp, Shows, Neat;
    ShellNeat(kind);
    PowerUpOk(kind);
    ScreenAgrees(ShellConsole(kind), ShellOk, PowerUp(kind), parts);
  }

  /** And for the AT modem, which has no prompt. */
  lemma AtScreenAgrees(parts: seq<string>)
    requires AllTypable(Flatten(parts))
    ensures var (d, out) := FedParts(AT_CONSOLE, Device(false, Session("", ())), parts);
            Shows(Render(BLANK, out), d.session.line)
  {
    TidyLine(true, "OK");
    TidyLine(true, "ERROR");
    assert Neat(AT_CONSOLE, (h: ()) => true);
    ScreenAgrees(AT_CONSOLE, (h: ()) => true, (), parts);
    var (d, out) := FedParts(AT_CONSOLE, Device(false, Session("", ())), parts);
    assert "" + out == out && "" + d.session.line == d.session.line;
  }
}
