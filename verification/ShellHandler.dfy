/**
 * The shell and U-Boot presets: run the commands of a line in order, each expanded with
 * the environment and status the previous one left.
 */
module ShellHandler {
  import opened Common
  import opened LineDiscipline
  import opened ShellWords

  // ── the environment, an ordered map ─────────────────────────────────────

  /** Code-point order, which is the byte order of UTF-8. */
  predicate Less(a: string, b: string)
    decreases |a|
  {
    if b == "" then false
    else if a == "" then true
    else a[0] < b[0] || (a[0] == b[0] && Less(a[1..], b[1..]))
  }

  lemma {:induction false} LessOrders(a: string, b: string, c: string)
    ensures !Less(a, a)
    ensures Less(a, b) && Less(b, c) ==> Less(a, c)
    ensures a != b ==> Less(a, b) || Less(b, a)
    decreases |a|
  {
    if a != "" {
      LessOrders(a[1..], if b == "" then "" else b[1..], if c == "" then "" else c[1..]);
      if b != "" && a[0] == b[0] && a[1..] == b[1..] {
        assert a == b;
      }
    }
  }

  predicate Ordered(env: Env) {
    forall i, j :: 0 <= i < j < |env| ==> Less(env[i].0, env[j].0)
  }

  function Insert(env: Env, name: string, value: string): Env {
    if env == [] then [(name, value)]
    else if env[0].0 == name then [(name, value)] + env[1..]
    else if Less(name, env[0].0) then [(name, value)] + env
    else [env[0]] + Insert(env[1..], name, value)
  }

  function Remove(env: Env, name: string): Env {
    if env == [] then []
    else if env[0].0 == name then env[1..]
    else [env[0]] + Remove(env[1..], name)
  }

  lemma {:induction false} InsertOrdered(env: Env, name: string, value: string)
    requires Ordered(env)
    ensures Ordered(Insert(env, name, value))
    ensures forall i :: 0 <= i < |Insert(env, name, value)| ==>
      Insert(env, name, value)[i] == (name, value) || Insert(env, name, value)[i] in env
  {
    if env != [] && env[0].0 != name {
      if Less(name, env[0].0) {
        forall j | 0 <= j < |env|
          ensures Less(name, env[j].0)
        {
          LessOrders(name, env[0].0, env[j].0);
        }
      } else {
        InsertOrdered(env[1..], name, value);
        LessOrders(name, env[0].0, "");
        LessOrders(env[0].0, name, "");
      }
    }
  }

  lemma {:induction false} RemoveOrdered(env: Env, name: string)
    requires Ordered(env)
    ensures Ordered(Remove(env, name))
    ensures forall i :: 0 <= i < |Remove(env, name)| ==> Remove(env, name)[i] in env
  {
    if env != [] && env[0].0 != name {
      RemoveOrdered(env[1..], name);
    }
  }

  lemma {:induction false} LookupAfterInsert(env: Env, name: string, value: string, other: string)
    ensures Lookup(Insert(env, name, value), other) == if other == name then Some(value) else Lookup(env, other)
  {
    if env != [] && env[0].0 != name && !Less(name, env[0].0) {
      LookupAfterInsert(env[1..], name, value, other);
    }
  }

  lemma {:induction false} LookupAfterRemove(env: Env, name: string, other: string)
    requires Ordered(env)
    ensures Lookup(Remove(env, name), other) == if other == name then None else Lookup(env, other)
  {
    if env != [] {
      if env[0].0 == name {
        NotBelow(env[1..], name);
      } else {
        LookupAfterRemove(env[1..], name, other);
      }
    }
  }

  lemma {:induction false} NotBelow(env: Env, name: string)
    requires forall i :: 0 <= i < |env| ==> Less(name, env[i].0)
    ensures Lookup(env, name) == None
  {
    if env != [] {
      LessOrders(name, "", "");
      NotBelow(env[1..], name);
    }
  }

  // ── running commands ────────────────────────────────────────────────────

  datatype Kind = Posix | Uboot

  datatype Shell = Shell(kind: Kind, env: Env, lastStatus: int)

  const POSIX := Shell(Posix, [], 0)

  const UBOOT := Shell(Uboot, [
    ("arch", "sandbox"), ("baudrate", "115200"), ("board", "ttyforge-sim"), ("bootcmd", "echo Hello from ttyforge"),
    ("bootdelay", "2"), ("stderr", "serial"), ("stdin", "serial"), ("stdout", "serial")
  ], 0)

  function Joined(words: seq<string>): string {
    if words == [] then ""
    else if |words| == 1 then words[0]
    else words[0] + " " + Joined(words[1..])
  }

  function EntryLine(e: (string, string)): string {
    e.0 + "=" + e.1 + CRLF
  }

  function EnvSize(env: Env): nat {
    if env == [] then 0 else |env[0].0| + |env[0].1| + 2 + EnvSize(env[1..])
  }

  function Listing(env: Env): string {
    FlatMap(EntryLine, env) + (CRLF + ("Environment size: " + Decimal(EnvSize(env)) + "/8188 bytes" + CRLF))
  }

  function NameLine(env: Env, name: string): string {
    match Lookup(env, name)
    case Some(v) => name + "=" + v + CRLF
    case None => "## Error: \"" + name + "\" not defined" + CRLF
  }

  function NameLines(env: Env, names: seq<string>): string {
    if names == [] then "" else NameLine(env, names[0]) + NameLines(env, names[1..])
  }

  predicate AllDefined(env: Env, names: seq<string>) {
    forall i :: 0 <= i < |names| ==> Lookup(env, names[i]).Some?
  }

  function SetEnv(env: Env, words: seq<string>): Env {
    if |words| < 2 then env
    else if |words| == 2 then Remove(env, words[1])
    else Insert(env, words[1], Joined(words[2..]))
  }

  /** One command, already expanded into words. */
  function Executed(sh: Shell, words: seq<string>): (Shell, string) {
    if words == [] then (sh, "")
    else if words[0] == "echo" then (sh.(lastStatus := 0), Joined(words[1..]) + CRLF)
    else if words[0] == "true" then (sh.(lastStatus := 0), "")
    else if words[0] == "false" then (sh.(lastStatus := 1), "")
    else if words[0] == "printenv" && sh.kind == Uboot then
      if |words| == 1 then (sh.(lastStatus := 0), Listing(sh.env))
      else (sh.(lastStatus := if AllDefined(sh.env, words[1..]) then 0 else 1), NameLines(sh.env, words[1..]))
    else if words[0] == "setenv" && sh.kind == Uboot then
      (sh.(env := SetEnv(sh.env, words), lastStatus := 0), "")
    else if words[0] == "version" && sh.kind == Uboot then
      (sh.(lastStatus := 0), "U-Boot 2024.01-ttyforge-sim" + CRLF + CRLF)
    else if sh.kind == Posix then (sh.(lastStatus := 127), "sh: " + words[0] + ": command not found" + CRLF)
    else (sh.(lastStatus := 1), "Unknown command '" + words[0] + "' - try 'help'" + CRLF)
  }

  /** Expansion happens at execution time, with the status of the command before. */
  function Ran(sh: Shell, cmd: string): (Shell, string) {
    Executed(sh, Expanded(sh.env, sh.lastStatus, cmd))
  }

  function RanAll(sh: Shell, cmds: seq<string>): (Shell, string)
    decreases |cmds|
  {
    if cmds == [] then (sh, "")
    else
      var (sh1, out) := Ran(sh, cmds[0]);
      var (sh2, rest) := RanAll(sh1, cmds[1..]);
      (sh2, out + rest)
  }

  function Answered(sh: Shell, line: string): (Shell, string) {
    RanAll(sh, Commands(line))
  }

  lemma {:induction false} RanAllConcat(sh: Shell, a: seq<string>, b: seq<string>)
    ensures RanAll(sh, a + b) == (RanAll(RanAll(sh, a).0, b).0, RanAll(sh, a).1 + RanAll(RanAll(sh, a).0, b).1)
    decreases |a|
  {
    hide Ran;
    if a == [] {
      assert a + b == b;
      assert "" + RanAll(sh, b).1 == RanAll(sh, b).1;
    } else {
      assert (a + b)[1..] == a[1..] + b;
      var (sh1, out) := Ran(sh, a[0]);
      RanAllConcat(sh1, a[1..], b);
      Assoc(out, RanAll(sh1, a[1..]).1, RanAll(RanAll(sh, a).0, b).1);
    }
  }

  lemma RanAllOne(sh: Shell, cmd: string)
    ensures RanAll(sh, [cmd]) == Ran(sh, cmd)
  {
    hide Ran;
    var (sh1, out) := Ran(sh, cmd);
    assert [cmd][1..] == [] && RanAll(sh1, [cmd][1..]) == (sh1, "") && out + "" == out;
  }

  // ── the mutable shell ───────────────────────────────────────────────────

  class Handler {
    const kind: Kind
    var env: Env
    var lastStatus: int

    ghost function View(): Shell
      reads this
    {
      Shell(kind, env, lastStatus)
    }

    ghost predicate Valid()
      reads this
    {
      Ordered(env)
    }

    constructor Posix()
      ensures Valid() && View() == POSIX
    {
      kind, env, lastStatus := Kind.Posix, [], 0;
    }

    constructor Uboot()
      ensures Valid() && View() == UBOOT
    {
      kind, env, lastStatus := Kind.Uboot, UBOOT.env, 0;
      UbootOrdered();
    }

    method RunOne(cmd: string) returns (out: string)
      requires Valid()
      modifies this
      ensures Valid() && (View(), out) == Ran(old(View()), cmd)
    {
      var words := ExpandWords(env, lastStatus, cmd);
      if words == [] {
        return "";
      }
      var head := words[0];
      if head == "echo" {
        lastStatus := 0;
        out := Joined(words[1..]) + CRLF;
      } else if head == "true" {
        lastStatus := 0;
        out := "";
      } else if head == "false" {
        lastStatus := 1;
        out := "";
      } else if head == "printenv" && kind == Kind.Uboot {
        if |words| == 1 {
          out := ListEnv();
          lastStatus := 0;
        } else {
          out := PrintNames(words[1..]);
        }
      } else if head == "setenv" && kind == Kind.Uboot {
        if |words| == 2 {
          RemoveOrdered(env, words[1]);
          env := Remove(env, words[1]);
        } else if |words| > 2 {
          InsertOrdered(env, words[1], Joined(words[2..]));
          env := Insert(env, words[1], Joined(words[2..]));
        }
        lastStatus := 0;
        out := "";
      } else if head == "version" && kind == Kind.Uboot {
        lastStatus := 0;
        out := "U-Boot 2024.01-ttyforge-sim" + CRLF + CRLF;
      } else if kind == Kind.Posix {
        lastStatus := 127;
        out := "sh: " + head + ": command not found" + CRLF;
      } else {
        lastStatus := 1;
        out := "Unknown command '" + head + "' - try 'help'" + CRLF;
      }
    }

    /** `printenv` without arguments: every entry, and the total size. */
    method ListEnv() returns (out: string)
      ensures out == Listing(env)
    {
      out := "";
      var size := 0;
      for i := 0 to |env|
        invariant out == FlatMap(EntryLine, env[..i])
        invariant size + EnvSize(env[i..]) == EnvSize(env)
      {
        FlatMapSnoc(EntryLine, env[..i], env[i]);
        assert env[..i + 1] == env[..i] + [env[i]] && env[i..][1..] == env[i + 1..];
        out := out + EntryLine(env[i]);
        size := size + |env[i].0| + |env[i].1| + 2;
      }
      assert env[..|env|] == env;
      out := out + (CRLF + ("Environment size: " + Decimal(size) + "/8188 bytes" + CRLF));
    }

    /** `printenv` with names: each one or an error, and status 1 if any was missing. */
    method PrintNames(names: seq<string>) returns (out: string)
      modifies this`lastStatus
      ensures out == NameLines(env, names)
      ensures lastStatus == if AllDefined(env, names) then 0 else 1
    {
      out := "";
      lastStatus := 0;
      for i := 0 to |names|
        invariant out + NameLines(env, names[i..]) == NameLines(env, names)
        invariant lastStatus == if AllDefined(env, names[..i]) then 0 else 1
      {
        var name := names[i];
        Assoc(out, NameLine(env, name), NameLines(env, names[i + 1..]));
        assert names[i..][1..] == names[i + 1..] && names[..i + 1] == names[..i] + [name];
        assert names[..i + 1][i] == name;
        assert forall k :: 0 <= k < i ==> names[..i][k] == names[..i + 1][k];
        var value := Lookup(env, name);
        if value.Some? {
          out := out + (name + "=" + value.value + CRLF);
        } else {
          out := out + ("## Error: \"" + name + "\" not defined" + CRLF);
          lastStatus := 1;
        }
      }
      assert names[..|names|] == names;
    }

    method OnLine(line: string) returns (out: string)
      requires Valid()
      modifies this
      ensures Valid() && (View(), out) == Answered(old(View()), line)
    {
      hide Ran;
      out := "";
      var cmds := SplitCommands(line);
      ghost var sh := View();
      for i := 0 to |cmds|
        invariant Valid() && (View(), out) == RanAll(sh, cmds[..i])
      {
        RanAllConcat(sh, cmds[..i], [cmds[i]]);
        RanAllOne(View(), cmds[i]);
        assert cmds[..i + 1] == cmds[..i] + [cmds[i]];
        var said := RunOne(cmds[i]);
        out := out + said;
      }
      assert cmds[..|cmds|] == cmds;
    }
  }

  lemma UbootOrdered()
    ensures Ordered(UBOOT.env)
  {
    var names := ["arch", "baudrate", "board", "bootcmd", "bootdelay", "stderr", "stdin", "stdout"];
    assert Less(names[0], names[1]);
    assert Less(names[1], names[2]);
    assert Less(names[2], names[3]);
    assert Less(names[3], names[4]);
    assert Less(names[4], names[5]);
    assert Less(names[5], names[6]);
    assert Less(names[6], names[7]);
    AdjacentIsOrdered(UBOOT.env);
  }

  lemma AdjacentIsOrdered(env: Env)
    requires forall i :: 0 <= i < |env| - 1 ==> Less(env[i].0, env[i + 1].0)
    ensures Ordered(env)
  {
    forall i, j | 0 <= i < j < |env|
      ensures Less(env[i].0, env[j].0)
    {
      AdjacentChain(env, i, j);
    }
  }

  lemma {:induction false} AdjacentChain(env: Env, i: nat, j: nat)
    requires forall k :: 0 <= k < |env| - 1 ==> Less(env[k].0, env[k + 1].0)
    requires i < j < |env|
    ensures Less(env[i].0, env[j].0)
    decreases j
  {
    if i + 1 < j {
      AdjacentChain(env, i, j - 1);
      LessOrders(env[i].0, env[j - 1].0, env[j - 1 + 1].0);
    }
  }

  // ── setenv and printenv ─────────────────────────────────────────────────

  lemma AnsweredQuoted(sh: Shell, words: seq<string>)
    requires words != []
    ensures Answered(sh, QuoteScript([words])) == Executed(sh, words)
  {
    hide Executed, Commands;
    QuotedScriptSplits([words]);
    var cmds := Commands(QuoteScript([words]));
    assert cmds == [QuoteWords(words)];
    RanAllOne(sh, QuoteWords(words));
    QuotedWordsExpand(sh.env, sh.lastStatus, words);
  }

  /**
   * Environment round trip at the console: after `setenv name value`, each word quoted,
   * `printenv` of any name prints the new value for that name and what it printed before
   * for every other, and reports exactly whether the name is defined.
   */
  lemma SetenvPrintenv(sh: Shell, name: string, value: string, other: string)
    requires sh.kind == Uboot
    ensures var (sh1, _) := Answered(sh, QuoteScript([["setenv", name, value]]));
            var (sh2, out) := Answered(sh1, QuoteScript([["printenv", other]]));
            && out == (if other == name then name + "=" + value + CRLF else NameLine(sh.env, other))
            && (sh2.lastStatus == 0 <==> other == name || Lookup(sh.env, other).Some?)
  {
    hide Answered, QuoteScript;
    AnsweredQuoted(sh, ["setenv", name, value]);
    var sh1 := Answered(sh, QuoteScript([["setenv", name, value]])).0;
    assert ["setenv", name, value][2..] == [value];
    assert sh1.env == Insert(sh.env, name, value);
    AnsweredQuoted(sh1, ["printenv", other]);
    LookupAfterInsert(sh.env, name, value, other);
    assert ["printenv", other][1..] == [other];
    assert [other][1..] == [];
    assert NameLines(sh1.env, [other]) == NameLine(sh1.env, other) + NameLines(sh1.env, [other][1..]);
    assert NameLine(sh1.env, other) + "" == NameLine(sh1.env, other);
    assert AllDefined(sh1.env, [other]) <==> Lookup(sh1.env, [other][0]).Some?;
  }

  /** `setenv name` with no value undefines exactly that name. */
  lemma SetenvUndefines(sh: Shell, name: string, other: string)
    requires sh.kind == Uboot && Ordered(sh.env)
    ensures Lookup(Answered(sh, QuoteScript([["setenv", name]])).0.env, other)
         == if other == name then None else Lookup(sh.env, other)
  {
    hide Answered, QuoteScript;
    AnsweredQuoted(sh, ["setenv", name]);
    LookupAfterRemove(sh.env, name, other);
  }
}
