/** Command-line tokens: reading one option, and the regions of a command line. */
module CliGrammar {
  import opened Options

  datatype Kind = Bare | Required | Optional | Inspect

  /** The option vocabulary and its short spellings. */
  datatype Grammar = Grammar(registry: map<string, Kind>, aliases: map<string, string>, commands: set<string>)

  datatype Value = Flag(on: bool) | Text(text: string)

  /** `tokens` is the original spelling, a separate value included. */
  datatype Parsed = Parsed(name: string, value: Value, tokens: seq<string>)

  datatype Head = Head(name: string, inline: Option<string>)

  function IndexOf(s: string, c: char): (i: nat)
    ensures i <= |s|
    ensures i < |s| ==> s[i] == c
    ensures forall k :: 0 <= k < i ==> s[k] != c
  {
    if s == "" || s[0] == c then 0 else 1 + IndexOf(s[1..], c)
  }

  function BeforeEquals(token: string): string { token[..IndexOf(token, '=')] }

  function AfterEquals(token: string): Option<string> {
    var at := IndexOf(token, '=');
    if at == |token| then None else Some(token[at + 1..])
  }

  predicate Starts(s: string, prefix: string) { prefix <= s }

  predicate IsNoopFamily(name: string) {
    Starts(name, "allow-") || Starts(name, "deny-") || Starts(name, "unstable-")
  }

  function OptionHead(g: Grammar, token: string, nodeOptions: bool): Head {
    var head := BeforeEquals(token);
    var inline := AfterEquals(token);
    if nodeOptions && head == "-r" then Head("require", inline)
    else if head in g.aliases then Head(g.aliases[head], inline)
    else
      var short := if !Starts(token, "--") && |token| > 2 then ShortName(g, token[..2], nodeOptions) else None;
      if short.Some? && !(short.value in g.registry && g.registry[short.value] == Bare) then
        Head(short.value, Some(if token[2] == '=' then token[3..] else token[2..]))
      else Head(if Starts(head, "--") then head[2..] else if |head| == 2 then head[1..] else head, inline)
  }

  function ShortName(g: Grammar, short: string, nodeOptions: bool): Option<string> {
    if nodeOptions && short == "-r" then Some("require")
    else if short in g.aliases then Some(g.aliases[short])
    else None
  }

  predicate IsOption(token: string) { Starts(token, "-") && token != "-" }

  predicate CanConsumeValue(g: Grammar, token: Option<string>, nodeOptions: bool) {
    token.Some? && token.value != "--" &&
    (!IsOption(token.value) ||
     (!Starts(token.value, "--") &&
      var name := OptionHead(g, token.value, nodeOptions).name;
      name !in g.registry && !IsNoopFamily(name) && token.value != "-e"))
  }

  predicate IsDigit(c: char) { '0' <= c <= '9' }
  predicate IsHostChar(c: char) { IsDigit(c) || 'a' <= c <= 'z' || 'A' <= c <= 'Z' || c == '.' || c == '-' }
  predicate IsAddressChar(c: char) { IsDigit(c) || 'a' <= c <= 'f' || 'A' <= c <= 'F' || c == ':' || c == '.' || c == '%' }

  predicate AllOf(s: string, p: char -> bool) { forall i :: 0 <= i < |s| ==> p(s[i]) }

  /** A port, host:port, or [address]:port. */
  predicate IsInspectAddress(t: string) {
    || (t != "" && AllOf(t, IsDigit))
    || (exists k :: 0 < k < |t| - 1 && t[k] == ':' && AllOf(t[..k], IsHostChar) && AllOf(t[k + 1..], IsDigit))
    || (exists k :: 1 < k < |t| - 2 && t[k] == ']' && t[k + 1] == ':' && t[0] == '['
          && AllOf(t[1..k], IsAddressChar) && AllOf(t[k + 2..], IsDigit))
  }

  function Next(tokens: seq<string>): Option<string> {
    if |tokens| > 1 then Some(tokens[1]) else None
  }

  predicate TakesNext(g: Grammar, name: string, next: Option<string>, nodeOptions: bool) {
    name in g.registry && next.Some? && match g.registry[name]
      case Inspect => IsInspectAddress(next.value)
      case Bare => false
      case _ => CanConsumeValue(g, next, nodeOptions)
  }

  function InlineValue(g: Grammar, name: string, inline: string): Value {
    if name in g.registry && g.registry[name] in {Bare, Inspect} && inline in {"true", "false"} then Flag(inline == "true")
    else Text(inline)
  }

  /** The option at the head of `tokens`, with the value it takes. */
  function ReadOption(g: Grammar, tokens: seq<string>, nodeOptions: bool): (o: Parsed)
    requires tokens != []
    ensures 1 <= |o.tokens| <= 2 && o.tokens <= tokens
  {
    var head := OptionHead(g, tokens[0], nodeOptions);
    if head.inline.Some? then Parsed(head.name, InlineValue(g, head.name, head.inline.value), tokens[..1])
    else if TakesNext(g, head.name, Next(tokens), nodeOptions) then Parsed(head.name, Text(tokens[1]), tokens[..2])
    else Parsed(head.name, Flag(true), tokens[..1])
  }

  /** Reading looks at the token and at most one more. */
  lemma ReadOptionLooksAtTwo(g: Grammar, a: seq<string>, b: seq<string>, nodeOptions: bool)
    requires a != [] && b != [] && a[0] == b[0] && Next(a) == Next(b)
    ensures ReadOption(g, a, nodeOptions) == ReadOption(g, b, nodeOptions)
  {
    assert a[..1] == b[..1];
    if |a| > 1 { assert a[..2] == b[..2]; }
  }

  function Tokens(options: seq<Parsed>): seq<string> {
    if options == [] then [] else options[0].tokens + Tokens(options[1..])
  }

  // ───────────── the regions of a command line ─────────────

  /** `command` holds the options after the command, `kernel` those before it. */
  datatype Cli = Cli(cmd: Option<string>, decided: bool, entryFound: bool, positional: seq<string>,
                     kernel: seq<Parsed>, command: seq<Parsed>, synthetic: seq<Parsed>)

  const Fresh := Cli(None, false, false, [], [], [], [])

  predicate EntryStopsOptions(cmd: Option<string>) {
    cmd.None? || cmd.value in {"run", "serve", "exec", "task", "eval"}
  }

  predicate IsEvalToken(token: string) {
    BeforeEquals(token) in {"-e", "-p", "-pe", "-ep", "--eval", "--print"}
  }

  predicate Prints(token: string) {
    BeforeEquals(token) in {"-p", "--print", "-pe", "-ep"}
  }

  /** One iteration of the loop: what is left of the tokens, and the new state. */
  function Step(g: Grammar, ts: seq<string>, s: Cli): (r: (seq<string>, Cli))
    requires ts != []
    ensures |r.0| < |ts|
  {
    var token := ts[0];
    if s.entryFound then ([], s.(positional := s.positional + ts))
    else if token == "--" then
      ([], s.(positional := s.positional + (if s.cmd == Some("test") then ["--"] else []) + ts[1..]))
    else if !s.decided && token in {"-h", "--help", "-v", "--version"} then
      (ts[1..], s.(cmd := Some(if token in {"-h", "--help"} then "help" else "version"), decided := true))
    else if !s.decided && IsEvalToken(token) then Eval(ts, s)
    else if IsOption(token) then
      var o := ReadOption(g, ts, false);
      (ts[|o.tokens|..], if s.decided then s.(command := s.command + [o]) else s.(kernel := s.kernel + [o]))
    else if !s.decided then
      (ts[1..], if token in g.commands then s.(decided := true, cmd := Some(token))
                else s.(decided := true, positional := s.positional + [token], entryFound := true))
    else (ts[1..], s.(positional := s.positional + [token], entryFound := EntryStopsOptions(s.cmd)))
  }

  function Eval(ts: seq<string>, s: Cli): (r: (seq<string>, Cli))
    requires ts != []
    ensures |r.0| < |ts| && r.1.cmd == Some("eval") && r.1.decided && r.1.kernel == s.kernel
  {
    var printing := if Prints(ts[0]) then [Parsed("print", Flag(true), [])] else [];
    var decided := s.(cmd := Some("eval"), decided := true, synthetic := s.synthetic + printing);
    var inline := AfterEquals(ts[0]);
    if inline.Some? then (ts[1..], decided.(positional := s.positional + [inline.value], entryFound := true))
    else if |ts| > 1 then (ts[2..], decided.(positional := s.positional + [ts[1]], entryFound := true))
    else ([], decided)
  }

  function ParseFrom(g: Grammar, ts: seq<string>, s: Cli): Cli
    decreases |ts|
  {
    if ts == [] then s else var (rest, next) := Step(g, ts, s); ParseFrom(g, rest, next)
  }

  function ParseArgv(g: Grammar, argv: seq<string>): Cli { ParseFrom(g, argv, Fresh) }

  /** `-e` and its kin: the next token is the program, whatever it looks like. */
  method ParseEval(argv: seq<string>, i: nat, cli: Cli) returns (next: nat, r: Cli)
    requires i < |argv|
    ensures i < next <= |argv| && (argv[next..], r) == Eval(argv[i..], cli)
  {
    var token := argv[i];
    next, r := i + 1, cli.(cmd := Some("eval"), decided := true);
    if Prints(token) {
      r := r.(synthetic := r.synthetic + [Parsed("print", Flag(true), [])]);
    } else {
      assert cli.synthetic + [] == cli.synthetic;
    }
    var inline := AfterEquals(token);
    if inline.Some? {
      r := r.(positional := r.positional + [inline.value], entryFound := true);
    } else if next < |argv| {
      r := r.(positional := r.positional + [argv[next]], entryFound := true);
      next := next + 1;
    }
    assert argv[i..][1..] == argv[i + 1..];
    if i + 1 < |argv| { assert argv[i..][2..] == argv[i + 2..]; }
  }

  method ParseOption(g: Grammar, argv: seq<string>, i: nat, cli: Cli) returns (next: nat, r: Cli)
    requires i < |argv|
    ensures var o := ReadOption(g, argv[i..], false);
      && i < next <= |argv| && argv[next..] == argv[i..][|o.tokens|..]
      && r == if cli.decided then cli.(command := cli.command + [o]) else cli.(kernel := cli.kernel + [o])
  {
    var o := ReadOption(g, argv[i..], false);
    r := if cli.decided then cli.(command := cli.command + [o]) else cli.(kernel := cli.kernel + [o]);
    next := i + |o.tokens|;
  }

  /** One iteration of the loop over the command line. */
  method ParseToken(g: Grammar, argv: seq<string>, i: nat, cli: Cli) returns (next: nat, r: Cli)
    requires i < |argv|
    ensures i < next <= |argv| && (argv[next..], r) == Step(g, argv[i..], cli)
  {
    var token := argv[i];
    assert argv[i..][0] == token && argv[i..][1..] == argv[i + 1..] && argv[|argv|..] == [];
    next, r := i + 1, cli;
    if cli.entryFound {
      return |argv|, cli.(positional := cli.positional + argv[i..]);
    }
    if token == "--" {
      if cli.cmd == Some("test") { r := r.(positional := r.positional + ["--"]); } else { assert cli.positional + [] == cli.positional; }
      return |argv|, r.(positional := r.positional + argv[i + 1..]);
    }
    if !cli.decided && token in {"-h", "--help", "-v", "--version"} {
      r := r.(cmd := Some(if token in {"-h", "--help"} then "help" else "version"), decided := true);
      return;
    }
    if !cli.decided && IsEvalToken(token) {
      next, r := ParseEval(argv, i, cli);
      return;
    }
    if IsOption(token) {
      next, r := ParseOption(g, argv, i, cli);
      return;
    }
    if cli.decided {
      r := r.(positional := r.positional + [token], entryFound := EntryStopsOptions(r.cmd));
    } else if token in g.commands {
      r := r.(decided := true, cmd := Some(token));
    } else {
      r := r.(decided := true, positional := r.positional + [token], entryFound := true);
    }
  }

  method ParseArgvLoop(g: Grammar, argv: seq<string>) returns (cli: Cli)
    ensures cli == ParseArgv(g, argv)
  {
    cli := Fresh;
    var i := 0;
    while i < |argv|
      invariant 0 <= i <= |argv|
      invariant ParseFrom(g, argv[i..], cli) == ParseArgv(g, argv)
    {
      i, cli := ParseToken(g, argv, i, cli);
    }
    assert argv[i..] == [];
  }
}
