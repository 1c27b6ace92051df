/** The test command runs every file in a child process that parses the options again, from
    the tokens of the kernel options, the word `test`, and the tokens of the command options. */
module CliReparse {
  import opened Options
  import opened CliGrammar

  // ───────────── the region behind `test` ─────────────

  function TestOptions(g: Grammar, ts: seq<string>): seq<Parsed>
    decreases |ts|
  {
    if ts == [] || ts[0] == "--" then []
    else if IsOption(ts[0]) then
      var o := ReadOption(g, ts, false);
      [o] + TestOptions(g, ts[|o.tokens|..])
    else TestOptions(g, ts[1..])
  }

  function TestPositional(g: Grammar, ts: seq<string>): seq<string>
    decreases |ts|
  {
    if ts == [] then []
    else if ts[0] == "--" then ts
    else if IsOption(ts[0]) then TestPositional(g, ts[|ReadOption(g, ts, false).tokens|..])
    else [ts[0]] + TestPositional(g, ts[1..])
  }

  predicate InTest(s: Cli) { s.cmd == Some("test") && s.decided && !s.entryFound }

  function Extended(s: Cli, command: seq<Parsed>, positional: seq<string>): Cli {
    s.(command := s.command + command, positional := s.positional + positional)
  }

  lemma ExtendedTwice(s: Cli, c: seq<Parsed>, p: seq<string>, d: seq<Parsed>, q: seq<string>)
    ensures Extended(s, [], []) == s
    ensures Extended(Extended(s, c, p), d, q) == Extended(s, c + d, p + q)
  {
    assert s.command + c + d == s.command + (c + d) && s.positional + p + q == s.positional + (p + q);
    assert s.command + [] == s.command && s.positional + [] == s.positional;
  }

  /** One token in the region. */
  lemma TestStep(g: Grammar, ts: seq<string>, s: Cli)
    requires InTest(s) && ts != []
    ensures ts[0] == "--" ==> Step(g, ts, s) == ([], Extended(s, [], ts))
    ensures ts[0] != "--" && IsOption(ts[0]) ==>
      Step(g, ts, s) == (ts[|ReadOption(g, ts, false).tokens|..], Extended(s, [ReadOption(g, ts, false)], []))
    ensures ts[0] != "--" && !IsOption(ts[0]) ==> Step(g, ts, s) == (ts[1..], Extended(s, [], [ts[0]]))
  {
    assert s.command + [] == s.command && s.positional + [] == s.positional;
    if ts[0] == "--" {
      assert ["--"] + ts[1..] == ts;
      assert s.positional + ["--"] + ts[1..] == s.positional + (["--"] + ts[1..]);
    }
  }

  lemma {:induction false} TestRegion(g: Grammar, ts: seq<string>, s: Cli)
    requires InTest(s)
    ensures ParseFrom(g, ts, s) == Extended(s, TestOptions(g, ts), TestPositional(g, ts))
    decreases |ts|
  {
    ExtendedTwice(s, [], [], [], []);
    if ts != [] {
      TestStep(g, ts, s);
      var (rest, next) := Step(g, ts, s);
      TestRegion(g, rest, next);
      var c, p := if ts[0] != "--" && IsOption(ts[0]) then [ReadOption(g, ts, false)] else [],
        if ts[0] == "--" then ts else if IsOption(ts[0]) then [] else [ts[0]];
      assert next == Extended(s, c, p);
      ExtendedTwice(s, c, p, TestOptions(g, rest), TestPositional(g, rest));
      RegionStep(g, ts, c, p, rest);
    }
  }

  lemma RegionStep(g: Grammar, ts: seq<string>, c: seq<Parsed>, p: seq<string>, rest: seq<string>)
    requires ts != []
    requires ts[0] == "--" ==> c == [] && p == ts && rest == []
    requires ts[0] != "--" && IsOption(ts[0]) ==>
      c == [ReadOption(g, ts, false)] && p == [] && rest == ts[|ReadOption(g, ts, false).tokens|..]
    requires ts[0] != "--" && !IsOption(ts[0]) ==> c == [] && p == [ts[0]] && rest == ts[1..]
    ensures TestOptions(g, ts) == c + TestOptions(g, rest) && TestPositional(g, ts) == p + TestPositional(g, rest)
  {
  }

  // ───────────── the region in front of it ─────────────

  lemma {:induction false} Decided(g: Grammar, ts: seq<string>, s: Cli)
    requires s.decided
    ensures ParseFrom(g, ts, s).cmd == s.cmd && ParseFrom(g, ts, s).kernel == s.kernel
    decreases |ts|
  {
    if ts != [] {
      var (rest, next) := Step(g, ts, s);
      Decided(g, rest, next);
    }
  }

  predicate Undecided(s: Cli) { s.cmd.None? && !s.decided && !s.entryFound }

  function DecideTest(s: Cli, k: seq<Parsed>): Cli {
    s.(decided := true, cmd := Some("test"), kernel := s.kernel + k)
  }

  /** The next token is an option in front of the command. */
  predicate Leading(token: string) {
    IsOption(token) && token != "--" && token !in {"-h", "--help", "-v", "--version"} && !IsEvalToken(token)
  }

  /** The options `k` are read off the front of `ts`; then comes the word `test`. */
  predicate LeadsTo(g: Grammar, ts: seq<string>, s: Cli, k: seq<Parsed>, rest: seq<string>)
    decreases |k|
  {
    && Undecided(s) && ts != []
    && if k == [] then ts == ["test"] + rest
       else
         var o := ReadOption(g, ts, false);
         Leading(ts[0]) && k[0] == o && LeadsTo(g, ts[|o.tokens|..], s.(kernel := s.kernel + [o]), k[1..], rest)
  }

  lemma Leads(g: Grammar, ts: seq<string>, s: Cli)
    requires ts != [] && Undecided(s) && Leading(ts[0])
    ensures var o := ReadOption(g, ts, false);
      && Step(g, ts, s) == (ts[|o.tokens|..], s.(kernel := s.kernel + [o]))
      && ParseFrom(g, ts, s) == ParseFrom(g, ts[|o.tokens|..], s.(kernel := s.kernel + [o]))
      && ts == o.tokens + ts[|o.tokens|..]
  {
  }

  /** Every `test` command line starts that way. */
  lemma {:induction false} Prefix(g: Grammar, ts: seq<string>, s: Cli) returns (k: seq<Parsed>, rest: seq<string>)
    requires Undecided(s) && ParseFrom(g, ts, s).cmd == Some("test")
    ensures LeadsTo(g, ts, s, k, rest)
    decreases |ts|
  {
    NotLeading(g, ts, s);
    if !Leading(ts[0]) {
      assert ts == ["test"] + ts[1..];
      return [], ts[1..];
    }
    Leads(g, ts, s);
    var o := ReadOption(g, ts, false);
    var k0;
    k0, rest := Prefix(g, ts[|o.tokens|..], s.(kernel := s.kernel + [o]));
    k := [o] + k0;
    assert k[1..] == k0;
  }

  lemma {:induction false} LeadsTokens(g: Grammar, ts: seq<string>, s: Cli, k: seq<Parsed>, rest: seq<string>)
    requires LeadsTo(g, ts, s, k, rest)
    ensures ts == Tokens(k) + ["test"] + rest
    decreases |k|
  {
    if k != [] {
      var o := ReadOption(g, ts, false);
      LeadsTokens(g, ts[|o.tokens|..], s.(kernel := s.kernel + [o]), k[1..], rest);
      assert ts == o.tokens + (Tokens(k[1..]) + ["test"] + rest);
    }
  }

  lemma SameFront(g: Grammar, ts: seq<string>, o: Parsed, p: seq<string>, rest: seq<string>, x: seq<string>)
    requires p != [] && ts != [] && o == ReadOption(g, ts, false) && ts[|o.tokens|..] == p + rest
    ensures var again := o.tokens + (p + x);
      again[0] == ts[0] && ReadOption(g, again, false) == o && again[|o.tokens|..] == p + x
  {
    var again := o.tokens + (p + x);
    assert ts == o.tokens + (p + rest);
    assert (p + rest)[0] == p[0] == (p + x)[0];
    assert ts[0] == again[0] && ts[1] == again[1];
    ReadOptionLooksAtTwo(g, ts, again, false);
  }

  /** What is behind the word does not matter to what is in front of it. */
  lemma {:induction false} LeadsAgain(g: Grammar, ts: seq<string>, s: Cli, k: seq<Parsed>, rest: seq<string>, x: seq<string>)
    requires LeadsTo(g, ts, s, k, rest)
    ensures LeadsTo(g, Tokens(k) + ["test"] + x, s, k, x)
    decreases |k|
  {
    if k != [] {
      var o := ReadOption(g, ts, false);
      var next := s.(kernel := s.kernel + [o]);
      LeadsTokens(g, ts[|o.tokens|..], next, k[1..], rest);
      LeadsAgain(g, ts[|o.tokens|..], next, k[1..], rest, x);
      var p := Tokens(k[1..]) + ["test"];
      SameFront(g, ts, o, p, rest, x);
      TokensBefore(k, x);
      LeadsMore(g, o.tokens + (p + x), s, k, x);
    }
  }

  lemma LeadsMore(g: Grammar, again: seq<string>, s: Cli, k: seq<Parsed>, x: seq<string>)
    requires again != [] && Undecided(s) && Leading(again[0]) && k != [] && k[0] == ReadOption(g, again, false)
    requires LeadsTo(g, again[|k[0].tokens|..], s.(kernel := s.kernel + [k[0]]), k[1..], x)
    ensures LeadsTo(g, again, s, k, x)
  {
  }

  lemma TokensBefore(k: seq<Parsed>, x: seq<string>)
    requires k != []
    ensures Tokens(k) + ["test"] + x == k[0].tokens + (Tokens(k[1..]) + ["test"] + x)
  {
    Regroup(k[0].tokens, Tokens(k[1..]), ["test"], x);
  }

  lemma Regroup<T>(a: seq<T>, b: seq<T>, c: seq<T>, d: seq<T>)
    ensures a + b + c + d == a + (b + c + d)
  {
  }

  lemma {:induction false} LeadsParse(g: Grammar, ts: seq<string>, s: Cli, k: seq<Parsed>, rest: seq<string>)
    requires "test" in g.commands && LeadsTo(g, ts, s, k, rest)
    ensures ParseFrom(g, ts, s) == ParseFrom(g, rest, DecideTest(s, k))
    decreases |k|
  {
    if k == [] {
      assert ts[0] == "test" && ts[1..] == rest;
      TestWord(g, ts, s);
    } else {
      var o := ReadOption(g, ts, false);
      var next := s.(kernel := s.kernel + [o]);
      Leads(g, ts, s);
      LeadsParse(g, ts[|o.tokens|..], next, k[1..], rest);
      DecideMore(s, k);
    }
  }

  lemma TestWord(g: Grammar, ts: seq<string>, s: Cli)
    requires "test" in g.commands && Undecided(s) && ts != [] && ts[0] == "test"
    ensures ParseFrom(g, ts, s) == ParseFrom(g, ts[1..], DecideTest(s, []))
  {
    NotEval();
    assert s.kernel + [] == s.kernel;
    assert Step(g, ts, s) == (ts[1..], DecideTest(s, []));
  }

  lemma DecideMore(s: Cli, k: seq<Parsed>)
    requires k != []
    ensures DecideTest(s.(kernel := s.kernel + [k[0]]), k[1..]) == DecideTest(s, k)
  {
    assert s.kernel + [k[0]] + k[1..] == s.kernel + k;
  }

  lemma NotEval()
    ensures !IsEvalToken("test") && !IsOption("test") && "test" !in {"-h", "--help", "-v", "--version"} && "test" != "--"
  {
    assert "test"[0] != '-';
    assert "test"[0] != '=' && "test"[1] != '=' && "test"[2] != '=' && "test"[3] != '=';
    assert BeforeEquals("test") == "test";
  }

  /** Nothing but the word itself makes the command `test`. */
  lemma NotLeading(g: Grammar, ts: seq<string>, s: Cli)
    requires Undecided(s) && ParseFrom(g, ts, s).cmd == Some("test")
    ensures ts != []
    ensures !Leading(ts[0]) ==> ts[0] == "test"
  {
    var (tail, next) := Step(g, ts, s);
    if next.decided { Decided(g, tail, next); }
    OtherCommands();
    assert ParseFrom(g, [], next) == next;
  }

  lemma OtherCommands()
    ensures "help" != "test" && "eval" != "test" && "version" != "test"
  {
    assert "help"[0] != "test"[0] && "eval"[0] != "test"[0] && "version"[0] != "test"[0];
  }

  // ───────────── reading the options again ─────────────

  /** A bare inspect option would take the first token of `b` for its address. */
  predicate Swallows(g: Grammar, a: Parsed, b: Parsed)
    requires a.tokens != [] && b.tokens != []
  {
    && |a.tokens| == 1 && OptionHead(g, a.tokens[0], false).inline.None?
    && a.name in g.registry && g.registry[a.name] == Inspect
    && IsInspectAddress(b.tokens[0])
  }

  predicate NoneSwallowed(g: Grammar, options: seq<Parsed>)
    requires forall o :: o in options ==> o.tokens != []
  {
    forall i :: 0 <= i < |options| - 1 ==> !Swallows(g, options[i], options[i + 1])
  }

  lemma {:induction false} OptionsRead(g: Grammar, ts: seq<string>)
    ensures forall o :: o in TestOptions(g, ts) ==> o.tokens != [] && IsOption(o.tokens[0]) && o.tokens[0] != "--"
    decreases |ts|
  {
    if ts == [] || ts[0] == "--" {
    } else if IsOption(ts[0]) {
      OptionsRead(g, ts[|ReadOption(g, ts, false).tokens|..]);
    } else {
      OptionsRead(g, ts[1..]);
    }
  }

  /** An option without a value reads the same once the positionals behind it are gone,
      unless it is an inspect option and an address-like option follows. */
  lemma ReadAgain(g: Grammar, ts: seq<string>, rest: seq<Parsed>)
    requires ts != [] && IsOption(ts[0]) && ts[0] != "--"
    requires var o := ReadOption(g, ts, false); rest == TestOptions(g, ts[|o.tokens|..])
    requires forall o :: o in rest ==> o.tokens != []
    ensures var o := ReadOption(g, ts, false);
      ReadOption(g, o.tokens + Tokens(rest), false) == o <==> rest == [] || !Swallows(g, o, rest[0])
  {
    var o := ReadOption(g, ts, false);
    var again := o.tokens + Tokens(rest);
    var head := OptionHead(g, ts[0], false);
    assert again[0] == ts[0];
    if head.inline.Some? {
      assert again[..1] == ts[..1];
    } else if |o.tokens| == 2 {
      assert Next(again) == Next(ts);
      ReadOptionLooksAtTwo(g, ts, again, false);
    } else {
      assert again[..1] == ts[..1] && o.name == head.name;
      if rest != [] {
        assert Tokens(rest)[0] == rest[0].tokens[0] && Next(again) == Some(rest[0].tokens[0]);
        if head.name in g.registry && g.registry[head.name] in {Required, Optional} { StillBare(g, ts, rest); }
      } else {
        assert Next(again) == None;
      }
      assert TakesNext(g, head.name, Next(again), false) <==> rest != [] && Swallows(g, o, rest[0]);
    }
  }

  lemma StillBare(g: Grammar, ts: seq<string>, rest: seq<Parsed>)
    requires ts != [] && |ReadOption(g, ts, false).tokens| == 1 && OptionHead(g, ts[0], false).inline.None?
    requires var name := OptionHead(g, ts[0], false).name; name in g.registry && g.registry[name] in {Required, Optional}
    requires rest == TestOptions(g, ts[1..]) && rest != []
    ensures rest[0].tokens != [] && !CanConsumeValue(g, Some(rest[0].tokens[0]), false)
  {
    assert !CanConsumeValue(g, Next(ts), false);
    assert ts[1..][0] == ts[1];
    assert IsOption(ts[1]) && rest[0] == ReadOption(g, ts[1..], false);
  }

  /** Reading the options' own tokens gives the same options, exactly when no bare inspect
      option comes before one that looks like an address; then nothing is positional. */
  lemma {:induction false} OptionsAgain(g: Grammar, ts: seq<string>)
    requires forall o :: o in TestOptions(g, ts) ==> o.tokens != []
    ensures TestOptions(g, Tokens(TestOptions(g, ts))) == TestOptions(g, ts) <==> NoneSwallowed(g, TestOptions(g, ts))
    ensures NoneSwallowed(g, TestOptions(g, ts)) ==> TestPositional(g, Tokens(TestOptions(g, ts))) == []
    decreases |ts|
  {
    if ts == [] || ts[0] == "--" {
    } else if IsOption(ts[0]) {
      var o := ReadOption(g, ts, false);
      var rest := TestOptions(g, ts[|o.tokens|..]);
      var options := [o] + rest;
      assert options == TestOptions(g, ts) && options[1..] == rest;
      forall x | x in rest ensures x.tokens != [] { assert x in options; }
      OptionsAgain(g, ts[|o.tokens|..]);
      ReadAgain(g, ts, rest);
      Swallowed(g, o, rest);
      var again := o.tokens + Tokens(rest);
      assert again == Tokens(options) && again[0] == ts[0];
      if rest == [] || !Swallows(g, o, rest[0]) {
        assert again[|o.tokens|..] == Tokens(rest);
        assert TestOptions(g, again) == [o] + TestOptions(g, Tokens(rest));
        Heads(o, TestOptions(g, Tokens(rest)), rest);
      } else {
        assert TestOptions(g, again)[0] == ReadOption(g, again, false) && options[0] == o;
      }
    } else {
      OptionsAgain(g, ts[1..]);
    }
  }

  lemma Heads<T>(x: T, a: seq<T>, b: seq<T>)
    ensures [x] + a == [x] + b <==> a == b
  {
    assert ([x] + a)[1..] == a && ([x] + b)[1..] == b;
  }

  lemma Swallowed(g: Grammar, o: Parsed, rest: seq<Parsed>)
    requires o.tokens != [] && forall x :: x in rest ==> x.tokens != []
    ensures NoneSwallowed(g, [o] + rest) <==> (rest == [] || !Swallows(g, o, rest[0])) && NoneSwallowed(g, rest)
  {
    var options := [o] + rest;
    if NoneSwallowed(g, options) {
      forall i | 0 <= i < |rest| - 1 ensures !Swallows(g, rest[i], rest[i + 1]) {
        assert !Swallows(g, options[i + 1], options[i + 2]);
      }
      assert rest != [] ==> !Swallows(g, options[0], options[1]);
    }
    if (rest == [] || !Swallows(g, o, rest[0])) && NoneSwallowed(g, rest) {
      forall i | 0 <= i < |options| - 1 ensures !Swallows(g, options[i], options[i + 1]) {
        if i > 0 { assert !Swallows(g, rest[i - 1], rest[i]); }
      }
    }
  }

  // ───────────── the child's arguments ─────────────

  /** What the child accepts: `None` is the protocol error. */
  function TestChild(g: Grammar, kernelArgs: seq<string>, commandArgs: seq<string>): Option<Cli> {
    var cli := ParseArgv(g, kernelArgs + ["test"] + commandArgs);
    if cli.cmd != Some("test") || cli.positional != []
       || |Tokens(cli.kernel)| != |kernelArgs| || |Tokens(cli.command)| != |commandArgs| then None
    else Some(cli)
  }

  /** For every `test` command line: the child reads the same kernel options, and the same
      command options if and only if none of them is swallowed as an address; then it accepts
      them and sees no positional. */
  lemma ChildReadsTheSame(g: Grammar, argv: seq<string>)
    requires "test" in g.commands && ParseArgv(g, argv).cmd == Some("test")
    ensures var cli := ParseArgv(g, argv);
      && (forall o :: o in cli.command ==> o.tokens != [])
      && var again := ParseArgv(g, Tokens(cli.kernel) + ["test"] + Tokens(cli.command));
      && again.cmd == Some("test") && again.kernel == cli.kernel
      && (again.command == cli.command <==> NoneSwallowed(g, cli.command))
      && (NoneSwallowed(g, cli.command) ==> TestChild(g, Tokens(cli.kernel), Tokens(cli.command)) == Some(again) && again.positional == [])
  {
    var k, rest := Prefix(g, argv, Fresh);
    var options := TestOptions(g, rest);
    ParsedAs(g, argv, k, rest);
    OptionsRead(g, rest);
    OptionsAgain(g, rest);
    LeadsAgain(g, argv, Fresh, k, rest, Tokens(options));
    ParsedAs(g, Tokens(k) + ["test"] + Tokens(options), k, Tokens(options));
  }

  /** A whole `test` command line, read region by region. */
  lemma ParsedAs(g: Grammar, argv: seq<string>, k: seq<Parsed>, rest: seq<string>)
    requires "test" in g.commands && LeadsTo(g, argv, Fresh, k, rest)
    ensures var cli := ParseArgv(g, argv);
      && cli.cmd == Some("test") && cli.kernel == k
      && cli.command == TestOptions(g, rest) && cli.positional == TestPositional(g, rest)
  {
    LeadsParse(g, argv, Fresh, k, rest);
    TestRegion(g, rest, DecideTest(Fresh, k));
    assert [] + k == k;
    assert [] + TestOptions(g, rest) == TestOptions(g, rest) && [] + TestPositional(g, rest) == TestPositional(g, rest);
  }

  /** It is enough that no option token has the shape of an address. */
  lemma NoAddressOptions(g: Grammar, options: seq<Parsed>)
    requires forall o :: o in options ==> o.tokens != [] && !IsInspectAddress(o.tokens[0])
    ensures NoneSwallowed(g, options)
  {
  }

  /** A part of the vocabulary: `-C` is short for `--conditions`. */
  const SOME_OPTIONS := Grammar(map["inspect" := Inspect, "conditions" := Required], map["-C" := "conditions"], {"test"})

  lemma WholeHead(token: string)
    requires forall i :: 0 <= i < |token| ==> token[i] != '='
    ensures BeforeEquals(token) == token && AfterEquals(token) == None
  {
    assert IndexOf(token, '=') == |token|;
  }

  lemma NoAddress(t: string)
    requires t != "" && !IsDigit(t[0]) && forall i :: 0 <= i < |t| ==> t[i] != ':'
    ensures !IsInspectAddress(t)
  {
  }

  const BARE_INSPECT := Parsed("inspect", Flag(true), ["--inspect"])
  const CONDITIONS := Parsed("conditions", Text(":80"), ["-C:80"])
  const INSPECT_AT := Parsed("inspect", Text("-C:80"), ["--inspect", "-C:80"])

  /** A long option without a value. */
  lemma LongHead(g: Grammar, token: string)
    requires (forall i :: 0 <= i < |token| ==> token[i] != '=') && Starts(token, "--") && token !in g.aliases
    ensures OptionHead(g, token, false) == Head(token[2..], None)
  {
    WholeHead(token);
  }

  lemma InspectHead()
    ensures OptionHead(SOME_OPTIONS, "--inspect", false) == Head("inspect", None)
  {
    var token := "--inspect";
    assert |token| == 9 && |"-C"| == 2;
    LongHead(SOME_OPTIONS, token);
    assert token[2..] == "inspect";
  }

  lemma ConditionsHead()
    ensures OptionHead(SOME_OPTIONS, "-C:80", false) == Head("conditions", Some(":80"))
  {
    var token := "-C:80";
    WholeHead(token);
    assert |token| == 5 && |"-C"| == 2 && token[..2] == "-C" && token[2..] == ":80" && token[2] == ':';
    assert !Starts(token, "--") by { assert token[1] == 'C'; }
  }

  /** An inspect option on its own, */
  lemma Bare(g: Grammar, ts: seq<string>, name: string)
    requires |ts| > 1 && OptionHead(g, ts[0], false) == Head(name, None) && name in g.registry && g.registry[name] == Inspect
    requires !IsInspectAddress(ts[1])
    ensures ReadOption(g, ts, false) == Parsed(name, Flag(true), [ts[0]])
  {
    assert ts[..1] == [ts[0]];
  }

  /** and one with an address behind it. */
  lemma Addressed(g: Grammar, ts: seq<string>, name: string)
    requires |ts| > 1 && OptionHead(g, ts[0], false) == Head(name, None) && name in g.registry && g.registry[name] == Inspect
    requires IsInspectAddress(ts[1])
    ensures ReadOption(g, ts, false) == Parsed(name, Text(ts[1]), [ts[0], ts[1]])
  {
    assert ts[..2] == [ts[0], ts[1]];
  }

  lemma OneOption(g: Grammar, ts: seq<string>, o: Parsed)
    requires ts != [] && IsOption(ts[0]) && ts[0] != "--" && ReadOption(g, ts, false) == o && o.tokens == ts
    ensures TestOptions(g, ts) == [o] && TestPositional(g, ts) == []
  {
    assert ts[|o.tokens|..] == [];
    assert TestOptions(g, []) == [] && TestPositional(g, []) == [];
  }

  lemma ConditionsRead()
    ensures ReadOption(SOME_OPTIONS, ["-C:80"], false) == CONDITIONS
  {
    ConditionsHead();
    assert ["-C:80"][..1] == ["-C:80"];
  }

  lemma LastOption(g: Grammar, token: string)
    requires IsOption(token) && token != "--"
    ensures var b := ReadOption(g, [token], false);
      b.tokens == [token] && TestOptions(g, [token]) == [b] && TestPositional(g, [token]) == []
  {
    var b := ReadOption(g, [token], false);
    assert [token][1..] == [] && b.tokens == [token];
    assert TestOptions(g, []) == [] && TestPositional(g, []) == [];
  }

  lemma OneBetween(g: Grammar, head: string, path: string, last: string)
    requires IsOption(head) && head != "--" && !IsOption(path) && path != "--" && IsOption(last) && last != "--"
    requires |ReadOption(g, [head, path, last], false).tokens| == 1
    ensures TestOptions(g, [head, path, last]) == [ReadOption(g, [head, path, last], false), ReadOption(g, [last], false)]
    ensures TestPositional(g, [head, path, last]) == [path]
  {
    var ts := [head, path, last];
    LastOption(g, last);
    assert ts[1..] == [path, last] && [path, last][1..] == [last];
    assert TestOptions(g, [path, last]) == TestOptions(g, [last]);
    assert TestPositional(g, [path, last]) == [path] + TestPositional(g, [last]);
  }

  /** The condition is needed: `test --inspect a.ts -C:80` sets a condition the first time, and
      in the child the same tokens make `-C:80` the address of `--inspect`, which it accepts. */
  lemma AddressSwallowed()
    ensures var g := SOME_OPTIONS;
      var cli := ParseArgv(g, ["test", "--inspect", "a.ts", "-C:80"]);
      var child := TestChild(g, Tokens(cli.kernel), Tokens(cli.command));
      && cli.cmd == Some("test") && cli.positional == ["a.ts"] && cli.command == [BARE_INSPECT, CONDITIONS]
      && child.Some? && child.value.command == [INSPECT_AT]
  {
    var g := SOME_OPTIONS;
    FirstReading();
    SecondReading();
    TwoTokens(BARE_INSPECT, CONDITIONS);
    assert ["test"] + ["--inspect", "a.ts", "-C:80"] == ["test", "--inspect", "a.ts", "-C:80"];
    assert [] + ["test"] + ["--inspect", "-C:80"] == ["test"] + ["--inspect", "-C:80"];
    assert Tokens([INSPECT_AT]) == ["--inspect", "-C:80"] by { assert [INSPECT_AT][1..] == []; }
  }

  lemma FirstReading()
    ensures var cli := ParseArgv(SOME_OPTIONS, ["test"] + ["--inspect", "a.ts", "-C:80"]);
      cli.cmd == Some("test") && cli.kernel == [] && cli.positional == ["a.ts"] && cli.command == [BARE_INSPECT, CONDITIONS]
  {
    var g, ts := SOME_OPTIONS, ["--inspect", "a.ts", "-C:80"];
    InspectReadBare(ts);
    ConditionsRead();
    OneBetween(g, "--inspect", "a.ts", "-C:80");
    TestFirst(g, ts);
  }

  lemma PathIsNoAddress()
    ensures !IsInspectAddress("a.ts")
  {
    var t := "a.ts";
    assert t[0] == 'a' && t[1] == '.' && t[2] == 't' && t[3] == 's';
    NoAddress(t);
  }

  lemma InspectReadBare(ts: seq<string>)
    requires ts == ["--inspect", "a.ts", "-C:80"]
    ensures ReadOption(SOME_OPTIONS, ts, false) == BARE_INSPECT
  {
    InspectHead();
    PathIsNoAddress();
    Bare(SOME_OPTIONS, ts, "inspect");
  }

  lemma SecondReading()
    ensures var cli := ParseArgv(SOME_OPTIONS, ["test"] + ["--inspect", "-C:80"]);
      cli.cmd == Some("test") && cli.kernel == [] && cli.positional == [] && cli.command == [INSPECT_AT]
  {
    var g, ts := SOME_OPTIONS, ["--inspect", "-C:80"];
    InspectHead();
    AddressShape();
    Addressed(g, ts, "inspect");
    OneOption(g, ts, INSPECT_AT);
    TestFirst(g, ts);
  }

  lemma TwoTokens(a: Parsed, b: Parsed)
    requires |a.tokens| == 1 && |b.tokens| == 1
    ensures Tokens([a, b]) == [a.tokens[0], b.tokens[0]]
  {
    assert [a, b][1..] == [b] && [b][1..] == [] && Tokens([b]) == b.tokens + [];
    assert a.tokens == [a.tokens[0]] && b.tokens == [b.tokens[0]];
  }

  /** Nothing in front of the command. */
  lemma TestFirst(g: Grammar, ts: seq<string>)
    requires "test" in g.commands
    ensures var cli := ParseArgv(g, ["test"] + ts);
      && cli.cmd == Some("test") && cli.kernel == [] && cli.command == TestOptions(g, ts) && cli.positional == TestPositional(g, ts)
  {
    assert LeadsTo(g, ["test"] + ts, Fresh, [], ts);
    ParsedAs(g, ["test"] + ts, [], ts);
  }

  lemma AddressShape()
    ensures IsInspectAddress("-C:80")
  {
    var t := "-C:80";
    assert AllOf(t[..2], IsHostChar) && AllOf(t[3..], IsDigit) && t[2] == ':';
  }
}
