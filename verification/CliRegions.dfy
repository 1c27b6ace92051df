/** What belongs to the program that is run: everything behind its entry, unread. */
module CliRegions {
  import opened Options
  import opened CliGrammar

  /** A command that runs a program, or none yet: the first word behind it is the entry. */
  predicate Awaits(s: Cli) { s.decided && !s.entryFound && EntryStopsOptions(s.cmd) }

  lemma Passed(g: Grammar, ts: seq<string>, s: Cli)
    requires s.entryFound
    ensures ParseFrom(g, ts, s) == s.(positional := s.positional + ts)
  {
    assert s.positional + [] == s.positional;
  }

  /** The state with the options taken in, and the rest passed on; a `--` in front of it is
      left out. */
  function Entered(s: Cli, options: seq<Parsed>, rest: seq<string>): Cli {
    s.(command := s.command + options,
       positional := s.positional + (if rest != [] && rest[0] == "--" then rest[1..] else rest),
       entryFound := rest != [] && rest[0] != "--")
  }

  lemma EntryHere(g: Grammar, ts: seq<string>, s: Cli)
    requires Awaits(s) && (ts == [] || ts[0] == "--" || !IsOption(ts[0]))
    ensures ParseFrom(g, ts, s) == Entered(s, [], ts)
  {
    assert s.command + [] == s.command && s.positional + [] == s.positional;
    if ts != [] && ts[0] != "--" {
      var found := s.(positional := s.positional + [ts[0]], entryFound := true);
      assert Step(g, ts, s) == (ts[1..], found);
      Passed(g, ts[1..], found);
      assert s.positional + [ts[0]] + ts[1..] == s.positional + ts;
    }
  }

  lemma OptionFirst(s: Cli, o: Parsed, more: seq<Parsed>, rest: seq<string>)
    ensures Entered(s.(command := s.command + [o]), more, rest) == Entered(s, [o] + more, rest)
    ensures Tokens([o] + more) + rest == o.tokens + (Tokens(more) + rest)
  {
    assert s.command + [o] + more == s.command + ([o] + more) && ([o] + more)[1..] == more;
  }

  /** The options in front of the entry are the command's; the entry and all behind it, options
      and `--` included, are passed on as they stand. */
  lemma {:induction false} EntryPasses(g: Grammar, ts: seq<string>, s: Cli) returns (options: seq<Parsed>, rest: seq<string>)
    requires Awaits(s)
    ensures ts == Tokens(options) + rest && (rest == [] || rest[0] == "--" || !IsOption(rest[0]))
    ensures ParseFrom(g, ts, s) == Entered(s, options, rest)
    decreases |ts|
  {
    if ts == [] || ts[0] == "--" || !IsOption(ts[0]) {
      options, rest := [], ts;
      EntryHere(g, ts, s);
    } else {
      var o := ReadOption(g, ts, false);
      var next := s.(command := s.command + [o]);
      assert Step(g, ts, s) == (ts[|o.tokens|..], next);
      var more;
      more, rest := EntryPasses(g, ts[|o.tokens|..], next);
      options := [o] + more;
      OptionFirst(s, o, more, rest);
    }
  }

  /** A word that is no command is the entry itself. */
  lemma BareEntry(g: Grammar, ts: seq<string>, s: Cli)
    requires ts != [] && !s.decided && !s.entryFound && !IsOption(ts[0]) && ts[0] !in g.commands
    ensures ParseFrom(g, ts, s) == s.(decided := true, entryFound := true, positional := s.positional + ts)
  {
    var token := ts[0];
    assert token != "--" && token !in {"-h", "--help", "-v", "--version"} && !IsEvalToken(token) by { NoDash(token); }
    var found := s.(decided := true, entryFound := true, positional := s.positional + [token]);
    assert Step(g, ts, s) == (ts[1..], found);
    Passed(g, ts[1..], found);
    assert s.positional + [token] + ts[1..] == s.positional + ts;
  }

  lemma NoDash(token: string)
    requires !IsOption(token)
    ensures token != "--" && token !in {"-h", "--help", "-v", "--version"} && !IsEvalToken(token)
  {
    assert BeforeEquals(token) <= token;
  }

  /** The program text behind `-e` and its kin is taken as it stands, whatever it looks like,
      and so is all behind it. */
  lemma EvalPasses(g: Grammar, ts: seq<string>, s: Cli)
    requires |ts| > 1 && !s.decided && !s.entryFound && IsEvalToken(ts[0]) && AfterEquals(ts[0]).None?
    ensures var end := ParseFrom(g, ts, s);
      && end.cmd == Some("eval") && end.positional == s.positional + ts[1..]
      && end.kernel == s.kernel && end.command == s.command
      && end.synthetic == s.synthetic + (if Prints(ts[0]) then [Parsed("print", Flag(true), [])] else [])
  {
    EvalToken(ts[0]);
    var (rest, next) := Step(g, ts, s);
    assert (rest, next) == (ts[2..], Eval(ts, s).1);
    Passed(g, rest, next);
    assert s.positional + [ts[1]] + ts[2..] == s.positional + ts[1..];
  }

  lemma EvalToken(token: string)
    requires IsEvalToken(token) && AfterEquals(token).None?
    ensures token != "--" && token !in {"-h", "--help", "-v", "--version"}
  {
    assert BeforeEquals(token) == token;
  }
}
