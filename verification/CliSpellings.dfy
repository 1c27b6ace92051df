/** One option in its spellings: long or short, with its value behind `=`, attached, or as the
    next token. */
module CliSpellings {
  import opened Options
  import opened CliGrammar

  predicate TakesFlag(g: Grammar, name: string) {
    name in g.registry && (g.registry[name] == Kind.Bare || g.registry[name] == Kind.Inspect)
  }

  predicate TakesText(g: Grammar, name: string) {
    name in g.registry && (g.registry[name] == Kind.Required || g.registry[name] == Kind.Optional)
  }

  /** The option named `name` with the value `text`: where a flag is expected, `true` and
      `false` switch it on and off. */
  predicate Says(g: Grammar, o: Parsed, name: string, text: string) {
    && o.name == name
    && (TakesFlag(g, name) && text == "true" ==> o.value == Flag(true))
    && (TakesFlag(g, name) && text == "false" ==> o.value == Flag(false))
    && (TakesFlag(g, name) && text != "true" && text != "false" ==> o.value == Text(text))
    && (!TakesFlag(g, name) ==> o.value == Text(text))
  }

  /** Two characters: a dash and a letter that is a registered short name. */
  predicate IsShort(g: Grammar, short: string, name: string, nodeOptions: bool) {
    |short| == 2 && short[0] == '-' && short[1] != '-' && short[1] != '=' && ShortName(g, short, nodeOptions) == Some(name)
  }

  predicate IsLong(g: Grammar, long: string, name: string) {
    long == "--" + name && '=' !in name && long !in g.aliases
  }

  lemma {:induction false} SplitsAt(head: string, text: string)
    requires '=' !in head
    ensures BeforeEquals(head + "=" + text) == head && AfterEquals(head + "=" + text) == Some(text)
  {
    var token := head + "=" + text;
    assert token[|head|] == '=';
    forall k | 0 <= k < |head| ensures token[k] != '=' {
      assert token[k] == head[k] && head[k] in head;
    }
  }

  lemma NoEquals(token: string)
    requires '=' !in token
    ensures BeforeEquals(token) == token && AfterEquals(token) == None
  {
  }

  lemma LongHead(g: Grammar, long: string, name: string)
    requires IsLong(g, long, name)
    ensures long[0] == '-' && long[1] == '-' && '=' !in long && long[2..] == name && Starts(long, "--")
  {
  }

  lemma InlineSays(g: Grammar, token: string, name: string, text: string, rest: seq<string>, nodeOptions: bool)
    requires OptionHead(g, token, nodeOptions) == Head(name, Some(text))
    ensures var o := ReadOption(g, [token] + rest, nodeOptions); Says(g, o, name, text) && o.tokens == [token]
  {
    assert ([token] + rest)[..1] == [token];
  }

  /** `--name=text` */
  lemma LongInline(g: Grammar, long: string, name: string, text: string, rest: seq<string>, nodeOptions: bool)
    requires IsLong(g, long, name)
    ensures var token := long + "=" + text;
      var o := ReadOption(g, [token] + rest, nodeOptions); Says(g, o, name, text) && o.tokens == [token]
  {
    var token := long + "=" + text;
    LongHead(g, long, name);
    SplitsAt(long, text);
    assert Starts(token, "--");
    InlineSays(g, token, name, text, rest, nodeOptions);
  }

  /** `-n=text` */
  lemma ShortInline(g: Grammar, short: string, name: string, text: string, rest: seq<string>, nodeOptions: bool)
    requires IsShort(g, short, name, nodeOptions)
    ensures var token := short + "=" + text;
      var o := ReadOption(g, [token] + rest, nodeOptions); Says(g, o, name, text) && o.tokens == [token]
  {
    SplitsAt(short, text);
    InlineSays(g, short + "=" + text, name, text, rest, nodeOptions);
  }

  /** `-ntext`, which a pure flag does not take and no other short name may cover. */
  lemma ShortAttached(g: Grammar, short: string, name: string, text: string, rest: seq<string>, nodeOptions: bool)
    requires IsShort(g, short, name, nodeOptions) && !(name in g.registry && g.registry[name] == Kind.Bare)
    requires text != "" && text[0] != '=' && BeforeEquals(short + text) !in g.aliases
    ensures var token := short + text;
      var o := ReadOption(g, [token] + rest, nodeOptions); Says(g, o, name, text) && o.tokens == [token]
  {
    var token := short + text;
    assert token[0] == '-' && token[1] != '-' && token[2] == text[0] && token[..2] == short && token[2..] == text;
    assert |BeforeEquals(token)| > 2;
    InlineSays(g, token, name, text, rest, nodeOptions);
  }

  /** `--name text` and `-n text`: the next token, if it can be a value. */
  lemma Separate(g: Grammar, head: string, name: string, text: string, rest: seq<string>, nodeOptions: bool)
    requires IsLong(g, head, name) || IsShort(g, head, name, nodeOptions)
    requires TakesText(g, name) && CanConsumeValue(g, Some(text), nodeOptions)
    ensures var o := ReadOption(g, [head, text] + rest, nodeOptions); Says(g, o, name, text) && o.tokens == [head, text]
  {
    HeadAlone(g, head, name, nodeOptions);
    assert ([head, text] + rest)[..2] == [head, text];
  }

  /** A word, and a lone dash, can be a value; so can a dash and a number that is no short name. */
  lemma WordTaken(g: Grammar, text: string, nodeOptions: bool)
    requires !IsOption(text) || (|text| == 2 && IsDigit(text[1]) && text !in g.aliases && [text[1]] !in g.registry)
    ensures CanConsumeValue(g, Some(text), nodeOptions)
  {
    if IsOption(text) {
      assert text[0] == '-';
      NoEquals(text);
      assert OptionHead(g, text, nodeOptions).name == [text[1]];
    }
  }

  /** What is itself an option is never taken for a value: the value is missing then. */
  lemma OptionNotTaken(g: Grammar, head: string, name: string, text: string, rest: seq<string>, nodeOptions: bool)
    requires IsLong(g, head, name) || IsShort(g, head, name, nodeOptions)
    requires TakesText(g, name)
    requires Starts(text, "--") || text == "-e" || exists other :: IsShort(g, text, other, nodeOptions) && other in g.registry
    ensures ReadOption(g, [head, text] + rest, nodeOptions) == Parsed(name, Flag(true), [head])
  {
    HeadAlone(g, head, name, nodeOptions);
    if other :| IsShort(g, text, other, nodeOptions) && other in g.registry { HeadAlone(g, text, other, nodeOptions); }
    assert ([head, text] + rest)[..1] == [head];
  }

  lemma HeadAlone(g: Grammar, head: string, name: string, nodeOptions: bool)
    requires IsLong(g, head, name) || IsShort(g, head, name, nodeOptions)
    ensures OptionHead(g, head, nodeOptions) == Head(name, None)
  {
    if IsLong(g, head, name) { LongHead(g, head, name); }
    NoEquals(head);
  }

  /** `--name` and `-n` alone switch a flag on, unless an address for it stands behind. */
  lemma Alone(g: Grammar, head: string, name: string, rest: seq<string>, nodeOptions: bool)
    requires IsLong(g, head, name) || IsShort(g, head, name, nodeOptions)
    requires TakesFlag(g, name) && (rest != [] && g.registry[name] == Kind.Inspect ==> !IsInspectAddress(rest[0]))
    ensures ReadOption(g, [head] + rest, nodeOptions) == Parsed(name, Flag(true), [head])
  {
    HeadAlone(g, head, name, nodeOptions);
    assert ([head] + rest)[..1] == [head];
  }

  /** With one dash, a name that is no registered short one keeps the dash. */
  lemma OneDashKept(g: Grammar, token: string, rest: seq<string>, nodeOptions: bool)
    requires Starts(token, "-") && !Starts(token, "--") && |BeforeEquals(token)| > 2 && BeforeEquals(token) !in g.aliases
    requires match ShortName(g, token[..2], nodeOptions)
      case None => true
      case Some(name) => name in g.registry && g.registry[name] == Kind.Bare
    ensures ReadOption(g, [token] + rest, nodeOptions).name == BeforeEquals(token)
    ensures Starts(ReadOption(g, [token] + rest, nodeOptions).name, "-")
  {
    assert BeforeEquals(token)[0] == token[0] == '-';
    assert BeforeEquals(token)[1] == token[1];
  }
}
