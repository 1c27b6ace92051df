/** The tokens of the REPL's highlighter: where each one ends, how it is styled, and what it
    leaves open. */
module ColorTokens {
  import opened Options
  import opened Brackets

  datatype Style = Default | Comment | Str | Regex | Number | Directive | Keyword | Function | Type | Identifier | Error

  /** The words the highlighter knows. */
  datatype Words = Words(keywords: set<string>, noRegex: set<string>, directives: set<string>, types: set<string>)

  const JS_WORDS := Words(
    {
      "break", "case", "catch", "continue", "debugger", "default", "delete", "do",
      "else", "finally", "for", "function", "if", "in", "instanceof", "new",
      "return", "switch", "this", "throw", "try", "typeof", "while", "with",
      "class", "const", "enum", "import", "export", "extends", "super",
      "implements", "interface", "let", "package", "private", "protected",
      "public", "static", "yield", "undefined", "null", "true", "false",
      "Infinity", "NaN", "eval", "arguments", "await", "async", "of", "void" },
    { "this", "super", "undefined", "null", "true", "false", "Infinity", "NaN", "arguments" },
    { "help", "h", "x", "d", "t", "c", "q", "quit", "u" },
    { "void", "let", "var", "const" })

  predicate IsDigit(c: char) { '0' <= c <= '9' }

  predicate IsWordChar(c: char) { IsDigit(c) || 'a' <= c <= 'z' || 'A' <= c <= 'Z' || c == '_' || c == '$' }

  // ───────────── where the tokens end ─────────────

  function WordEnd(s: string, i: nat): (k: nat)
    requires i <= |s|
    ensures i <= k <= |s| && (k < |s| ==> !IsWordChar(s[k]))
    ensures forall j :: i <= j < k ==> IsWordChar(s[j])
    decreases |s| - i
  {
    if i < |s| && IsWordChar(s[i]) then WordEnd(s, i + 1) else i
  }

  /** Behind the delimiter that closes a string whose rest starts at `i`, or -1. An escape
      hides the character behind it. */
  function StringClosed(s: string, i: nat, delim: char): (k: int)
    requires i <= |s|
    ensures k == -1 || (i < k <= |s| && s[k - 1] == delim)
    decreases |s| - i
  {
    if i == |s| then -1
    else if s[i] == '\\' then if i + 1 < |s| then StringClosed(s, i + 2, delim) else -1
    else if s[i] == delim then i + 1
    else StringClosed(s, i + 1, delim)
  }

  /** Whether a bare newline comes before that delimiter. */
  predicate BareNewline(s: string, i: nat, delim: char)
    requires i <= |s|
    decreases |s| - i
  {
    if i == |s| then false
    else if s[i] == '\n' then true
    else if s[i] == '\\' then i + 1 < |s| && BareNewline(s, i + 2, delim)
    else s[i] != delim && BareNewline(s, i + 1, delim)
  }

  /** Where reading a regular expression goes on behind the character at `i`, which does not
      close it, and whether in a class. */
  function RegexNext(s: string, i: nat, inClass: bool): (r: (nat, bool))
    requires i < |s|
    ensures i < r.0 <= |s|
  {
    if s[i] == '\n' then (i + 1, inClass)
    else if s[i] == '\\' then (if i + 1 < |s| then i + 2 else i + 1, inClass)
    else if inClass then (i + 1, s[i] != ']')
    else if s[i] == '[' then (if i + 1 < |s| && (s[i + 1] == '[' || s[i + 1] == ']') then i + 2 else i + 1, true)
    else (i + 1, false)
  }

  /** Behind the slash that closes a regular expression, or -1; one in a class does not. */
  function RegexClosed(s: string, i: nat, inClass: bool): (k: int)
    requires i <= |s|
    ensures k == -1 || (i < k <= |s| && s[k - 1] == '/')
    decreases |s| - i
  {
    if i == |s| then -1
    else if s[i] == '/' && !inClass then i + 1
    else var (next, within) := RegexNext(s, i, inClass); RegexClosed(s, next, within)
  }

  /** Whether a bare newline comes before that slash. */
  predicate RegexNewline(s: string, i: nat, inClass: bool)
    requires i <= |s|
    decreases |s| - i
  {
    if i == |s| || (s[i] == '/' && !inClass) then false
    else if s[i] == '\n' then true
    else var (next, within) := RegexNext(s, i, inClass); RegexNewline(s, next, within)
  }

  /** Behind the first `*` and `/` in a row, or -1. */
  function CommentClosed(s: string, i: nat): (k: int)
    requires i <= |s|
    ensures k == -1 || i + 2 <= k <= |s|
    decreases |s| - i
  {
    if i == |s| then -1
    else if s[i] == '*' && i + 1 < |s| && s[i + 1] == '/' then i + 2
    else CommentClosed(s, i + 1)
  }

  /** It is the first such place. */
  lemma {:induction false} CommentClosedFirst(s: string, i: nat)
    requires i <= |s|
    ensures var k := CommentClosed(s, i);
      && (k != -1 ==> s[k - 2] == '*' && s[k - 1] == '/')
      && forall j :: i <= j < (if k == -1 then |s| - 1 else k - 2) ==> !(s[j] == '*' && s[j + 1] == '/')
    decreases |s| - i
  {
    if i < |s| && !(s[i] == '*' && i + 1 < |s| && s[i + 1] == '/') { CommentClosedFirst(s, i + 1); }
  }

  predicate IsNumberPart(s: string, k: nat)
    requires k < |s|
  {
    (IsWordChar(s[k]) || s[k] == '.' || s[k] == '+' || s[k] == '-')
    && !(s[k] == '.' && (k == |s| - 1 || s[k + 1] == '.'))
  }

  function SpacesEnd(s: string, i: nat): (k: nat)
    requires i <= |s|
    ensures i <= k <= |s| && (k < |s| ==> s[k] != ' ')
    ensures forall j :: i <= j < k ==> s[j] == ' '
    decreases |s| - i
  {
    if i < |s| && s[i] == ' ' then SpacesEnd(s, i + 1) else i
  }

  /** A word behind a dot, outside brackets, may be a directive; a call is a name before a
      parenthesis. */
  function WordStyle(words: Words, s: string, begin: nat, end: nat, level: int): Style
    requires begin <= end <= |s|
  {
    var word := s[begin..end];
    if begin > 0 && s[begin - 1] == '.' && level == 0 && word in words.directives then Directive
    else PlainStyle(words, s, word, end)
  }

  /** Whether a slash behind the word starts a regular expression: behind a name, or a word
      that stands for a value, it divides. */
  predicate OperandFollows(words: Words, s: string, word: string, end: nat)
    requires end <= |s|
  {
    PlainStyle(words, s, word, end) != Identifier && !(word in words.keywords && word in words.noRegex)
  }

  function PlainStyle(words: Words, s: string, word: string, end: nat): Style
    requires end <= |s|
  {
    if word in words.keywords then Keyword
    else if SpacesEnd(s, end) < |s| && s[SpacesEnd(s, end)] == '(' then Function
    else if word in words.types then Type
    else Identifier
  }

  function NumberEnd(s: string, i: nat): (k: nat)
    requires i <= |s|
    ensures i <= k <= |s| && (k < |s| ==> !IsNumberPart(s, k))
    ensures forall j :: i <= j < k ==> IsNumberPart(s, j)
    decreases |s| - i
  {
    if i < |s| && IsNumberPart(s, i) then NumberEnd(s, i + 1) else i
  }

  function LineEnd(s: string, i: nat): (k: nat)
    requires i <= |s|
    ensures i <= k <= |s| && (k < |s| ==> s[k] == '\n')
    ensures forall j :: i <= j < k ==> s[j] != '\n'
    decreases |s| - i
  {
    if i < |s| && s[i] != '\n' then LineEnd(s, i + 1) else i
  }

  function Or<T>(o: Option<T>, t: T): T { if o.Some? then o.value else t }

  // ───────────── one token ─────────────

  /** A token that is no bracket: its style, its end, what it leaves open, and whether a slash
      behind it starts a regular expression. */
  datatype Literal = Literal(style: Option<Style>, end: nat, open: string, canBeRegex: bool)

  function SlashAt(s: string, i: nat, canBeRegex: bool): (r: Literal)
    requires i < |s|
    ensures i < r.end <= |s|
  {
    if i + 1 < |s| && s[i + 1] == '*' then
      var k := CommentClosed(s, i + 2);
      Literal(Some(Comment), if k >= 0 then k else |s|, if k >= 0 then "" else "/", canBeRegex)
    else if i + 1 < |s| && s[i + 1] == '/' then Literal(Some(Comment), LineEnd(s, i + 2), "", canBeRegex)
    else if canBeRegex then
      var k := RegexClosed(s, i + 1, false);
      Literal(Some(if k < 0 || RegexNewline(s, i + 1, false) then Error else Regex), if k >= 0 then WordEnd(s, k) else |s|, "", false)
    else Literal(None, i + 1, "", true)
  }

  function StringAt(s: string, i: nat): (r: Literal)
    requires i < |s|
    ensures i < r.end <= |s|
  {
    var k := StringClosed(s, i + 1, s[i]);
    Literal(Some(if s[i] != '`' && (k < 0 || BareNewline(s, i + 1, s[i])) then Error else Str),
            if k >= 0 then k else |s|, if k < 0 && s[i] == '`' then "`" else "", false)
  }

  function LiteralAt(words: Words, s: string, i: nat, canBeRegex: bool, level: int): (r: Literal)
    requires i < |s|
    ensures i < r.end <= |s|
  {
    var c := s[i];
    if c == '/' then SlashAt(s, i, canBeRegex)
    else if c == '\'' || c == '"' || c == '`' then StringAt(s, i)
    else if IsDigit(c) then Literal(Some(Number), NumberEnd(s, i + 1), "", false)
    else if IsWordChar(c) then
      var end := WordEnd(s, i);
      var style := WordStyle(words, s, i, end, level);
      Literal(Some(style), end, "", style == Directive || OperandFollows(words, s, s[i..end], end))
    else Literal(None, i + 1, "", true)
  }

  // ───────────── all tokens ─────────────

  datatype Scan = Scan(index: nat, stack: string, level: int, canBeRegex: bool, styles: seq<Style>)

  /** Default up to `begin`, then `style` up to `end`. */
  function Filled(styles: seq<Style>, begin: nat, end: nat, style: Style): (r: seq<Style>)
    requires |styles| <= begin <= end
    ensures |r| == end && styles <= r
  {
    styles + seq(begin - |styles|, _ => Default) + seq(end - begin, _ => style)
  }

  predicate IsSpace(c: char) { c == ' ' || c == '\t' || c == '\r' || c == '\n' }

  /** The token at the index. */
  function TokenAt(words: Words, s: string, t: Scan): (r: Scan)
    requires t.index < |s| && |t.styles| <= t.index
    ensures t.index < r.index <= |s| && |r.styles| <= r.index
  {
    var i, c := t.index, s[t.index];
    if IsSpace(c) then t.(index := i + 1)
    else if c == '+' || c == '-' then
      if i + 1 < |s| && s[i + 1] == c then t.(index := i + 2) else t.(index := i + 1, canBeRegex := true)
    else if IsOpener(c) || IsCloser(c) then BracketToken(t, c)
    else LiteralToken(t, LiteralAt(words, s, i, t.canBeRegex, t.level))
  }

  /** A closer that does not fit is an error. */
  function BracketToken(t: Scan, c: char): (r: Scan)
    requires |t.styles| <= t.index
    ensures r.index == t.index + 1 && |r.styles| <= r.index
  {
    var i := t.index;
    if IsOpener(c) then Scan(i + 1, t.stack + [c], t.level + 1, true, t.styles)
    else if Closes(t, c) then Scan(i + 1, t.stack[..|t.stack| - 1], t.level - 1, false, t.styles)
    else t.(index := i + 1, canBeRegex := false, styles := Filled(t.styles, i, i + 1, Error))
  }

  function LiteralToken(t: Scan, l: Literal): (r: Scan)
    requires |t.styles| <= t.index < l.end
    ensures r.index == l.end && |r.styles| <= r.index
  {
    Scan(l.end, t.stack + l.open, t.level, l.canBeRegex,
         if l.style.Some? then Filled(t.styles, t.index, l.end, l.style.value) else t.styles)
  }

  predicate Closes(t: Scan, c: char) {
    t.level > 0 && t.stack != "" && Pair(t.stack[|t.stack| - 1], c)
  }

  /** All tokens from the index on. */
  function Rest(words: Words, s: string, t: Scan): (r: Scan)
    requires t.index <= |s| && |t.styles| <= t.index
    ensures |r.styles| <= r.index == |s|
    decreases |s| - t.index
  {
    if t.index == |s| then t else Rest(words, s, TokenAt(words, s, t))
  }
}
