/** Splitting the NODE_OPTIONS variable: whitespace separates, double quotes group, and a
    backslash escapes inside quotes. */
module NodeOptions {
  datatype Result = Ok(tokens: seq<string>) | InvalidEscape | UnterminatedString

  predicate IsSpace(c: char) {
    var n := c as int;
    9 <= n <= 13 || n == 32 || n == 0xA0 || n == 0x1680 || 0x2000 <= n <= 0x200A
    || n == 0x2028 || n == 0x2029 || n == 0x202F || n == 0x205F || n == 0x3000 || n == 0xFEFF
  }

  datatype State = State(tokens: seq<string>, token: string, quoted: bool, started: bool)

  /** One iteration of the scan: what is left, and the new state. A lone escape stops it. */
  function Step(value: string, s: State): (r: (string, State))
    requires value != "" && !LoneEscape(value, s)
    ensures |r.0| < |value|
  {
    var c := value[0];
    if c == '"' then (value[1..], s.(quoted := !s.quoted, started := true))
    else if s.quoted && c == '\\' then (value[2..], s.(token := s.token + [value[1]]))
    else if !s.quoted && IsSpace(c) then (value[1..], Flush(s))
    else (value[1..], s.(token := s.token + [c], started := true))
  }

  predicate LoneEscape(value: string, s: State) {
    s.quoted && value == "\\"
  }

  /** The rest of the scan. */
  function Scan(value: string, s: State): Result
    decreases |value|
  {
    if value == "" then
      if s.quoted then UnterminatedString else Ok(Flush(s).tokens)
    else if LoneEscape(value, s) then InvalidEscape
    else Scan(Step(value, s).0, Step(value, s).1)
  }

  function Flush(s: State): State {
    if s.started then State(s.tokens + [s.token], "", s.quoted, false) else s.(token := "")
  }

  const Fresh := State([], "", false, false)

  method SplitNodeOptions(value: string) returns (r: Result)
    ensures r == Scan(value, Fresh)
  {
    if value == "" { return Ok([]); }
    var tokens: seq<string> := [];
    var token, quoted, started := "", false, false;
    var i := 0;
    while i < |value|
      invariant 0 <= i <= |value|
      invariant Scan(value[i..], State(tokens, token, quoted, started)) == Scan(value, Fresh)
    {
      var c := value[i];
      assert value[i..][0] == c && value[i..][1..] == value[i + 1..];
      if c == '"' {
        quoted := !quoted;
        started := true;
        i := i + 1;
        continue;
      }
      if quoted && c == '\\' {
        i := i + 1;
        if i == |value| {
          assert value[i - 1..] == "\\";
          return InvalidEscape;
        }
        assert value[i - 1..][2..] == value[i + 1..] && value[i - 1..][1] == value[i];
        token := token + [value[i]];
        i := i + 1;
        continue;
      }
      if !quoted && IsSpace(c) {
        if started { tokens := tokens + [token]; }
        token := "";
        started := false;
        i := i + 1;
        continue;
      }
      token := token + [c];
      started := true;
      i := i + 1;
    }
    assert value[i..] == "";
    if quoted { return UnterminatedString; }
    if started { tokens := tokens + [token]; }
    r := Ok(tokens);
  }

  // ───────────── quoting is undone ─────────────

  function EscapeChar(c: char): string {
    if c == '"' || c == '\\' then ['\\', c] else [c]
  }

  function Escape(token: string): string {
    if token == "" then "" else EscapeChar(token[0]) + Escape(token[1..])
  }

  function Quote(token: string): string { "\"" + Escape(token) + "\"" }

  predicate Spaces(s: string) { forall i :: 0 <= i < |s| ==> IsSpace(s[i]) }

  /** The quoted tokens, each after a separator. */
  function Joined(tokens: seq<string>, separators: seq<string>): string
    requires |separators| == |tokens|
  {
    if tokens == [] then "" else separators[0] + Quote(tokens[0]) + Joined(tokens[1..], separators[1..])
  }

  lemma {:induction false} ScanEscaped(token: string, rest: string, s: State)
    requires s.quoted && s.started
    ensures Scan(Escape(token) + rest, s) == Scan(rest, s.(token := s.token + token))
    decreases |token|
  {
    EscapeCons(token, rest, s.token);
    if token != "" {
      ScanChar(token[0], Escape(token[1..]) + rest, s);
      ScanEscaped(token[1..], rest, s.(token := s.token + [token[0]]));
    }
  }

  lemma EscapeCons(token: string, rest: string, before: string)
    ensures token == "" ==> Escape(token) + rest == rest && before + token == before
    ensures token != "" ==> Escape(token) + rest == EscapeChar(token[0]) + (Escape(token[1..]) + rest)
    ensures token != "" ==> before + [token[0]] + token[1..] == before + token
  {
    if token == "" {
      assert Escape(token) == "";
      Empty(rest, before);
    } else {
      var first, more := EscapeChar(token[0]), Escape(token[1..]);
      assert Escape(token) == first + more;
      Assoc(first, more, rest);
      assert token == [token[0]] + token[1..];
      Assoc(before, [token[0]], token[1..]);
    }
  }

  lemma Empty(a: string, b: string)
    ensures "" + a == a && b + "" == b
  {
  }

  lemma Assoc(a: string, b: string, c: string)
    ensures (a + b) + c == a + (b + c)
  {
  }

  lemma ScanChar(c: char, rest: string, s: State)
    requires s.quoted && s.started
    ensures Scan(EscapeChar(c) + rest, s) == Scan(rest, s.(token := s.token + [c]))
  {
    var text := EscapeChar(c) + rest;
    assert |text| == 1 ==> text[0] == c != '\\';
    if c == '"' || c == '\\' {
      assert text[0] == '\\' && text[1] == c && text[2..] == rest;
    } else {
      assert text[0] == c && text[1..] == rest;
    }
  }

  lemma {:induction false} ScanSeparator(sep: string, rest: string, s: State)
    requires Spaces(sep)
    requires !s.quoted && (!s.started ==> s.token == "")
    ensures Scan(sep + rest, s) == Scan(rest, if sep == "" then s else Flush(s))
    decreases |sep|
  {
    if sep == "" {
      assert sep + rest == rest;
    } else {
      var text := sep + rest;
      assert text[0] == sep[0] && text[1..] == sep[1..] + rest;
      assert sep[0] != '"' && sep[0] != '\\';
      ScanSeparator(sep[1..], rest, Flush(s));
    }
  }

  lemma ScanQuoted(token: string, rest: string, s: State)
    requires !s.quoted
    ensures Scan(Quote(token) + rest, s) == Scan(rest, s.(token := s.token + token, started := true))
  {
    var text := Quote(token) + rest;
    var inside := s.(quoted := true, started := true);
    assert text[0] == '"' && text[1..] == Escape(token) + ("\"" + rest);
    ScanEscaped(token, "\"" + rest, inside);
    assert ("\"" + rest)[0] == '"' && ("\"" + rest)[1..] == rest;
  }

  /** A stretch of a token: as it stands, or between quotes. */
  datatype Piece = Plain(text: string) | Quoted(text: string)

  function PieceText(p: Piece): string { if p.Plain? then p.text else Quote(p.text) }

  function Spelled(word: seq<Piece>): string {
    if word == [] then "" else PieceText(word[0]) + Spelled(word[1..])
  }

  function Meant(word: seq<Piece>): string {
    if word == [] then "" else word[0].text + Meant(word[1..])
  }

  function Meanings(words: seq<seq<Piece>>): seq<string> {
    if words == [] then [] else [Meant(words[0])] + Meanings(words[1..])
  }

  /** Outside quotes neither whitespace nor a quote can stand; a backslash can. */
  predicate IsWord(word: seq<Piece>) {
    && word != []
    && forall p :: p in word && p.Plain? ==> p.text != "" && forall i :: 0 <= i < |p.text| ==> !IsSpace(p.text[i]) && p.text[i] != '"'
  }

  /** The words, each after a separator. */
  function Written(words: seq<seq<Piece>>, separators: seq<string>): string
    requires |separators| == |words|
  {
    if words == [] then "" else separators[0] + Spelled(words[0]) + Written(words[1..], separators[1..])
  }

  lemma {:induction false} ScanPlain(text: string, rest: string, s: State)
    requires !s.quoted && forall i :: 0 <= i < |text| ==> !IsSpace(text[i]) && text[i] != '"'
    ensures Scan(text + rest, s) == Scan(rest, s.(token := s.token + text, started := s.started || text != ""))
    decreases |text|
  {
    if text == "" {
      assert text + rest == rest && s.token + text == s.token;
    } else {
      var all := text + rest;
      assert all[0] == text[0] && all[1..] == text[1..] + rest;
      ScanPlain(text[1..], rest, s.(token := s.token + [text[0]], started := true));
      assert s.token + text == s.token + [text[0]] + text[1..];
    }
  }

  lemma ScanPiece(p: Piece, rest: string, s: State)
    requires !s.quoted && IsWord([p])
    ensures Scan(PieceText(p) + rest, s) == Scan(rest, s.(token := s.token + p.text, started := true))
  {
    assert p in [p];
    if p.Plain? { ScanPlain(p.text, rest, s); } else { ScanQuoted(p.text, rest, s); }
  }

  lemma {:induction false} ScanWord(word: seq<Piece>, rest: string, s: State)
    requires !s.quoted && IsWord(word)
    ensures Scan(Spelled(word) + rest, s) == Scan(rest, s.(token := s.token + Meant(word), started := true))
    decreases |word|
  {
    var p, more := word[0], word[1..];
    assert p in word && forall q :: q in more ==> q in word;
    Assoc(PieceText(p), Spelled(more), rest);
    ScanPiece(p, Spelled(more) + rest, s);
    Assoc(s.token, p.text, Meant(more));
    if more == [] {
      Empty(rest, s.token + p.text);
    } else {
      ScanWord(more, rest, s.(token := s.token + p.text, started := true));
    }
  }

  lemma ScanNext(separator: string, word: seq<Piece>, rest: string, s: State)
    requires Spaces(separator) && (s.started ==> separator != "") && IsWord(word)
    requires !s.quoted && (!s.started ==> s.token == "")
    ensures Scan(separator + (Spelled(word) + rest), s) == Scan(rest, State(Flush(s).tokens, Meant(word), false, true))
  {
    ScanSeparator(separator, Spelled(word) + rest, s);
    ScanWord(word, rest, Flush(s));
    Empty(Meant(word), "");
  }

  /** The first separator may be missing where no token has begun. */
  lemma {:induction false} ScanWritten(words: seq<seq<Piece>>, separators: seq<string>, tail: string, s: State)
    requires |separators| == |words| && forall i :: 0 <= i < |words| ==> IsWord(words[i])
    requires forall i :: 0 <= i < |separators| ==> Spaces(separators[i]) && (0 < i || s.started ==> separators[i] != "")
    requires !s.quoted && (!s.started ==> s.token == "")
    requires Spaces(tail)
    ensures Scan(Written(words, separators) + tail, s) == Ok(Flush(s).tokens + Meanings(words))
    decreases |words|
  {
    if words == [] {
      Empty(tail, tail);
      ScanSeparator(tail, "", s);
    } else {
      var word, next := words[0], State(Flush(s).tokens, Meant(words[0]), false, true);
      var more := Written(words[1..], separators[1..]);
      Regrouped(separators[0], Spelled(word), more, tail);
      ScanNext(separators[0], word, more + tail, s);
      ScanWritten(words[1..], separators[1..], tail, next);
      TokensAssoc(Flush(s).tokens, Meant(word), Meanings(words[1..]));
    }
  }

  lemma TokensAssoc(before: seq<string>, token: string, after: seq<string>)
    ensures (before + [token]) + after == before + ([token] + after)
  {
  }

  lemma Regrouped(a: string, b: string, c: string, d: string)
    ensures (a + b + c) + d == a + (b + (c + d))
  {
  }

  /** Words in any spelling, joined by any whitespace, split back to what they mean. */
  lemma SpellingUndone(words: seq<seq<Piece>>, separators: seq<string>, tail: string)
    requires |separators| == |words| && forall i :: 0 <= i < |words| ==> IsWord(words[i])
    requires forall i :: 0 <= i < |separators| ==> Spaces(separators[i]) && (0 < i ==> separators[i] != "")
    requires Spaces(tail)
    ensures Scan(Written(words, separators) + tail, Fresh) == Ok(Meanings(words))
  {
    ScanWritten(words, separators, tail, Fresh);
  }

  function Quotings(tokens: seq<string>): (r: seq<seq<Piece>>)
    ensures |r| == |tokens| && forall i :: 0 <= i < |r| ==> IsWord(r[i])
  {
    if tokens == [] then [] else [[Quoted(tokens[0])]] + Quotings(tokens[1..])
  }

  lemma QuotedWord(token: string)
    ensures Spelled([Quoted(token)]) == Quote(token) && Meant([Quoted(token)]) == token
  {
    assert [Quoted(token)][1..] == [];
    Empty(Quote(token), Quote(token));
    Empty(token, token);
  }

  lemma {:induction false} JoinedWritten(tokens: seq<string>, separators: seq<string>)
    requires |separators| == |tokens|
    ensures Joined(tokens, separators) == Written(Quotings(tokens), separators)
    ensures Meanings(Quotings(tokens)) == tokens
    decreases |tokens|
  {
    if tokens != [] {
      JoinedWritten(tokens[1..], separators[1..]);
      QuotedWord(tokens[0]);
      assert Quotings(tokens)[0] == [Quoted(tokens[0])] && Quotings(tokens)[1..] == Quotings(tokens[1..]);
    }
  }

  /** Quoting any list of strings and joining it with any whitespace splits back to the same
      list, empty strings included. */
  lemma QuotingUndone(tokens: seq<string>, separators: seq<string>, tail: string)
    requires |separators| == |tokens|
    requires forall i :: 0 <= i < |separators| ==> Spaces(separators[i]) && (0 < i ==> separators[i] != "")
    requires Spaces(tail)
    ensures Scan(Joined(tokens, separators) + tail, Fresh) == Ok(tokens)
  {
    JoinedWritten(tokens, separators);
    SpellingUndone(Quotings(tokens), separators, tail);
  }

  /** The empty list: nothing but whitespace. */
  lemma NothingQuoted(space: string)
    requires Spaces(space)
    ensures Scan(space, Fresh) == Ok([])
  {
    QuotingUndone([], [], space);
    assert Joined([], []) + space == space;
  }

  // ───────────── what is refused ─────────────

  datatype Mode = Outside | Inside | Escaping

  /** Where a text leaves a reader that only minds quotes and escapes. */
  function ModeAfter(value: string): Mode {
    if value == "" then Outside
    else
      var c := value[|value| - 1];
      match ModeAfter(value[..|value| - 1])
      case Outside => if c == '"' then Inside else Outside
      case Inside => if c == '"' then Outside else if c == '\\' then Escaping else Inside
      case Escaping => Inside
  }

  lemma ModeStep(value: string, c: char)
    ensures ModeAfter(value + [c]) == match ModeAfter(value)
      case Outside => if c == '"' then Inside else Outside
      case Inside => if c == '"' then Outside else if c == '\\' then Escaping else Inside
      case Escaping => Inside
  {
    assert (value + [c])[..|value|] == value;
  }

  lemma {:induction false} ScanModes(before: string, value: string, s: State)
    requires ModeAfter(before) == if s.quoted then Inside else Outside
    ensures match Scan(value, s)
      case Ok(_) => ModeAfter(before + value) == Outside
      case UnterminatedString => ModeAfter(before + value) == Inside
      case InvalidEscape => ModeAfter(before + value) == Escaping
    decreases |value|
  {
    if value == "" {
      assert before + value == before;
    } else {
      var c := value[0];
      ModeStep(before, c);
      assert before + value == before + [c] + value[1..];
      if c == '"' {
        ScanModes(before + [c], value[1..], s.(quoted := !s.quoted, started := true));
      } else if s.quoted && c == '\\' {
        if |value| == 1 {
          assert before + value == before + [c];
        } else {
          ModeStep(before + [c], value[1]);
          assert before + value == before + [c] + [value[1]] + value[2..];
          ScanModes(before + [c] + [value[1]], value[2..], s.(token := s.token + [value[1]]));
        }
      } else if !s.quoted && IsSpace(c) {
        ScanModes(before + [c], value[1..], Flush(s));
      } else {
        ScanModes(before + [c], value[1..], s.(token := s.token + [c], started := true));
      }
    }
  }

  /** The value is refused exactly when it ends inside quotes or behind an escape. */
  lemma RefusedIff(value: string)
    ensures Scan(value, Fresh).Ok? <==> ModeAfter(value) == Outside
    ensures Scan(value, Fresh).UnterminatedString? <==> ModeAfter(value) == Inside
    ensures Scan(value, Fresh).InvalidEscape? <==> ModeAfter(value) == Escaping
  {
    ScanModes("", value, Fresh);
    assert "" + value == value;
  }
}
