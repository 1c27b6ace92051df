/** The REPL's highlighter: one pass over possibly unfinished input that styles every
    character and keeps a stack of what is still open. */
module Colorizer {
  import opened Options
  import opened Brackets
  import opened ColorTokens
  import opened ColorBrackets

  datatype Highlight = Highlight(state: string, level: int, invalid: bool, styles: seq<Style>)

  class JSColorizer {
    const words: Words
    var str: string
    var index: nat
    var start: nat
    var styles: seq<Style>
    var stateStack: string
    var braceLevel: int
    var invalid: bool
    var canBeRegex: bool
    var currentStyle: Option<Style>

    constructor ()
      ensures stateStack == "" && words == JS_WORDS
    {
      words := JS_WORDS;
      str, index, start, styles := "", 0, 0, [];
      stateStack, braceLevel, invalid, canBeRegex, currentStyle := "", 0, false, true, None;
    }

    ghost function Snapshot(): Scan
      reads this
    {
      Scan(index, stateStack, braceLevel, canBeRegex, styles)
    }

    predicate PeekIs(c: char)
      reads `str, `index
    {
      index < |str| && str[index] == c
    }

    method ParseBlockComment()
      requires 1 <= index < |str| && str[index] == '*'
      modifies `index, `currentStyle, `stateStack
      ensures currentStyle == Some(Comment)
      ensures index == if CommentClosed(str, old(index) + 1) >= 0 then CommentClosed(str, old(index) + 1) else |str|
      ensures stateStack == if CommentClosed(str, old(index) + 1) >= 0 then old(stateStack) else old(stateStack) + "/"
      ensures old(index) < index <= |str|
    {
      currentStyle := Some(Comment);
      stateStack := stateStack + "/";
      index := index + 1;
      var closed := false;
      while index < |str| && !closed
        invariant old(index) < index <= |str| && currentStyle == Some(Comment)
        invariant closed ==> stateStack == old(stateStack) && index == CommentClosed(str, old(index) + 1)
        invariant !closed ==> stateStack == old(stateStack) + "/" && CommentClosed(str, index) == CommentClosed(str, old(index) + 1)
        decreases |str| - index, if closed then 0 else 1
      {
        if str[index] == '*' && index + 1 < |str| && str[index + 1] == '/' {
          index := index + 2;
          stateStack := stateStack[..|stateStack| - 1];
          closed := true;
        } else {
          index := index + 1;
        }
      }
      if !closed { index := |str|; }
    }

    method ParseLineComment()
      requires index < |str|
      modifies `index, `currentStyle
      ensures currentStyle == Some(Comment) && index == LineEnd(str, old(index) + 1)
    {
      currentStyle := Some(Comment);
      index := index + 1;
      while index < |str| && str[index] != '\n'
        invariant old(index) < index <= |str| && currentStyle == Some(Comment)
        invariant LineEnd(str, index) == LineEnd(str, old(index) + 1)
      {
        index := index + 1;
      }
    }

    method ParseString(delim: char)
      requires index <= |str| && delim != '\n' && delim != '\\'
      modifies `index, `currentStyle, `stateStack, `invalid
      ensures var k := StringClosed(str, old(index), delim);
        && index == (if k >= 0 then k else |str|)
        && stateStack == (if k < 0 && delim == '`' then old(stateStack) + [delim] else old(stateStack))
        && invalid == (old(invalid) || (delim != '`' && (k < 0 || BareNewline(str, old(index), delim))))
      ensures currentStyle == Some(if delim != '`' && (StringClosed(str, old(index), delim) < 0 || BareNewline(str, old(index), delim)) then Error else Str)
    {
      currentStyle := Some(Str);
      var stateLength := |stateStack|;
      stateStack := stateStack + [delim];
      var closed := false;
      ghost var bare := false;
      while index < |str| && !closed
        invariant old(index) <= index <= |str|
        invariant closed ==> stateStack == old(stateStack) && index == StringClosed(str, old(index), delim) && bare == BareNewline(str, old(index), delim)
        invariant !closed ==> stateStack == old(stateStack) + [delim] && StringClosed(str, index, delim) == StringClosed(str, old(index), delim)
        invariant !closed ==> (bare || BareNewline(str, index, delim)) == BareNewline(str, old(index), delim)
        invariant invalid == (old(invalid) || (delim != '`' && bare))
        invariant currentStyle == Some(if delim != '`' && bare then Error else Str)
        decreases |str| - index, if closed then 0 else 1
      {
        var c := str[index];
        index := index + 1;
        if c == '\n' {
          bare := true;
          if delim != '`' {
            invalid := true;
            currentStyle := Some(Error);
          }
        } else if c == '\\' {
          if index < |str| { index := index + 1; }
        } else if c == delim {
          stateStack := stateStack[..|stateStack| - 1];
          closed := true;
        }
      }
      if !closed && delim != '`' {
        stateStack := stateStack[..stateLength];
        invalid := true;
        currentStyle := Some(Error);
      }
    }

    /** Takes the rest of the word characters. */
    method TakeWord()
      requires index <= |str|
      modifies `index
      ensures index == WordEnd(str, old(index))
    {
      while index < |str| && IsWordChar(str[index])
        invariant old(index) <= index <= |str| && WordEnd(str, index) == WordEnd(str, old(index))
      {
        index := index + 1;
      }
    }

    method ParseRegex()
      requires index <= |str|
      modifies `index, `currentStyle, `stateStack, `invalid
      ensures stateStack == old(stateStack)
      ensures var k := RegexClosed(str, old(index), false);
        && index == (if k >= 0 then WordEnd(str, k) else |str|)
        && currentStyle == Some(if k < 0 || RegexNewline(str, old(index), false) then Error else Regex)
      ensures invalid == (old(invalid) || currentStyle == Some(Error))
    {
      currentStyle := Some(Regex);
      var stateLength := |stateStack|;
      stateStack := stateStack + "/";
      var closed := false;
      ghost var inClass, newline := false, false;
      while index < |str| && !closed
        invariant old(index) <= index <= |str|
        invariant closed ==> stateStack == old(stateStack) && RegexClosed(str, old(index), false) >= 0
        invariant closed ==> index == WordEnd(str, RegexClosed(str, old(index), false))
        invariant !closed ==> stateStack == old(stateStack) + (if inClass then "/[" else "/")
        invariant !closed ==> RegexClosed(str, index, inClass) == RegexClosed(str, old(index), false)
        invariant !closed ==> (newline || RegexNewline(str, index, inClass)) == RegexNewline(str, old(index), false)
        invariant closed ==> newline == RegexNewline(str, old(index), false)
        invariant currentStyle == Some(if newline then Error else Regex) && invalid == (old(invalid) || newline)
        decreases |str| - index, if closed then 0 else 1
      {
        newline := newline || str[index] == '\n';
        closed, inClass := RegexChar(old(stateStack), inClass);
      }
      if !closed {
        stateStack := stateStack[..stateLength];
        invalid := true;
        currentStyle := Some(Error);
      }
    }

    /** One character of a regular expression. */
    method RegexChar(ghost below: string, ghost inClass: bool) returns (closed: bool, ghost now: bool)
      requires index < |str| && stateStack == below + (if inClass then "/[" else "/")
      modifies `index, `currentStyle, `stateStack, `invalid
      ensures old(index) < index <= |str|
      ensures closed ==> stateStack == below && RegexClosed(str, old(index), inClass) == old(index) + 1 && index == WordEnd(str, old(index) + 1)
      ensures !closed ==> stateStack == below + (if now then "/[" else "/") && RegexClosed(str, index, now) == RegexClosed(str, old(index), inClass)
      ensures !closed && str[old(index)] != '\n' ==> RegexNewline(str, index, now) == RegexNewline(str, old(index), inClass)
      ensures closed ==> !RegexNewline(str, old(index), inClass)
      ensures (invalid, currentStyle) == if str[old(index)] == '\n' then (true, Some(Error)) else (old(invalid), old(currentStyle))
    {
      closed, now := false, inClass;
      var c := str[index];
      index := index + 1;
      if c == '\n' {
        invalid := true;
        currentStyle := Some(Error);
      } else if c == '\\' {
        if index < |str| { index := index + 1; }
      } else if stateStack[|stateStack| - 1] == '[' {
        if c == ']' {
          stateStack := stateStack[..|stateStack| - 1];
          now := false;
          assert stateStack == below + "/";
        }
      } else if c == '[' {
        stateStack := stateStack + "[";
        now := true;
        assert stateStack == below + "/[";
        if index < |str| && (str[index] == '[' || str[index] == ']') { index := index + 1; }
      } else if c == '/' {
        stateStack := stateStack[..|stateStack| - 1];
        TakeWord();
        closed := true;
      }
    }

    method ParseNumber()
      requires index <= |str|
      modifies `index, `currentStyle
      ensures currentStyle == Some(Number) && index == NumberEnd(str, old(index))
    {
      currentStyle := Some(Number);
      while index < |str| && IsNumberPart(str, index)
        invariant old(index) <= index <= |str| && currentStyle == Some(Number)
        invariant NumberEnd(str, index) == NumberEnd(str, old(index))
      {
        index := index + 1;
      }
    }

    /** Styles by what the word is and what follows it; always moves past the word. */
    method ParseIdentifier()
      requires start < |str| && IsWordChar(str[start]) && index == start + 1
      modifies `index, `currentStyle, `canBeRegex
      ensures start < index <= |str| && index == WordEnd(str, start)
      ensures currentStyle == Some(WordStyle(words, str, start, index, braceLevel))
      ensures canBeRegex == (currentStyle == Some(Directive) || OperandFollows(words, str, str[start..index], index))
    {
      if start > 0 && str[start - 1] == '.' && braceLevel == 0 {
        canBeRegex := true;
        TakeWord();
        if str[start..index] in words.directives {
          currentStyle := Some(Directive);
          return;
        }
        index := start;
      }
      canBeRegex := true;
      TakeWord();
      ParseWord(str[start..index]);
    }

    /** A keyword, a call, a type or a plain name. */
    method ParseWord(word: string)
      requires index <= |str|
      modifies `currentStyle, `canBeRegex
      ensures currentStyle == Some(PlainStyle(words, str, word, index))
      ensures canBeRegex == (old(canBeRegex) && OperandFollows(words, str, word, index))
    {
      if word in words.keywords {
        currentStyle := Some(Keyword);
        if word in words.noRegex { canBeRegex := false; }
        return;
      }
      var next := index;
      while next < |str| && str[next] == ' '
        invariant index <= next <= |str| && SpacesEnd(str, next) == SpacesEnd(str, index)
      {
        next := next + 1;
      }
      if next < |str| && str[next] == '(' {
        currentStyle := Some(Function);
        return;
      }
      currentStyle := Some(if word in words.types then Type else Identifier);
      if currentStyle == Some(Identifier) { canBeRegex := false; }
    }

    /** Styles stop at `end`; everything unstyled before `begin` gets the default. */
    method FillStyle(begin: nat, end: nat)
      requires |styles| <= begin <= end
      modifies `styles
      ensures styles == Filled(old(styles), begin, end, Or(currentStyle, Default))
    {
      while |styles| < begin
        invariant |old(styles)| <= |styles| <= begin && old(styles) <= styles
        invariant forall k :: |old(styles)| <= k < |styles| ==> styles[k] == Default
        invariant currentStyle == old(currentStyle)
        decreases begin - |styles|
      {
        styles := styles + [Default];
      }
      while |styles| < end
        invariant begin <= |styles| <= end && old(styles) <= styles
        invariant forall k :: |old(styles)| <= k < begin ==> styles[k] == Default
        invariant forall k :: begin <= k < |styles| ==> styles[k] == Or(currentStyle, Default)
        invariant currentStyle == old(currentStyle)
        decreases end - |styles|
      {
        styles := styles + [Or(currentStyle, Default)];
      }
    }

    /** Every style so far, with what is not styled yet as default. */
    ghost predicate Styled()
      reads this
    {
      |styles| <= index <= |str| && (invalid <==> Error in styles)
    }

    /** Gives the characters from `start` on the current style. */
    method Paint()
      requires |styles| <= start < index <= |str| && currentStyle.Some?
      requires invalid == (Error in styles || currentStyle == Some(Error))
      modifies `styles
      ensures Styled() && styles == Filled(old(styles), start, index, currentStyle.value)
    {
      FillStyle(start, index);
      assert currentStyle == Some(Error) ==> styles[start] == Error;
    }

    /** Closes the innermost bracket if it fits; otherwise it is an error. */
    method Close(c: char) returns (closed: bool)
      requires currentStyle.None?
      modifies `canBeRegex, `braceLevel, `stateStack, `invalid, `currentStyle
      ensures closed == Closes(old(Snapshot()), c) && !canBeRegex && invalid == (old(invalid) || !closed)
      ensures currentStyle == if closed then None else Some(Error)
      ensures (stateStack, braceLevel) == if closed then (old(stateStack[..|stateStack| - 1]), old(braceLevel) - 1) else old((stateStack, braceLevel))
    {
      canBeRegex := false;
      if braceLevel > 0 && stateStack != "" && Pair(stateStack[|stateStack| - 1], c) {
        braceLevel := braceLevel - 1;
        stateStack := stateStack[..|stateStack| - 1];
        return true;
      }
      invalid := true;
      currentStyle := Some(Error);
      closed := false;
    }

    /** One token. */
    method Token()
      requires index < |str| && Styled()
      modifies `index, `start, `styles, `stateStack, `braceLevel, `invalid, `canBeRegex, `currentStyle
      ensures Styled() && Snapshot() == TokenAt(words, str, old(Snapshot()))
    {
      currentStyle := None;
      start := index;
      var c := str[index];
      index := index + 1;
      if c == ' ' || c == '\t' || c == '\r' || c == '\n' { return; }
      if c == '+' || c == '-' {
        if PeekIs(c) { index := index + 1; } else { canBeRegex := true; }
        return;
      }
      if IsOpener(c) || IsCloser(c) {
        Bracket(c);
      } else {
        var styled := Literal(c);
        if styled { Paint(); }
      }
    }

    method Bracket(c: char)
      requires |styles| <= start < |str| && index == start + 1 && (IsOpener(c) || IsCloser(c)) && currentStyle.None?
      requires invalid == (Error in styles)
      modifies `styles, `stateStack, `braceLevel, `invalid, `canBeRegex, `currentStyle
      ensures Styled() && Snapshot() == BracketToken(old(Snapshot()).(index := start), c)
    {
      if IsOpener(c) {
        canBeRegex := true;
        braceLevel := braceLevel + 1;
        stateStack := stateStack + [c];
        return;
      }
      var closed := Close(c);
      if !closed { Paint(); }
    }

    /** A comment, a regular expression, or a division. */
    method Slash() returns (styled: bool)
      requires 0 <= start < |str| && str[start] == '/' && index == start + 1 && currentStyle.None?
      modifies `index, `stateStack, `invalid, `canBeRegex, `currentStyle
      ensures var l := SlashAt(str, start, old(canBeRegex));
        && (currentStyle, index, canBeRegex) == (l.style, l.end, l.canBeRegex) && stateStack == old(stateStack) + l.open
      ensures styled == currentStyle.Some? && invalid == (old(invalid) || currentStyle == Some(Error))
    {
      styled := true;
      if PeekIs('*') {
        ParseBlockComment();
      } else if PeekIs('/') {
        ParseLineComment();
      } else if canBeRegex {
        ParseRegex();
        canBeRegex := false;
      } else {
        canBeRegex := true;
        styled := false;
      }
    }

    /** Comments, regular expressions, strings, numbers and words. */
    method Literal(c: char) returns (styled: bool)
      requires 0 <= start < |str| && str[start] == c && index == start + 1 && !IsOpener(c) && !IsCloser(c) && currentStyle.None?
      modifies `index, `stateStack, `invalid, `canBeRegex, `currentStyle
      ensures var l := LiteralAt(words, str, start, old(canBeRegex), braceLevel);
        && (currentStyle, index, canBeRegex) == (l.style, l.end, l.canBeRegex) && stateStack == old(stateStack) + l.open
      ensures styled == currentStyle.Some? && invalid == (old(invalid) || currentStyle == Some(Error))
    {
      styled := true;
      if c == '/' {
        styled := Slash();
      } else if c == '\'' || c == '"' || c == '`' {
        ParseString(c);
        canBeRegex := false;
      } else if IsDigit(c) {
        ParseNumber();
        canBeRegex := false;
      } else if IsWordChar(c) {
        ParseIdentifier();
      } else {
        canBeRegex := true;
        styled := false;
      }
    }

    /** One style per character, from any state; from a fresh one, the state is the stack of
        unmatched openers, with at most one open template or block comment on top, and the
        level is the number of those openers. */
    method Colorize(input: string, state: string, level: int) returns (r: Highlight)
      modifies this
      ensures |r.styles| == |input| && (r.invalid <==> Error in r.styles)
      ensures var end := Rest(words, input, Scan(0, state, level, true, []));
        && (r.state, r.level) == (end.stack, end.level)
        && r.styles == Filled(end.styles, |input|, |input|, Default)
      ensures state == "" && level == 0 ==>
        AllOpeners(Core(r.state)) && r.level == |Core(r.state)| && Opens(Shown(input, r.styles, |input|), Core(r.state))
      ensures state == "" && level == 0 && r.state == "" ==> Balanced(Shown(input, r.styles, |input|))
      ensures state == "" && level == 0 && r.state == "" && !r.invalid ==> Balanced(BracketTokens(words, input, Begin))
    {
      str, index, start, styles := input, 0, 0, [];
      stateStack, braceLevel, invalid, canBeRegex := state, level, false, true;
      while index < |str|
        invariant str == input && Styled() && Rest(words, input, Snapshot()) == Rest(words, input, Scan(0, state, level, true, []))
        decreases |str| - index
      {
        Token();
      }
      currentStyle := None;
      ghost var before := styles;
      FillStyle(|str|, |str|);
      assert Error in styles <==> Error in before;
      r := Highlight(stateStack, braceLevel, invalid, styles);
      if state == "" && level == 0 { FreshColors(words, input); }
    }
  }
}
