/** What the highlighter's state says about brackets: from a fresh state it is the stack of
    the openers without a closer, with at most one open template or block comment on top. */
module ColorBrackets {
  import opened Options
  import opened Brackets
  import opened ColorTokens

  predicate AllOpeners(s: string) { forall i :: 0 <= i < |s| ==> IsOpener(s[i]) }

  /** The stack without a template or comment that is still open. */
  function Core(stack: string): string {
    if stack != "" && (stack[|stack| - 1] == '`' || stack[|stack| - 1] == '/') then stack[..|stack| - 1] else stack
  }

  /** The brackets among the first `n` characters that are not part of a literal, a comment or
      an error: those with the default style. */
  function Shown(s: string, styles: seq<Style>, n: nat): string
    requires n <= |s|
  {
    if n == 0 then ""
    else
      var c := s[n - 1];
      Shown(s, styles, n - 1)
      + (if (IsOpener(c) || IsCloser(c)) && (n - 1 < |styles| ==> styles[n - 1] == Default) then [c] else [])
  }

  lemma ShownPlain(s: string, styles: seq<Style>, n: nat)
    requires 0 < n <= |s|
    ensures !IsOpener(s[n - 1]) && !IsCloser(s[n - 1]) ==> Shown(s, styles, n) == Shown(s, styles, n - 1)
  {
  }

  lemma {:induction false} ShownFilled(s: string, before: seq<Style>, styles: seq<Style>, n: nat)
    requires n <= |s| && before <= styles && n <= |styles|
    requires forall k :: |before| <= k < n ==> styles[k] == Default
    ensures Shown(s, styles, n) == Shown(s, before, n)
  {
    if n > 0 { ShownFilled(s, before, styles, n - 1); }
  }

  lemma {:induction false} ShownStyled(s: string, styles: seq<Style>, begin: nat, end: nat)
    requires begin <= end <= |s| && end <= |styles|
    requires forall k :: begin <= k < end ==> styles[k] != Default
    ensures Shown(s, styles, end) == Shown(s, styles, begin)
    decreases end
  {
    if begin < end {
      ShownStyled(s, styles, begin, end - 1);
      assert Shown(s, styles, end - 1) + [] == Shown(s, styles, end - 1);
    }
  }

  lemma FilledShown(s: string, before: seq<Style>, begin: nat, end: nat, style: Style)
    requires |before| <= begin <= end <= |s| && style != Default
    ensures Shown(s, Filled(before, begin, end, style), end) == Shown(s, before, begin)
  {
    var styles := Filled(before, begin, end, style);
    ShownFilled(s, before, styles, begin);
    ShownStyled(s, styles, begin, end);
  }

  /** Only brackets are open, each shown one that is not closed again. */
  ghost predicate Tidy(s: string, t: Scan) {
    && |t.styles| <= t.index <= |s| && AllOpeners(t.stack) && t.level == |t.stack|
    && Opens(Shown(s, t.styles, t.index), t.stack)
  }

  /** The input ended inside a template or a block comment. */
  ghost predicate Unfinished(s: string, t: Scan) {
    && |t.styles| <= t.index == |s| && t.stack != "" && t.stack[|t.stack| - 1] in {'`', '/'}
    && AllOpeners(Core(t.stack)) && t.level == |Core(t.stack)|
    && Opens(Shown(s, t.styles, t.index), Core(t.stack))
  }

  // ───────────── one token ─────────────

  /** Whitespace and signs. */
  predicate PlainTo(s: string, t: Scan, u: Scan) {
    && u.styles == t.styles && u.stack == t.stack && u.level == t.level
    && t.index < u.index <= t.index + 2 && u.index <= |s|
    && forall k :: t.index <= k < u.index ==> !IsOpener(s[k]) && !IsCloser(s[k])
  }

  /** A literal leaves something open only at the end of the input. */
  predicate LiteralFits(s: string, t: Scan, l: Literal) {
    && t.index < l.end <= |s| && l.style != Some(Default) && (l.style.None? ==> l.end == t.index + 1 && l.open == "")
    && (l.open == "" || ((l.open == "`" || l.open == "/") && l.end == |s|))
  }

  /** All that matters here of a token that takes the scan from `t` to `u`. */
  ghost predicate Takes(s: string, t: Scan, u: Scan)
    requires |t.styles| <= t.index < |s|
  {
    var c := s[t.index];
    if IsOpener(c) || IsCloser(c) then u == BracketToken(t, c)
    else if IsSpace(c) || c == '+' || c == '-' then PlainTo(s, t, u)
    else exists l :: LiteralFits(s, t, l) && u == LiteralToken(t, l)
  }

  lemma TokenTakes(words: Words, s: string, t: Scan)
    requires |t.styles| <= t.index < |s|
    ensures Takes(s, t, TokenAt(words, s, t))
  {
    var c := s[t.index];
    if !IsOpener(c) && !IsCloser(c) && !IsSpace(c) && c != '+' && c != '-' {
      var l := LiteralAt(words, s, t.index, t.canBeRegex, t.level);
      assert LiteralFits(s, t, l) && TokenAt(words, s, t) == LiteralToken(t, l);
    }
  }

  /** The bracket a token opens or closes, if it does. */
  function Bracket(s: string, t: Scan): Option<char>
    requires t.index < |s|
  {
    var c := s[t.index];
    if IsOpener(c) || (IsCloser(c) && Closes(t, c)) then Some(c) else None
  }

  function With(w: string, c: Option<char>): string { if c.Some? then w + [c.value] else w }

  lemma Appears(s: string, styles: seq<Style>, i: nat)
    requires |styles| <= i < |s| && (IsOpener(s[i]) || IsCloser(s[i]))
    ensures Shown(s, styles, i + 1) == Shown(s, styles, i) + [s[i]]
  {
  }

  /** A token shows its bracket and nothing else. */
  lemma TokenShown(s: string, t: Scan, u: Scan)
    requires |t.styles| <= t.index < |s| && Takes(s, t, u)
    ensures Shown(s, u.styles, u.index) == With(Shown(s, t.styles, t.index), Bracket(s, t))
  {
    var c := s[t.index];
    if IsOpener(c) || IsCloser(c) {
      BracketShown(s, t, u);
    } else if IsSpace(c) || c == '+' || c == '-' {
      PlainShown(s, t, u);
    } else {
      var l :| LiteralFits(s, t, l) && u == LiteralToken(t, l);
      LiteralShown(s, t, l, u);
    }
  }

  lemma BracketShown(s: string, t: Scan, u: Scan)
    requires |t.styles| <= t.index < |s| && (IsOpener(s[t.index]) || IsCloser(s[t.index])) && u == BracketToken(t, s[t.index])
    ensures Shown(s, u.styles, u.index) == With(Shown(s, t.styles, t.index), Bracket(s, t))
  {
    var i, c := t.index, s[t.index];
    if IsOpener(c) || Closes(t, c) {
      assert u.styles == t.styles && u.index == i + 1;
      Appears(s, t.styles, i);
    } else {
      assert u.styles == Filled(t.styles, i, i + 1, Error) && u.index == i + 1;
      FilledShown(s, t.styles, i, i + 1, Error);
    }
  }

  lemma PlainShown(s: string, t: Scan, u: Scan)
    requires PlainTo(s, t, u)
    ensures Shown(s, u.styles, u.index) == Shown(s, t.styles, t.index)
  {
    ShownPlain(s, t.styles, t.index + 1);
    if u.index == t.index + 2 { ShownPlain(s, t.styles, u.index); }
  }

  lemma LiteralShown(s: string, t: Scan, l: Literal, u: Scan)
    requires |t.styles| <= t.index && LiteralFits(s, t, l) && u == LiteralToken(t, l)
    requires !IsOpener(s[t.index]) && !IsCloser(s[t.index])
    ensures Shown(s, u.styles, u.index) == Shown(s, t.styles, t.index)
  {
    if l.style.Some? {
      FilledShown(s, t.styles, t.index, l.end, l.style.value);
    } else {
      ShownPlain(s, t.styles, t.index + 1);
    }
  }

  lemma Nothing(s: string)
    ensures s + "" == s
  {
  }

  lemma TokenTidy(s: string, t: Scan, u: Scan)
    requires Tidy(s, t) && t.index < |s| && Takes(s, t, u)
    ensures Tidy(s, u) || Unfinished(s, u)
  {
    var c := s[t.index];
    TokenShown(s, t, u);
    if IsOpener(c) || IsCloser(c) {
      BracketTidy(s, t, u);
    } else if !IsSpace(c) && c != '+' && c != '-' {
      var l :| LiteralFits(s, t, l) && u == LiteralToken(t, l);
      StackAbove(t.stack, l.open);
    }
  }

  lemma BracketTidy(s: string, t: Scan, u: Scan)
    requires Tidy(s, t) && t.index < |s| && u == BracketToken(t, s[t.index]) && (IsOpener(s[t.index]) || IsCloser(s[t.index]))
    requires Shown(s, u.styles, u.index) == With(Shown(s, t.styles, t.index), Bracket(s, t))
    ensures Tidy(s, u)
  {
    if IsOpener(s[t.index]) { OpenerTidy(s, t, u); } else if Closes(t, s[t.index]) { CloserTidy(s, t, u); }
  }

  lemma OpenerTidy(s: string, t: Scan, u: Scan)
    requires Tidy(s, t) && t.index < |s| && IsOpener(s[t.index]) && u.stack == t.stack + [s[t.index]] && u.level == t.level + 1
    requires |u.styles| <= u.index == t.index + 1 && Shown(s, u.styles, u.index) == Shown(s, t.styles, t.index) + [s[t.index]]
    ensures Tidy(s, u)
  {
    OpensPush(Shown(s, t.styles, t.index), t.stack, s[t.index]);
  }

  lemma CloserTidy(s: string, t: Scan, u: Scan)
    requires Tidy(s, t) && t.index < |s| && Closes(t, s[t.index]) && u.stack == t.stack[..|t.stack| - 1] && u.level == t.level - 1
    requires |u.styles| <= u.index == t.index + 1 && Shown(s, u.styles, u.index) == Shown(s, t.styles, t.index) + [s[t.index]]
    ensures Tidy(s, u)
  {
    OpensPop(Shown(s, t.styles, t.index), t.stack, s[t.index]);
  }

  lemma StackAbove(stack: string, above: string)
    requires AllOpeners(stack) && (above == "" || above == "`" || above == "/")
    ensures above == "" ==> stack + above == stack
    ensures Core(stack + above) == stack
  {
  }

  lemma {:induction false} RestTidy(words: Words, s: string, t: Scan)
    requires Tidy(s, t) || Unfinished(s, t)
    ensures Tidy(s, Rest(words, s, t)) || Unfinished(s, Rest(words, s, t))
    decreases |s| - t.index
  {
    if t.index < |s| {
      TokenTakes(words, s, t);
      TokenTidy(s, t, TokenAt(words, s, t));
      RestTidy(words, s, TokenAt(words, s, t));
    }
  }

  // ───────────── the bracket tokens ─────────────

  /** All bracket tokens from the index on, the erroneous ones included. */
  function BracketTokens(words: Words, s: string, t: Scan): string
    requires t.index <= |s| && |t.styles| <= t.index
    decreases |s| - t.index
  {
    if t.index == |s| then ""
    else
      (if IsOpener(s[t.index]) || IsCloser(s[t.index]) then [s[t.index]] else "") + BracketTokens(words, s, TokenAt(words, s, t))
  }

  lemma TokenStyles(words: Words, s: string, t: Scan)
    requires |t.styles| <= t.index < |s|
    ensures t.styles <= TokenAt(words, s, t).styles
    ensures IsCloser(s[t.index]) && !Closes(t, s[t.index]) ==> Error in TokenAt(words, s, t).styles
  {
    var u := TokenAt(words, s, t);
    if IsCloser(s[t.index]) && !Closes(t, s[t.index]) { assert u.styles[t.index] == Error; }
  }

  lemma {:induction false} StylesStay(words: Words, s: string, t: Scan)
    requires |t.styles| <= t.index <= |s|
    ensures t.styles <= Rest(words, s, t).styles
    decreases |s| - t.index
  {
    if t.index < |s| {
      TokenStyles(words, s, t);
      StylesStay(words, s, TokenAt(words, s, t));
    }
  }

  /** Without an error, what is shown are all the bracket tokens. */
  lemma {:induction false} ShownTokens(words: Words, s: string, t: Scan)
    requires |t.styles| <= t.index <= |s| && Error !in Rest(words, s, t).styles
    ensures Shown(s, Rest(words, s, t).styles, |s|) == Shown(s, t.styles, t.index) + BracketTokens(words, s, t)
    decreases |s| - t.index
  {
    if t.index == |s| {
      Nothing(Shown(s, t.styles, t.index));
    } else {
      var u := TokenAt(words, s, t);
      TokenTakes(words, s, t);
      TokenShown(s, t, u);
      TokenStyles(words, s, t);
      StylesStay(words, s, u);
      assert Error !in u.styles;
      ShownTokens(words, s, u);
      Between(Shown(s, t.styles, t.index), Bracket(s, t), BracketTokens(words, s, u));
      assert IsCloser(s[t.index]) ==> Closes(t, s[t.index]);
    }
  }

  lemma Between(a: string, b: Option<char>, c: string)
    ensures With(a, b) + c == a + ((if b.Some? then [b.value] else "") + c)
  {
  }

  const Begin := Scan(0, "", 0, true, [])

  /** From a fresh state, for all input; when it is valid and nothing stays open, its bracket
      tokens form a balanced word. */
  lemma FreshColors(words: Words, input: string)
    ensures var end := Rest(words, input, Begin); var styles := Filled(end.styles, |input|, |input|, Default);
      && AllOpeners(Core(end.stack)) && end.level == |Core(end.stack)| && Opens(Shown(input, styles, |input|), Core(end.stack))
      && (end.stack == "" ==> Balanced(Shown(input, styles, |input|)))
      && (Error !in styles ==> Opens(BracketTokens(words, input, Begin), Core(end.stack)))
      && (Error !in styles && end.stack == "" ==> Balanced(BracketTokens(words, input, Begin)))
  {
    assert Balanced("") by { assert Proper(Empty) && Word(Empty) == ""; }
    NothingOpen("");
    RestTidy(words, input, Begin);
    var end := Rest(words, input, Begin);
    var styles := Filled(end.styles, |input|, |input|, Default);
    ShownFilled(input, end.styles, styles, |input|);
    NothingOpen(Shown(input, styles, |input|));
    if Error !in styles {
      ShownTokens(words, input, Begin);
      EmptyFront(BracketTokens(words, input, Begin));
    }
  }
}
