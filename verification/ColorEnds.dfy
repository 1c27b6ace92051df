/** Where strings and regular expressions end, told without the highlighter's scan: by which
    characters an escape hides, and where the classes of an expression stand. */
module ColorEnds {
  import opened ColorTokens

  /** How many backslashes stand in a row in front of `k`, none of them in front of `i`. */
  function Slashes(s: string, i: nat, k: nat): (n: nat)
    requires i <= k <= |s|
    ensures n <= k - i
    decreases k
  {
    if i < k && s[k - 1] == '\\' then 1 + Slashes(s, i, k - 1) else 0
  }

  /** An odd number of them hides the character behind. */
  predicate Hidden(s: string, i: nat, k: nat)
    requires i <= k <= |s|
  {
    Slashes(s, i, k) % 2 == 1
  }

  /** A character that is not hidden, in a literal whose text starts at `i`. */
  predicate Bare(s: string, i: nat, k: nat, c: char)
    requires i <= k < |s|
  {
    s[k] == c && !Hidden(s, i, k)
  }

  predicate NoneBare(s: string, i: nat, from_: nat, end: nat, c: char)
    requires i <= from_ && end <= |s|
  {
    forall k :: from_ <= k < end ==> !Bare(s, i, k, c)
  }

  lemma NextHidden(s: string, i: nat, k: nat)
    requires i <= k < |s| && !Hidden(s, i, k)
    ensures Hidden(s, i, k + 1) <==> s[k] == '\\'
    ensures s[k] == '\\' && k + 2 <= |s| ==> !Hidden(s, i, k + 2)
  {
    if s[k] == '\\' {
      assert Slashes(s, i, k + 1) == 1 + Slashes(s, i, k);
      assert k + 2 <= |s| && s[k + 1] == '\\' ==> Slashes(s, i, k + 2) == 1 + Slashes(s, i, k + 1);
    }
  }

  // ───────────── strings ─────────────

  lemma {:induction false} StringFrom(s: string, i: nat, k: nat, delim: char)
    requires i <= k <= |s| && !Hidden(s, i, k) && delim != '\\' && delim != '\n'
    ensures var e := StringClosed(s, k, delim);
      && (e != -1 ==> Bare(s, i, e - 1, delim))
      && NoneBare(s, i, k, if e == -1 then |s| else e - 1, delim)
      && (BareNewline(s, k, delim) <==> !NoneBare(s, i, k, if e == -1 then |s| else e, '\n'))
    decreases |s| - k
  {
    if k < |s| {
      NextHidden(s, i, k);
      if s[k] == '\\' {
        if k + 1 < |s| { StringFrom(s, i, k + 2, delim); }
      } else if s[k] != delim {
        StringFrom(s, i, k + 1, delim);
      }
      assert Bare(s, i, k, '\n') <==> s[k] == '\n';
    }
  }

  /** A string ends behind the first delimiter that is not hidden, and is broken exactly by a
      newline in it that is not hidden. */
  lemma StringEnds(s: string, i: nat, delim: char)
    requires i <= |s| && delim != '\\' && delim != '\n'
    ensures var e := StringClosed(s, i, delim);
      && (e != -1 ==> Bare(s, i, e - 1, delim))
      && (forall k :: i <= k < (if e == -1 then |s| else e - 1) ==> !Bare(s, i, k, delim))
      && (BareNewline(s, i, delim) <==> exists k :: i <= k < (if e == -1 then |s| else e) && Bare(s, i, k, '\n'))
  {
    StringFrom(s, i, i, delim);
  }

  // ───────────── regular expressions ─────────────

  /** Where the brackets of a class stand. */
  datatype Span = Span(open: nat, close: nat)

  /** A bracket right behind the opening one belongs to the class. */
  function Inside(s: string, open: nat): (k: nat)
    requires open < |s|
    ensures open < k <= |s|
  {
    if open + 1 < |s| && (s[open + 1] == '[' || s[open + 1] == ']') then open + 2 else open + 1
  }

  /** A class ends at the first closing bracket in it that is not hidden. */
  predicate IsClass(s: string, i: nat, c: Span) {
    && i <= c.open < c.close < |s| && Bare(s, i, c.open, '[')
    && Inside(s, c.open) <= c.close && Bare(s, i, c.close, ']') && NoneBare(s, i, Inside(s, c.open), c.close, ']')
  }

  /** No class begins from `k` to `end`, and no slash closes the expression. */
  predicate Stretch(s: string, i: nat, k: nat, end: nat) {
    i <= k <= end <= |s| && NoneBare(s, i, k, end, '[') && NoneBare(s, i, k, end, '/')
  }

  /** From `k` to `end` there are these classes and, outside them, no such bracket or slash. */
  predicate Classes(s: string, i: nat, k: nat, end: nat, cs: seq<Span>)
    decreases |cs|
  {
    if cs == [] then Stretch(s, i, k, end)
    else
      && IsClass(s, i, cs[0]) && Stretch(s, i, k, cs[0].open)
      && Classes(s, i, cs[0].close + 1, end, cs[1..])
  }

  lemma {:induction false} StretchRead(s: string, i: nat, k: nat, end: nat)
    requires Stretch(s, i, k, end) && end < |s| && !Hidden(s, i, k) && !Hidden(s, i, end)
    ensures RegexClosed(s, k, false) == RegexClosed(s, end, false)
    decreases end - k
  {
    if k < end {
      NextHidden(s, i, k);
      assert !Bare(s, i, k, '[') && !Bare(s, i, k, '/');
      StretchRead(s, i, if s[k] == '\\' then k + 2 else k + 1, end);
    }
  }

  lemma {:induction false} ClassRead(s: string, i: nat, k: nat, close: nat)
    requires i <= k <= close < |s| && !Hidden(s, i, k)
    requires Bare(s, i, close, ']') && NoneBare(s, i, k, close, ']')
    ensures RegexClosed(s, k, true) == RegexClosed(s, close + 1, false)
    decreases close - k
  {
    if k < close {
      NextHidden(s, i, k);
      assert !Bare(s, i, k, ']');
      ClassRead(s, i, if s[k] == '\\' then k + 2 else k + 1, close);
    }
  }

  lemma InsideBare(s: string, i: nat, open: nat)
    requires i <= open < |s| && Bare(s, i, open, '[')
    ensures !Hidden(s, i, Inside(s, open)) && RegexNext(s, open, false) == (Inside(s, open), true)
  {
    NextHidden(s, i, open);
    if Inside(s, open) == open + 2 { NextHidden(s, i, open + 1); }
  }

  lemma {:induction false} ClassesRead(s: string, i: nat, k: nat, end: nat, cs: seq<Span>)
    requires Classes(s, i, k, end, cs) && i <= k <= end < |s| && !Hidden(s, i, k) && !Hidden(s, i, end)
    ensures RegexClosed(s, k, false) == RegexClosed(s, end, false)
    decreases |cs|
  {
    if cs == [] {
      StretchRead(s, i, k, end);
    } else {
      var c := cs[0];
      StretchRead(s, i, k, c.open);
      InsideBare(s, i, c.open);
      ClassRead(s, i, Inside(s, c.open), c.close);
      NextHidden(s, i, c.close);
      ClassesWithin(s, i, c.close + 1, end, cs[1..]);
      ClassesRead(s, i, c.close + 1, end, cs[1..]);
    }
  }

  lemma {:induction false} ClassesWithin(s: string, i: nat, k: nat, end: nat, cs: seq<Span>)
    requires Classes(s, i, k, end, cs)
    ensures i <= k <= end <= |s|
    decreases |cs|
  {
    if cs != [] { ClassesWithin(s, i, cs[0].close + 1, end, cs[1..]); }
  }

  /** Where a class ends whose expression is closed. */
  lemma {:induction false} CloseOf(s: string, i: nat, k: nat) returns (close: nat)
    requires i <= k <= |s| && !Hidden(s, i, k) && RegexClosed(s, k, true) >= 0
    ensures k <= close < |s| && Bare(s, i, close, ']') && NoneBare(s, i, k, close, ']')
    decreases |s| - k
  {
    NextHidden(s, i, k);
    if s[k] == ']' {
      close := k;
    } else {
      close := CloseOf(s, i, RegexNext(s, k, true).0);
    }
  }

  lemma ClassesFrom(s: string, i: nat, k: nat, next: nat, end: nat, cs: seq<Span>)
    requires Stretch(s, i, k, next) && Classes(s, i, next, end, cs)
    ensures Classes(s, i, k, end, cs)
  {
  }

  /** Behind the class that begins at `k`. */
  lemma ClassAt(s: string, i: nat, k: nat) returns (c: Span)
    requires i <= k < |s| && Bare(s, i, k, '[') && RegexClosed(s, k, false) >= 0
    ensures c.open == k && IsClass(s, i, c) && !Hidden(s, i, c.close + 1)
    ensures RegexClosed(s, k, false) == RegexClosed(s, c.close + 1, false)
  {
    InsideBare(s, i, k);
    var close := CloseOf(s, i, Inside(s, k));
    ClassRead(s, i, Inside(s, k), close);
    NextHidden(s, i, close);
    c := Span(k, close);
  }

  /** A character outside classes that neither begins one nor closes the expression. */
  lemma OtherBare(s: string, i: nat, k: nat)
    requires i <= k < |s| && !Hidden(s, i, k) && s[k] != '/' && s[k] != '[' && (s[k] == '\\' ==> k + 1 < |s|)
    ensures !RegexNext(s, k, false).1 && !Hidden(s, i, RegexNext(s, k, false).0)
    ensures Stretch(s, i, k, RegexNext(s, k, false).0)
  {
    NextHidden(s, i, k);
  }

  /** The classes of a closed expression. */
  lemma {:induction false} ClassesOf(s: string, i: nat, k: nat, end: nat) returns (cs: seq<Span>)
    requires i <= k <= |s| && !Hidden(s, i, k) && RegexClosed(s, k, false) == end + 1
    ensures Bare(s, i, end, '/') && Classes(s, i, k, end, cs)
    decreases |s| - k
  {
    if s[k] == '/' {
      cs := [];
    } else if s[k] == '[' {
      var c := ClassAt(s, i, k);
      var more := ClassesOf(s, i, c.close + 1, end);
      cs := [c] + more;
      assert cs[1..] == more;
    } else {
      var next := RegexNext(s, k, false).0;
      OtherBare(s, i, k);
      cs := ClassesOf(s, i, next, end);
      ClassesFrom(s, i, k, next, end, cs);
    }
  }

  /** A slash that is not hidden, with these classes in front. */
  predicate ClosedBy(s: string, i: nat, end: nat, cs: seq<Span>)
    requires i <= end < |s|
  {
    Bare(s, i, end, '/') && Classes(s, i, i, end, cs)
  }

  /** A regular expression is closed by the slash that is not hidden and has classes in front of
      it between which there is no other. */
  lemma RegexClosedIff(s: string, i: nat, end: nat)
    requires i <= end < |s|
    ensures RegexClosed(s, i, false) == end + 1 <==> exists cs :: ClosedBy(s, i, end, cs)
  {
    assert !Hidden(s, i, i);
    if RegexClosed(s, i, false) == end + 1 {
      var cs := ClassesOf(s, i, i, end);
      assert ClosedBy(s, i, end, cs);
    } else {
      forall cs ensures !ClosedBy(s, i, end, cs) {
        if ClosedBy(s, i, end, cs) { ClassesRead(s, i, i, end, cs); }
      }
    }
  }

  lemma {:induction false} RegexNewlineFrom(s: string, i: nat, k: nat, inClass: bool)
    requires i <= k <= |s| && (k < |s| ==> !Hidden(s, i, k))
    ensures var e := RegexClosed(s, k, inClass);
      RegexNewline(s, k, inClass) <==> !NoneBare(s, i, k, if e == -1 then |s| else e, '\n')
    decreases |s| - k
  {
    if k < |s| {
      NextHidden(s, i, k);
      assert Bare(s, i, k, '\n') <==> s[k] == '\n';
      if s[k] != '\n' && (s[k] != '/' || inClass) {
        var (next, within) := RegexNext(s, k, inClass);
        if s[k] == '[' && next == k + 2 { NextHidden(s, i, k + 1); }
        RegexNewlineFrom(s, i, next, within);
      }
    }
  }

  /** It is broken exactly by a newline in it that is not hidden, in a class or not. */
  lemma RegexNewlineIff(s: string, i: nat)
    requires i <= |s|
    ensures var e := RegexClosed(s, i, false);
      RegexNewline(s, i, false) <==> exists k :: i <= k < (if e == -1 then |s| else e) && Bare(s, i, k, '\n')
  {
    RegexNewlineFrom(s, i, i, false);
  }
}
