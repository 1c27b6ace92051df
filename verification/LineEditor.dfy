/** Editing one line. The text is kept in UTF-16 units and the cursor is an index into them;
    what the user edits are characters. */
module LineEditor {
  import opened Utf8Input

  type Unit = int

  type Text = seq<int>

  predicate IsTrailing(u: int) { 0xDC00 <= u < 0xE000 }

  /** One unit, or a leading and a trailing surrogate. */
  function Units(c: int): (r: seq<Unit>)
    ensures 1 <= |r| <= 2 && (|r| == 2 ==> IsTrailing(r[1])) && (IsScalar(c) ==> !IsTrailing(r[0]))
  {
    if c < 0x10000 then [c] else [0xD800 + (c - 0x10000) / 0x400, 0xDC00 + (c - 0x10000) % 0x400]
  }

  function Utf16(t: Text): seq<Unit> {
    if t == [] then [] else Units(t[0]) + Utf16(t[1..])
  }

  lemma {:induction false} Utf16Concat(a: Text, b: Text)
    ensures Utf16(a + b) == Utf16(a) + Utf16(b)
    decreases |a|
  {
    if a == [] {
      assert a + b == b;
    } else {
      assert (a + b)[1..] == a[1..] + b;
      Utf16Concat(a[1..], b);
      assert Units(a[0]) + (Utf16(a[1..]) + Utf16(b)) == Utf16(a) + Utf16(b);
    }
  }

  lemma Utf16One(c: int)
    ensures Utf16([c]) == Units(c)
  {
    assert [c][1..] == [] && Units(c) + [] == Units(c);
  }

  /** The units of one text determine it. */
  lemma {:induction false} Utf16Unambiguous(a: Text, b: Text)
    requires AllScalars(a) && AllScalars(b) && Utf16(a) == Utf16(b)
    ensures a == b
    decreases |a|
  {
    NoUnits(a);
    NoUnits(b);
    if a != [] {
      HeadUnits(a);
      HeadUnits(b);
      assert a[0] == b[0];
      assert Utf16(a)[|Units(a[0])|..] == Utf16(a[1..]) && Utf16(b)[|Units(b[0])|..] == Utf16(b[1..]);
      Utf16Unambiguous(a[1..], b[1..]);
      assert a == [a[0]] + a[1..] && b == [b[0]] + b[1..];
    }
  }

  lemma NoUnits(t: Text)
    ensures Utf16(t) == [] <==> t == []
  {
  }

  /** A character can be read off the front. */
  lemma HeadUnits(t: Text)
    requires AllScalars(t) && t != []
    ensures var u := Utf16(t);
      && u != [] && (u[0] < 0xD800 || u[0] >= 0xE000 ==> t[0] == u[0])
      && (0xD800 <= u[0] < 0xDC00 ==> |u| >= 2 && t[0] == 0x10000 + (u[0] - 0xD800) * 0x400 + (u[1] - 0xDC00))
      && !(0xDC00 <= u[0] < 0xE000)
  {
    var c := t[0];
    assert Utf16(t)[0] == Units(c)[0];
    if c >= 0x10000 { assert Utf16(t)[1] == Units(c)[1]; }
  }

  /** A cursor between two texts is in range and does not stand inside a surrogate pair. */
  lemma CursorApart(left: Text, right: Text)
    requires AllScalars(left) && AllScalars(right)
    ensures var u, cursor := Utf16(left) + Utf16(right), |Utf16(left)|;
      && cursor <= |u| && (cursor < |u| <==> right != []) && (cursor < |u| ==> !IsTrailing(u[cursor]))
      && u == Utf16(left + right)
  {
    Utf16Concat(left, right);
    NoUnits(right);
    if right != [] { assert Utf16(right)[0] == Units(right[0])[0]; }
  }

  // ───────────── words ─────────────

  predicate IsWord(c: int) { 0x30 <= c <= 0x39 || 0x41 <= c <= 0x5A || 0x61 <= c <= 0x7A || c == 0x5F || c == 0x24 }

  /** The characters at the front that are word characters, or are not. */
  function Run(t: Text, word: bool): (k: nat)
    ensures k <= |t|
  {
    if t == [] || IsWord(t[0]) != word then 0 else 1 + Run(t[1..], word)
  }

  /** Over what is not a word, then over a word. */
  function WordAhead(t: Text): (k: nat)
    ensures k <= |t|
  {
    var k := Run(t, false);
    k + Run(t[k..], true)
  }

  function RunBack(t: Text, word: bool): (k: nat)
    ensures k <= |t|
  {
    if t == [] || IsWord(t[|t| - 1]) != word then 0 else 1 + RunBack(t[..|t| - 1], word)
  }

  function WordBehind(t: Text): (k: nat)
    ensures k <= |t|
  {
    var k := RunBack(t, false);
    k + RunBack(t[..|t| - k], true)
  }

  lemma {:induction false} RunIs(t: Text, word: bool)
    ensures var k := Run(t, word);
      (forall i :: 0 <= i < k ==> IsWord(t[i]) == word) && (k < |t| ==> IsWord(t[k]) != word)
  {
    if t != [] && IsWord(t[0]) == word {
      RunIs(t[1..], word);
      forall i | 0 <= i < Run(t, word) ensures IsWord(t[i]) == word {
        if i > 0 { assert t[i] == t[1..][i - 1]; }
      }
    }
  }

  lemma {:induction false} RunBackIs(t: Text, word: bool)
    ensures var k := RunBack(t, word);
      (forall i :: |t| - k <= i < |t| ==> IsWord(t[i]) == word) && (k < |t| ==> IsWord(t[|t| - k - 1]) != word)
  {
    if t != [] && IsWord(t[|t| - 1]) == word { RunBackIs(t[..|t| - 1], word); }
  }

  /** The word ahead: `i` characters that are in no word, then a word that ends at `WordAhead`. */
  lemma WordAheadIs(t: Text) returns (i: nat)
    ensures i <= WordAhead(t) && (forall k :: 0 <= k < i ==> !IsWord(t[k])) && (forall k :: i <= k < WordAhead(t) ==> IsWord(t[k]))
    ensures WordAhead(t) < |t| ==> i < WordAhead(t) && !IsWord(t[WordAhead(t)])
  {
    i := Run(t, false);
    RunIs(t, false);
    RunIs(t[i..], true);
    var k := Run(t[i..], true);
    forall j | i <= j < i + k ensures IsWord(t[j]) { assert t[j] == t[i..][j - i]; }
    if i < |t| { assert t[i..][0] == t[i]; }
  }

  /** The same for the word behind. */
  lemma WordBehindIs(t: Text) returns (i: nat)
    ensures var start := |t| - WordBehind(t);
      && start <= i <= |t| && (forall k :: i <= k < |t| ==> !IsWord(t[k])) && (forall k :: start <= k < i ==> IsWord(t[k]))
      && (start > 0 ==> start < i && !IsWord(t[start - 1]))
  {
    i := |t| - RunBack(t, false);
    RunBackIs(t, false);
    RunBackIs(t[..i], true);
  }

  /** The same runs over units. */
  function UnitRun(u: seq<Unit>, p: nat, word: bool): (q: nat)
    requires p <= |u|
    ensures p <= q <= |u|
    decreases |u| - p
  {
    if p == |u| || IsWord(u[p]) != word then p else UnitRun(u, p + 1, word)
  }

  function UnitRunBack(u: seq<Unit>, p: nat, word: bool): (q: nat)
    requires p <= |u|
    ensures q <= p
  {
    if p == 0 || IsWord(u[p - 1]) != word then p else UnitRunBack(u, p - 1, word)
  }

  /** Surrogates are not word characters, so a run of units ends where a character ends. */
  lemma UnitsWord(c: int)
    requires IsScalar(c)
    ensures forall i :: 0 <= i < |Units(c)| ==> IsWord(Units(c)[i]) == IsWord(c)
  {
  }

  lemma {:induction false} RunUnits(u: seq<Unit>, a: seq<Unit>, b: Text, word: bool)
    requires AllScalars(b) && u == a + Utf16(b)
    ensures UnitRun(u, |a|, word) == |a| + |Utf16(b[..Run(b, word)])|
    decreases |b|
  {
    if b != [] {
      var c := Units(b[0]);
      UnitsWord(b[0]);
      Utf16First(b);
      StepUnits(u, a, c, Utf16(b[1..]), IsWord(b[0]), word);
      if IsWord(b[0]) == word {
        RunUnits(u, a + c, b[1..], word);
        assert b[..Run(b, word)][1..] == b[1..][..Run(b[1..], word)];
      }
    }
  }

  lemma StepUnits(u: seq<Unit>, a: seq<Unit>, c: seq<Unit>, b: seq<Unit>, isWord: bool, word: bool)
    requires u == a + (c + b) && 1 <= |c| <= 2 && forall i :: 0 <= i < |c| ==> IsWord(c[i]) == isWord
    ensures u == (a + c) + b
    ensures UnitRun(u, |a|, word) == if isWord == word then UnitRun(u, |a| + |c|, word) else |a|
  {
    var p := |a|;
    assert u[p] == c[0] && (|c| == 2 ==> u[p + 1] == c[1]);
  }

  lemma {:induction false} RunBackUnits(u: seq<Unit>, a: Text, b: seq<Unit>, word: bool)
    requires AllScalars(a) && u == Utf16(a) + b
    ensures UnitRunBack(u, |Utf16(a)|, word) == |Utf16(a[..|a| - RunBack(a, word)])|
    decreases |a|
  {
    if a != [] {
      var n := |a| - 1;
      StepBack(u, a, b, word);
      FrontOf(a, word);
      if IsWord(a[n]) == word { RunBackUnits(u, a[..n], Units(a[n]) + b, word); }
    }
  }

  lemma FrontOf(a: Text, word: bool)
    requires a != []
    ensures var n := |a| - 1; var front := a[..|a| - RunBack(a, word)];
      front == if IsWord(a[n]) == word then a[..n][..n - RunBack(a[..n], word)] else a
  {
    assert a[..|a|] == a;
  }

  /** One character of the run. */
  lemma StepBack(u: seq<Unit>, a: Text, b: seq<Unit>, word: bool)
    requires AllScalars(a) && u == Utf16(a) + b && a != []
    ensures var n := |a| - 1; var p := |Utf16(a)|;
      && u == Utf16(a[..n]) + (Units(a[n]) + b)
      && UnitRunBack(u, p, word) == if IsWord(a[n]) == word then UnitRunBack(u, |Utf16(a[..n])|, word) else p
  {
    var n := |a| - 1;
    var c := Units(a[n]);
    UnitsWord(a[n]);
    Utf16Last(a);
    assert u == Utf16(a[..n]) + (c + b) by { Assoc(Utf16(a[..n]), c, b); }
    StepUnitsBack(u, Utf16(a[..n]), c, b, IsWord(a[n]), word);
  }

  lemma StepUnitsBack(u: seq<Unit>, a: seq<Unit>, c: seq<Unit>, b: seq<Unit>, isWord: bool, word: bool)
    requires u == a + (c + b) && 1 <= |c| <= 2 && forall i :: 0 <= i < |c| ==> IsWord(c[i]) == isWord
    ensures UnitRunBack(u, |a| + |c|, word) == if isWord == word then UnitRunBack(u, |a|, word) else |a| + |c|
  {
    var p := |a| + |c|;
    assert u[p - 1] == c[|c| - 1] && (|c| == 2 ==> u[p - 2] == c[0]);
  }

  lemma Utf16Split(t: Text, k: nat)
    requires k <= |t|
    ensures Utf16(t) == Utf16(t[..k]) + Utf16(t[k..])
  {
    Halves(t, k);
    Utf16Concat(t[..k], t[k..]);
  }

  lemma Halves(t: Text, k: nat)
    requires k <= |t|
    ensures t[..k] + t[k..] == t
  {
  }

  /** Back over trailing surrogates. */
  method LeadBefore(u: seq<Unit>, pos: nat, ghost width: nat) returns (start: nat)
    requires 1 <= width <= 2 && width <= pos <= |u|
    requires !IsTrailing(u[pos - width]) && (width == 2 ==> IsTrailing(u[pos - 1]))
    ensures start == pos - width
  {
    start := pos - 1;
    while start > 0 && IsTrailing(u[start])
      invariant pos - width <= start < pos
    {
      start := start - 1;
    }
  }

  /** The units of the last character of `a`. */
  lemma LastUnits(u: seq<Unit>, a: Text, b: seq<Unit>, pos: nat)
    requires AllScalars(a) && a != [] && u == Utf16(a) + b && pos == |Utf16(a)|
    ensures var n := |a| - 1; var width := |Units(a[n])|;
      && 1 <= width <= 2 && |Utf16(a[..n])| == pos - width && pos <= |u|
      && !IsTrailing(u[pos - width]) && (width == 2 ==> IsTrailing(u[pos - 1]))
  {
    var n := |a| - 1;
    Utf16Last(a);
    UnitsAt(u, Utf16(a[..n]), Units(a[n]), b);
  }

  lemma UnitsAt(u: seq<Unit>, a: seq<Unit>, c: seq<Unit>, b: seq<Unit>)
    requires u == (a + c) + b && 1 <= |c| <= 2
    ensures u[|a|] == c[0] && (|c| == 2 ==> u[|a| + 1] == c[1])
  {
  }

  lemma {:induction false} Utf16Last(t: Text)
    requires t != []
    ensures var n := |t| - 1; Utf16(t) == Utf16(t[..n]) + Units(t[n])
  {
    var n := |t| - 1;
    assert t == t[..n] + [t[n]];
    Utf16Concat(t[..n], [t[n]]);
    Utf16One(t[n]);
  }

  lemma Utf16First(t: Text)
    requires t != []
    ensures Utf16(t) == Units(t[0]) + Utf16(t[1..])
  {
  }

  // ───────────── the editor ─────────────

  /** The text is `left` before the cursor and `right` behind it, so it is well formed, and
      the cursor is in range and not inside a surrogate pair. */
  class Editor {
    var cmd: seq<Unit>
    var cursor: nat
    var clipboard: seq<Unit>
    ghost var left: Text
    ghost var right: Text
    ghost var clip: Text

    ghost predicate Valid()
      reads this
    {
      && AllScalars(left) && AllScalars(right) && AllScalars(clip)
      && cmd == Utf16(left) + Utf16(right) && cursor == |Utf16(left)| && clipboard == Utf16(clip)
    }

    constructor ()
      ensures Valid() && left == [] && right == [] && clip == []
    {
      cmd, cursor, clipboard, left, right, clip := [], 0, [], [], [], [];
    }

    /** One character to the right or to the left, if there is one. */
    method MoveCursor(delta: int)
      requires Valid() && (delta == 1 || delta == -1)
      modifies `cursor, `left, `right
      ensures Valid() && (left, right) == Moved(old(left), old(right), delta)
    {
      StepCursor(delta);
      MovedUnits(left, right, delta);
      left, right := Moved(left, right, delta).0, Moved(left, right, delta).1;
    }

    method StepCursor(delta: int)
      requires Valid() && (delta == 1 || delta == -1)
      modifies `cursor
      ensures cursor == |Utf16(Moved(left, right, delta).0)|
    {
      if delta > 0 { AheadOfCursor(left, right); } else { BehindCursor(left, right); }
      var newPos := cursor + delta;
      if newPos > |cmd| { newPos := |cmd|; }
      if newPos < 0 { newPos := 0; }
      if newPos == cursor { return; }
      if delta > 0 && newPos < |cmd| && IsTrailing(cmd[newPos]) {
        newPos := newPos + 1;
      } else if delta < 0 && newPos > 0 && IsTrailing(cmd[newPos]) {
        newPos := newPos - 1;
      }
      cursor := newPos;
    }

    method Home()
      requires Valid()
      modifies `cursor, `left, `right
      ensures Valid() && left == [] && right == old(left) + old(right)
    {
      Utf16Concat(left, right);
      assert cmd == Utf16([]) + Utf16(left + right);
      cursor := 0;
      left, right := [], left + right;
    }

    method End()
      requires Valid()
      modifies `cursor, `left, `right
      ensures Valid() && left == old(left) + old(right) && right == []
    {
      Utf16Concat(left, right);
      assert cmd == Utf16(left + right) + Utf16([]);
      cursor := |cmd|;
      left, right := left + right, [];
    }

    /** Inserts a string of characters at the cursor. */
    method Insert(str: seq<Unit>, ghost text: Text)
      requires Valid() && AllScalars(text) && str == Utf16(text)
      modifies `cmd, `cursor, `left
      ensures Valid() && left == old(left) + text && right == old(right)
    {
      Utf16Concat(left, text);
      cmd := cmd[..cursor] + str + cmd[cursor..];
      cursor := cursor + |str|;
      left := left + text;
    }

    /** The character behind the cursor, or with `dir` negative the one in front of it. */
    method DeleteChar(dir: int)
      requires Valid() && (dir == 1 || dir == -1)
      modifies `cmd, `cursor, `left, `right
      ensures Valid()
      ensures dir > 0 ==> left == old(left) && right == (if old(right) == [] then [] else old(right)[1..])
      ensures dir < 0 ==> right == old(right) && left == (if old(left) == [] then [] else old(left)[..|old(left)| - 1])
      decreases if dir < 0 then 1 else 0
    {
      NoUnits(left);
      NoUnits(right);
      if dir < 0 && cursor > 0 {
        MoveCursor(-1);
        DeleteChar(1);
        return;
      }
      if dir > 0 && cursor < |cmd| {
        RightOfCursor(left, right);
        var end := NextEnd(cursor, left, right);
        cmd := cmd[..cursor] + cmd[end..];
        right := right[1..];
      }
    }

    /** The end of the character that starts at `pos`. */
    method NextEnd(pos: nat, ghost a: Text, ghost b: Text) returns (end: nat)
      requires AllScalars(a) && AllScalars(b) && b != [] && cmd == Utf16(a) + Utf16(b) && pos == |Utf16(a)|
      ensures end == pos + |Units(b[0])| <= |cmd|
    {
      RightOfCursor(a, b);
      ghost var width := |Units(b[0])|;
      assert width == 2 ==> cmd[pos + 1] == Units(b[0])[1];
      assert pos + width < |cmd| ==> cmd[pos + width] == Utf16(b[1..])[0];
      end := pos + 1;
      while end < |cmd| && IsTrailing(cmd[end])
        invariant pos < end <= pos + width <= |cmd|
        decreases |cmd| - end
      {
        end := end + 1;
      }
    }

    /** The start of the character that ends at `pos`. */
    method PreviousStart(pos: nat, ghost a: Text, ghost b: Text) returns (start: nat)
      requires AllScalars(a) && AllScalars(b) && a != [] && cmd == Utf16(a) + Utf16(b) && pos == |Utf16(a)|
      ensures start + |Units(a[|a| - 1])| == pos && start == |Utf16(a[..|a| - 1])|
    {
      LastUnits(cmd, a, Utf16(b), pos);
      start := LeadBefore(cmd, pos, |Units(a[|a| - 1])|);
    }

    /** Swaps the characters around the cursor, or the last two at the end of the line. */
    method Transpose()
      requires Valid()
      modifies `cmd, `cursor, `left, `right
      ensures Valid() && (left, right) == Transposed(old(left), old(right))
    {
      NoUnits(left);
      NoUnits(right);
      ShortLine(left, right);
      if cursor == 0 || |cmd| < 2 { return; }
      ghost var a, b := left, right;
      var mid := cursor;
      if mid == |cmd| {
        mid := PreviousStart(mid, left, right);
        LastApart(left, right);
        a, b := left[..|left| - 1], [left[|left| - 1]];
      }
      NoUnits(a);
      if mid == 0 { return; }
      SwapUnits(mid, a, b);
      left, right := Exchanged(a, b), b[1..];
    }

    /** `a` ends and `b` starts at `mid`: their characters there change places. */
    method SwapUnits(mid: nat, ghost a: Text, ghost b: Text)
      requires AllScalars(a) && AllScalars(b) && a != [] && b != [] && cmd == Utf16(a) + Utf16(b) && mid == |Utf16(a)|
      modifies `cmd, `cursor
      ensures cmd == Utf16(Exchanged(a, b)) + Utf16(b[1..]) && cursor == |Utf16(Exchanged(a, b))|
    {
      var start := PreviousStart(mid, a, b);
      var end := NextEnd(mid, a, b);
      SwapFacts(cmd, a, b, start, end);
      var first := cmd[start..mid];
      var second := cmd[mid..end];
      cmd := cmd[..start] + second + first + cmd[end..];
      cursor := end;
    }

    /** Another line from the history. */
    method SetLine(line: seq<Unit>, ghost text: Text)
      requires Valid() && AllScalars(text) && line == Utf16(text)
      modifies `cmd, `cursor, `left, `right
      ensures Valid() && left == text && right == []
    {
      cmd := line;
      cursor := |cmd|;
      left, right := text, [];
    }

    method KillToEnd()
      requires Valid()
      modifies `cmd, `clipboard, `right, `clip
      ensures Valid() && left == old(left) && right == [] && clip == old(right)
    {
      clipboard := cmd[cursor..];
      cmd := cmd[..cursor];
      clip, right := right, [];
    }

    method KillLine()
      requires Valid()
      modifies `cmd, `cursor, `left, `right
      ensures Valid() && left == right == []
    {
      cmd, cursor := [], 0;
      left, right := [], [];
    }

    method Yank()
      requires Valid()
      modifies `cmd, `cursor, `left
      ensures Valid() && left == old(left) + clip && right == old(right)
    {
      Insert(clipboard, clip);
    }

    method SkipWordForward(from: nat) returns (pos: nat)
      requires from <= |cmd|
      ensures pos == UnitRun(cmd, UnitRun(cmd, from, false), true)
    {
      pos := from;
      while pos < |cmd| && !IsWord(cmd[pos])
        invariant from <= pos <= |cmd| && UnitRun(cmd, pos, false) == UnitRun(cmd, from, false)
      {
        pos := pos + 1;
      }
      while pos < |cmd| && IsWord(cmd[pos])
        invariant from <= pos <= |cmd| && UnitRun(cmd, pos, true) == UnitRun(cmd, UnitRun(cmd, from, false), true)
      {
        pos := pos + 1;
      }
    }

    method SkipWordBack(from: nat) returns (pos: nat)
      requires from <= |cmd|
      ensures pos == UnitRunBack(cmd, UnitRunBack(cmd, from, false), true)
    {
      pos := from;
      while pos > 0 && !IsWord(cmd[pos - 1])
        invariant pos <= from && UnitRunBack(cmd, pos, false) == UnitRunBack(cmd, from, false)
      {
        pos := pos - 1;
      }
      while pos > 0 && IsWord(cmd[pos - 1])
        invariant pos <= from && UnitRunBack(cmd, pos, true) == UnitRunBack(cmd, UnitRunBack(cmd, from, false), true)
      {
        pos := pos - 1;
      }
    }

    /** Where the word ahead ends, and what that cuts the text into. */
    method WordAheadEnd() returns (end: nat)
      requires Valid()
      ensures var k := WordAhead(right);
        && end == cursor + |Utf16(right[..k])| <= |cmd|
        && cmd[..cursor] == Utf16(left) && cmd[cursor..end] == Utf16(right[..k]) && cmd[end..] == Utf16(right[k..])
        && cmd == Utf16(left + right[..k]) + Utf16(right[k..]) && end == |Utf16(left + right[..k])|
    {
      ghost var k := WordAhead(right);
      AheadUnits(cmd, Utf16(left), right);
      Utf16Split(right, k);
      Utf16Concat(left, right[..k]);
      Cut(cmd, Utf16(left), Utf16(right[..k]), Utf16(right[k..]));
      end := SkipWordForward(cursor);
    }

    method WordBehindStart() returns (start: nat)
      requires Valid()
      ensures var n := |left| - WordBehind(left);
        && start == |Utf16(left[..n])| <= cursor <= |cmd|
        && cmd[..start] == Utf16(left[..n]) && cmd[start..cursor] == Utf16(left[n..]) && cmd[cursor..] == Utf16(right)
        && cmd == Utf16(left[..n]) + Utf16(left[n..] + right)
    {
      ghost var n := |left| - WordBehind(left);
      BehindUnits(cmd, left, Utf16(right));
      Utf16Split(left, n);
      Utf16Concat(left[n..], right);
      Cut(cmd, Utf16(left[..n]), Utf16(left[n..]), Utf16(right));
      start := SkipWordBack(cursor);
    }

    method WordForward()
      requires Valid()
      modifies `cursor, `left, `right
      ensures Valid() && left == old(left) + old(right)[..WordAhead(old(right))] && right == old(right)[WordAhead(old(right))..]
    {
      cursor := WordAheadEnd();
      ghost var k := WordAhead(right);
      left, right := left + right[..k], right[k..];
    }

    method WordBack()
      requires Valid()
      modifies `cursor, `left, `right
      ensures var n := |old(left)| - WordBehind(old(left));
        Valid() && left == old(left)[..n] && right == old(left)[n..] + old(right)
    {
      var start := WordBehindStart();
      ghost var n := |left| - WordBehind(left);
      StillScalars(left, right, n);
      cursor := start;
      left, right := left[..n], left[n..] + right;
    }

    /** The word ahead goes to the clipboard. */
    method KillWord()
      requires Valid()
      modifies `cmd, `clipboard, `right, `clip
      ensures Valid() && left == old(left) && right == old(right)[WordAhead(old(right))..] && clip == old(right)[..WordAhead(old(right))]
    {
      var end := WordAheadEnd();
      ghost var k := WordAhead(right);
      clipboard := cmd[cursor..end];
      cmd := cmd[..cursor] + cmd[end..];
      clip, right := right[..k], right[k..];
    }

    method KillWordBack()
      requires Valid()
      modifies `cmd, `cursor, `clipboard, `left, `clip
      ensures var n := |old(left)| - WordBehind(old(left));
        Valid() && left == old(left)[..n] && right == old(right) && clip == old(left)[n..]
    {
      var start := WordBehindStart();
      ghost var n := |left| - WordBehind(left);
      clipboard := cmd[start..cursor];
      cmd := cmd[..start] + cmd[cursor..];
      cursor := start;
      clip, left := left[n..], left[..n];
    }
  }

  lemma StillScalars(left: Text, right: Text, n: nat)
    requires n <= |left| && AllScalars(left) && AllScalars(right)
    ensures AllScalars(left[..n]) && AllScalars(left[n..] + right)
  {
  }

  lemma AheadUnits(u: seq<Unit>, a: seq<Unit>, right: Text)
    requires AllScalars(right) && u == a + Utf16(right)
    ensures UnitRun(u, UnitRun(u, |a|, false), true) == |a| + |Utf16(right[..WordAhead(right)])|
  {
    var k := Run(right, false);
    assert UnitRun(u, |a|, false) == |a| + |Utf16(right[..k])| by { RunUnits(u, a, right, false); }
    assert u == a + (Utf16(right[..k]) + Utf16(right[k..])) by { Utf16Split(right, k); }
    assert UnitRun(u, |a| + |Utf16(right[..k])|, true) == |a| + |Utf16(right[..WordAhead(right)])| by {
      SecondRun(u, a, right, k, Run(right[k..], true));
    }
  }

  lemma SecondRun(u: seq<Unit>, a: seq<Unit>, t: Text, k: nat, j: nat)
    requires AllScalars(t) && k <= |t| && j == Run(t[k..], true) && u == a + (Utf16(t[..k]) + Utf16(t[k..]))
    ensures UnitRun(u, |a| + |Utf16(t[..k])|, true) == |a| + |Utf16(t[..k + j])|
  {
    Assoc(a, Utf16(t[..k]), Utf16(t[k..]));
    RunUnits(u, a + Utf16(t[..k]), t[k..], true);
    TwoRuns(t, k, j);
  }

  lemma TwoRuns(t: Text, i: nat, j: nat)
    requires i + j <= |t|
    ensures |Utf16(t[..i + j])| == |Utf16(t[..i])| + |Utf16(t[i..][..j])|
  {
    assert t[..i + j] == t[..i] + t[i..][..j];
    Utf16Concat(t[..i], t[i..][..j]);
  }

  lemma BehindUnits(u: seq<Unit>, left: Text, b: seq<Unit>)
    requires AllScalars(left) && u == Utf16(left) + b
    ensures UnitRunBack(u, UnitRunBack(u, |Utf16(left)|, false), true) == |Utf16(left[..|left| - WordBehind(left)])|
  {
    var m := |left| - RunBack(left, false);
    assert UnitRunBack(u, |Utf16(left)|, false) == |Utf16(left[..m])| by { RunBackUnits(u, left, b, false); }
    assert u == Utf16(left[..m]) + (Utf16(left[m..]) + b) by {
      Utf16Split(left, m);
      Assoc(Utf16(left[..m]), Utf16(left[m..]), b);
    }
    SecondRunBack(u, left, b, m, RunBack(left[..m], true));
  }

  lemma SecondRunBack(u: seq<Unit>, t: Text, b: seq<Unit>, m: nat, j: nat)
    requires AllScalars(t) && m <= |t| && j == RunBack(t[..m], true) && u == Utf16(t[..m]) + (Utf16(t[m..]) + b)
    ensures UnitRunBack(u, |Utf16(t[..m])|, true) == |Utf16(t[..m - j])|
  {
    RunBackUnits(u, t[..m], Utf16(t[m..]) + b, true);
    assert t[..m][..m - j] == t[..m - j];
  }

  /** Three stretches of units, cut apart again. */
  lemma Cut(u: seq<Unit>, a: seq<Unit>, b: seq<Unit>, c: seq<Unit>)
    requires u == a + (b + c) || u == (a + b) + c
    ensures u[..|a|] == a && u[|a|..|a| + |b|] == b && u[|a| + |b|..] == c && u == (a + b) + c && u == a + (b + c)
  {
  }

  function Transposed(left: Text, right: Text): (Text, Text) {
    var n := |left| - 1;
    if left == [] || (right == [] && n == 0) then (left, right)
    else if right == [] then (Exchanged(left[..n], [left[n]]), [])
    else (Exchanged(left, right), right[1..])
  }

  lemma LastApart(left: Text, right: Text)
    requires left != [] && right == []
    ensures var n := |left| - 1;
      && Utf16(left) + Utf16(right) == Utf16(left[..n]) + Utf16([left[n]])
      && Utf16([left[n]][1..]) == [] && [left[n]][1..] == []
  {
    Utf16Last(left);
    Utf16One(left[|left| - 1]);
  }

  /** A line of one unit has one character. */
  lemma ShortLine(left: Text, right: Text)
    ensures left != [] && |Utf16(left) + Utf16(right)| < 2 ==> |left| == 1 && right == []
  {
    if left != [] {
      Utf16First(left);
      NoUnits(left[1..]);
      NoUnits(right);
    }
  }

  /** `a` with its last character and the first one of `b` exchanged. */
  function Exchanged(a: Text, b: Text): (r: Text)
    requires a != [] && b != []
    ensures AllScalars(a) && AllScalars(b) ==> AllScalars(r)
  {
    a[..|a| - 1] + [b[0], a[|a| - 1]]
  }

  lemma ExchangedUnits(a: Text, b: Text)
    requires a != [] && b != []
    ensures Utf16(Exchanged(a, b)) == Utf16(a[..|a| - 1]) + Units(b[0]) + Units(a[|a| - 1])
  {
    var n := |a| - 1;
    Utf16Concat(a[..n], [b[0], a[n]]);
    Utf16Concat([b[0]], [a[n]]);
    Utf16One(b[0]);
    Utf16One(a[n]);
    assert [b[0]] + [a[n]] == [b[0], a[n]];
    Assoc(Utf16(a[..n]), Units(b[0]), Units(a[n]));
  }

  lemma SwapFacts(u: seq<Unit>, a: Text, b: Text, start: nat, end: nat)
    requires a != [] && b != [] && u == Utf16(a) + Utf16(b)
    requires start == |Utf16(a[..|a| - 1])| && end == |Utf16(a)| + |Units(b[0])|
    ensures start <= |Utf16(a)| <= end <= |u| && |Utf16(Exchanged(a, b))| == end
    ensures u[..start] + u[|Utf16(a)|..end] + u[start..|Utf16(a)|] + u[end..] == Utf16(Exchanged(a, b)) + Utf16(b[1..])
  {
    var p, x, y, q := Utf16(a[..|a| - 1]), Units(a[|a| - 1]), Units(b[0]), Utf16(b[1..]);
    Utf16Last(a);
    Utf16First(b);
    ExchangedUnits(a, b);
    CutFour(u, p, x, y, q, start, |Utf16(a)|, end, Utf16(Exchanged(a, b)));
  }

  lemma CutFour(u: seq<Unit>, p: seq<Unit>, x: seq<Unit>, y: seq<Unit>, q: seq<Unit>, s: nat, m: nat, e: nat, r: seq<Unit>)
    requires u == (p + x) + (y + q) && r == p + y + x && s == |p| && m == |p + x| && e == m + |y|
    ensures s <= m <= e <= |u| && |r| == e && u[..s] + u[m..e] + u[s..m] + u[e..] == r + q
  {
    assert u[..s] == p && u[s..m] == x && u[m..e] == y && u[e..] == q;
  }

  function Moved(left: Text, right: Text, delta: int): (Text, Text) {
    if delta > 0 then if right == [] then (left, right) else (left + [right[0]], right[1..])
    else if left == [] then (left, right) else (left[..|left| - 1], [left[|left| - 1]] + right)
  }

  lemma MovedUnits(left: Text, right: Text, delta: int)
    requires AllScalars(left) && AllScalars(right)
    ensures var (l, r) := Moved(left, right, delta);
      AllScalars(l) && AllScalars(r) && Utf16(l) + Utf16(r) == Utf16(left) + Utf16(right)
  {
    if delta > 0 { RightOfCursor(left, right); } else { LeftOfCursor(left, right); }
  }

  /** The units around the cursor. */
  lemma RightOfCursor(left: Text, right: Text)
    requires AllScalars(left) && AllScalars(right)
    ensures right == [] ==> Utf16(right) == []
    ensures right != [] ==>
      && AllScalars(left + [right[0]]) && Utf16(left + [right[0]]) == Utf16(left) + Units(right[0])
      && Utf16(right) == Units(right[0]) + Utf16(right[1..])
      && Utf16(left) + Utf16(right) == Utf16(left + [right[0]]) + Utf16(right[1..])
    ensures right != [] && Utf16(right[1..]) != [] ==> !IsTrailing(Utf16(right[1..])[0])
  {
    if right != [] {
      Utf16First(right);
      Utf16Concat(left, [right[0]]);
      Utf16One(right[0]);
      Assoc(Utf16(left), Units(right[0]), Utf16(right[1..]));
      if right[1..] != [] { Utf16First(right[1..]); }
    }
  }

  /** Which unit tells whether the character ahead, or behind, is one unit or two. */
  lemma AheadOfCursor(left: Text, right: Text)
    requires AllScalars(left) && AllScalars(right)
    ensures var u, c := Utf16(left) + Utf16(right), |Utf16(left)|;
      && (right == [] <==> c == |u|)
      && (right != [] ==> |Utf16(left + [right[0]])| == if c + 1 < |u| && IsTrailing(u[c + 1]) then c + 2 else c + 1)
  {
    RightOfCursor(left, right);
  }

  lemma BehindCursor(left: Text, right: Text)
    requires AllScalars(left) && AllScalars(right)
    ensures var u, c := Utf16(left) + Utf16(right), |Utf16(left)|;
      && (left == [] <==> c == 0)
      && (left != [] ==> |Utf16(left[..|left| - 1])| == if c - 1 > 0 && IsTrailing(u[c - 1]) then c - 2 else c - 1)
  {
    LeftOfCursor(left, right);
  }

  lemma LeftOfCursor(left: Text, right: Text)
    requires AllScalars(left) && AllScalars(right)
    ensures left == [] ==> Utf16(left) == []
    ensures left != [] ==> var n := |left| - 1;
      && AllScalars([left[n]] + right) && Utf16(left) == Utf16(left[..n]) + Units(left[n])
      && Utf16(left) + Utf16(right) == Utf16(left[..n]) + Utf16([left[n]] + right)
  {
    if left != [] {
      var n := |left| - 1;
      Utf16Last(left);
      Prepended(left[n], right);
      Assoc(Utf16(left[..n]), Units(left[n]), Utf16(right));
    }
  }

  lemma Prepended(c: int, right: Text)
    requires IsScalar(c) && AllScalars(right)
    ensures AllScalars([c] + right) && Utf16([c] + right) == Units(c) + Utf16(right)
  {
    Utf16First([c] + right);
    assert ([c] + right)[1..] == right;
  }

  lemma Assoc(a: seq<Unit>, b: seq<Unit>, c: seq<Unit>)
    ensures (a + b) + c == a + (b + c)
  {
  }
}
