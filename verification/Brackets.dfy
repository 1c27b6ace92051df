/** Words of brackets: what is balanced, and what a word leaves open. */
module Brackets {
  predicate IsOpener(c: char) { c == '(' || c == '[' || c == '{' }

  predicate IsCloser(c: char) { c == ')' || c == ']' || c == '}' }

  predicate Pair(a: char, b: char) {
    (a == '(' && b == ')') || (a == '[' && b == ']') || (a == '{' && b == '}')
  }

  /** How a balanced word is made: a pair around one, and one behind it. */
  datatype Nest = Empty | Wrap(opening: char, inside: Nest, closing: char, behind: Nest)

  predicate Proper(n: Nest) {
    n.Wrap? ==> Pair(n.opening, n.closing) && Proper(n.inside) && Proper(n.behind)
  }

  function Word(n: Nest): string {
    match n
    case Empty => ""
    case Wrap(a, inside, b, behind) => [a] + Word(inside) + [b] + Word(behind)
  }

  ghost predicate Balanced(w: string) {
    exists n :: Proper(n) && Word(n) == w
  }

  function Append(a: Nest, b: Nest): Nest {
    match a
    case Empty => b
    case Wrap(o, inside, c, behind) => Wrap(o, inside, c, Append(behind, b))
  }

  lemma {:induction false} AppendWord(a: Nest, b: Nest)
    requires Proper(a) && Proper(b)
    ensures Proper(Append(a, b)) && Word(Append(a, b)) == Word(a) + Word(b)
  {
    match a
    case Empty => assert Word(Empty) + Word(b) == Word(b);
    case Wrap(o, inside, c, behind) =>
      AppendWord(behind, b);
      Behind([o] + Word(inside) + [c], Word(behind), Word(b));
  }

  lemma Behind(a: string, b: string, c: string)
    ensures a + (b + c) == (a + b) + c
  {
  }

  /** The open brackets of `stack`, with a balanced word in front of each, */
  function Weave(pieces: seq<Nest>, stack: string): string
    requires |pieces| == |stack|
  {
    if stack == "" then ""
    else
      var n := |stack| - 1;
      Weave(pieces[..n], stack[..n]) + Word(pieces[n]) + [stack[n]]
  }

  predicate AllProper(pieces: seq<Nest>) { forall i :: 0 <= i < |pieces| ==> Proper(pieces[i]) }

  /** `w` opens the brackets of `stack`, in order, and closes every other one it opens. */
  ghost predicate Opens(w: string, stack: string) {
    exists pieces, last :: OpensBy(w, stack, pieces, last)
  }

  predicate OpensBy(w: string, stack: string, pieces: seq<Nest>, last: Nest) {
    |pieces| == |stack| && AllProper(pieces) && Proper(last) && w == Weave(pieces, stack) + Word(last)
  }

  lemma NothingOpenBy(w: string, pieces: seq<Nest>, last: Nest)
    requires OpensBy(w, "", pieces, last)
    ensures Balanced(w)
  {
    EmptyFront(Word(last));
  }

  lemma BalancedOpens(w: string, n: Nest)
    requires Proper(n) && Word(n) == w
    ensures Opens(w, "")
  {
    EmptyFront(w);
    assert OpensBy(w, "", [], n);
  }

  lemma EmptyFront(s: string)
    ensures "" + s == s
  {
  }

  lemma NothingOpen(w: string)
    ensures Opens(w, "") <==> Balanced(w)
  {
    if Opens(w, "") {
      var pieces, last :| OpensBy(w, "", pieces, last);
      NothingOpenBy(w, pieces, last);
    } else if Balanced(w) {
      var n :| Proper(n) && Word(n) == w;
      BalancedOpens(w, n);
    }
  }

  lemma OpensPush(w: string, stack: string, c: char)
    requires Opens(w, stack)
    ensures Opens(w + [c], stack + [c])
  {
    var pieces, last :| OpensBy(w, stack, pieces, last);
    var more, s := pieces + [last], stack + [c];
    assert more[..|stack|] == pieces && s[..|stack|] == stack;
    assert Weave(more, s) + "" == w + [c];
    assert OpensBy(w + [c], s, more, Empty);
  }

  lemma OpensPop(w: string, stack: string, c: char)
    requires Opens(w, stack) && stack != "" && Pair(stack[|stack| - 1], c)
    ensures Opens(w + [c], stack[..|stack| - 1])
  {
    var pieces, last :| OpensBy(w, stack, pieces, last);
    var n := |stack| - 1;
    var closed := Wrap(stack[n], last, c, Empty);
    AppendWord(pieces[n], closed);
    Regroup(Weave(pieces[..n], stack[..n]), Word(pieces[n]), stack[n], Word(last), c);
    assert Word(closed) == [stack[n]] + Word(last) + [c] + "";
    assert OpensBy(w + [c], stack[..n], pieces[..n], Append(pieces[n], closed));
  }

  lemma Regroup(a: string, b: string, c: char, d: string, e: char)
    ensures a + b + [c] + d + [e] == a + (b + ([c] + d + [e] + ""))
  {
  }

  /** A word has as many opening brackets as closing ones and open ones together. */
  function Count(w: string, closing: bool): nat {
    if w == "" then 0 else (if (if closing then IsCloser(w[0]) else IsOpener(w[0])) then 1 else 0) + Count(w[1..], closing)
  }

  lemma {:induction false} CountConcat(a: string, b: string, closing: bool)
    ensures Count(a + b, closing) == Count(a, closing) + Count(b, closing)
  {
    if a == "" {
      assert a + b == b;
    } else {
      assert (a + b)[1..] == a[1..] + b;
      CountConcat(a[1..], b, closing);
    }
  }

  lemma CountFour(a: char, u: string, b: char, v: string, closing: bool)
    ensures Count([a] + u + [b] + v, closing) == Count([a], closing) + Count(u, closing) + Count([b], closing) + Count(v, closing)
  {
    CountConcat([a] + u + [b], v, closing);
    CountConcat([a] + u, [b], closing);
    CountConcat([a], u, closing);
  }

  lemma {:induction false} ProperCount(n: Nest)
    requires Proper(n)
    ensures Count(Word(n), true) == Count(Word(n), false)
  {
    if n.Wrap? {
      ProperCount(n.inside);
      ProperCount(n.behind);
      CountFour(n.opening, Word(n.inside), n.closing, Word(n.behind), true);
      CountFour(n.opening, Word(n.inside), n.closing, Word(n.behind), false);
      assert [n.opening][1..] == "" && [n.closing][1..] == "";
    }
  }

  lemma OneCount(c: char)
    ensures Count([c], false) == (if IsOpener(c) then 1 else 0) && Count([c], true) == (if IsCloser(c) then 1 else 0)
  {
    assert [c][1..] == "";
  }

  lemma {:induction false} WeaveCount(pieces: seq<Nest>, stack: string)
    requires |pieces| == |stack| && AllProper(pieces) && forall i :: 0 <= i < |stack| ==> IsOpener(stack[i])
    ensures Count(Weave(pieces, stack), false) == Count(Weave(pieces, stack), true) + |stack|
  {
    if stack != "" {
      var n := |stack| - 1;
      var before := Weave(pieces[..n], stack[..n]);
      WeaveCount(pieces[..n], stack[..n]);
      ProperCount(pieces[n]);
      forall closing ensures Count(Weave(pieces, stack), closing) == Count(before, closing) + Count(Word(pieces[n]), closing) + Count([stack[n]], closing) {
        CountConcat(before + Word(pieces[n]), [stack[n]], closing);
        CountConcat(before, Word(pieces[n]), closing);
      }
      OneCount(stack[n]);
    }
  }

  lemma OpensCount(w: string, stack: string)
    requires Opens(w, stack) && forall i :: 0 <= i < |stack| ==> IsOpener(stack[i])
    ensures Count(w, false) == Count(w, true) + |stack|
  {
    var pieces, last :| OpensBy(w, stack, pieces, last);
    WeaveCount(pieces, stack);
    ProperCount(last);
    CountConcat(Weave(pieces, stack), Word(last), true);
    CountConcat(Weave(pieces, stack), Word(last), false);
  }
}
