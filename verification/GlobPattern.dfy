/** Exclusion globs: the regular expression built for one, and what the glob means name by
    name. `*` and `?` stay inside a name, `**` as a whole name stands for any directories. */
module GlobPattern {
  /** The pieces of regular expression a glob is written with. */
  datatype Item = AnyNames | AnyRest | InName | OneInName | Char(c: char)

  predicate IsSpecial(c: char) { c in "\\^$.*+?()[]{}|" }

  function Text(item: Item): string {
    match item
    case AnyNames => "(?:[^/]+/)*"
    case AnyRest => ".*"
    case InName => "[^/]*"
    case OneInName => "[^/]"
    case Char(c) => if IsSpecial(c) then ['\\', c] else [c]
  }

  function Source(items: seq<Item>): string {
    if items == [] then "" else Source(items[..|items| - 1]) + Text(items[|items| - 1])
  }

  /** `**` as a whole name, at the start of what is left of the pattern. */
  predicate IsGlobstar(p: string) { |p| >= 2 && p[0] == '*' && p[1] == '*' && (|p| == 2 || p[2] == '/') }

  /** The items of the rest of a pattern; `start` tells whether a name starts here. */
  function Items(p: string, start: bool): seq<Item>
    decreases |p|
  {
    if p == "" then []
    else if start && IsGlobstar(p) then
      if |p| == 2 then [AnyRest] else [AnyNames] + Items(p[3..], true)
    else if p[0] == '*' then [InName] + Items(p[1..], false)
    else if p[0] == '?' then [OneInName] + Items(p[1..], false)
    else [Char(p[0])] + Items(p[1..], p[0] == '/')
  }

  /** The item at the front, and how much of the pattern it stands for. */
  function ItemAt(p: string, start: bool): Item
    requires p != ""
  {
    if start && IsGlobstar(p) then if |p| == 2 then AnyRest else AnyNames
    else if p[0] == '*' then InName
    else if p[0] == '?' then OneInName
    else Char(p[0])
  }

  function WidthAt(p: string, start: bool): (n: nat)
    requires p != ""
    ensures 1 <= n <= |p|
  {
    if start && IsGlobstar(p) then if |p| == 2 then 2 else 3 else 1
  }

  lemma ItemsFirst(p: string, start: bool)
    requires p != ""
    ensures var n := WidthAt(p, start);
      Items(p, start) == [ItemAt(p, start)] + Items(p[n..], p[n - 1] == '/')
  {
    if start && IsGlobstar(p) && |p| == 2 { assert Items(p[2..], p[1] == '/') == []; }
  }

  lemma Grow(items: seq<Item>, item: Item, more: seq<Item>)
    ensures items + ([item] + more) == items + [item] + more
    ensures Source(items + [item]) == Source(items) + Text(item)
  {
    assert (items + [item])[..|items|] == items;
  }

  lemma ItemTaken(pattern: string, from: nat, i: nat, items: seq<Item>)
    requires from < |pattern| && i == from + WidthAt(pattern[from..], from == 0 || pattern[from - 1] == '/')
    requires items + Items(pattern[from..], from == 0 || pattern[from - 1] == '/') == Items(pattern, true)
    ensures var item := ItemAt(pattern[from..], from == 0 || pattern[from - 1] == '/');
      && from < i <= |pattern| && Source(items + [item]) == Source(items) + Text(item)
      && items + [item] + Items(pattern[i..], pattern[i - 1] == '/') == Items(pattern, true)
  {
    ItemsFirst(pattern[from..], from == 0 || pattern[from - 1] == '/');
    assert pattern[from..][i - from..] == pattern[i..];
    Grow(items, ItemAt(pattern[from..], from == 0 || pattern[from - 1] == '/'), Items(pattern[i..], pattern[i - 1] == '/'));
  }

  method GlobSource(pattern: string) returns (source: string)
    ensures source == Source(Items(pattern, true))
  {
    source := "";
    ghost var items: seq<Item> := [];
    var i := 0;
    while i < |pattern|
      invariant 0 <= i <= |pattern|
      invariant source == Source(items)
      invariant items + Items(pattern[i..], i == 0 || pattern[i - 1] == '/') == Items(pattern, true)
    {
      var c := pattern[i];
      ghost var item, from := ItemAt(pattern[i..], i == 0 || pattern[i - 1] == '/'), i;
      if c == '*' {
        var globstar := i + 1 < |pattern| && pattern[i + 1] == '*' && (i == 0 || pattern[i - 1] == '/')
          && (i + 2 == |pattern| || pattern[i + 2] == '/');
        if globstar {
          i := i + 1;
          if i + 1 < |pattern| && pattern[i + 1] == '/' {
            i := i + 1;
            source := source + "(?:[^/]+/)*";
          } else {
            source := source + ".*";
          }
        } else {
          source := source + "[^/]*";
        }
      } else if c == '?' {
        source := source + "[^/]";
      } else {
        source := source + (if IsSpecial(c) then ['\\', c] else [c]);
      }
      i := i + 1;
      ItemTaken(pattern, from, i, items);
      items := items + [item];
    }
    assert pattern[i..] == "" && items + [] == items;
  }

  // ───────────── what the expression matches ─────────────

  predicate NoSlash(u: string, j: nat, k: nat)
    requires j <= k <= |u|
  {
    forall i :: j <= i < k ==> u[i] != '/'
  }

  predicate IsNewline(c: char) { c == '\n' || c == '\r' || c as int == 0x2028 || c as int == 0x2029 }

  predicate NoNewline(u: string, j: nat, k: nat)
    requires j <= k <= |u|
  {
    forall i :: j <= i < k ==> !IsNewline(u[i])
  }

  /** `[^/]+/` */
  predicate OneName(u: string, j: nat, k: nat) { j + 1 < k <= |u| && u[k - 1] == '/' && NoSlash(u, j, k - 1) }

  /** The same any number of times. */
  ghost predicate Star(u: string, j: nat, k: nat)
    requires j <= k <= |u|
    decreases k - j
  {
    j == k || exists m: nat :: j < m <= k && OneName(u, j, m) && Star(u, m, k)
  }

  lemma {:induction false} StarIff(u: string, j: nat, k: nat)
    requires j <= k <= |u|
    ensures Star(u, j, k) <==> Names(u, j, k)
    decreases k - j
  {
    if j < k {
      if Star(u, j, k) {
        var m: nat :| j < m <= k && OneName(u, j, m) && Star(u, m, k);
        StarIff(u, m, k);
      }
      if Names(u, j, k) {
        var m := SlashFrom(u, j, k);
        assert m > j;
        StarIff(u, m + 1, k);
        assert OneName(u, j, m + 1) && Star(u, m + 1, k);
      }
    }
  }

  function SlashFrom(u: string, j: nat, k: nat): (m: nat)
    requires j < k <= |u| && u[k - 1] == '/'
    ensures j <= m < k && u[m] == '/' && NoSlash(u, j, m)
    decreases k - j
  {
    if u[j] == '/' then j else SlashFrom(u, j + 1, k)
  }

  /** Some non-empty names, each with its slash. */
  predicate Names(u: string, j: nat, k: nat)
    requires j <= k <= |u|
  {
    j == k || (u[j] != '/' && u[k - 1] == '/' && forall i :: j < i < k && u[i] == '/' ==> u[i - 1] != '/')
  }

  /** One item takes `u[j..k]`. */
  ghost predicate Takes(item: Item, u: string, j: nat, k: nat) {
    j <= k <= |u| && match item
      case AnyNames => Star(u, j, k)
      case AnyRest => NoNewline(u, j, k)
      case InName => NoSlash(u, j, k)
      case OneInName => k == j + 1 && u[j] != '/'
      case Char(c) => k == j + 1 && u[j] == c
  }

  /** The items match all of `u[j..k]`. */
  ghost predicate Matches(items: seq<Item>, u: string, j: nat, k: nat)
    decreases |items|, 1
  {
    if items == [] then j == k else MatchesFirst(items, u, j, k)
  }

  ghost predicate MatchesFirst(items: seq<Item>, u: string, j: nat, k: nat)
    requires items != []
    decreases |items|, 0
  {
    exists m: nat :: Takes(items[0], u, j, m) && Matches(items[1..], u, m, k)
  }

  ghost predicate MatchesBoth(a: seq<Item>, b: seq<Item>, u: string, j: nat, k: nat) {
    exists m: nat :: Matches(a, u, j, m) && Matches(b, u, m, k)
  }

  lemma {:induction false} MatchesConcat(a: seq<Item>, b: seq<Item>, u: string, j: nat, k: nat)
    ensures Matches(a + b, u, j, k) <==> MatchesBoth(a, b, u, j, k)
    decreases |a|
  {
    if a == [] {
      assert a + b == b;
      assert Matches(a, u, j, j);
    } else {
      assert (a + b)[0] == a[0] && (a + b)[1..] == a[1..] + b;
      forall m: nat ensures Matches(a[1..] + b, u, m, k) <==> MatchesBoth(a[1..], b, u, m, k) {
        MatchesConcat(a[1..], b, u, m, k);
      }
      forall m: nat, n: nat | Takes(a[0], u, j, m) && Matches(a[1..], u, m, n) ensures Matches(a, u, j, n) {
        assert MatchesFirst(a, u, j, n);
      }
      if Matches(a + b, u, j, k) {
        assert MatchesFirst(a + b, u, j, k);
        var m: nat :| Takes((a + b)[0], u, j, m) && Matches((a + b)[1..], u, m, k);
        assert MatchesBoth(a[1..], b, u, m, k);
      }
      if MatchesBoth(a, b, u, j, k) {
        var n: nat :| Matches(a, u, j, n) && Matches(b, u, n, k);
        assert MatchesFirst(a, u, j, n);
        var m: nat :| Takes(a[0], u, j, m) && Matches(a[1..], u, m, n);
        assert MatchesBoth(a[1..], b, u, m, k);
        assert MatchesFirst(a + b, u, j, k);
      }
    }
  }

  lemma MatchesOne(item: Item, u: string, j: nat, k: nat)
    ensures Matches([item], u, j, k) <==> Takes(item, u, j, k)
  {
    assert [item][1..] == [];
    assert Matches([item], u, j, k) == MatchesFirst([item], u, j, k);
    if Takes(item, u, j, k) { assert Matches([item][1..], u, k, k); }
  }

  // ───────────── what the glob means ─────────────

  /** The names of a pattern. */
  function Split(p: string): (r: seq<string>)
    ensures |r| >= 1
  {
    if p == "" then [""]
    else if p[0] == '/' then [""] + Split(p[1..])
    else var rest := Split(p[1..]); [[p[0]] + rest[0]] + rest[1..]
  }

  function NameItems(name: string): seq<Item> {
    if name == "" then []
    else [if name[0] == '*' then InName else if name[0] == '?' then OneInName else Char(name[0])] + NameItems(name[1..])
  }

  /** The pattern's names match `u` from `j` to its end: name by name, `**` over any number
      of directories, or over all that is left if it comes last. */
  ghost predicate GlobMeans(names: seq<string>, u: string, j: nat)
    requires |names| >= 1
    decreases |names|, 1
  {
    if |names| == 1 then
      if names[0] == "**" then j <= |u| && NoNewline(u, j, |u|) else Matches(NameItems(names[0]), u, j, |u|)
    else if names[0] == "**" then MeansBelow(names[1..], u, j)
    else MeansNext(names, u, j)
  }

  ghost predicate MeansBelow(names: seq<string>, u: string, j: nat)
    requires |names| >= 1
    decreases |names|, 2
  {
    exists k: nat :: j <= k <= |u| && Names(u, j, k) && GlobMeans(names, u, k)
  }

  ghost predicate MeansNext(names: seq<string>, u: string, j: nat)
    requires |names| >= 2
    decreases |names|, 0
  {
    exists k: nat :: k < |u| && u[k] == '/' && Matches(NameItems(names[0]), u, j, k) && GlobMeans(names[1..], u, k + 1)
  }

  /** A name without slashes matches only inside a name. */
  lemma {:induction false} NamesStayInside(name: string, u: string, j: nat, k: nat)
    requires (forall i :: 0 <= i < |name| ==> name[i] != '/') && j <= |u| && Matches(NameItems(name), u, j, k)
    ensures j <= k <= |u| && NoSlash(u, j, k)
    decreases |name|
  {
    if name != "" {
      var items := NameItems(name);
      assert MatchesFirst(items, u, j, k);
      var m: nat :| Takes(items[0], u, j, m) && Matches(items[1..], u, m, k);
      assert items[1..] == NameItems(name[1..]);
      NamesStayInside(name[1..], u, m, k);
    }
  }

  /** The items of a pattern, name by name. */
  function NamedItems(names: seq<string>, start: bool): seq<Item>
    requires |names| >= 1
  {
    if |names| == 1 then (if start && names[0] == "**" then [AnyRest] else NameItems(names[0]))
    else if start && names[0] == "**" then [AnyNames] + NamedItems(names[1..], true)
    else NameItems(names[0]) + [Char('/')] + NamedItems(names[1..], true)
  }

  lemma SplitTail(p: string)
    requires p != "" && p[0] != '/'
    ensures Split(p)[0] == [p[0]] + Split(p[1..])[0] && Split(p)[1..] == Split(p[1..])[1..]
  {
  }

  lemma SplitRest(r: string)
    ensures Split(r)[0] == "" <==> r == "" || r[0] == '/'
    ensures r != "" && r[0] == '/' ==> Split(r)[1..] == Split(r[1..])
    ensures r == "" ==> Split(r)[1..] == []
  {
    if r != "" && r[0] != '/' { SplitTail(r); }
  }

  /** Two plain characters in front. */
  lemma SplitTwo(a: char, b: char, r: string)
    requires a != '/' && b != '/'
    ensures Split([a, b] + r)[0] == [a, b] + Split(r)[0] && Split([a, b] + r)[1..] == Split(r)[1..]
  {
    var p := [a, b] + r;
    assert p[1..] == [b] + r && p[1..][1..] == r;
    SplitTail(p);
    SplitTail(p[1..]);
    assert [a] + ([b] + Split(r)[0]) == [a, b] + Split(r)[0];
  }

  lemma StarsFirst(a: char, b: char, name: string)
    ensures [a, b] + name == "**" <==> a == '*' && b == '*' && name == ""
  {
    var w := [a, b] + name;
    if w == "**" { assert |name| == 0 && w[0] == a && w[1] == b; }
  }

  lemma GlobstarSplit(p: string)
    ensures IsGlobstar(p) <==> Split(p)[0] == "**"
    ensures IsGlobstar(p) ==> Split(p)[1..] == (if |p| > 2 then Split(p[3..]) else [])
  {
    if |p| >= 2 && p[0] != '/' && p[1] != '/' {
      var r := p[2..];
      assert p == [p[0], p[1]] + r;
      SplitTwo(p[0], p[1], r);
      SplitRest(r);
      StarsFirst(p[0], p[1], Split(r)[0]);
      if |p| > 2 { assert r[0] == p[2] && r[1..] == p[3..]; }
    } else {
      ShortFirst(p);
    }
  }

  lemma ShortFirst(p: string)
    requires |p| < 2 || p[0] == '/' || p[1] == '/'
    ensures |Split(p)[0]| <= 1
  {
    if p != "" && p[0] != '/' {
      SplitTail(p);
      if |p| >= 2 { assert p[1..][0] == p[1]; }
      SplitRest(p[1..]);
    }
  }

  /** Reading the pattern character by character finds the items of its names. */
  lemma {:induction false} ItemsNamed(p: string, start: bool)
    ensures Items(p, start) == NamedItems(Split(p), start)
    decreases |p|
  {
    if p != "" {
      GlobstarSplit(p);
      var names := Split(p);
      if start && IsGlobstar(p) {
        if |p| > 2 {
          ItemsNamed(p[3..], true);
          assert names[1..] == Split(p[3..]);
        }
      } else if p[0] == '/' {
        ItemsNamed(p[1..], true);
        assert names[1..] == Split(p[1..]) && NameItems("") == [];
        assert NameItems("") + [Char('/')] == [Char('/')];
      } else {
        ItemsNamed(p[1..], false);
        SplitTail(p);
        var rest := Split(p[1..]);
        assert names[0][1..] == rest[0] && names[0][0] == p[0];
        Prepend(NameItems(names[0])[..1], NameItems(rest[0]), names[1..]);
      }
    }
  }

  lemma Prepend(first: seq<Item>, name: seq<Item>, names: seq<string>)
    ensures names != [] ==> first + name + [Char('/')] + NamedItems(names, true) == first + (name + [Char('/')] + NamedItems(names, true))
  {
  }

  /** The expression built for a glob matches a path exactly when the glob does. */
  lemma {:induction false} NamedMeans(names: seq<string>, u: string, j: nat)
    requires |names| >= 1
    ensures Matches(NamedItems(names, true), u, j, |u|) <==> GlobMeans(names, u, j)
    decreases |names|
  {
    if |names| == 1 {
      if names[0] == "**" { MatchesOne(AnyRest, u, j, |u|); }
    } else {
      var rest := NamedItems(names[1..], true);
      forall k: nat ensures Matches(rest, u, k, |u|) <==> GlobMeans(names[1..], u, k) {
        NamedMeans(names[1..], u, k);
      }
      if names[0] == "**" {
        BelowMeans(names, rest, u, j);
      } else {
        NextMeans(names, rest, u, j);
      }
    }
  }

  lemma BelowMeans(names: seq<string>, rest: seq<Item>, u: string, j: nat)
    requires |names| >= 2 && names[0] == "**"
    requires forall k: nat :: Matches(rest, u, k, |u|) <==> GlobMeans(names[1..], u, k)
    ensures Matches([AnyNames] + rest, u, j, |u|) <==> GlobMeans(names, u, j)
  {
    var items := [AnyNames] + rest;
    assert items[1..] == rest;
    assert Matches(items, u, j, |u|) == MatchesFirst(items, u, j, |u|);
    assert GlobMeans(names, u, j) == MeansBelow(names[1..], u, j);
    forall k: nat | j <= k <= |u| ensures Takes(AnyNames, u, j, k) <==> Names(u, j, k) {
      StarIff(u, j, k);
    }
    if MatchesFirst(items, u, j, |u|) {
      var k: nat :| Takes(items[0], u, j, k) && Matches(items[1..], u, k, |u|);
      assert GlobMeans(names[1..], u, k);
    }
    if MeansBelow(names[1..], u, j) {
      var k: nat :| j <= k <= |u| && Names(u, j, k) && GlobMeans(names[1..], u, k);
      assert Takes(items[0], u, j, k) && Matches(items[1..], u, k, |u|);
    }
  }

  lemma NextMeans(names: seq<string>, rest: seq<Item>, u: string, j: nat)
    requires |names| >= 2 && names[0] != "**"
    requires forall k: nat :: Matches(rest, u, k, |u|) <==> GlobMeans(names[1..], u, k)
    ensures Matches(NameItems(names[0]) + [Char('/')] + rest, u, j, |u|) <==> GlobMeans(names, u, j)
  {
    var name := NameItems(names[0]);
    var tail := [Char('/')] + rest;
    assert name + [Char('/')] + rest == name + tail;
    MatchesConcat(name, tail, u, j, |u|);
    assert tail[1..] == rest;
    forall k: nat ensures Matches(tail, u, k, |u|) <==> k < |u| && u[k] == '/' && GlobMeans(names[1..], u, k + 1) {
      assert Matches(tail, u, k, |u|) == MatchesFirst(tail, u, k, |u|);
      if k < |u| && u[k] == '/' { assert Takes(tail[0], u, k, k + 1); }
    }
    assert GlobMeans(names, u, j) == MeansNext(names, u, j);
  }

  lemma GlobSourceMeans(pattern: string, u: string)
    ensures Matches(Items(pattern, true), u, 0, |u|) <==> GlobMeans(Split(pattern), u, 0)
  {
    ItemsNamed(pattern, true);
    NamedMeans(Split(pattern), u, 0);
  }
}
