/** The matchers built from exclusion globs, and what they promise the walk: below the file
    system root, too, whatever a glob excludes is excluded with its contents. */
module ExcludeGlobs {
  import G = GlobPattern
  import W = ExcludeWalk

  /** A literal path in front, empty or up to a slash, and the glob behind it. */
  datatype Glob = Glob(literal: string, pattern: string)

  // ───────────── building the expression ─────────────

  function Literals(p: string): seq<G.Item> {
    if p == "" then [] else Literals(p[..|p| - 1]) + [G.Char(p[|p| - 1])]
  }

  function Escaped(p: string): string {
    if p == "" then "" else Escaped(p[..|p| - 1]) + G.Text(G.Char(p[|p| - 1]))
  }

  function Items(g: Glob): seq<G.Item> { Literals(g.literal) + G.Items(g.pattern, true) }

  predicate IsWildcard(c: char) { c == '?' || c == '*' }

  function FirstWildcard(p: string): (i: nat)
    ensures i <= |p| && (i < |p| ==> IsWildcard(p[i])) && forall k :: 0 <= k < i ==> !IsWildcard(p[k])
  {
    if p == "" || IsWildcard(p[0]) then 0 else 1 + FirstWildcard(p[1..])
  }

  function TrimSlash(p: string): string { if W.EndsInSlash(p) then p[..|p| - 1] else p }

  /** The last slash in front of the first wildcard, or -1. */
  function CutAt(pattern: string): (slash: int)
    ensures -1 <= slash < |pattern| && (slash >= 0 ==> pattern[slash] == '/')
    ensures forall k :: 0 <= k < slash ==> !IsWildcard(pattern[k])
  {
    W.LastSlash(pattern[..FirstWildcard(pattern)])
  }

  function Prefix(pattern: string): string { if CutAt(pattern) < 0 then "" else pattern[..CutAt(pattern)] }

  /** Something stands in front of the first name, as in every compiled glob. */
  predicate Rooted(g: Glob) { g.literal != "" || (g.pattern != "" && g.pattern[0] == '/') }

  /** `resolve` joins a relative path to the base directory and normalizes it. */
  function CompiledGlob(pattern: string, absolute: bool, resolve: string -> string): (g: Glob)
    ensures (absolute ==> pattern != "" && pattern[0] == '/') ==> Rooted(g)
  {
    if absolute then Glob("", pattern) else Glob(TrimSlash(resolve(Prefix(pattern))) + "/", pattern[CutAt(pattern) + 1..])
  }

  method EscapeRegExp(p: string) returns (r: string)
    ensures r == Escaped(p)
  {
    r := "";
    for i := 0 to |p|
      invariant r == Escaped(p[..i])
    {
      assert p[..i + 1][..i] == p[..i];
      r := r + if G.IsSpecial(p[i]) then ['\\', p[i]] else [p[i]];
    }
    assert p[..|p|] == p;
  }

  lemma {:induction false} EscapedSource(p: string)
    ensures G.Source(Literals(p)) == Escaped(p)
    decreases |p|
  {
    if p != "" {
      EscapedSource(p[..|p| - 1]);
      G.Grow(Literals(p[..|p| - 1]), G.Char(p[|p| - 1]), []);
    }
  }

  lemma {:induction false} SourceConcat(a: seq<G.Item>, b: seq<G.Item>)
    ensures G.Source(a + b) == G.Source(a) + G.Source(b)
    decreases |b|
  {
    if b == [] {
      assert a + b == a && G.Source(a) + "" == G.Source(a);
    } else {
      var n := |b| - 1;
      SourceConcat(a, b[..n]);
      assert (a + b)[..|a + b| - 1] == a + b[..n] && (a + b)[|a + b| - 1] == b[n];
      Assoc(G.Source(a), G.Source(b[..n]), G.Text(b[n]));
    }
  }

  lemma Assoc(a: string, b: string, c: string)
    ensures (a + b) + c == a + (b + c)
  {
  }

  /** The source of the expression between its anchors. */
  method CompileSource(pattern: string, absolute: bool, resolve: string -> string) returns (source: string)
    ensures source == G.Source(Items(CompiledGlob(pattern, absolute, resolve)))
  {
    if absolute {
      source := G.GlobSource(pattern);
      assert Literals("") + G.Items(pattern, true) == G.Items(pattern, true);
    } else {
      source := RelativeSource(TrimSlash(resolve(Prefix(pattern))), pattern[CutAt(pattern) + 1..]);
    }
  }

  method RelativeSource(prefix: string, suffix: string) returns (source: string)
    ensures source == G.Source(Items(Glob(prefix + "/", suffix)))
  {
    var front := EscapeRegExp(prefix);
    var back := G.GlobSource(suffix);
    source := front + "/" + back;
    EscapedSlash(prefix);
    EscapedSource(prefix + "/");
    SourceConcat(Literals(prefix + "/"), G.Items(suffix, true));
  }

  lemma EscapedSlash(prefix: string)
    ensures Escaped(prefix + "/") == Escaped(prefix) + "/"
  {
    var literal := prefix + "/";
    assert literal[..|literal| - 1] == prefix && literal[|literal| - 1] == '/';
  }

  // ───────────── what it matches ─────────────

  /** The expression, anchored at both ends. */
  ghost predicate Tests(g: Glob, path: string) { G.Matches(Items(g), path, 0, |path|) }

  lemma {:induction false} LiteralsMatch(p: string, u: string, j: nat, k: nat)
    requires j <= |u|
    ensures G.Matches(Literals(p), u, j, k) <==> j <= k <= |u| && u[j..k] == p
    decreases |p|
  {
    if p == "" {
      assert Literals(p) == [];
    } else {
      var n := |p| - 1;
      var front, last := Literals(p[..n]), [G.Char(p[n])];
      G.MatchesConcat(front, last, u, j, k);
      forall m: nat ensures G.Matches(front, u, j, m) <==> j <= m <= |u| && u[j..m] == p[..n] {
        LiteralsMatch(p[..n], u, j, m);
      }
      forall m: nat ensures G.Matches(last, u, m, k) <==> k == m + 1 && m < |u| && u[m] == p[n] {
        G.MatchesOne(G.Char(p[n]), u, m, k);
      }
      if j < k <= |u| {
        assert u[j..k] == u[j..k - 1] + [u[k - 1]] && p == p[..n] + [p[n]];
        if u[j..k] == p { assert G.Matches(front, u, j, k - 1) && G.Matches(last, u, k - 1, k); }
      }
    }
  }

  /** The literal path, then the glob name by name. */
  lemma TestsIff(g: Glob, u: string)
    ensures Tests(g, u) <==> g.literal <= u && G.GlobMeans(G.Split(g.pattern), u, |g.literal|)
  {
    var items := G.Items(g.pattern, true);
    G.MatchesConcat(Literals(g.literal), items, u, 0, |u|);
    G.ItemsNamed(g.pattern, true);
    forall m: nat ensures G.Matches(Literals(g.literal), u, 0, m) <==> m <= |u| && u[..m] == g.literal {
      LiteralsMatch(g.literal, u, 0, m);
      if m <= |u| { assert u[0..m] == u[..m]; }
    }
    forall m: nat ensures G.Matches(items, u, m, |u|) <==> G.GlobMeans(G.Split(g.pattern), u, m) {
      G.NamedMeans(G.Split(g.pattern), u, m);
    }
    if g.literal <= u { assert u[..|g.literal|] == g.literal; }
  }

  // ───────────── below a directory that ends in a slash ─────────────

  predicate NoSlashes(s: string) { forall i :: 0 <= i < |s| ==> s[i] != '/' }

  predicate NoNewlines(s: string) { forall i :: 0 <= i < |s| ==> !G.IsNewline(s[i]) }

  lemma {:induction false} SplitNames(p: string)
    ensures forall n :: n in G.Split(p) ==> NoSlashes(n)
    decreases |p|
  {
    if p != "" {
      var rest := G.Split(p[1..]);
      SplitNames(p[1..]);
      assert rest[0] in rest;
      if p[0] != '/' { G.SplitTail(p); }
      forall n | n in G.Split(p) ensures NoSlashes(n) {
        assert n == G.Split(p)[0] || n in G.Split(p)[1..];
      }
    }
  }

  /** A match inside `u` is one inside `u + e`. */
  lemma {:induction false} MatchesExtend(items: seq<G.Item>, u: string, e: string, j: nat, k: nat)
    requires G.Matches(items, u, j, k) && j <= |u| && k <= |u|
    ensures G.Matches(items, u + e, j, k)
    decreases |items|
  {
    if items == [] {
      assert G.Matches(items, u + e, j, k);
    } else {
      assert G.MatchesFirst(items, u, j, k);
      var m: nat :| G.Takes(items[0], u, j, m) && G.Matches(items[1..], u, m, k);
      TakesExtend(items[0], u, e, j, m);
      MatchesExtend(items[1..], u, e, m, k);
      assert G.MatchesFirst(items, u + e, j, k);
    }
  }

  lemma TakesExtend(item: G.Item, u: string, e: string, j: nat, k: nat)
    requires G.Takes(item, u, j, k)
    ensures G.Takes(item, u + e, j, k)
  {
    G.StarIff(u, j, k);
    G.StarIff(u + e, j, k);
  }

  predicate AllStars(name: string) { forall i :: 0 <= i < |name| ==> name[i] == '*' }

  /** Only stars match nothing, */
  lemma {:induction false} NothingTaken(name: string, u: string, k: nat)
    requires G.Matches(G.NameItems(name), u, k, k) && k <= |u|
    ensures AllStars(name)
    decreases |name|
  {
    if name != "" {
      var items := G.NameItems(name);
      assert G.MatchesFirst(items, u, k, k);
      var m: nat :| G.Takes(items[0], u, k, m) && G.Matches(items[1..], u, m, k);
      assert items[1..] == G.NameItems(name[1..]);
      InOrder(items[1..], u, m, k);
      NothingTaken(name[1..], u, k);
    }
  }

  lemma {:induction false} InOrder(items: seq<G.Item>, u: string, j: nat, k: nat)
    requires G.Matches(items, u, j, k)
    ensures j <= k
    decreases |items|
  {
    if items != [] {
      assert G.MatchesFirst(items, u, j, k);
      var m: nat :| G.Takes(items[0], u, j, m) && G.Matches(items[1..], u, m, k);
      InOrder(items[1..], u, m, k);
    }
  }

  /** and stars match any name. */
  lemma {:induction false} StarsTake(name: string, u: string, j: nat, k: nat)
    requires AllStars(name) && j <= k <= |u| && G.NoSlash(u, j, k) && (name == "" ==> j == k)
    ensures G.Matches(G.NameItems(name), u, j, k)
    decreases |name|
  {
    if name != "" {
      var items := G.NameItems(name);
      assert items[1..] == G.NameItems(name[1..]);
      StarsTake(name[1..], u, k, k);
      assert G.Takes(items[0], u, j, k) && G.Matches(items[1..], u, k, k);
      assert G.MatchesFirst(items, u, j, k);
    }
  }

  predicate Proper(names: seq<string>)
    requires |names| >= 1
  {
    names[|names| - 1] != "" && forall n :: n in names ==> NoSlashes(n)
  }

  /** What a glob matches up to a slash at the end, it matches with any name behind that; only
      a trailing `**` minds a line break in it. */
  lemma {:induction false} NamesBelow(names: seq<string>, u: string, e: string, j: nat)
    requires |names| >= 1 && Proper(names) && W.EndsInSlash(u) && j <= |u| && G.GlobMeans(names, u, j)
    requires NoSlashes(e) && (names[|names| - 1] == "**" ==> NoNewlines(e))
    ensures G.GlobMeans(names, u + e, j)
    decreases |names|
  {
    var v := u + e;
    if |names| == 1 {
      if names[0] != "**" {
        assert names[0] in names;
        G.NamesStayInside(names[0], u, j, |u|);
        assert j == |u|;
        NothingTaken(names[0], u, j);
        StarsTake(names[0], v, j, |v|);
      }
    } else if names[0] == "**" {
      assert G.MeansBelow(names[1..], u, j);
      var k: nat :| j <= k <= |u| && G.Names(u, j, k) && G.GlobMeans(names[1..], u, k);
      NamesBelow(names[1..], u, e, k);
      assert G.Names(v, j, k);
      assert G.MeansBelow(names[1..], v, j);
    } else {
      assert G.MeansNext(names, u, j);
      var k: nat :| k < |u| && u[k] == '/' && G.Matches(G.NameItems(names[0]), u, j, k) && G.GlobMeans(names[1..], u, k + 1);
      NamesBelow(names[1..], u, e, k + 1);
      MatchesExtend(G.NameItems(names[0]), u, e, j, k);
      assert v[k] == '/' && G.MeansNext(names, v, j);
    }
  }

  /** A normalized pattern does not end in a slash. */
  predicate Normal(g: Glob) {
    g.pattern != "" && g.pattern[|g.pattern| - 1] != '/'
  }

  lemma {:induction false} LastName(p: string)
    ensures var names := G.Split(p); names[|names| - 1] == "" <==> p == "" || p[|p| - 1] == '/'
    decreases |p|
  {
    if |p| > 1 {
      LastName(p[1..]);
      if p[0] != '/' && |G.Split(p[1..])| > 1 { assert G.Split(p)[1..] == G.Split(p[1..])[1..]; }
    } else if |p| == 1 {
      assert p[1..] == "";
    }
  }

  function LastOf(g: Glob): (n: string)
    ensures n in G.Split(g.pattern)
  {
    G.Split(g.pattern)[|G.Split(g.pattern)| - 1]
  }

  /** A pattern that ends in a slash matches only to the end of a name. */
  lemma {:induction false} EmptyLast(names: seq<string>, u: string, j: nat)
    requires |names| >= 1 && names[|names| - 1] == "" && j <= |u|
    ensures G.GlobMeans(names, u, j) ==> j == |u| || W.EndsInSlash(u)
    decreases |names|
  {
    if |names| == 1 {
      assert G.NameItems(names[0]) == [];
    } else if names[0] == "**" {
      forall k: nat | j <= k <= |u| && G.Names(u, j, k)
        ensures G.GlobMeans(names[1..], u, k) ==> k == |u| || W.EndsInSlash(u)
      {
        EmptyLast(names[1..], u, k);
      }
      assert G.GlobMeans(names, u, j) == G.MeansBelow(names[1..], u, j);
    } else {
      forall k: nat | k < |u| && u[k] == '/'
        ensures G.GlobMeans(names[1..], u, k + 1) ==> k + 1 == |u| || W.EndsInSlash(u)
      {
        EmptyLast(names[1..], u, k + 1);
      }
      assert G.GlobMeans(names, u, j) == G.MeansNext(names, u, j);
    }
  }

  /** What a trailing `**` matches has no line break behind the last slash. */
  lemma {:induction false} StarsLast(names: seq<string>, u: string, e: string, j: nat)
    requires |names| >= 1 && names[|names| - 1] == "**" && j <= |u|
    requires NoSlashes(e) && G.GlobMeans(names, u + e, j)
    ensures NoNewlines(e)
    decreases |names|
  {
    var v := u + e;
    forall i | |u| <= i < |v| ensures v[i] != '/' { assert v[i] == e[i - |u|]; }
    if |names| == 1 {
      forall i | 0 <= i < |e| ensures !G.IsNewline(e[i]) { assert v[|u| + i] == e[i]; }
    } else if names[0] == "**" {
      assert G.MeansBelow(names[1..], v, j);
      var k: nat :| j <= k <= |v| && G.Names(v, j, k) && G.GlobMeans(names[1..], v, k);
      assert k == j || v[k - 1] == '/';
      StarsLast(names[1..], u, e, k);
    } else {
      assert G.MeansNext(names, v, j);
      var k: nat :| k < |v| && v[k] == '/' && G.Matches(G.NameItems(names[0]), v, j, k) && G.GlobMeans(names[1..], v, k + 1);
      StarsLast(names[1..], u, e, k + 1);
    }
  }

  /** A glob that matches a path up to a closing slash matches a name behind that exactly if it
      does not end in a slash itself and does not end in `**` while a line break is in the name. */
  lemma TestsBelow(g: Glob, dir: string, e: string)
    requires W.EndsInSlash(dir) && Tests(g, dir) && W.Name(e)
    ensures Tests(g, dir + e) <==> Normal(g) && (LastOf(g) == "**" ==> NoNewlines(e))
  {
    var u, names := dir + e, G.Split(g.pattern);
    TestsIff(g, dir);
    TestsIff(g, u);
    LastName(g.pattern);
    SplitNames(g.pattern);
    if Normal(g) && (LastOf(g) == "**" ==> NoNewlines(e)) { NamesBelow(names, dir, e, |g.literal|); }
    assert u[|u| - 1] == e[|e| - 1];
    if !Normal(g) {
      EmptyLast(names, u, |g.literal|);
    } else if Tests(g, u) && LastOf(g) == "**" {
      StarsLast(names, dir, e, |g.literal|);
    }
  }

  // ───────────── matchers ─────────────

  /** A matcher's test is the expression of some normalized glob. */
  ghost predicate FromGlob(m: W.Matcher) {
    m.Glob? ==> exists g :: Normal(g) && TestOf(m, g)
  }

  ghost predicate TestOf(m: W.Matcher, g: Glob) {
    m.Glob? && forall p :: m.test(p) <==> Tests(g, p)
  }

  /** With matchers built from patterns, everything in an excluded directory is excluded; a line
      break in a name can matter in the root alone. */
  lemma BelowExcluded(ms: seq<W.Matcher>, dir: string, e: string)
    requires (forall m :: m in ms ==> FromGlob(m)) && W.Excluded(ms, dir) && W.Name(e)
    requires W.EndsInSlash(dir) ==> NoNewlines(e)
    ensures W.Excluded(ms, W.Join(dir, e))
  {
    var i :| 0 <= i < |ms| && W.Matches(ms[i], dir);
    var m, full := ms[i], W.Join(dir, e);
    if W.EndsInSlash(dir) && m.Glob? && m.test(dir) {
      assert FromGlob(m) && full == dir + e;
      var g :| Normal(g) && TestOf(m, g);
      TestsBelow(g, dir, e);
      assert W.Climb(m.test, full) && W.Matches(m, full);
    } else {
      W.MatchesBelow(m, dir, e);
    }
  }

  /** There it matters exactly to a matcher whose pattern ends in `**`, if it excludes the root. */
  lemma RootIff(m: W.Matcher, g: Glob, e: string)
    requires TestOf(m, g) && Normal(g) && Rooted(g) && W.Matches(m, "/") && W.Name(e)
    ensures W.Matches(m, W.Join("/", e)) <==> (LastOf(g) == "**" ==> NoNewlines(e))
  {
    NotEmpty(g);
    ClimbRoot(m.test, e);
    assert W.Join("/", e) == "/" + e;
    assert m.test("/") && (m.test("/" + e) <==> Tests(g, "/" + e));
    TestsBelow(g, "/", e);
  }

  lemma NotEmpty(g: Glob)
    requires Rooted(g)
    ensures !Tests(g, "")
  {
    TestsIff(g, "");
    if g.literal == "" {
      var names := G.Split(g.pattern);
      assert names[0] == "" && |names| >= 2;
      assert !G.MeansNext(names, "", 0);
    }
  }

  /** From the root and from directly below it, the climb comes to the empty path. */
  lemma ClimbRoot(test: string -> bool, e: string)
    requires W.Name(e) && !test("")
    ensures W.Climb(test, "/") <==> test("/")
    ensures W.Climb(test, "/" + e) <==> test("/" + e)
  {
    var u := "/" + e;
    forall i | 0 < i < |u| ensures u[i] != '/' { assert u[i] == e[i - 1]; }
    assert W.LastSlash("") == -1 && W.LastSlash("/") == 0 && "/"[..0] == "";
    assert u[0] == '/' && W.LastSlash(u) == 0 && u[..0] == "";
  }

  predicate NoNewlinesIn(t: W.Node)
    requires t.Dir?
  {
    forall i :: 0 <= i < |t.entries| ==> NoNewlines(t.entries[i].0)
  }

  /** So the walk that cuts is exact for them from any directory, but for line breaks in the root. */
  method CollectTests(ms: seq<W.Matcher>, rules: W.Rules, dir: string, t: W.Node) returns (files: seq<string>)
    requires forall m :: m in ms ==> FromGlob(m)
    requires t.Dir? && W.Tree(t)
    ensures files == if W.Excluded(ms, dir) then [] else W.Kept(ms, W.TestsBelow(rules, dir, t))
    ensures !W.EndsInSlash(dir) || NoNewlinesIn(t) ==> files == W.Kept(ms, W.TestsBelow(rules, dir, t))
  {
    var walker := new W.Walker(ms, rules);
    if W.Excluded(ms, dir) && (!W.EndsInSlash(dir) || NoNewlinesIn(t)) {
      forall i | 0 <= i < |t.entries| ensures W.Excluded(ms, W.Join(dir, t.entries[i].0)) {
        W.ChildTree(t, i);
        BelowExcluded(ms, dir, t.entries[i].0);
      }
    }
    walker.Walk(dir, t);
    files := walker.out;
  }

  /** The condition is needed: the expression of a trailing `**` matches the root but no name with
      a line break below it. */
  lemma LineBreakLost(m: W.Matcher)
    requires TestOf(m, Glob("", "/**"))
    ensures FromGlob(m) && W.Excluded([m], "/") && !W.Excluded([m], "/\n")
  {
    var g := Glob("", "/**");
    assert Normal(g);
    AbsoluteStars("/");
    AbsoluteStars("/\n");
    AbsoluteStars("");
    assert G.NoNewline("/", 1, 1) && !G.NoNewline("/\n", 1, 2) by { assert "/\n"[1] == '\n'; }
    assert W.Matches([m][0], "/");
    assert W.LastSlash("/\n") == 0 && "/\n"[..0] == "" && W.LastSlash("") == -1;
    assert !W.Climb(m.test, "") && !W.Climb(m.test, "/\n");
  }

  lemma StarNames()
    ensures G.Split("**") == ["**"]
  {
    assert "**"[1..] == "*" && "*"[1..] == "";
    var none := G.Split("");
    assert none[0] == "" && none[1..] == [] && ['*'] + none[0] == "*";
    assert G.Split("*") == ["*"];
    var one := G.Split("*");
    assert one[0] == "*" && one[1..] == [] && ['*'] + one[0] == "**";
  }

  lemma AbsoluteStars(u: string)
    ensures Tests(Glob("", "/**"), u) <==> u != "" && u[0] == '/' && G.NoNewline(u, 1, |u|)
  {
    var p := "/**";
    TestsIff(Glob("", p), u);
    assert p[1..] == "**" && "**"[1..] == "*" && "*"[1..] == "";
    StarNames();
    assert G.Split(p) == [""] + G.Split("**");
    var names := ["", "**"];
    assert names[1..] == ["**"] && names[0] != "**" by { assert |names[0]| == 0; }
    assert G.GlobMeans(names, u, 0) == G.MeansNext(names, u, 0);
    forall k: nat ensures G.Matches(G.NameItems(""), u, 0, k) <==> k == 0 {
    }
    assert G.GlobMeans(["**"], u, 1) <==> 1 <= |u| && G.NoNewline(u, 1, |u|);
    if u != "" && u[0] == '/' && G.NoNewline(u, 1, |u|) {
      assert G.GlobMeans(names[1..], u, 0 + 1);
    }
  }

  /** What normalizing buys: with a slash at its end, the same pattern matches the root and no
      name directly in it. */
  lemma TrailingSlash(e: string)
    requires W.Name(e)
    ensures Tests(Glob("", "/**/"), "/") && !Tests(Glob("", "/**/"), "/" + e)
  {
    var g := Glob("", "/**/");
    SlashedStars();
    TestsIff(g, "/");
    var names := ["", "**", ""];
    assert names[1..] == ["**", ""] && names[1..][1..] == [""];
    assert G.GlobMeans([""], "/", 1);
    assert G.Names("/", 1, 1) && G.MeansBelow([""], "/", 1);
    assert G.GlobMeans(["**", ""], "/", 0 + 1);
    assert G.Matches(G.NameItems(""), "/", 0, 0) && "/"[0] == '/';
    assert G.MeansNext(names, "/", 0);
    TestsBelow(g, "/", e);
  }

  lemma SlashedStars()
    ensures G.Split("/**/") == ["", "**", ""]
  {
    var p := "/**/";
    assert p[1..] == "**/" && "**/"[1..] == "*/" && "*/"[1..] == "/" && "/"[1..] == "";
    assert G.Split("/") == [""] + G.Split("");
    var none := ["", ""];
    assert G.Split("/") == none;
    var one := G.Split("*/");
    assert none[0] == "" && ['*'] + none[0] == "*" && none[1..] == [""];
    assert one == [['*'] + none[0]] + none[1..] && one == ["*", ""];
    assert G.Split("**/") == [['*'] + one[0]] + one[1..];
    assert one[0] == "*" && ['*'] + one[0] == "**" && one[1..] == [""];
    assert G.Split("**/") == ["**", ""];
  }
}
