/** Finding test files: a walk that does not enter excluded directories, against filtering
    the files of a walk that enters all of them. Paths are normalized, with `/`, and there
    are no symbolic links, so a path is its own identity. */
module ExcludeWalk {
  /** `Other` is what cannot be examined, or is neither a directory nor a file. */
  datatype Node = File | Dir(entries: seq<(string, Node)>) | Other

  predicate Starts(s: string, prefix: string) { prefix <= s }

  predicate EndsInSlash(p: string) { p != "" && p[|p| - 1] == '/' }

  function Slashed(p: string): (r: string)
    ensures EndsInSlash(r) && p <= r
  {
    if EndsInSlash(p) then p else p + "/"
  }

  function Join(dir: string, name: string): string { Slashed(dir) + name }

  predicate Name(e: string) { e != "" && forall i :: 0 <= i < |e| ==> e[i] != '/' }

  /** `p` is `dir` or something below it. */
  predicate Under(dir: string, p: string) { p == dir || Starts(p, Slashed(dir)) }

  // ───────────── exclusions ─────────────

  datatype Matcher = Literal(keys: seq<string>) | Glob(test: string -> bool)

  function LastSlash(s: string): (i: int)
    ensures -1 <= i < |s|
    ensures i >= 0 ==> s[i] == '/'
    ensures forall k :: i < k < |s| ==> s[k] != '/'
  {
    if s == "" then -1 else if s[|s| - 1] == '/' then |s| - 1 else LastSlash(s[..|s| - 1])
  }

  function Climb(test: string -> bool, candidate: string): bool
    decreases |candidate|
  {
    test(candidate) || (LastSlash(candidate) >= 0 && Climb(test, candidate[..LastSlash(candidate)]))
  }

  predicate MatchesKey(key: string, path: string) { path == key || Starts(path, Slashed(key)) }

  predicate Matches(m: Matcher, path: string) {
    match m
    case Literal(keys) => exists k :: 0 <= k < |keys| && MatchesKey(keys[k], path)
    case Glob(test) => Climb(test, path)
  }

  method MatchesLoop(m: Matcher, path: string) returns (r: bool)
    ensures r == Matches(m, path)
  {
    match m
    case Literal(keys) =>
      for k := 0 to |keys|
        invariant forall j :: 0 <= j < k ==> !MatchesKey(keys[j], path)
      {
        if path == keys[k] || Starts(path, Slashed(keys[k])) { return true; }
      }
      r := false;
    case Glob(test) =>
      var candidate := path;
      while true
        invariant Climb(test, candidate) == Climb(test, path)
        decreases |candidate|
      {
        if test(candidate) { return true; }
        var slash := LastSlash(candidate);
        if slash < 0 { return false; }
        candidate := candidate[..slash];
      }
  }

  predicate Excluded(ms: seq<Matcher>, path: string) {
    exists i :: 0 <= i < |ms| && Matches(ms[i], path)
  }

  method IsExcluded(ms: seq<Matcher>, path: string) returns (r: bool)
    ensures r == Excluded(ms, path)
  {
    for i := 0 to |ms|
      invariant forall j :: 0 <= j < i ==> !Matches(ms[j], path)
    {
      var matched := MatchesLoop(ms[i], path);
      if matched { return true; }
    }
    r := false;
  }

  /** The climb tests the path and everything in front of one of its slashes. */
  lemma {:induction false} ClimbIff(test: string -> bool, path: string)
    ensures Climb(test, path) <==> exists k :: 0 <= k <= |path| && (k == |path| || path[k] == '/') && test(path[..k])
    decreases |path|
  {
    assert path[..|path|] == path;
    var slash := LastSlash(path);
    if slash >= 0 {
      var up := path[..slash];
      ClimbIff(test, up);
      forall k | 0 <= k <= slash ensures up[..k] == path[..k] {
      }
      if exists k :: 0 <= k <= |up| && (k == |up| || up[k] == '/') && test(up[..k]) {
        var k :| 0 <= k <= |up| && (k == |up| || up[k] == '/') && test(up[..k]);
        assert k < |path| && path[k] == '/' && test(path[..k]);
      }
      if exists k :: 0 <= k < |path| && path[k] == '/' && test(path[..k]) {
        var k :| 0 <= k < |path| && path[k] == '/' && test(path[..k]);
        assert k <= slash && test(up[..k]);
      }
    }
  }

  /** Whether a climb from below meets what excludes `dir`: the file system root, whose own name
      ends in a slash, is the one directory a climb never tests. */
  predicate Climbed(ms: seq<Matcher>, dir: string) {
    !EndsInSlash(dir) || forall i :: 0 <= i < |ms| && ms[i].Glob? ==> !ms[i].test(dir)
  }

  lemma MatchesBelow(m: Matcher, dir: string, name: string)
    requires Matches(m, dir) && Name(name) && (EndsInSlash(dir) && m.Glob? ==> !m.test(dir))
    ensures Matches(m, Join(dir, name))
  {
    var full := Join(dir, name);
    match m
    case Literal(keys) =>
      var k :| 0 <= k < |keys| && MatchesKey(keys[k], dir);
      assert Starts(full, Slashed(dir)) && Starts(full, dir);
      assert MatchesKey(keys[k], full);
    case Glob(test) =>
      ClimbIff(test, dir);
      ClimbIff(test, full);
      var k :| 0 <= k <= |dir| && (k == |dir| || dir[k] == '/') && test(dir[..k]);
      assert full[..k] == dir[..k];
      assert dir[..|dir|] == dir;
      assert k == |dir| ==> full[k] == '/';
  }

  /** What lies in an excluded directory is excluded, except below a root that a glob matches
      by the root's own name. */
  lemma ExcludedBelow(ms: seq<Matcher>, dir: string, name: string)
    requires Excluded(ms, dir) && Name(name)
    ensures Climbed(ms, dir) ==> Excluded(ms, Join(dir, name))
    ensures !EndsInSlash(dir) ==> Excluded(ms, Join(dir, name))
  {
    var i :| 0 <= i < |ms| && Matches(ms[i], dir);
    if Climbed(ms, dir) { MatchesBelow(ms[i], dir, name); }
  }

  lemma JoinNoRoot(dir: string, name: string)
    requires Name(name)
    ensures !EndsInSlash(Join(dir, name))
  {
    assert Join(dir, name)[|Join(dir, name)| - 1] == name[|name| - 1];
  }

  // ───────────── the full walk ─────────────

  /** Names to skip, and names of test files. */
  datatype Rules = Rules(skip: string -> bool, test: string -> bool)

  predicate Tree(t: Node) {
    t.Dir? ==> Named(t.entries) && forall i :: 0 <= i < |t.entries| ==> Tree(t.entries[i].1)
  }

  /** The entries of a directory have names, and different ones. */
  predicate Named(entries: seq<(string, Node)>) {
    && (forall i :: 0 <= i < |entries| ==> Name(entries[i].0))
    && (forall i, j :: 0 <= i < j < |entries| ==> entries[i].0 != entries[j].0)
  }

  /** Every test file of the first `n` entries of a directory, in their order. */
  function AllTests(rules: Rules, dir: string, t: Node, n: nat): seq<string>
    requires t.Dir? && n <= |t.entries|
    decreases t, 0, n
  {
    if n == 0 then []
    else
      AllTests(rules, dir, t, n - 1) + TestsAt(rules, Join(dir, t.entries[n - 1].0), t.entries[n - 1].0, t.entries[n - 1].1)
  }

  function TestsAt(rules: Rules, full: string, name: string, t: Node): seq<string>
    decreases t, 1, 0
  {
    if rules.skip(name) then []
    else match t
      case Dir(entries) => AllTests(rules, full, t, |entries|)
      case File => if rules.test(name) then [full] else []
      case Other => []
  }

  function TestsBelow(rules: Rules, dir: string, t: Node): seq<string>
    requires t.Dir?
  {
    AllTests(rules, dir, t, |t.entries|)
  }

  function Kept(ms: seq<Matcher>, paths: seq<string>): seq<string> {
    if paths == [] then [] else (if Excluded(ms, paths[0]) then [] else [paths[0]]) + Kept(ms, paths[1..])
  }

  lemma {:induction false} KeptConcat(ms: seq<Matcher>, a: seq<string>, b: seq<string>)
    ensures Kept(ms, a + b) == Kept(ms, a) + Kept(ms, b)
    decreases |a|
  {
    if a == [] {
      assert a + b == b;
    } else {
      assert (a + b)[1..] == a[1..] + b;
      KeptConcat(ms, a[1..], b);
    }
  }

  predicate AllOf(paths: seq<string>, p: string -> bool) { forall x :: x in paths ==> p(x) }

  function IsExcludedBy(ms: seq<Matcher>): string -> bool { p => Excluded(ms, p) }

  lemma {:induction false} NoneKept(ms: seq<Matcher>, paths: seq<string>)
    requires AllOf(paths, IsExcludedBy(ms))
    ensures Kept(ms, paths) == []
    decreases |paths|
  {
    if paths != [] {
      assert IsExcludedBy(ms)(paths[0]);
      NoneKept(ms, paths[1..]);
    }
  }

  lemma ChildTree(t: Node, i: nat)
    requires t.Dir? && Tree(t) && i < |t.entries|
    ensures Name(t.entries[i].0) && Tree(t.entries[i].1)
  {
  }

  predicate EntryAllOf(p: string -> bool, rules: Rules, dir: string, t: Node, i: nat)
    requires t.Dir? && i < |t.entries|
  {
    AllOf(TestsAt(rules, Join(dir, t.entries[i].0), t.entries[i].0, t.entries[i].1), p)
  }

  lemma {:induction false} AllUpTo(p: string -> bool, rules: Rules, dir: string, t: Node, n: nat)
    requires t.Dir? && n <= |t.entries| && forall i :: 0 <= i < n ==> EntryAllOf(p, rules, dir, t, i)
    ensures AllOf(AllTests(rules, dir, t, n), p)
    decreases n
  {
    if n > 0 {
      AllUpTo(p, rules, dir, t, n - 1);
      assert EntryAllOf(p, rules, dir, t, n - 1);
    }
  }

  /** Whatever can lie directly in `dir` is excluded. */
  ghost predicate Covers(ms: seq<Matcher>, dir: string) { forall e :: Name(e) ==> Excluded(ms, Join(dir, e)) }

  /** Whatever does lie directly in it is. */
  predicate CoversEntries(ms: seq<Matcher>, dir: string, t: Node)
    requires t.Dir?
  {
    forall i :: 0 <= i < |t.entries| ==> Excluded(ms, Join(dir, t.entries[i].0))
  }

  /** Everything in a directory is excluded whose entries are all excluded, */
  lemma {:induction false} AllBelowExcluded(ms: seq<Matcher>, rules: Rules, dir: string, t: Node)
    requires t.Dir? && Tree(t) && CoversEntries(ms, dir, t)
    ensures AllOf(TestsBelow(rules, dir, t), IsExcludedBy(ms))
    decreases t, 0
  {
    forall i | 0 <= i < |t.entries| ensures EntryAllOf(IsExcludedBy(ms), rules, dir, t, i) {
      ChildTree(t, i);
      JoinNoRoot(dir, t.entries[i].0);
      AllAtExcluded(ms, rules, Join(dir, t.entries[i].0), t.entries[i].0, t.entries[i].1);
    }
    AllUpTo(IsExcludedBy(ms), rules, dir, t, |t.entries|);
  }

  lemma {:induction false} AllAtExcluded(ms: seq<Matcher>, rules: Rules, full: string, name: string, t: Node)
    requires Excluded(ms, full) && !EndsInSlash(full) && Tree(t)
    ensures AllOf(TestsAt(rules, full, name, t), IsExcludedBy(ms))
    decreases t, 1
  {
    if t.Dir? {
      EntriesExcluded(ms, full, t);
      AllBelowExcluded(ms, rules, full, t);
    }
  }

  /** so nothing in it is kept. */
  lemma NothingKept(ms: seq<Matcher>, rules: Rules, dir: string, t: Node)
    requires t.Dir? && Tree(t) && CoversEntries(ms, dir, t)
    ensures Kept(ms, TestsBelow(rules, dir, t)) == []
  {
    AllBelowExcluded(ms, rules, dir, t);
    NoneKept(ms, TestsBelow(rules, dir, t));
  }

  lemma EntriesExcluded(ms: seq<Matcher>, dir: string, t: Node)
    requires t.Dir? && Tree(t) && !EndsInSlash(dir)
    ensures Excluded(ms, dir) ==> CoversEntries(ms, dir, t)
  {
    forall i | 0 <= i < |t.entries| && Excluded(ms, dir) ensures Excluded(ms, Join(dir, t.entries[i].0)) {
      ChildTree(t, i);
      ExcludedBelow(ms, dir, t.entries[i].0);
    }
  }

  /** A directory can be cut, whatever is in it, exactly if everything that can lie directly in
      it is excluded. */
  lemma CutIff(ms: seq<Matcher>, dir: string)
    ensures (forall rules: Rules, t: Node :: t.Dir? && Tree(t) ==> Kept(ms, TestsBelow(rules, dir, t)) == []) <==> Covers(ms, dir)
  {
    if Covers(ms, dir) {
      forall rules: Rules, t: Node | t.Dir? && Tree(t) ensures Kept(ms, TestsBelow(rules, dir, t)) == [] {
        forall i | 0 <= i < |t.entries| ensures Excluded(ms, Join(dir, t.entries[i].0)) { ChildTree(t, i); }
        NothingKept(ms, rules, dir, t);
      }
    } else {
      var e :| Name(e) && !Excluded(ms, Join(dir, e));
      var rules, t := Rules(_ => false, _ => true), Dir([(e, File)]);
      OneFile(rules, dir, e, t);
      assert Kept(ms, [Join(dir, e)]) == [Join(dir, e)] + Kept(ms, []);
      assert Tree(t) && Kept(ms, TestsBelow(rules, dir, t)) != [];
    }
  }

  lemma OneFile(rules: Rules, dir: string, e: string, t: Node)
    requires t == Dir([(e, File)]) && !rules.skip(e) && rules.test(e)
    ensures TestsBelow(rules, dir, t) == [Join(dir, e)]
  {
    assert AllTests(rules, dir, t, 0) == [];
    assert AllTests(rules, dir, t, 1) == [] + TestsAt(rules, Join(dir, e), e, File);
  }

  /** The exception is real: a glob that matches the root alone loses what is in it. */
  lemma RootLost()
    ensures var ms, rules, t := [Glob(p => p == "/")], Rules(_ => false, _ => true), Dir([("a", File)]);
      Tree(t) && Excluded(ms, "/") && Kept(ms, TestsBelow(rules, "/", t)) == ["/a"]
  {
    var test := (p: string) => p == "/";
    var ms, rules, t := [Glob(test)], Rules(_ => false, _ => true), Dir([("a", File)]);
    OneFile(rules, "/", "a", t);
    assert Matches(ms[0], "/");
    assert Join("/", "a") == "/a";
    assert LastSlash("/a") == 0 && "/a"[..0] == "" && LastSlash("") == -1;
    assert !Climb(test, "/a") && !Matches(ms[0], "/a");
    assert Kept(ms, ["/a"]) == ["/a"] + Kept(ms, []);
  }

  // ───────────── the walk that cuts ─────────────

  class Walker {
    const ms: seq<Matcher>
    const rules: Rules
    var visited: set<string>
    var out: seq<string>

    constructor (ms: seq<Matcher>, rules: Rules)
      ensures this.ms == ms && this.rules == rules && visited == {} && out == []
    {
      this.ms, this.rules := ms, rules;
      visited, out := {}, [];
    }

    /** Yields exactly the files that filtering a full walk would keep, where an excluded
        directory has excluded entries only; the set of visited directories never stops it. */
    method Walk(dir: string, t: Node)
      requires t.Dir? && Tree(t)
      requires forall v :: v in visited ==> !Under(dir, v)
      modifies this
      ensures out == old(out) + (if Excluded(ms, dir) then [] else Kept(ms, TestsBelow(rules, dir, t)))
      ensures !Excluded(ms, dir) || CoversEntries(ms, dir, t) ==> out == old(out) + Kept(ms, TestsBelow(rules, dir, t))
      ensures forall v :: v in visited ==> v in old(visited) || Under(dir, v)
      decreases t, 1
    {
      var excluded := IsExcluded(ms, dir);
      if excluded {
        if CoversEntries(ms, dir, t) { NothingKept(ms, rules, dir, t); }
        return;
      }
      assert Under(dir, dir);
      if dir in visited { return; }
      visited := visited + {dir};
      WalkEntries(dir, t, old(visited));
    }

    method WalkEntries(dir: string, t: Node, ghost before: set<string>)
      requires t.Dir? && Tree(t) && visited == before + {dir}
      requires forall v :: v in before ==> !Under(dir, v)
      modifies this
      ensures out == old(out) + Kept(ms, TestsBelow(rules, dir, t))
      ensures forall v :: v in visited ==> v in before || Under(dir, v)
      decreases t, 0, 1
    {
      assert Kept(ms, AllTests(rules, dir, t, 0)) == [] && out + [] == out;
      var i := 0;
      while i < |t.entries|
        invariant 0 <= i <= |t.entries|
        invariant out == old(out) + Kept(ms, AllTests(rules, dir, t, i))
        invariant forall v :: v in visited ==> v in before || Seen(dir, t, i, v)
      {
        ghost var was := out;
        VisitNth(dir, t, i, before);
        KeptMore(ms, rules, dir, t, i, old(out), was, out);
        i := i + 1;
      }
      AllBelow(dir, t, i, visited, before);
    }

    method VisitNth(dir: string, t: Node, i: nat, ghost before: set<string>)
      requires t.Dir? && i < |t.entries| && Tree(t) && (forall v :: v in before ==> !Under(dir, v))
      requires forall v :: v in visited ==> v in before || Seen(dir, t, i, v)
      modifies this
      ensures out == old(out) + Kept(ms, TestsAt(rules, Join(dir, t.entries[i].0), t.entries[i].0, t.entries[i].1))
      ensures forall v :: v in visited ==> v in before || Seen(dir, t, i + 1, v)
      decreases t, 0, 0
    {
      ChildTree(t, i);
      NoneVisited(dir, t, i, visited, before);
      Visit(dir, t.entries[i].0, t.entries[i].1);
    }

    method Visit(dir: string, name: string, t: Node)
      requires Name(name) && Tree(t)
      requires forall v :: v in visited ==> !Under(Join(dir, name), v)
      modifies this
      ensures out == old(out) + Kept(ms, TestsAt(rules, Join(dir, name), name, t))
      ensures forall v :: v in visited ==> v in old(visited) || Under(Join(dir, name), v)
      decreases t, 2
    {
      if rules.skip(name) { return; }
      var full := Join(dir, name);
      match t
      case Dir(entries) =>
        JoinNoRoot(dir, name);
        EntriesExcluded(ms, full, t);
        Walk(full, t);
      case File =>
        if rules.test(name) {
          var excluded := IsExcluded(ms, full);
          if !excluded { out := out + [full]; }
        }
      case Other =>
    }
  }

  /** The directory itself, or something at or below one of its first entries. */
  predicate Seen(dir: string, t: Node, i: nat, v: string)
    requires t.Dir? && i <= |t.entries|
  {
    v == dir || exists j :: 0 <= j < i && Under(Join(dir, t.entries[j].0), v)
  }

  lemma SeenBelow(dir: string, t: Node, i: nat, v: string)
    requires t.Dir? && i <= |t.entries|
    ensures Seen(dir, t, i, v) ==> Under(dir, v)
  {
    forall j | 0 <= j < i && Under(Join(dir, t.entries[j].0), v) ensures Under(dir, v) {
      assert Starts(Join(dir, t.entries[j].0), Slashed(dir)) && Starts(v, Join(dir, t.entries[j].0));
    }
  }

  /** The first name of a relative path. */
  function FirstName(p: string): string {
    if p == "" || p[0] == '/' then "" else [p[0]] + FirstName(p[1..])
  }

  lemma {:induction false} FirstNameIs(name: string, rest: string)
    requires (forall i :: 0 <= i < |name| ==> name[i] != '/') && (rest == "" || rest[0] == '/')
    ensures FirstName(name + rest) == name
  {
    if name == "" {
      assert name + rest == rest;
    } else {
      assert (name + rest)[1..] == name[1..] + rest;
      FirstNameIs(name[1..], rest);
    }
  }

  /** A path below an entry has the entry's name, so siblings have no path in common. */
  lemma UnderNamed(dir: string, name: string, p: string)
    requires Name(name) && Under(Join(dir, name), p)
    ensures Slashed(dir) <= p && FirstName(p[|Slashed(dir)|..]) == name
  {
    JoinNoRoot(dir, name);
    Behind(Slashed(dir), name, p);
    var rest := p[|Join(dir, name)|..];
    assert rest != "" ==> rest[0] == p[|Join(dir, name)|] == '/';
    FirstNameIs(name, rest);
  }

  lemma Behind(front: string, name: string, p: string)
    requires front + name <= p
    ensures front <= p && p[|front|..] == name + p[|front + name|..]
  {
  }

  lemma NotVisited(dir: string, t: Node, i: nat, v: string, before: set<string>)
    requires t.Dir? && i < |t.entries| && Tree(t) && (forall x :: x in before ==> !Under(dir, x))
    requires v in before || Seen(dir, t, i, v)
    ensures !Under(Join(dir, t.entries[i].0), v)
  {
    var name := t.entries[i].0;
    var full := Join(dir, name);
    assert Starts(full, Slashed(dir)) && full != dir;
    assert Under(full, v) ==> Under(dir, v) && v != dir;
    if Under(full, v) { UnderNamed(dir, name, v); }
    forall j | 0 <= j < i && Under(Join(dir, t.entries[j].0), v) ensures FirstName(v[|Slashed(dir)|..]) != name {
      UnderNamed(dir, t.entries[j].0, v);
    }
  }

  lemma NoneVisited(dir: string, t: Node, i: nat, visited: set<string>, before: set<string>)
    requires t.Dir? && i < |t.entries| && Tree(t) && (forall x :: x in before ==> !Under(dir, x))
    requires forall v :: v in visited ==> v in before || Seen(dir, t, i, v)
    ensures forall v :: v in visited ==> !Under(Join(dir, t.entries[i].0), v)
  {
    forall v | v in visited ensures !Under(Join(dir, t.entries[i].0), v) {
      NotVisited(dir, t, i, v, before);
    }
  }

  lemma AllBelow(dir: string, t: Node, i: nat, visited: set<string>, before: set<string>)
    requires t.Dir? && i <= |t.entries|
    requires forall v :: v in visited ==> v in before || Seen(dir, t, i, v)
    ensures forall v :: v in visited ==> v in before || Under(dir, v)
  {
    forall v | v in visited ensures v in before || Under(dir, v) {
      SeenBelow(dir, t, i, v);
    }
  }

  lemma Assoc(a: seq<string>, b: seq<string>, c: seq<string>)
    ensures (a + b) + c == a + (b + c)
  {
  }

  lemma KeptMore(ms: seq<Matcher>, rules: Rules, dir: string, t: Node, i: nat, start: seq<string>, was: seq<string>, now: seq<string>)
    requires t.Dir? && i < |t.entries| && was == start + Kept(ms, AllTests(rules, dir, t, i))
    requires now == was + Kept(ms, TestsAt(rules, Join(dir, t.entries[i].0), t.entries[i].0, t.entries[i].1))
    ensures now == start + Kept(ms, AllTests(rules, dir, t, i + 1))
  {
    var a, b := AllTests(rules, dir, t, i), TestsAt(rules, Join(dir, t.entries[i].0), t.entries[i].0, t.entries[i].1);
    assert AllTests(rules, dir, t, i + 1) == a + b;
    KeptConcat(ms, a, b);
    Assoc(start, Kept(ms, a), Kept(ms, b));
  }
}
