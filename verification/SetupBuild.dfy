/** The file operations that build the unpublished trees, tied to what they compute. */
module SetupBuild {
  import opened SetupDisk
  import opened SetupTrees
  import opened SetupPublish
  import opened SetupNext

  /** Only entries at or below `p` differ. */
  predicate OnlyBelow(was: Tree, now: Tree, p: Path) {
    && (forall k :: !(p <= k) ==> k in was ==> k in now && now[k] == was[k])
    && (forall k :: !(p <= k) ==> k in now ==> k in was)
  }

  lemma OnlyBelowSub(was: Tree, now: Tree, p: Path, d: Path)
    requires OnlyBelow(was, now, p) && Disjoint(p, d)
    ensures Sub(now, d) == Sub(was, d)
  {
    forall q ensures d + q in now <==> d + q in was
      ensures d + q in was ==> now[d + q] == was[d + q]
    {
      DisjointBelow(d, p, q);
    }
  }

  lemma OnlyBelowTwice(a: Tree, b: Tree, c: Tree, p: Path, q: Path)
    requires OnlyBelow(a, b, p) && OnlyBelow(b, c, q) && p <= q
    ensures OnlyBelow(a, c, p)
  {
    forall k | (k in a || k in b || k in c) && !(p <= k) ensures !(q <= k) {
    }
  }

  lemma DisjointChildren(a: Path, b: Path, m: Name)
    requires Disjoint(a, b)
    ensures Disjoint(a + [m], b + [m]) && Disjoint(a, b + [m]) && Disjoint(a + [m], b)
  {
    DisjointBelow(a, b, [m]);
    DisjointBelow(b, a, [m]);
    DisjointBelow(a, b + [m], [m]);
    DisjointBelow(b, a + [m], [m]);
  }

  lemma SiblingChildren(p: Path, m: Name, n: Name)
    requires m != n
    ensures Disjoint(p + [m], p + [n])
  {
    assert (p + [m])[|p|] == m && (p + [n])[|p|] == n;
  }

  lemma FileSub(fs: Tree, p: Path)
    requires TreeShaped(fs) && p in fs && fs[p].File?
    ensures Sub(fs, p) == map[[] := fs[p]]
  {
    assert p + [] == p;
    forall q | p + q in fs ensures q == [] {
      if q != [] { OnlyDirsHaveInside(fs, p, p + q); }
    }
  }

  /** Two directories with the same children, and the same trees below them. */
  lemma SameChildren(was: Tree, src: Path, now: Tree, dst: Path)
    requires IsDir(was, src) && IsDir(now, dst)
    requires forall m :: Sub(now, dst + [m]) == Sub(was, src + [m])
    ensures Sub(now, dst) == Sub(was, src)
  {
    forall q ensures dst + q in now <==> src + q in was
      ensures src + q in was ==> now[dst + q] == was[src + q]
    {
      if q == [] {
        assert dst + q == dst && src + q == src;
      } else {
        var m, rest := q[0], q[1..];
        assert dst + q == dst + [m] + rest && src + q == src + [m] + rest;
        assert rest in Sub(now, dst + [m]) <==> rest in Sub(was, src + [m]);
      }
    }
  }

  /** What copying `src` to the unused path `dst` gives: the same tree, or an empty
      directory when there is nothing to copy. */
  predicate CopiedTo(was: Tree, src: Path, now: Tree, dst: Path) {
    (src in was ==> was[src] == Dir) && Sub(now, dst) == if src in was then Sub(was, src) else map[[] := Dir]
  }

  predicate CanCopy(fs: Tree, src: Path, dst: Path) {
    TreeShaped(fs) && dst != [] && IsDir(fs, Parent(dst)) && Nothing(fs, dst) && Disjoint(src, dst)
  }

  method CopyTree(d: Disk, src: Path, dst: Path) returns (r: Outcome)
    requires CanCopy(d.fs, src, dst)
    modifies d`fs, d`faults
    ensures TreeShaped(d.fs) && OnlyBelow(old(d.fs), d.fs, dst)
    ensures r == Done ==> CopiedTo(old(d.fs), src, d.fs, dst)
    ensures Tame(old(d.faults), d.faults, r)
    ensures (src in old(d.fs) ==> old(d.fs)[src] == Dir) ==> Steady(old(d.faults), d.faults, r)
    decreases |Inside(d.fs, src)|, 1
  {
    r := d.Look();
    if r != Done { return; }
    if src in d.fs && d.fs[src].File? { return Threw; }
    var absent := src !in d.fs;
    r := Mkdir(d, dst);
    if r != Done || absent { return; }
    ghost var was := d.fs;
    OnlyBelowSub(old(d.fs), was, dst, src);
    AtSub(old(d.fs), was, src);
    assert Inside(was, src) == Inside(old(d.fs), src) by {
      assert Sub(was, src).Keys == Inside(was, src) && Sub(old(d.fs), src).Keys == Inside(old(d.fs), src);
    }
    r := d.Look();
    if r != Done { return; }
    r := CopyChildren(d, src, dst);
  }

  method Mkdir(d: Disk, dst: Path) returns (r: Outcome)
    requires TreeShaped(d.fs) && dst != [] && IsDir(d.fs, Parent(dst)) && Nothing(d.fs, dst)
    modifies d`fs, d`faults
    ensures TreeShaped(d.fs) && OnlyBelow(old(d.fs), d.fs, dst)
    ensures r == Done ==> IsDir(d.fs, dst) && Sub(d.fs, dst) == map[[] := Dir]
    ensures r == Done ==> forall m :: Nothing(d.fs, dst + [m])
    ensures Steady(old(d.faults), d.faults, r)
  {
    assert dst !in d.fs;
    WayToNew(d.fs, dst);
    r := EnsureDirectory(d, dst);
    ghost var now := d.fs;
    forall k | k in now && k !in old(d.fs) ensures k == dst {
      if k != dst { PrefixOfParent(k, dst); PrefixPresent(old(d.fs), Parent(dst), |k|); }
    }
    if r == Done {
      forall k | k in now && dst <= k ensures k == dst {
      }
      assert dst + [] == dst;
      forall q | dst + q in now ensures q == [] {
        assert dst <= dst + q;
      }
      forall m ensures Nothing(now, dst + [m]) {
        forall k | k in now ensures !(dst + [m] <= k) {
          BelowChild(dst, m, k);
        }
      }
    }
  }

  lemma WayToNew(fs: Tree, p: Path)
    requires TreeShaped(fs) && p != [] && IsDir(fs, Parent(p)) && p !in fs
    ensures WayClear(fs, p)
  {
    WayUp(fs, Parent(p));
    assert p[..|p|] == p;
    forall n | 0 <= n <= |p| && p[..n] in fs ensures fs[p[..n]] == Dir {
      if n < |p| { assert p[..n] == Parent(p)[..n]; }
    }
  }

  lemma BelowChild(p: Path, m: Name, k: Path)
    ensures p + [m] <= k ==> p <= k && k != p
  {
  }

  lemma PrefixOfParent(k: Path, p: Path)
    requires k <= p && k != p
    ensures k == Parent(p)[..|k|] && |k| <= |Parent(p)|
  {
  }

  predicate CopiedChild(was: Tree, src: Path, now: Tree, dst: Path, left: set<Name>, m: Name) {
    if m in left then Nothing(now, dst + [m]) else Sub(now, dst + [m]) == Sub(was, src + [m])
  }

  ghost predicate CopiedChildren(was: Tree, src: Path, now: Tree, dst: Path, left: set<Name>) {
    forall m :: CopiedChild(was, src, now, dst, left, m)
  }

  lemma NoneCopied(was: Tree, src: Path, dst: Path)
    requires TreeShaped(was) && forall m :: Nothing(was, dst + [m])
    ensures CopiedChildren(was, src, was, dst, Children(was, src))
  {
    forall m ensures CopiedChild(was, src, was, dst, Children(was, src), m) {
      ChildPath(was, src, m);
      PresentIff(was, src + [m]);
      NothingSub(was, dst + [m]);
    }
  }

  lemma OneCopied(was: Tree, src: Path, mid: Tree, now: Tree, dst: Path, left: set<Name>, n: Name)
    requires CopiedChildren(was, src, mid, dst, left) && OnlyBelow(mid, now, dst + [n])
    requires Sub(now, dst + [n]) == Sub(was, src + [n])
    ensures CopiedChildren(was, src, now, dst, left - {n})
  {
    forall m ensures CopiedChild(was, src, now, dst, left - {n}, m) {
      assert CopiedChild(was, src, mid, dst, left, m);
      if m != n {
        SiblingChildren(dst, n, m);
        OnlyBelowSub(mid, now, dst + [n], dst + [m]);
        NothingSub(mid, dst + [m]);
        NothingSub(now, dst + [m]);
      }
    }
  }

  method CopyChildren(d: Disk, src: Path, dst: Path) returns (r: Outcome)
    requires TreeShaped(d.fs) && dst != [] && Disjoint(src, dst) && IsDir(d.fs, src) && IsDir(d.fs, dst)
    requires forall m :: Nothing(d.fs, dst + [m])
    modifies d`fs, d`faults
    ensures TreeShaped(d.fs) && OnlyBelow(old(d.fs), d.fs, dst)
    ensures r == Done ==> Sub(d.fs, dst) == Sub(old(d.fs), src)
    ensures Steady(old(d.faults), d.faults, r)
    decreases |Inside(d.fs, src)|, 0
  {
    r := Done;
    ghost var was := d.fs;
    var names := Children(d.fs, src);
    NoneCopied(was, src, dst);
    while names != {}
      invariant TreeShaped(d.fs) && OnlyBelow(was, d.fs, dst) && r == Done && IsDir(d.fs, dst)
      invariant CopiedChildren(was, src, d.fs, dst, names)
      invariant names <= Children(was, src)
      invariant Steady(old(d.faults), d.faults, Done)
      decreases |names|
    {
      var n :| n in names;
      ghost var mid := d.fs;
      ChildPath(was, src, n);
      assert CopiedChild(was, src, mid, dst, names, n);
      r := CopyChild(d, src, dst, n, was);
      if r != Done { return; }
      OneCopied(was, src, mid, d.fs, dst, names, n);
      names := names - {n};
    }
    forall m ensures Sub(d.fs, dst + [m]) == Sub(was, src + [m]) {
      assert CopiedChild(was, src, d.fs, dst, {}, m);
    }
    SameChildren(was, src, d.fs, dst);
  }

  method CopyChild(d: Disk, src: Path, dst: Path, n: Name, ghost was: Tree) returns (r: Outcome)
    requires TreeShaped(was) && TreeShaped(d.fs) && OnlyBelow(was, d.fs, dst) && Disjoint(src, dst)
    requires dst != [] && IsDir(d.fs, dst) && Nothing(d.fs, dst + [n]) && src in was && src + [n] in was
    modifies d`fs, d`faults
    ensures TreeShaped(d.fs) && OnlyBelow(was, d.fs, dst) && OnlyBelow(old(d.fs), d.fs, dst + [n]) && IsDir(d.fs, dst)
    ensures r == Done ==> Sub(d.fs, dst + [n]) == Sub(was, src + [n])
    ensures Steady(old(d.faults), d.faults, r)
    decreases |Inside(was, src)|, 0, 0
  {
    DisjointChildren(src, dst, n);
    OnlyBelowSub(was, d.fs, dst, src + [n]);
    AtSub(was, d.fs, src + [n]);
    r := d.Look();
    if r != Done { return; }
    assert Parent(dst + [n]) == dst;
    ghost var mid := d.fs;
    if d.fs[src + [n]] == Dir {
      FewerBelow(was, src, n);
      assert Inside(mid, src + [n]) == Inside(was, src + [n]) by {
        assert Sub(mid, src + [n]).Keys == Inside(mid, src + [n]) && Sub(was, src + [n]).Keys == Inside(was, src + [n]);
      }
      r := CopyTree(d, src + [n], dst + [n]);
    } else {
      FileSub(was, src + [n]);
      r := CopyFile(d, src + [n], dst + [n]);
      if r == Done { FileSub(d.fs, dst + [n]); }
    }
    OnlyBelowTwice(was, mid, d.fs, dst, dst + [n]);
  }

  method CopyFile(d: Disk, src: Path, dst: Path) returns (r: Outcome)
    requires CanCopy(d.fs, src, dst) && src in d.fs && d.fs[src].File?
    modifies d`fs, d`faults
    ensures TreeShaped(d.fs) && OnlyBelow(old(d.fs), d.fs, dst)
    ensures r == Done ==> dst in d.fs && d.fs[dst] == old(d.fs)[src]
    ensures Steady(old(d.faults), d.faults, r)
  {
    r := d.Look();
    if r != Done { return; }
    r := d.WriteFile(dst, d.fs[src].content);
  }

  /** `now` is `was` without some stale files below `dir`; `at` is the path of `dir` inside `next`. */
  predicate PrunedBelow(was: Tree, now: Tree, dir: Path, at: Path, files: seq<Path>) {
    && Shrunk(was, now, dir)
    && forall k :: k in was && k !in now ==> was[k].File? && Stale(at + k[|dir|..], files)
  }

  predicate NoStale(fs: Tree, dir: Path, at: Path, files: seq<Path>) {
    forall k :: k in fs && dir <= k && fs[k].File? ==> !Stale(at + k[|dir|..], files)
  }

  lemma ChildSuffix(dir: Path, at: Path, k: Path)
    requires dir <= k && k != dir
    ensures dir + [k[|dir|]] <= k
    ensures at + [k[|dir|]] + k[|dir| + 1..] == at + k[|dir|..]
  {
  }

  lemma PrunedTwice(a: Tree, b: Tree, c: Tree, dir: Path, at: Path, n: Name, files: seq<Path>)
    requires PrunedBelow(a, b, dir, at, files) && PrunedBelow(b, c, dir + [n], at + [n], files)
    ensures PrunedBelow(a, c, dir, at, files)
  {
    ShrunkTwice(a, b, c, dir, dir + [n]);
    forall k | k in b && k !in c ensures Stale(at + k[|dir|..], files) {
      assert dir + [n] <= k;
      ChildSuffix(dir, at, k);
    }
  }

  lemma NoStaleShrinks(was: Tree, now: Tree, p: Path, dir: Path, at: Path, files: seq<Path>)
    requires Shrunk(was, now, p) && NoStale(was, dir, at, files)
    ensures NoStale(now, dir, at, files)
  {
  }

  lemma NoStaleChildren(fs: Tree, dir: Path, at: Path, files: seq<Path>)
    requires IsDir(fs, dir) && forall m :: NoStale(fs, dir + [m], at + [m], files)
    ensures NoStale(fs, dir, at, files)
  {
    forall k | k in fs && dir <= k && fs[k].File? ensures !Stale(at + k[|dir|..], files) {
      ChildSuffix(dir, at, k);
      assert NoStale(fs, dir + [k[|dir|]], at + [k[|dir|]], files);
    }
  }

  /** Unlinks every stale file below `dir`. */
  method Prune(d: Disk, dir: Path, at: Path, files: seq<Path>) returns (r: Outcome)
    requires TreeShaped(d.fs) && dir != [] && IsDir(d.fs, dir)
    modifies d`fs, d`faults
    ensures TreeShaped(d.fs) && PrunedBelow(old(d.fs), d.fs, dir, at, files)
    ensures r == Done ==> NoStale(d.fs, dir, at, files)
    ensures Steady(old(d.faults), d.faults, r)
    decreases |Inside(d.fs, dir)|, 1
  {
    r := d.Look();
    if r != Done { return; }
    ghost var was := d.fs;
    var names := Children(d.fs, dir);
    forall m | m !in names ensures NoStale(was, dir + [m], at + [m], files) {
      ChildPath(was, dir, m);
      PresentIff(was, dir + [m]);
    }
    while names != {}
      invariant TreeShaped(d.fs) && r == Done && IsDir(d.fs, dir)
      invariant PrunedBelow(was, d.fs, dir, at, files)
      invariant forall m :: m !in names ==> NoStale(d.fs, dir + [m], at + [m], files)
      invariant Steady(old(d.faults), d.faults, Done)
      decreases |names|
    {
      var n :| n in names;
      ghost var mid := d.fs;
      ChildSmaller(was, mid, dir, n);
      r := Visit(d, dir, at, n, files);
      PrunedTwice(was, mid, d.fs, dir, at, n, files);
      if r != Done { return; }
      forall m | m !in names ensures NoStale(d.fs, dir + [m], at + [m], files) {
        NoStaleShrinks(mid, d.fs, dir + [n], dir + [m], at + [m], files);
      }
      names := names - {n};
    }
    NoStaleChildren(d.fs, dir, at, files);
  }

  method Visit(d: Disk, dir: Path, at: Path, n: Name, files: seq<Path>) returns (r: Outcome)
    requires TreeShaped(d.fs) && dir != [] && IsDir(d.fs, dir)
    modifies d`fs, d`faults
    ensures TreeShaped(d.fs) && PrunedBelow(old(d.fs), d.fs, dir + [n], at + [n], files)
    ensures r == Done ==> NoStale(d.fs, dir + [n], at + [n], files)
    ensures Steady(old(d.faults), d.faults, r)
    decreases |Inside(d.fs, dir + [n])|, 2
  {
    var full, rel := dir + [n], at + [n];
    r := d.Look();
    if r != Done { return; }
    if full !in d.fs {
      PresentIff(d.fs, full);
      return;
    }
    if d.fs[full] == Dir {
      r := Prune(d, full, rel, files);
    } else {
      forall k | k in d.fs && full <= k ensures k == full {
        if k != full { OnlyDirsHaveInside(d.fs, full, k); }
      }
      assert rel + full[|full|..] == rel;
      if Stale(rel, files) {
        r := UnlinkIfPresent(d, full);
      }
    }
  }

  /** The ordinary files below `next`, by their path in the cache directory. */
  function View(fs: Tree): Files {
    FilesOf(Sub(fs, NextRoot))
  }

  predicate InSlot(q: Path) {
    q != [] && exists n: Slot :: q[0] == Plain(Text(n))
  }

  /** The ordinary files of the live trees. */
  function LiveFiles(fs: Tree): Files {
    map q | q in fs && InSlot(q) && Plainly(q) && fs[q].File? :: fs[q].content
  }

  lemma ViewAt(fs: Tree, q: Path)
    ensures q in View(fs) <==> NextRoot + q in fs && Plainly(q) && fs[NextRoot + q].File?
    ensures q in View(fs) ==> View(fs)[q] == fs[NextRoot + q].content
  {
  }

  /** The three directories below `next`, and nothing else directly below it. */
  predicate NextShaped(fs: Tree) {
    && TreeShaped(fs)
    && (forall n: Slot :: IsDir(fs, Next(n)))
    && (forall q :: q in View(fs) ==> InSlot(q))
  }

  lemma ShiftedPrefix(p: Path, f: Path, q: Path)
    ensures p + f <= p + q <==> f <= q
  {
    assert (p + f)[|p|..] == f && (p + q)[|p|..] == q;
    if p + f <= p + q {
      forall i | 0 <= i < |f| ensures f[i] == q[i] {
        assert (p + f)[|p| + i] == (p + q)[|p| + i];
      }
    }
  }

  lemma PlainIsNoScratch(f: Path, q: Path)
    requires f != [] && Plainly(q)
    ensures !Scratch(NextRoot + f, NextRoot + q)
  {
    var dst, k := NextRoot + f, NextRoot + q;
    if |k| >= |dst| { assert k[|dst| - 1] == q[|f| - 1]; }
  }

  lemma CommitView(was: Tree, now: Tree, f: Path, c: Content, q: Path)
    requires TreeShaped(now) && f != [] && Plainly(f)
    requires CommitFrame(was, now, NextRoot + f) && NextRoot + f in now && now[NextRoot + f] == File(c)
    ensures q in View(now) <==> q in Replaced(View(was), f, c)
    ensures q in View(now) ==> View(now)[q] == Replaced(View(was), f, c)[q]
  {
    var dst, k := NextRoot + f, NextRoot + q;
    ViewAt(was, q);
    ViewAt(now, q);
    ShiftedPrefix(NextRoot, f, q);
    if f <= q && q != f {
      assert k != dst by { assert k[2..] == q && dst[2..] == f; }
      if k in now { OnlyDirsHaveInside(now, dst, k); }
    } else if q != f && Plainly(q) {
      PlainIsNoScratch(f, q);
    }
  }

  lemma PrefixTrans(p: Path, q: Path, k: Path)
    ensures p <= q && q <= k ==> p <= k
    ensures p <= k && q <= k ==> p <= q || q <= p
  {
  }

  /** A commit below `next` leaves everything outside `next` alone. */
  lemma CommitOutside(was: Tree, f: Path, k: Path)
    requires TreeShaped(was) && IsDir(was, NextRoot) && |f| >= 2 && !(NextRoot <= k)
    ensures !(NextRoot + f <= k) && !Scratch(NextRoot + f, k) && (k <= NextRoot + f ==> k in was)
  {
    var dst := NextRoot + f;
    PrefixTrans(NextRoot, dst, k);
    PrefixTrans(NextRoot, Parent(dst), k);
    assert NextRoot <= Parent(dst);
    PrefixTrans(k, NextRoot, dst);
    if k <= NextRoot {
      PrefixPresent(was, NextRoot, |k|);
      assert NextRoot[..|k|] == k;
    }
  }

  lemma CommitBelow(was: Tree, now: Tree, f: Path)
    requires TreeShaped(was) && IsDir(was, NextRoot) && |f| >= 2 && CommitFrame(was, now, NextRoot + f)
    ensures OnlyBelow(was, now, NextRoot) && IsDir(now, NextRoot)
    ensures forall n: Slot :: IsDir(was, Next(n)) ==> IsDir(now, Next(n))
  {
    forall k | (k in was || k in now) && !(NextRoot <= k)
      ensures !(NextRoot + f <= k) && !Scratch(NextRoot + f, k) && (k <= NextRoot + f ==> k in was)
    {
      CommitOutside(was, f, k);
    }
  }

  lemma UnlinkView(was: Tree, now: Tree, p: Path, q: Path)
    requires TreeShaped(was) && Shrunk(was, now, NextRoot + p) && NextRoot + p !in now && !IsDir(was, NextRoot + p)
    ensures q in View(now) <==> q in View(was) && q != p
    ensures q in View(now) ==> View(now)[q] == View(was)[q]
  {
    var dst, k := NextRoot + p, NextRoot + q;
    ViewAt(was, q);
    ViewAt(now, q);
    assert k[2..] == q && dst[2..] == p;
    if k in was && k != dst && dst <= k { OnlyDirsHaveInside(was, dst, k); }
  }

  // ───────────── where there is room ─────────────

  /** Entries have only gone. */
  predicate Fewer(was: Tree, now: Tree) {
    forall k :: k in now ==> k in was && now[k] == was[k]
  }

  /** A file was put at `f` below `next`, and after that entries have only gone. */
  ghost predicate PutAt(was: Tree, now: Tree, f: Path) {
    exists mid :: PutBy(was, mid, now, f)
  }

  predicate PutBy(was: Tree, mid: Tree, now: Tree, f: Path) {
    && f != [] && TreeShaped(mid) && CommitFrame(was, mid, NextRoot + f) && Fewer(mid, now)
    && NextRoot + f in mid && mid[NextRoot + f].File?
  }

  /** Below `base`, a file can be put at `f`, and its bytecode unlinked. */
  predicate Room(fs: Tree, base: Path, f: Path)
    requires f != [] && Last(f).Plain?
  {
    && !IsDir(fs, base + f) && WayClear(fs, base + Parent(f))
    && !IsDir(fs, base + WithSuffix(f, ".jsc")) && !IsDir(fs, base + WithSuffix(f, ".jsc.mt"))
  }

  lemma RoomPlaceable(fs: Tree, f: Path)
    requires f != [] && WayClear(fs, NextRoot + Parent(f)) && !IsDir(fs, NextRoot + f)
    ensures Placeable(fs, NextRoot + f)
  {
    assert Parent(NextRoot + f) == NextRoot + Parent(f);
  }

  /** Putting a file at `g` makes no directory of a path that is not on the way to it, */
  lemma FreeStays(was: Tree, now: Tree, g: Path, p: Path)
    requires PutAt(was, now, g) && Plainly(g) && Plainly(p) && !(p <= g && p != g)
    requires !IsDir(was, NextRoot + p)
    ensures !IsDir(now, NextRoot + p)
  {
    var mid :| PutBy(was, mid, now, g);
    var dst, k := NextRoot + g, NextRoot + p;
    PlainIsNoScratch(g, p);
    ShiftedPrefix(NextRoot, p, g);
    ShiftedPrefix(NextRoot, g, p);
    assert k[2..] == p && dst[2..] == g;
    if dst <= k && k != dst && k in mid { OnlyDirsHaveInside(mid, dst, k); }
  }

  /** and no file on the way to a path that is not below it. */
  lemma ClearStays(was: Tree, now: Tree, g: Path, p: Path)
    requires PutAt(was, now, g) && Plainly(g) && Plainly(p) && !(g <= p) && |g| >= 2
    requires WayClear(was, NextRoot + p)
    ensures WayClear(now, NextRoot + p)
  {
    var mid :| PutBy(was, mid, now, g);
    var dst, k := NextRoot + g, NextRoot + p;
    forall n | 0 <= n <= |k| && k[..n] in now ensures now[k[..n]] == Dir {
      var q := k[..n];
      ShiftedPrefix(NextRoot, g, p);
      if n > 2 {
        assert q == NextRoot + p[..n - 2];
        PlainIsNoScratch(g, p[..n - 2]);
      }
      PrefixTrans(dst, q, k);
    }
  }

  lemma RoomStays(was: Tree, now: Tree, g: Path, f: Path)
    requires PutAt(was, now, g) && Plainly(g) && Plainly(f) && |g| >= 2 && |f| >= 2
    requires (f <= g ==> f == g) && (g <= f ==> f == g)
    requires !(WithSuffix(f, ".jsc") <= g) && !(WithSuffix(f, ".jsc.mt") <= g)
    requires Room(was, NextRoot, f)
    ensures Room(now, NextRoot, f)
  {
    FreeStays(was, now, g, f);
    FreeStays(was, now, g, WithSuffix(f, ".jsc"));
    FreeStays(was, now, g, WithSuffix(f, ".jsc.mt"));
    if g <= Parent(f) { PrefixTrans(g, Parent(f), f); }
    ClearStays(was, now, g, Parent(f));
  }

  /** One downloaded source: read it, commit it, unlink the bytecode of the old one. */
  method InstallFile(d: Disk, f: Path, stage: Path) returns (r: Outcome)
    requires TreeShaped(d.fs) && IsDir(d.fs, NextRoot) && |f| >= 2 && Plainly(f)
    modifies d
    ensures TreeShaped(d.fs) && OnlyBelow(old(d.fs), d.fs, NextRoot) && IsDir(d.fs, NextRoot) && d.sealed == old(d.sealed)
    ensures forall n: Slot :: IsDir(old(d.fs), Next(n)) ==> IsDir(d.fs, Next(n))
    ensures r == Done ==> stage + f in old(d.fs) && old(d.fs)[stage + f].File?
    ensures r == Done ==> View(d.fs) == Installed(View(old(d.fs)), f, old(d.fs)[stage + f].content)
    ensures Tame(old(d.faults), d.faults, r)
    ensures stage + f in old(d.fs) && old(d.fs)[stage + f].File? && Room(old(d.fs), NextRoot, f) ==> Steady(old(d.faults), d.faults, r)
    ensures r == Done ==> PutAt(old(d.fs), d.fs, f)
  {
    r := d.Look();
    if r != Done { return; }
    if stage + f !in d.fs || d.fs[stage + f] == Dir { return Threw; }
    var c := d.fs[stage + f].content;
    if Room(d.fs, NextRoot, f) { RoomPlaceable(d.fs, f); }
    r := CommitBelowNext(d, f, c);
    if r != Done { return; }
    ghost var mid := d.fs;
    if Room(old(d.fs), NextRoot, f) { BytecodeFree(old(d.fs), mid, f); }
    r := ClearBytecode(d, f);
    assert PutBy(old(d.fs), mid, d.fs, f);
    OnlyBelowTwice(old(d.fs), mid, d.fs, NextRoot, NextRoot);
    if r == Done { ReplaceThenClear(View(old(d.fs)), f, c); }
  }

  lemma BytecodeFree(was: Tree, now: Tree, f: Path)
    requires TreeShaped(now) && CommitFrame(was, now, NextRoot + f) && NextRoot + f in now && now[NextRoot + f].File?
    requires f != [] && Plainly(f) && Room(was, NextRoot, f)
    ensures !IsDir(now, NextRoot + WithSuffix(f, ".jsc")) && !IsDir(now, NextRoot + WithSuffix(f, ".jsc.mt"))
  {
    assert PutBy(was, now, now, f);
    FreeStays(was, now, f, WithSuffix(f, ".jsc"));
    FreeStays(was, now, f, WithSuffix(f, ".jsc.mt"));
  }

  lemma ReplaceThenClear(was: Files, f: Path, c: Content)
    requires f != [] && Plainly(f)
    ensures Cleared(Replaced(was, f, c), f) == Installed(was, f, c)
  {
    var t := Last(f).text;
    assert Last(WithSuffix(f, ".jsc")).text == t + ".jsc" && Last(WithSuffix(f, ".jsc.mt")).text == t + ".jsc.mt";
  }

  function Cleared(was: Files, f: Path): Files
    requires f != [] && Last(f).Plain?
  {
    map q | q in was && q != WithSuffix(f, ".jsc") && q != WithSuffix(f, ".jsc.mt") :: was[q]
  }

  method CommitBelowNext(d: Disk, f: Path, c: Content) returns (r: Outcome)
    requires TreeShaped(d.fs) && IsDir(d.fs, NextRoot) && |f| >= 2 && Plainly(f)
    modifies d
    ensures TreeShaped(d.fs) && OnlyBelow(old(d.fs), d.fs, NextRoot) && IsDir(d.fs, NextRoot) && d.sealed == old(d.sealed)
    ensures forall n: Slot :: IsDir(old(d.fs), Next(n)) ==> IsDir(d.fs, Next(n))
    ensures r == Done ==> View(d.fs) == Replaced(View(old(d.fs)), f, c)
    ensures Tame(old(d.faults), d.faults, r)
    ensures Placeable(old(d.fs), NextRoot + f) ==> Steady(old(d.faults), d.faults, r)
    ensures CommitFrame(old(d.fs), d.fs, NextRoot + f)
    ensures r == Done ==> NextRoot + f in d.fs && d.fs[NextRoot + f].File?
  {
    var dst := NextRoot + f;
    assert |dst| >= 4 && |Committed| == 2;
    r := CommitFile(d, dst, c);
    CommitBelow(old(d.fs), d.fs, f);
    if r == Done {
      forall q ensures q in View(d.fs) <==> q in Replaced(View(old(d.fs)), f, c)
        ensures q in View(d.fs) ==> View(d.fs)[q] == Replaced(View(old(d.fs)), f, c)[q]
      {
        CommitView(old(d.fs), d.fs, f, c, q);
      }
    }
  }

  function Except(was: Files, p: Path): Files {
    map q | q in was && q != p :: was[q]
  }

  lemma ClearedBoth(was: Files, f: Path)
    requires f != [] && Last(f).Plain?
    ensures Except(Except(was, WithSuffix(f, ".jsc")), WithSuffix(f, ".jsc.mt")) == Cleared(was, f)
  {
  }

  method ClearBytecode(d: Disk, f: Path) returns (r: Outcome)
    requires TreeShaped(d.fs) && IsDir(d.fs, NextRoot) && |f| >= 2 && Plainly(f)
    modifies d`fs, d`faults
    ensures TreeShaped(d.fs) && OnlyBelow(old(d.fs), d.fs, NextRoot) && IsDir(d.fs, NextRoot)
    ensures forall n: Slot :: IsDir(old(d.fs), Next(n)) ==> IsDir(d.fs, Next(n))
    ensures r == Done ==> View(d.fs) == Cleared(View(old(d.fs)), f)
    ensures Tame(old(d.faults), d.faults, r)
    ensures !IsDir(old(d.fs), NextRoot + WithSuffix(f, ".jsc")) && !IsDir(old(d.fs), NextRoot + WithSuffix(f, ".jsc.mt")) ==> Steady(old(d.faults), d.faults, r)
    ensures Fewer(old(d.fs), d.fs)
  {
    var a, b := WithSuffix(f, ".jsc"), WithSuffix(f, ".jsc.mt");
    r := UnlinkBelowNext(d, a);
    if r != Done { return; }
    ghost var mid := d.fs;
    r := UnlinkBelowNext(d, b);
    OnlyBelowTwice(old(d.fs), mid, d.fs, NextRoot, NextRoot);
    ClearedBoth(View(old(d.fs)), f);
  }

  method UnlinkBelowNext(d: Disk, p: Path) returns (r: Outcome)
    requires TreeShaped(d.fs) && IsDir(d.fs, NextRoot) && |p| >= 2
    modifies d`fs, d`faults
    ensures TreeShaped(d.fs) && OnlyBelow(old(d.fs), d.fs, NextRoot) && IsDir(d.fs, NextRoot)
    ensures forall n: Slot :: IsDir(old(d.fs), Next(n)) ==> IsDir(d.fs, Next(n))
    ensures r == Done ==> View(d.fs) == Except(View(old(d.fs)), p)
    ensures Tame(old(d.faults), d.faults, r)
    ensures !IsDir(old(d.fs), NextRoot + p) ==> Steady(old(d.faults), d.faults, r)
    ensures Fewer(old(d.fs), d.fs)
  {
    assert NextRoot <= NextRoot + p;
    r := UnlinkIfPresent(d, NextRoot + p);
    if r == Done {
      forall q ensures q in View(d.fs) <==> q in View(old(d.fs)) && q != p
        ensures q in View(d.fs) ==> View(d.fs)[q] == View(old(d.fs))[q]
      {
        UnlinkView(old(d.fs), d.fs, p, q);
      }
    }
  }

  lemma SlotOf(n: Slot, q: Path)
    requires q != [] && q[0] == Plain(Text(n))
    ensures InSlot(q) && q == Live(n) + q[1..] && NextRoot + q == Next(n) + q[1..]
  {
  }

  lemma BelowNextSlot(n: Slot, k: Path)
    requires Next(n) <= k
    ensures NextRoot <= k && k[2..] != [] && k[2..][0] == Plain(Text(n))
  {
  }

  /** While the live trees are being copied: only the first `done` of them are below `next`. */
  ghost predicate Copying(was: Tree, now: Tree, done: nat) {
    && TreeShaped(now) && IsDir(now, NextRoot) && OnlyBelow(was, now, NextRoot)
    && (forall k :: k in now && NextRoot <= k && k != NextRoot ==> exists n: Slot :: Rank(n) < done && Next(n) <= k)
    && (forall n: Slot :: Rank(n) < done ==> CopiedTo(was, Live(n), now, Next(n)))
  }

  lemma CopyingStep(was: Tree, mid: Tree, now: Tree, n: Slot)
    requires Copying(was, mid, Rank(n)) && TreeShaped(now) && OnlyBelow(mid, now, Next(n))
    requires CopiedTo(mid, Live(n), now, Next(n))
    ensures Copying(was, now, Rank(n) + 1)
  {
    Layout(n, n);
    assert NextRoot <= Next(n);
    OnlyBelowTwice(was, mid, now, NextRoot, Next(n));
    OnlyBelowSub(was, mid, NextRoot, Live(n));
    AtSub(was, mid, Live(n));
    forall m: Slot | Rank(m) < Rank(n) ensures CopiedTo(was, Live(m), now, Next(m)) {
      Layout(m, n);
      OnlyBelowSub(mid, now, Next(n), Next(m));
      assert CopiedTo(was, Live(m), mid, Next(m));
    }
    assert forall m: Slot :: Rank(m) == Rank(n) ==> m == n;
    forall k | k in now && NextRoot <= k && k != NextRoot ensures exists m: Slot :: Rank(m) < Rank(n) + 1 && Next(m) <= k {
      if !(Next(n) <= k) { assert k in mid; }
    }
  }

  lemma CopiedPath(was: Tree, src: Path, now: Tree, dst: Path, rest: Path)
    requires TreeShaped(was) && CopiedTo(was, src, now, dst)
    ensures dst + rest in now && now[dst + rest].File? <==> src + rest in was && was[src + rest].File?
    ensures src + rest in was && was[src + rest].File? ==> now[dst + rest] == was[src + rest]
  {
    assert rest in Sub(now, dst) <==> dst + rest in now;
    assert rest in Sub(was, src) <==> src + rest in was;
    PresentIff(was, src);
    assert src <= src + rest;
  }

  lemma CopiedAt(was: Tree, now: Tree, n: Slot, q: Path)
    requires TreeShaped(was) && CopiedTo(was, Live(n), now, Next(n))
    requires q != [] && q[0] == Plain(Text(n))
    ensures q in View(now) <==> q in LiveFiles(was)
    ensures q in View(now) ==> View(now)[q] == LiveFiles(was)[q]
  {
    SlotOf(n, q);
    ViewAt(now, q);
    CopiedPath(was, Live(n), now, Next(n), q[1..]);
  }

  lemma ViewSlot(was: Tree, now: Tree, q: Path)
    requires Copying(was, now, 3) && q in View(now)
    ensures exists n: Slot :: q != [] && q[0] == Plain(Text(n))
  {
    ViewAt(now, q);
    var k := NextRoot + q;
    assert NextRoot + [] == NextRoot && k[2..] == q;
    var n: Slot :| Next(n) <= k;
    BelowNextSlot(n, k);
  }

  lemma CopiedDirs(was: Tree, now: Tree, n: Slot)
    requires CopiedTo(was, Live(n), now, Next(n))
    ensures IsDir(now, Next(n))
  {
    assert [] in Sub(now, Next(n)) <==> Next(n) + [] in now;
    assert Next(n) + [] == Next(n) && Live(n) + [] == Live(n);
  }

  lemma CopiedAll(was: Tree, now: Tree)
    requires TreeShaped(was) && Copying(was, now, 3)
    ensures NextShaped(now) && View(now) == LiveFiles(was)
  {
    forall n: Slot ensures IsDir(now, Next(n)) && CopiedTo(was, Live(n), now, Next(n)) {
      assert Rank(n) < 3;
      CopiedDirs(was, now, n);
    }
    forall q ensures q in View(now) <==> q in LiveFiles(was)
      ensures q in View(now) ==> View(now)[q] == LiveFiles(was)[q] && InSlot(q)
    {
      if q in View(now) { ViewSlot(was, now, q); }
      if q in View(now) || q in LiveFiles(was) {
        var n: Slot :| q[0] == Plain(Text(n));
        CopiedAt(was, now, n, q);
      }
    }
  }

  /** Each live tree is absent or a directory. */
  predicate LiveDirs(fs: Tree) {
    forall n: Slot :: Live(n) in fs ==> fs[Live(n)] == Dir
  }

  lemma LiveSame(was: Tree, now: Tree, n: Slot)
    requires OnlyBelow(was, now, NextRoot)
    ensures (Live(n) in now <==> Live(n) in was) && (Live(n) in was ==> now[Live(n)] == was[Live(n)])
  {
    Layout(n, n);
  }

  method CopyAll(d: Disk) returns (r: Outcome)
    requires Copying(d.fs, d.fs, 0) && d.fs[[]] == Dir
    modifies d`fs, d`faults
    ensures TreeShaped(d.fs) && OnlyBelow(old(d.fs), d.fs, NextRoot) && IsDir(d.fs, NextRoot)
    ensures r == Done ==> NextShaped(d.fs) && View(d.fs) == LiveFiles(old(d.fs)) && Copying(old(d.fs), d.fs, 3)
    ensures Tame(old(d.faults), d.faults, r)
    ensures LiveDirs(old(d.fs)) ==> Steady(old(d.faults), d.faults, r)
  {
    r := Done;
    ghost var was := d.fs;
    var i := 0;
    while i < |SLOTS|
      invariant 0 <= i <= |SLOTS| && r == Done
      invariant Copying(was, d.fs, i)
      invariant Tame(old(d.faults), d.faults, Done) && (LiveDirs(was) ==> Steady(old(d.faults), d.faults, Done))
    {
      var n := SLOTS[i];
      assert Rank(n) == i;
      ghost var mid := d.fs;
      UnusedNext(was, mid, n);
      LiveSame(was, mid, n);
      r := CopyTree(d, Live(n), Next(n));
      if r != Done {
        OnlyBelowTwice(was, mid, d.fs, NextRoot, Next(n));
        return;
      }
      CopyingStep(was, mid, d.fs, n);
      i := i + 1;
    }
    CopiedAll(was, d.fs);
  }

  lemma UnusedNext(was: Tree, mid: Tree, n: Slot)
    requires Copying(was, mid, Rank(n))
    ensures CanCopy(mid, Live(n), Next(n)) && NextRoot <= Next(n)
  {
    Layout(n, n);
    assert Parent(Next(n)) == NextRoot;
    forall k | k in mid ensures !(Next(n) <= k) {
      if NextRoot <= k && k != NextRoot {
        var m: Slot :| Rank(m) < Rank(n) && Next(m) <= k;
        Layout(n, m);
        PrefixTrans(Next(n), Next(m), k);
      }
    }
  }

  /** In the copies there is room where there was room in the live trees. */
  lemma CopiedEntry(was: Tree, now: Tree, n: Slot, q: Path)
    requires Copying(was, now, 3) && q != [] && q[0] == Plain(Text(n)) && NextRoot + q in now
    ensures (now[NextRoot + q] == Dir && q == Live(n)) || (q in was && now[NextRoot + q] == was[q])
  {
    assert Rank(n) < 3 && CopiedTo(was, Live(n), now, Next(n));
    SlotOf(n, q);
    assert q[1..] in Sub(now, Next(n)) && Sub(now, Next(n))[q[1..]] == now[NextRoot + q];
  }

  lemma CopiedRoom(was: Tree, now: Tree, f: Path)
    requires Copying(was, now, 3) && |f| >= 2 && InSlot(f) && Last(f).Plain? && Room(was, [], f)
    ensures Room(now, NextRoot, f)
  {
    CopiedFree(was, now, f);
    CopiedFree(was, now, WithSuffix(f, ".jsc"));
    CopiedFree(was, now, WithSuffix(f, ".jsc.mt"));
    CopiedWay(was, now, Parent(f));
  }

  lemma CopiedFree(was: Tree, now: Tree, p: Path)
    requires Copying(was, now, 3) && |p| >= 2 && InSlot(p) && !IsDir(was, [] + p)
    ensures !IsDir(now, NextRoot + p)
  {
    assert [] + p == p;
    var n: Slot :| p[0] == Plain(Text(n));
    if NextRoot + p in now { CopiedEntry(was, now, n, p); }
  }

  lemma CopiedWay(was: Tree, now: Tree, p: Path)
    requires Copying(was, now, 3) && InSlot(p) && WayClear(was, [] + p)
    ensures WayClear(now, NextRoot + p)
  {
    assert [] + p == p;
    var n: Slot :| p[0] == Plain(Text(n));
    var k := NextRoot + p;
    WayUp(now, NextRoot);
    forall i | 0 <= i <= |k| && k[..i] in now ensures now[k[..i]] == Dir {
      if i <= 2 {
        assert k[..i] == NextRoot[..i];
      } else {
        assert k[..i] == NextRoot + p[..i - 2];
        CopiedEntry(was, now, n, p[..i - 2]);
      }
    }
  }

  /** The download as it lies on disk. */
  function Staged(fs: Tree, install: Install): Files {
    FilesOf(Sub(fs, install.stage))
  }

  predicate StageApart(install: Install) {
    && |install.stage| == 1 && install.stage[0] != Root[0]
    && forall n: Slot :: install.stage[0] != Plain(Text(n))
  }

  lemma StagedAt(was: Tree, now: Tree, install: Install, f: Path)
    requires OnlyBelow(was, now, NextRoot) && StageApart(install)
    requires Plainly(f) && install.stage + f in now && now[install.stage + f].File?
    ensures f in Staged(was, install) && Staged(was, install)[f] == now[install.stage + f].content
  {
    assert (install.stage + f)[0] == install.stage[0] && NextRoot[0] == Root[0];
  }

  predicate IsStaged(fs: Tree, stage: Path, f: Path) { stage + f in fs && fs[stage + f].File? }

  lemma StageKept(was: Tree, now: Tree, install: Install, f: Path)
    requires OnlyBelow(was, now, NextRoot) && StageApart(install)
    ensures IsStaged(was, install.stage, f) <==> IsStaged(now, install.stage, f)
  {
    assert (install.stage + f)[0] == install.stage[0] && NextRoot[0] == Root[0];
  }

  /** No listed file lies below another one's bytecode, or below the marker. */
  predicate ListApart(files: seq<Path>)
    requires ValidFiles(files)
  {
    forall f, g :: f in files && g in files ==>
      !(WithSuffix(f, ".jsc") <= g) && !(WithSuffix(f, ".jsc.mt") <= g) && !(MarkerPath <= g)
  }

  /** There is room below `base` for every listed file and for the marker. */
  predicate RoomForAll(fs: Tree, base: Path, files: seq<Path>)
    requires ValidFiles(files)
  {
    && (forall f :: f in files ==> Room(fs, base, f))
    && !IsDir(fs, base + MarkerPath) && WayClear(fs, base + Parent(MarkerPath))
  }

  lemma RoomForAllStays(was: Tree, now: Tree, g: Path, files: seq<Path>)
    requires ValidFiles(files) && ListApart(files) && g in files && PutAt(was, now, g) && RoomForAll(was, NextRoot, files)
    ensures RoomForAll(now, NextRoot, files)
  {
    forall f | f in files ensures Room(now, NextRoot, f) {
      RoomStays(was, now, g, f);
    }
    FreeStays(was, now, g, MarkerPath);
    assert |Parent(MarkerPath)| == 1;
    ClearStays(was, now, g, Parent(MarkerPath));
  }

  /** The download can be installed below `next`. */
  predicate CanInstall(fs: Tree, was: Tree, install: Install)
    requires ValidFiles(install.files)
  {
    && ListApart(install.files) && RoomForAll(fs, NextRoot, install.files)
    && forall f :: f in install.files ==> IsStaged(was, install.stage, f)
  }

  method InstallNth(d: Disk, install: Install, f: Path, ghost was: Tree) returns (r: Outcome)
    requires TreeShaped(d.fs) && OnlyBelow(was, d.fs, NextRoot) && IsDir(d.fs, NextRoot) && StageApart(install)
    requires |f| >= 2 && Plainly(f)
    modifies d
    ensures TreeShaped(d.fs) && OnlyBelow(was, d.fs, NextRoot) && IsDir(d.fs, NextRoot) && d.sealed == old(d.sealed)
    ensures forall n: Slot :: IsDir(old(d.fs), Next(n)) ==> IsDir(d.fs, Next(n))
    ensures r == Done ==> f in Staged(was, install) && View(d.fs) == Installed(View(old(d.fs)), f, Staged(was, install)[f])
    ensures Tame(old(d.faults), d.faults, r)
    ensures IsStaged(was, install.stage, f) && Room(old(d.fs), NextRoot, f) ==> Steady(old(d.faults), d.faults, r)
    ensures r == Done ==> PutAt(old(d.fs), d.fs, f)
  {
    ghost var mid := d.fs;
    StageKept(was, mid, install, f);
    r := InstallFile(d, f, install.stage);
    OnlyBelowTwice(was, mid, d.fs, NextRoot, NextRoot);
    if r == Done { StagedAt(was, mid, install, f); }
  }

  method InstallAll(d: Disk, install: Install) returns (r: Outcome)
    requires NextShaped(d.fs) && IsDir(d.fs, NextRoot) && ValidFiles(install.files) && StageApart(install)
    modifies d
    ensures TreeShaped(d.fs) && OnlyBelow(old(d.fs), d.fs, NextRoot) && IsDir(d.fs, NextRoot) && d.sealed == old(d.sealed)
    ensures r == Done ==> Installable(install.files, Staged(old(d.fs), install))
    ensures r == Done ==> NextShaped(d.fs) && View(d.fs) == InstalledAll(View(old(d.fs)), install.files, Staged(old(d.fs), install))
    ensures Tame(old(d.faults), d.faults, r)
    ensures CanInstall(old(d.fs), old(d.fs), install) ==> Steady(old(d.faults), d.faults, r) && (r == Done ==> RoomForAll(d.fs, NextRoot, install.files))
  {
    r := Done;
    ghost var was, staged := d.fs, Staged(d.fs, install);
    var files := install.files;
    var k := 0;
    while k < |files|
      invariant 0 <= k <= |files| && r == Done && d.sealed == old(d.sealed)
      invariant TreeShaped(d.fs) && OnlyBelow(was, d.fs, NextRoot) && IsDir(d.fs, NextRoot)
      invariant forall n: Slot :: IsDir(d.fs, Next(n))
      invariant InstalledSoFar(View(was), View(d.fs), files, k, staged)
      invariant Tame(old(d.faults), d.faults, Done)
      invariant CanInstall(was, was, install) ==> Steady(old(d.faults), d.faults, Done) && RoomForAll(d.fs, NextRoot, files)
    {
      assert files[k] in files;
      ghost var mid, tree := View(d.fs), d.fs;
      r := InstallNth(d, install, files[k], was);
      if r != Done { return; }
      if CanInstall(was, was, install) { RoomForAllStays(tree, d.fs, files[k], files); }
      InstalledMore(View(was), mid, View(d.fs), files, k, staged);
      k := k + 1;
    }
    InstalledEnd(View(was), View(d.fs), files, staged);
  }

  predicate InstalledSoFar(was: Files, now: Files, files: seq<Path>, k: nat, staged: Files)
    requires k <= |files|
  {
    Installable(files[..k], staged) && now == InstalledAll(was, files[..k], staged)
  }

  lemma InstalledEnd(was: Files, now: Files, files: seq<Path>, staged: Files)
    requires InstalledSoFar(was, now, files, |files|, staged) && ValidFiles(files) && forall q :: q in was ==> InSlot(q)
    ensures Installable(files, staged) && now == InstalledAll(was, files, staged)
    ensures forall q :: q in now ==> InSlot(q)
  {
    assert files[..|files|] == files;
    InstalledSlots(was, files, staged);
  }

  lemma InstalledMore(was: Files, mid: Files, now: Files, files: seq<Path>, k: nat, staged: Files)
    requires k < |files| && InstalledSoFar(was, mid, files, k, staged) && files[k] != [] && Last(files[k]).Plain? && files[k] in staged
    requires now == Installed(mid, files[k], staged[files[k]])
    ensures InstalledSoFar(was, now, files, k + 1, staged)
  {
    var more := files[..k + 1];
    assert more[..k] == files[..k] && more[k] == files[k] && |more| - 1 == k;
    forall f | f in more ensures f != [] && Last(f).Plain? && f in staged {
      assert f in files[..k] || f == files[k];
    }
  }

  lemma InstalledSlots(was: Files, files: seq<Path>, staged: Files)
    requires ValidFiles(files) && Installable(files, staged) && forall q :: q in was ==> InSlot(q)
    ensures forall q :: q in InstalledAll(was, files, staged) ==> InSlot(q)
  {
    InstalledAllHolds(was, files, |files|, staged);
    assert files[..|files|] == files;
    var all := InstalledAll(was, files, staged);
    forall q | q in all ensures InSlot(q) {
      assert InstalledOkAt(was, all, files, files, staged, q);
    }
  }

  /** The view once the trees before number `i` are pruned. */
  ghost predicate PrunedSlots(was: Files, now: Files, files: seq<Path>, i: nat) {
    && (forall q :: q in now ==> q in was && now[q] == was[q])
    && (forall q :: q in was && q !in now ==> Stale(q, files))
    && (forall n: Slot, q :: Rank(n) < i && q in now && q != [] && q[0] == Plain(Text(n)) ==> !Stale(q, files))
  }

  lemma PruneStep(was: Files, mid: Tree, now: Tree, files: seq<Path>, n: Slot)
    requires NextShaped(mid) && PrunedSlots(was, View(mid), files, Rank(n))
    requires PrunedBelow(mid, now, Next(n), [Plain(Text(n))], files) && NoStale(now, Next(n), [Plain(Text(n))], files)
    ensures PrunedSlots(was, View(now), files, Rank(n) + 1)
    ensures TreeShaped(now) ==> NextShaped(now)
    ensures OnlyBelow(mid, now, NextRoot) && (IsDir(mid, NextRoot) ==> IsDir(now, NextRoot))
  {
    assert NextRoot <= Next(n);
    forall k | k in mid && !(NextRoot <= k) ensures !(Next(n) <= k) { PrefixTrans(NextRoot, Next(n), k); }
    forall q
      ensures q in View(now) ==> q in View(mid) && View(now)[q] == View(mid)[q]
      ensures q in View(mid) && q !in View(now) ==> Stale(q, files)
      ensures q in View(now) && q != [] && q[0] == Plain(Text(n)) ==> !Stale(q, files)
    {
      PruneAt(mid, now, files, n, q);
    }
    assert forall m: Slot :: Rank(m) < Rank(n) + 1 ==> Rank(m) < Rank(n) || m == n;
  }

  lemma PruneAt(mid: Tree, now: Tree, files: seq<Path>, n: Slot, q: Path)
    requires PrunedBelow(mid, now, Next(n), [Plain(Text(n))], files) && NoStale(now, Next(n), [Plain(Text(n))], files)
    ensures q in View(now) ==> q in View(mid) && View(now)[q] == View(mid)[q]
    ensures q in View(mid) && q !in View(now) ==> Stale(q, files)
    ensures q in View(now) && q != [] && q[0] == Plain(Text(n)) ==> !Stale(q, files)
  {
    ViewAt(mid, q);
    ViewAt(now, q);
    SuffixOf(n, q);
    assert NextRoot + q in mid && NextRoot + q !in now ==> Stale(q, files);
    assert NextRoot + q in now && Next(n) <= NextRoot + q && now[NextRoot + q].File? ==> !Stale(q, files);
  }

  lemma SuffixOf(n: Slot, q: Path)
    ensures Next(n) <= NextRoot + q <==> q != [] && q[0] == Plain(Text(n))
    ensures Next(n) <= NextRoot + q ==> [Plain(Text(n))] + (NextRoot + q)[|Next(n)|..] == q
  {
    var k := NextRoot + q;
    if Next(n) <= k {
      assert k[2] == Next(n)[2] && |q| > 0;
    } else if q != [] && q[0] == Plain(Text(n)) {
      SlotOf(n, q);
    }
  }

  method PruneAll(d: Disk, files: seq<Path>) returns (r: Outcome)
    requires NextShaped(d.fs) && IsDir(d.fs, NextRoot)
    modifies d`fs, d`faults
    ensures TreeShaped(d.fs) && OnlyBelow(old(d.fs), d.fs, NextRoot) && IsDir(d.fs, NextRoot)
    ensures r == Done ==> NextShaped(d.fs) && View(d.fs) == Pruned(View(old(d.fs)), files)
    ensures Steady(old(d.faults), d.faults, r)
    ensures Fewer(old(d.fs), d.fs)
  {
    r := Done;
    ghost var was := d.fs;
    var i := 0;
    while i < |SLOTS|
      invariant 0 <= i <= |SLOTS| && r == Done
      invariant NextShaped(d.fs) && OnlyBelow(was, d.fs, NextRoot) && IsDir(d.fs, NextRoot)
      invariant Fewer(was, d.fs)
      invariant PrunedSlots(View(was), View(d.fs), files, i)
      invariant Steady(old(d.faults), d.faults, Done)
    {
      var n := SLOTS[i];
      assert Rank(n) == i;
      ghost var mid := d.fs;
      r := Prune(d, Next(n), [Plain(Text(n))], files);
      if r != Done {
        ShrunkOnlyBelow(mid, d.fs, n);
        OnlyBelowTwice(was, mid, d.fs, NextRoot, NextRoot);
        return;
      }
      PruneStep(View(was), mid, d.fs, files, n);
      OnlyBelowTwice(was, mid, d.fs, NextRoot, NextRoot);
      i := i + 1;
    }
    forall q ensures q in View(d.fs) <==> q in View(was) && !Stale(q, files) {
      if q in View(d.fs) {
        var n: Slot :| q[0] == Plain(Text(n));
        assert Rank(n) < 3;
      }
    }
  }

  lemma ShrunkOnlyBelow(was: Tree, now: Tree, n: Slot)
    requires Shrunk(was, now, Next(n)) && IsDir(was, NextRoot)
    ensures OnlyBelow(was, now, NextRoot) && IsDir(now, NextRoot)
  {
    assert NextRoot <= Next(n);
    forall k | k in was && !(NextRoot <= k) ensures k in now { PrefixTrans(NextRoot, Next(n), k); }
  }

  /** What building needs of the disk: the live trees are directories or absent, the listed files
      are staged, and there is room for them and the marker. */
  predicate Buildable(fs: Tree, install: Install)
    requires ValidFiles(install.files)
  {
    && LiveDirs(fs) && ListApart(install.files) && RoomForAll(fs, [], install.files)
    && forall f :: f in install.files ==> IsStaged(fs, install.stage, f)
  }

  lemma CopiedReady(was: Tree, now: Tree, install: Install)
    requires ValidFiles(install.files) && StageApart(install) && Buildable(was, install) && Copying(was, now, 3)
    ensures CanInstall(now, now, install)
  {
    forall f | f in install.files ensures Room(now, NextRoot, f) && IsStaged(now, install.stage, f) {
      CopiedRoom(was, now, f);
      StageKept(was, now, install, f);
    }
    CopiedFree(was, now, MarkerPath);
    CopiedWay(was, now, Parent(MarkerPath));
  }

  /** Builds the unpublished trees. It changes nothing outside `next`, wherever it stops. */
  method BuildNext(d: Disk, install: Install, marker: Content) returns (r: Outcome)
    requires Copying(d.fs, d.fs, 0) && ValidFiles(install.files) && StageApart(install)
    modifies d
    ensures TreeShaped(d.fs) && OnlyBelow(old(d.fs), d.fs, NextRoot) && IsDir(d.fs, NextRoot) && d.sealed == old(d.sealed)
    ensures r == Done ==> NextShaped(d.fs)
    ensures r == Done ==> Built(LiveFiles(old(d.fs)), View(d.fs), install.files, Staged(old(d.fs), install), marker)
    ensures Tame(old(d.faults), d.faults, r)
    ensures Buildable(old(d.fs), install) ==> Steady(old(d.faults), d.faults, r)
  {
    ghost var was, staged := d.fs, Staged(d.fs, install);
    r := FillNext(d, install);
    if r != Done { return; }
    ghost var filled := d.fs;
    r := FinishNext(d, install, marker);
    OnlyBelowTwice(was, filled, d.fs, NextRoot, NextRoot);
    if r == Done { NextFilesBuilt(LiveFiles(was), install.files, staged, marker); }
  }

  method FillNext(d: Disk, install: Install) returns (r: Outcome)
    requires Copying(d.fs, d.fs, 0) && ValidFiles(install.files) && StageApart(install)
    modifies d
    ensures TreeShaped(d.fs) && OnlyBelow(old(d.fs), d.fs, NextRoot) && IsDir(d.fs, NextRoot) && d.sealed == old(d.sealed)
    ensures r == Done ==> NextShaped(d.fs) && Installable(install.files, Staged(old(d.fs), install))
    ensures r == Done ==> View(d.fs) == InstalledAll(LiveFiles(old(d.fs)), install.files, Staged(old(d.fs), install))
    ensures Tame(old(d.faults), d.faults, r)
    ensures Buildable(old(d.fs), install) ==> Steady(old(d.faults), d.faults, r) && (r == Done ==> RoomForAll(d.fs, NextRoot, install.files))
  {
    ghost var was := d.fs;
    r := CopyAll(d);
    if r != Done { return; }
    ghost var copied := d.fs;
    StagedSame(was, copied, install);
    if Buildable(was, install) { CopiedReady(was, copied, install); }
    r := InstallAll(d, install);
    OnlyBelowTwice(was, copied, d.fs, NextRoot, NextRoot);
  }

  method FinishNext(d: Disk, install: Install, marker: Content) returns (r: Outcome)
    requires NextShaped(d.fs) && IsDir(d.fs, NextRoot)
    modifies d
    ensures TreeShaped(d.fs) && OnlyBelow(old(d.fs), d.fs, NextRoot) && IsDir(d.fs, NextRoot) && d.sealed == old(d.sealed)
    ensures r == Done ==> NextShaped(d.fs) && View(d.fs) == Replaced(Pruned(View(old(d.fs)), install.files), MarkerPath, marker)
    ensures Tame(old(d.faults), d.faults, r)
    ensures !IsDir(old(d.fs), NextRoot + MarkerPath) && WayClear(old(d.fs), NextRoot + Parent(MarkerPath)) ==> Steady(old(d.faults), d.faults, r)
  {
    ghost var was := d.fs;
    r := PruneAll(d, install.files);
    if r != Done { return; }
    ghost var pruned := d.fs;
    if !IsDir(was, NextRoot + MarkerPath) && WayClear(was, NextRoot + Parent(MarkerPath)) { RoomPlaceable(pruned, MarkerPath); }
    r := CommitBelowNext(d, MarkerPath, marker);
    OnlyBelowTwice(was, pruned, d.fs, NextRoot, NextRoot);
    if r == Done { SlotOf(Node, MarkerPath); }
  }

  lemma StagedSame(was: Tree, now: Tree, install: Install)
    requires OnlyBelow(was, now, NextRoot) && StageApart(install)
    ensures Staged(now, install) == Staged(was, install)
  {
    assert install.stage[0] != NextRoot[0];
    OnlyBelowSub(was, now, NextRoot, install.stage);
  }

  lemma LiveFilesOfTrees(a: Tree, b: Tree, t: Trees)
    requires LiveIs(a, t) && LiveIs(b, t)
    ensures LiveFiles(a) == LiveFiles(b)
  {
    forall q | InSlot(q) ensures (q in a <==> q in b) && (q in a ==> a[q] == b[q]) {
      var n: Slot :| q[0] == Plain(Text(n));
      SlotOf(n, q);
      assert q[1..] in Sub(a, Live(n)) <==> Live(n) + q[1..] in a;
      assert q[1..] in Sub(b, Live(n)) <==> Live(n) + q[1..] in b;
    }
  }

  /** The trees below `next`, to become the live ones. */
  function NextTrees(fs: Tree): Trees {
    Trees(Sub(fs, Next(Node)), Sub(fs, Next(Bun)), Sub(fs, Next(Utils)))
  }

  lemma SubAt(a: Tree, p: Path, b: Tree, r: Path, x: Path)
    requires Sub(a, p) == Sub(b, r)
    ensures (p + x in a <==> r + x in b) && (p + x in a ==> a[p + x] == b[r + x])
  {
    assert x in Sub(a, p) <==> p + x in a;
    assert x in Sub(b, r) <==> r + x in b;
  }

  lemma SwitchedAt(built: Tree, now: Tree, n: Slot, q: Path)
    requires LiveIs(now, NextTrees(built)) && q != [] && q[0] == Plain(Text(n))
    ensures (q in now <==> NextRoot + q in built) && (q in now ==> now[q] == built[NextRoot + q])
  {
    SlotOf(n, q);
    SubAt(now, Live(n), built, Next(n), q[1..]);
  }

  lemma SwitchedView(built: Tree, now: Tree)
    requires NextShaped(built) && LiveIs(now, NextTrees(built))
    ensures LiveFiles(now) == View(built)
  {
    forall q
      ensures q in LiveFiles(now) <==> q in View(built)
      ensures q in View(built) ==> LiveFiles(now)[q] == View(built)[q]
    {
      ViewAt(built, q);
      if InSlot(q) {
        var n: Slot :| q[0] == Plain(Text(n));
        SwitchedAt(built, now, n, q);
      }
    }
  }
}
