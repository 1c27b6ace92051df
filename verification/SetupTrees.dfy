/** The multi-step file operations the setup command is built from. Wherever one of them
    is stopped, its contract describes every state it may leave behind. */
module SetupTrees {
  import opened SetupDisk

  method Unlink(d: Disk, p: Path) returns (r: Outcome)
    requires TreeShaped(d.fs) && p != []
    modifies d`fs, d`faults
    ensures TreeShaped(d.fs) && Shrunk(old(d.fs), d.fs, p)
    ensures if r == Done then p in old(d.fs) && old(d.fs)[p].File? && Nothing(d.fs, p) else d.fs == old(d.fs)
    ensures Tame(old(d.faults), d.faults, r)
    ensures p in old(d.fs) && old(d.fs)[p].File? ==> Steady(old(d.faults), d.faults, r)
  {
    r := d.Look();
    if r != Done { return; }
    if p !in d.fs || d.fs[p] == Dir { return Threw; }
    forall k | k in d.fs && p <= k ensures k == p {
      if k != p { OnlyDirsHaveInside(d.fs, p, k); }
    }
    d.NoFileParent(p);
    d.fs := d.fs - {p};
  }

  /** An absent file is not an error; any other failure is. */
  method UnlinkIfPresent(d: Disk, p: Path) returns (r: Outcome)
    requires TreeShaped(d.fs) && p != []
    modifies d`fs, d`faults
    ensures TreeShaped(d.fs) && Shrunk(old(d.fs), d.fs, p)
    ensures if r == Done then p !in d.fs && !IsDir(old(d.fs), p) else d.fs == old(d.fs)
    ensures Tame(old(d.faults), d.faults, r)
    ensures !IsDir(old(d.fs), p) ==> Steady(old(d.faults), d.faults, r)
  {
    if p !in d.fs {
      r := d.Look();
    } else {
      r := Unlink(d, p);
    }
  }

  method Rmdir(d: Disk, p: Path) returns (r: Outcome)
    requires TreeShaped(d.fs) && p != []
    modifies d`fs, d`faults
    ensures TreeShaped(d.fs) && Shrunk(old(d.fs), d.fs, p)
    ensures if r == Done then Nothing(d.fs, p) else d.fs == old(d.fs)
    ensures Tame(old(d.faults), d.faults, r)
    ensures IsDir(old(d.fs), p) && Children(old(d.fs), p) == {} ==> Steady(old(d.faults), d.faults, r)
  {
    r := d.Look();
    if r != Done { return; }
    if !IsDir(d.fs, p) || Children(d.fs, p) != {} { return Threw; }
    forall k | k in d.fs && p <= k ensures k == p {
      if k != p { NoChildren(d.fs, p, k); }
    }
    forall k | k in d.fs && k != [] ensures Parent(k) != p {
      if k != p { ParentBelow(p, k); }
    }
    d.fs := d.fs - {p};
  }

  lemma FewerBelow(fs: Tree, p: Path, n: Name)
    requires p in fs
    ensures |Inside(fs, p + [n])| < |Inside(fs, p)|
  {
    var below := Inside(fs, p + [n]);
    var lifted := set q | q in below :: [n] + q;
    forall q | q in lifted ensures q in Inside(fs, p) && q != [] {
      var s :| s in below && q == [n] + s;
      assert p + q == p + [n] + s;
    }
    assert p + [] == p;
    assert lifted + {[]} <= Inside(fs, p);
    LiftSize(below, n);
    SubsetSize(lifted + {[]}, Inside(fs, p));
  }

  lemma {:induction false} LiftSize(s: set<Path>, n: Name)
    ensures |set q | q in s :: [n] + q| == |s|
  {
    if s != {} {
      var q :| q in s;
      LiftSize(s - {q}, n);
      assert (set x | x in s :: [n] + x) == (set x | x in s - {q} :: [n] + x) + {[n] + q};
      forall x | x in s - {q} ensures [n] + x != [n] + q {
        assert ([n] + x)[1..] == x && ([n] + q)[1..] == q;
      }
    }
  }

  lemma {:induction false} SubsetSize<T>(a: set<T>, b: set<T>)
    requires a <= b
    ensures |a| <= |b|
  {
    if a != {} {
      var x :| x in a;
      SubsetSize(a - {x}, b - {x});
    }
  }

  lemma ChildSmaller(was: Tree, now: Tree, p: Path, n: Name)
    requires Shrunk(was, now, p) && p in was
    ensures |Inside(now, p + [n])| < |Inside(was, p)|
  {
    SubsetSize(Inside(now, p + [n]), Inside(was, p + [n]));
    FewerBelow(was, p, n);
  }

  lemma ShrunkTwice(a: Tree, b: Tree, c: Tree, p: Path, q: Path)
    requires Shrunk(a, b, p) && Shrunk(b, c, q) && p <= q
    ensures Shrunk(a, c, p)
  {
    forall k | k in a && !(p <= k) ensures k in c {
      assert !(q <= k);
    }
  }

  /** Recursive removal. Stopped anywhere, it has only removed things at or below `p`. */
  method RemoveTree(d: Disk, p: Path) returns (r: Outcome)
    requires TreeShaped(d.fs) && p != []
    modifies d`fs, d`faults
    ensures TreeShaped(d.fs) && Shrunk(old(d.fs), d.fs, p)
    ensures r == Done ==> Nothing(d.fs, p)
    ensures Steady(old(d.faults), d.faults, r)
    decreases |Inside(d.fs, p)|, 1
  {
    r := d.Look();
    if r != Done { return; }
    if p !in d.fs {
      forall k | k in d.fs ensures !(p <= k) {
        if p <= k { OnlyDirsHaveInside(d.fs, p, k); }
      }
      return;
    }
    if d.fs[p] == Dir {
      r := d.Look();
      if r != Done { return; }
      r := RemoveChildren(d, p);
      if r != Done { return; }
      r := Rmdir(d, p);
    } else {
      r := Unlink(d, p);
    }
  }

  method RemoveChildren(d: Disk, p: Path) returns (r: Outcome)
    requires TreeShaped(d.fs) && p != [] && IsDir(d.fs, p)
    modifies d`fs, d`faults
    ensures TreeShaped(d.fs) && Shrunk(old(d.fs), d.fs, p)
    ensures r == Done ==> IsDir(d.fs, p) && Children(d.fs, p) == {}
    ensures Steady(old(d.faults), d.faults, r)
    decreases |Inside(d.fs, p)|, 0
  {
    r := Done;
    var names := Children(d.fs, p);
    while names != {}
      invariant TreeShaped(d.fs) && Shrunk(old(d.fs), d.fs, p) && IsDir(d.fs, p)
      invariant r == Done && Children(d.fs, p) <= names
      invariant Steady(old(d.faults), d.faults, Done)
      decreases |names|
    {
      var n :| n in names;
      ghost var was := d.fs;
      ChildSmaller(old(d.fs), was, p, n);
      r := RemoveTree(d, p + [n]);
      ShrunkTwice(old(d.fs), was, d.fs, p, p + [n]);
      if r != Done { return; }
      names := names - {n};
    }
  }

  /** What stands at `p` or on the way to it is a directory. */
  predicate WayClear(fs: Tree, p: Path) {
    forall n :: 0 <= n <= |p| && p[..n] in fs ==> fs[p[..n]] == Dir
  }

  /** A file can be put at `p`. */
  predicate Placeable(fs: Tree, p: Path)
    requires p != []
  {
    WayClear(fs, Parent(p)) && !IsDir(fs, p)
  }

  lemma WayUp(fs: Tree, p: Path)
    requires TreeShaped(fs)
    ensures p != [] && WayClear(fs, p) ==> WayClear(fs, Parent(p))
    ensures IsDir(fs, p) ==> WayClear(fs, p)
    ensures WayClear(fs, p) && p in fs ==> fs[p] == Dir
  {
    assert p[..|p|] == p;
    if p != [] {
      forall n | 0 <= n <= |p| - 1 ensures Parent(p)[..n] == p[..n] {
      }
    }
    if IsDir(fs, p) {
      forall n | 0 <= n <= |p| ensures p[..n] in fs && fs[p[..n]] == Dir { PrefixPresent(fs, p, n); }
    }
  }

  /** Creates `p` and its missing ancestors, one step each. */
  method EnsureDirectory(d: Disk, p: Path) returns (r: Outcome)
    requires TreeShaped(d.fs)
    modifies d`fs, d`faults
    ensures TreeShaped(d.fs) && OnlyNewDirs(old(d.fs), d.fs, p)
    ensures r == Done ==> IsDir(d.fs, p)
    ensures Tame(old(d.faults), d.faults, r)
    ensures IsDir(old(d.fs), p) ==> r == Done && d.fs == old(d.fs)
    ensures WayClear(old(d.fs), p) ==> Steady(old(d.faults), d.faults, r)
    decreases |p|
  {
    WayUp(d.fs, p);
    if p in d.fs {
      return if d.fs[p] == Dir then Done else Threw;
    }
    r := EnsureDirectory(d, Parent(p));
    if r != Done { return; }
    r := d.Look();
    if r != Done { return; }
    d.NoFileParent(p);
    d.fs := d.fs[p := Dir];
  }

  /** The only difference is that ancestors-or-self of `p` which were missing are directories now. */
  predicate OnlyNewDirs(was: Tree, now: Tree, p: Path) {
    && (forall k :: k in was ==> k in now && now[k] == was[k])
    && (forall k :: k in now && k !in was ==> k <= p && now[k] == Dir)
  }

  function Last(p: Path): Name
    requires p != []
  {
    p[|p| - 1]
  }

  predicate ScratchName(n: Name, base: Name) {
    (n.Temp? || n.Parked?) && n.base == base
  }

  /** At or below one of the scratch files a commit to `dst` uses. */
  predicate Scratch(dst: Path, k: Path)
    requires dst != []
  {
    |k| >= |dst| && k[..|dst| - 1] == Parent(dst) && ScratchName(k[|dst| - 1], Last(dst))
  }

  /** A commit to `dst` touches `dst`, its scratch files and missing ancestors, nothing else. */
  predicate CommitFrame(was: Tree, now: Tree, dst: Path)
    requires dst != []
  {
    && (forall k :: !(dst <= k) && !Scratch(dst, k) ==> k in was ==> k in now && now[k] == was[k])
    && (forall k :: !(dst <= k) && !Scratch(dst, k) ==> k in now && k !in was ==> k <= dst && now[k] == Dir)
  }

  lemma CommitFrames(a: Tree, b: Tree, c: Tree, dst: Path)
    requires dst != [] && CommitFrame(a, b, dst) && CommitFrame(b, c, dst)
    ensures CommitFrame(a, c, dst)
  {
  }

  /** What `dst` may hold after a commit of `c` that ended with `r`. */
  predicate Committing(was: Tree, now: Tree, dst: Path, c: Content, r: Outcome) {
    if r == Done then dst in now && now[dst] == File(c)
    else || dst !in now
         || (dst in was && now[dst] == was[dst])
         || (r == Crashed && now[dst] == File(c))
  }

  method HasContent(d: Disk, p: Path, c: Content) returns (crashed: bool, has: bool)
    modifies d`faults
    ensures has ==> p in d.fs && d.fs[p] == File(c)
    ensures Tame(old(d.faults), d.faults, if crashed then Crashed else Done)
  {
    var r := d.Look();
    crashed := r == Crashed;
    has := r == Done && p in d.fs && d.fs[p] == File(c);
  }

  /** Replaces the file `dst`: write a scratch file, rename it over, and when the rename
      is refused park the old file first and put it back if that does not help either. */
  method CommitFile(d: Disk, dst: Path, c: Content) returns (r: Outcome)
    requires TreeShaped(d.fs) && dst != []
    modifies d
    ensures TreeShaped(d.fs) && CommitFrame(old(d.fs), d.fs, dst) && Committing(old(d.fs), d.fs, dst, c, r)
    ensures dst != Committed ==> d.sealed == old(d.sealed)
    ensures dst !in old(d.fs) ==> d.sealed == (old(d.sealed) || (dst == Committed && dst in d.fs))
    ensures Tame(old(d.faults), d.faults, r)
    ensures Placeable(old(d.fs), dst) || CanWrite(old(d.fs), dst) ==> Steady(old(d.faults), d.faults, r)
  {
    WayUp(d.fs, Parent(dst));
    // isExistingDirectory: a stat that throws counts as "no"
    r := d.Look();
    if r == Crashed { return; }
    if r == Done && IsDir(d.fs, dst) { return Threw; }
    r := EnsureDirectory(d, Parent(dst));
    if r != Done { return; }
    ghost var made := d.fs;
    assert IsDir(old(d.fs), dst) <==> IsDir(made, dst) by { assert !(dst <= Parent(dst)); }
    var temp, backup := ScratchPaths(d, dst);
    r := WriteAndSwap(d, dst, temp, backup, c);
  }

  lemma {:induction false} FreshSerial(fs: Tree, dir: Path, base: Name, tried: nat)
    ensures exists n: nat :: dir + [Temp(base, n)] !in fs
    decreases |set k | k in fs && |k| > 0 && Last(k).Temp? && Last(k).serial >= tried|
  {
    var k := dir + [Temp(base, tried)];
    if k in fs {
      var now := set x | x in fs && |x| > 0 && Last(x).Temp? && Last(x).serial >= tried;
      var next := set x | x in fs && |x| > 0 && Last(x).Temp? && Last(x).serial >= tried + 1;
      assert k in now && k !in next;
      SubsetSize(next, now - {k});
      FreshSerial(fs, dir, base, tried + 1);
    }
  }

  /** The scratch names of one commit. The process id, the time and the counter in the
      temporary name make it unused; the parked name only carries a counter. */
  method ScratchPaths(d: Disk, dst: Path) returns (temp: Path, backup: Path)
    requires dst != []
    ensures |temp| == |backup| == |dst| && Parent(temp) == Parent(backup) == Parent(dst)
    ensures Scratch(dst, temp) && Scratch(dst, backup) && Last(temp).Temp? && Last(backup).Parked?
    ensures temp !in d.fs
  {
    FreshSerial(d.fs, Parent(dst), Last(dst), 0);
    var unused: nat :| Parent(dst) + [Temp(Last(dst), unused)] !in d.fs;
    var sequence: nat := *;
    temp := Parent(dst) + [Temp(Last(dst), unused)];
    backup := Parent(dst) + [Parked(Last(dst), sequence)];
  }

  lemma SameLengthDisjoint(a: Path, b: Path)
    requires |a| == |b| && a != b
    ensures Disjoint(a, b)
  {
  }

  /** A rename between `dst` and its scratch files stays inside the frame of the commit. */
  lemma ScratchMove(fs: Tree, a: Path, b: Path, dst: Path)
    requires dst != [] && |a| == |b| == |dst| && a != b
    requires (a == dst || Scratch(dst, a)) && (b == dst || Scratch(dst, b))
    ensures CommitFrame(fs, Move(fs, a, b), dst)
  {
    forall k | !(dst <= k) && !Scratch(dst, k) ensures !(a <= k) && !(b <= k) {
      if |k| >= |dst| {
        var head := k[..|dst|];
        assert Parent(head) == k[..|dst| - 1] && Last(head) == k[|dst| - 1];
        assert head != a && head != b;
      }
    }
  }

  /** ... and concerns just the two files it names. */
  lemma ScratchMoved(fs: Tree, a: Path, b: Path, c: Path)
    requires |a| == |b| == |c| && a != b && a != c && b != c
    ensures var m := Move(fs, a, b);
      && a !in m && (a in fs ==> b in m && m[b] == fs[a])
      && (c in m <==> c in fs) && (c in m ==> m[c] == fs[c])
  {
    assert a + b[|b|..] == a;
    SameLengthDisjoint(a, b);
    SameLengthDisjoint(a, c);
    SameLengthDisjoint(b, c);
  }

  lemma NotItsOwnBase(n: Name)
    requires n.Temp? || n.Parked?
    ensures n.base != n
  {
    assert n.base < n;
  }

  predicate SwapReady(fs: Tree, dst: Path, temp: Path, backup: Path, c: Content) {
    && TreeShaped(fs) && dst != [] && IsDir(fs, Parent(dst))
    && |temp| == |backup| == |dst|
    && Scratch(dst, temp) && Scratch(dst, backup) && temp != dst && backup != dst && temp != backup
    && temp in fs && fs[temp] == File(c)
  }

  /** `a` and `b` are two of the three paths a commit to `dst` juggles, `c` is the third. */
  method Juggle(d: Disk, a: Path, b: Path, c: Path, dst: Path) returns (r: Outcome)
    requires TreeShaped(d.fs) && dst != [] && |a| == |b| == |c| == |dst| && a != b && a != c && b != c
    requires (a == dst || Scratch(dst, a)) && (b == dst || Scratch(dst, b))
    modifies d
    ensures TreeShaped(d.fs) && CommitFrame(old(d.fs), d.fs, dst)
    ensures r != Done ==> d.fs == old(d.fs) && d.sealed == old(d.sealed)
    ensures r == Done ==> a in old(d.fs) && a !in d.fs && b in d.fs && d.fs[b] == old(d.fs)[a]
    ensures r == Done ==> d.sealed == (old(d.sealed) || b == Committed)
    ensures c in d.fs <==> c in old(d.fs)
    ensures c in d.fs ==> d.fs[c] == old(d.fs)[c]
    ensures Tame(old(d.faults), d.faults, r)
    ensures CanRename(old(d.fs), a, b) ==> Steady(old(d.faults), d.faults, r)
  {
    SameLengthDisjoint(a, b);
    ghost var was := d.fs;
    r := d.Rename(a, b);
    assert CanRename(was, a, b) ==> Steady(old(d.faults), d.faults, r);
    if r == Done {
      ScratchMove(was, a, b, dst);
      ScratchMoved(was, a, b, c);
    }
  }

  method WriteAndSwap(d: Disk, dst: Path, temp: Path, backup: Path, c: Content) returns (r: Outcome)
    requires TreeShaped(d.fs) && dst != [] && IsDir(d.fs, Parent(dst))
    requires |temp| == |backup| == |dst| && Parent(temp) == Parent(backup) == Parent(dst)
    requires Scratch(dst, temp) && Scratch(dst, backup) && Last(temp).Temp? && Last(backup).Parked?
    requires temp !in d.fs
    modifies d
    ensures TreeShaped(d.fs) && CommitFrame(old(d.fs), d.fs, dst) && Committing(old(d.fs), d.fs, dst, c, r)
    ensures dst != Committed ==> d.sealed == old(d.sealed)
    ensures dst !in old(d.fs) ==> d.sealed == (old(d.sealed) || (dst == Committed && dst in d.fs))
    ensures Tame(old(d.faults), d.faults, r)
    ensures CanWrite(old(d.fs), dst) ==> Steady(old(d.faults), d.faults, r)
  {
    assert temp != dst && backup != dst && temp != backup by {
      NotItsOwnBase(Last(temp));
      NotItsOwnBase(Last(backup));
    }
    var committed, parked := false, false;
    r := d.WriteFile(temp, c);
    if r == Done {
      r, committed, parked := Swap(d, dst, temp, backup, c);
    }
    if r == Crashed { return; }
    ghost var was := d.fs;
    var u := ClearUp(d, dst, temp, backup, committed, parked);
    CommitFrames(old(d.fs), was, d.fs, dst);
    if u == Crashed { r := Crashed; }
  }

  /** What a commit leaves behind: the new file, or the old one once the new one is in place. */
  method ClearUp(d: Disk, dst: Path, temp: Path, backup: Path, committed: bool, parked: bool) returns (u: Outcome)
    requires TreeShaped(d.fs) && dst != [] && |temp| == |backup| == |dst|
    requires Scratch(dst, temp) && Scratch(dst, backup) && temp != dst && backup != dst
    modifies d`fs, d`faults
    ensures TreeShaped(d.fs) && CommitFrame(old(d.fs), d.fs, dst)
    ensures (dst in d.fs <==> dst in old(d.fs)) && (dst in d.fs ==> d.fs[dst] == old(d.fs)[dst])
    ensures Tame(old(d.faults), d.faults, u)
  {
    u := Done;
    if !committed {
      u := DropScratch(d, temp, dst);
    } else if parked {
      u := DropScratch(d, backup, dst);
    }
  }

  /** Clearing a scratch file away, as far as that works. */
  method DropScratch(d: Disk, scratch: Path, dst: Path) returns (u: Outcome)
    requires TreeShaped(d.fs) && dst != [] && Scratch(dst, scratch) && |scratch| == |dst| && scratch != dst
    modifies d`fs, d`faults
    ensures TreeShaped(d.fs) && CommitFrame(old(d.fs), d.fs, dst)
    ensures (dst in d.fs <==> dst in old(d.fs)) && (dst in d.fs ==> d.fs[dst] == old(d.fs)[dst])
    ensures Tame(old(d.faults), d.faults, u)
  {
    SameLengthDisjoint(scratch, dst);
    ghost var was := d.fs;
    u := Unlink(d, scratch);
    forall k | !Scratch(dst, k) ensures !(scratch <= k) {
      ScratchBelow(dst, scratch, k);
    }
  }

  lemma ScratchBelow(dst: Path, scratch: Path, k: Path)
    requires dst != [] && Scratch(dst, scratch) && |scratch| == |dst|
    ensures scratch <= k ==> Scratch(dst, k)
  {
    if scratch <= k {
      assert k[..|dst| - 1] == scratch[..|dst| - 1] && k[|dst| - 1] == scratch[|dst| - 1];
    }
  }

  method Swap(d: Disk, dst: Path, temp: Path, backup: Path, c: Content)
    returns (r: Outcome, committed: bool, parked: bool)
    requires SwapReady(d.fs, dst, temp, backup, c)
    modifies d
    ensures TreeShaped(d.fs) && CommitFrame(old(d.fs), d.fs, dst) && Committing(old(d.fs), d.fs, dst, c, r)
    ensures committed ==> r == Done
    ensures dst != Committed ==> d.sealed == old(d.sealed)
    ensures dst !in old(d.fs) ==> d.sealed == (old(d.sealed) || (dst == Committed && dst in d.fs))
    ensures Tame(old(d.faults), d.faults, r)
    ensures CanWrite(old(d.fs), dst) ==> Steady(old(d.faults), d.faults, r)
  {
    committed, parked := false, false;
    r := Juggle(d, temp, dst, backup, dst);
    if r == Done { committed := true; return; }
    if r == Crashed { return; }
    var crashed, has := HasContent(d, dst, c);
    if crashed { return Crashed, false, false; }
    if has { return Done, false, false; }
    r, committed, parked := ParkAndSwap(d, dst, temp, backup, c);
  }

  /** The destination may not exist; the commit still proceeds then. */
  method ParkAndSwap(d: Disk, dst: Path, temp: Path, backup: Path, c: Content)
    returns (r: Outcome, committed: bool, parked: bool)
    requires SwapReady(d.fs, dst, temp, backup, c)
    modifies d
    ensures TreeShaped(d.fs) && CommitFrame(old(d.fs), d.fs, dst) && Committing(old(d.fs), d.fs, dst, c, r)
    ensures committed ==> r == Done
    ensures dst != Committed ==> d.sealed == old(d.sealed)
    ensures dst !in old(d.fs) ==> d.sealed == (old(d.sealed) || (dst == Committed && dst in d.fs))
    ensures Tame(old(d.faults), d.faults, r)
    ensures CanWrite(old(d.fs), dst) ==> Steady(old(d.faults), d.faults, r)
  {
    committed, parked := false, false;
    r := Juggle(d, dst, backup, temp, dst);
    if r == Crashed { return; }
    parked := r == Done;
    ghost var was := d.fs;
    r := Juggle(d, temp, dst, backup, dst);
    CommitFrames(old(d.fs), was, d.fs, dst);
    if r == Done { committed := true; return; }
    if r == Crashed || !parked { return; }
    ghost var again := d.fs;
    var back := Juggle(d, backup, dst, temp, dst);
    CommitFrames(old(d.fs), again, d.fs, dst);
    if back == Crashed { return Crashed, false, parked; }
    parked := back != Done;
  }
}
