/** The file system as the setup command sees it: a map from paths to entries.

    A directory tree below a path is again such a map, with relative paths. `rename` is
    one atomic step; everything else that touches several entries takes several steps,
    and before each step the process may be stopped or the call may throw. */
module SetupDisk {

  /** One path component. The scratch names a file commit makes up (`x.tmp-pid-time-n`,
      `x.old-n`) are constructors of their own, so they never equal an ordinary name. */
  datatype Name = Plain(text: string) | Temp(base: Name, serial: nat) | Parked(base: Name, serial: nat)

  type Path = seq<Name>

  /** The three polyfill trees. */
  datatype Slot = Node | Bun | Utils

  datatype Phase = Prepared | Publishing

  /** File contents. `Torn` is what an interrupted write leaves behind. */
  datatype Content = Bytes(data: seq<bv8>) | Torn | State(phase: Phase, original: seq<Slot>)

  datatype Entry = Dir | File(content: Content)

  /** Entries keyed by path; the path [] is the root of the tree. Empty: nothing there. */
  type Tree = map<Path, Entry>

  predicate Disjoint(p: Path, q: Path) {
    !(p <= q) && !(q <= p)
  }

  function Parent(p: Path): Path
    requires p != []
  {
    p[..|p| - 1]
  }

  lemma Rejoin(p: Path, k: Path)
    ensures p <= k ==> p + k[|p|..] == k
    ensures (p + k)[|p|..] == k
    ensures p <= p + k
  {
  }

  function Inside(fs: Tree, p: Path): (s: set<Path>)
    ensures forall q :: q in s <==> p + q in fs
  {
    forall q ensures (exists k :: k in fs && p <= k && k[|p|..] == q) <==> p + q in fs {
      Rejoin(p, q);
      forall k | k in fs && p <= k && k[|p|..] == q ensures p + q in fs { Rejoin(p, k); }
    }
    set k | k in fs && p <= k :: k[|p|..]
  }

  /** What is found at and below `p`, with paths relative to `p`. */
  function Sub(fs: Tree, p: Path): Tree {
    map q | q in Inside(fs, p) :: fs[p + q]
  }

  function Shifted(p: Path, t: Tree): (s: set<Path>)
    ensures forall k :: k in s <==> p <= k && k[|p|..] in t
  {
    forall k ensures (exists q :: q in t && p + q == k) <==> (p <= k && k[|p|..] in t) {
      Rejoin(p, k);
      forall q | q in t && p + q == k ensures p <= k && k[|p|..] in t { Rejoin(p, q); }
    }
    set q | q in t :: p + q
  }

  /** Effect of a successful rename of `a` to `b`: the tree at `a` becomes the tree at `b`. */
  function Move(fs: Tree, a: Path, b: Path): (m: Tree)
    ensures forall k :: k in m <==> if b <= k then a + k[|b|..] in fs else k in fs && !(a <= k)
    ensures forall k :: k in m ==> m[k] == if b <= k then fs[a + k[|b|..]] else fs[k]
  {
    var moved := Sub(fs, a);
    (map k | k in fs && !(a <= k) && !(b <= k) :: fs[k]) + (map k | k in Shifted(b, moved) :: moved[k[|b|..]])
  }

  predicate TreeShaped(fs: Tree) {
    && [] in fs
    && fs[[]] == Dir
    && forall k {:trigger Parent(k)} :: k in fs && k != [] ==> Parent(k) in fs && fs[Parent(k)] == Dir
  }

  lemma {:induction false} PrefixPresent(fs: Tree, k: Path, n: nat)
    requires TreeShaped(fs) && k in fs && n <= |k|
    ensures k[..n] in fs
    ensures n < |k| ==> fs[k[..n]] == Dir
    decreases |k|
  {
    if n < |k| {
      PrefixPresent(fs, Parent(k), n);
      assert Parent(k)[..n] == k[..n];
    } else {
      assert k[..n] == k;
    }
  }

  /** Nothing lies below something that is absent or a plain file. */
  lemma OnlyDirsHaveInside(fs: Tree, p: Path, k: Path)
    requires TreeShaped(fs) && k in fs && p <= k && k != p
    ensures p in fs && fs[p] == Dir
  {
    PrefixPresent(fs, k, |p|);
    assert k[..|p|] == p;
  }

  lemma DisjointBelow(p: Path, a: Path, q: Path)
    requires Disjoint(p, a)
    ensures !(a <= p + q)
  {
    if |a| <= |p| {
      assert forall i :: 0 <= i < |a| ==> (p + q)[i] == p[i];
    } else {
      assert forall i :: 0 <= i < |p| ==> (p + q)[i] == p[i];
    }
  }

  /** After a rename the target holds exactly the moved tree, the source is gone, and
      every path apart from both is untouched. */
  lemma MoveSub(fs: Tree, a: Path, b: Path)
    ensures Sub(Move(fs, a, b), b) == Sub(fs, a)
  {
    forall q ensures b + q in Move(fs, a, b) <==> a + q in fs
      ensures a + q in fs ==> Move(fs, a, b)[b + q] == fs[a + q]
    {
      Rejoin(b, q);
    }
  }

  lemma MoveGone(fs: Tree, a: Path, b: Path)
    requires Disjoint(a, b)
    ensures Sub(Move(fs, a, b), a) == map[]
  {
    forall q ensures a + q !in Move(fs, a, b) {
      Rejoin(a, q);
      DisjointBelow(a, b, q);
    }
  }

  lemma MoveElsewhere(fs: Tree, a: Path, b: Path, p: Path)
    requires Disjoint(p, a) && Disjoint(p, b)
    ensures Sub(Move(fs, a, b), p) == Sub(fs, p)
  {
    var m := Move(fs, a, b);
    forall q ensures p + q in m <==> p + q in fs
      ensures p + q in fs ==> m[p + q] == fs[p + q]
    {
      DisjointBelow(p, a, q);
      DisjointBelow(p, b, q);
    }
  }

  lemma ParentBelow(p: Path, k: Path)
    requires k != [] && k != p
    ensures p <= k <==> p <= Parent(k)
  {
  }

  lemma ParentInside(a: Path, b: Path, k: Path)
    requires b <= k && k != b
    ensures b <= Parent(k) && Parent(k)[|b|..] == Parent(k[|b|..])
    ensures Parent(a + k[|b|..]) == a + Parent(k[|b|..])
  {
  }

  lemma MovedParentInside(fs: Tree, a: Path, b: Path, k: Path)
    requires TreeShaped(fs) && k != b && b <= k && k in Move(fs, a, b)
    ensures IsDir(Move(fs, a, b), Parent(k))
  {
    ParentInside(a, b, k);
  }

  lemma MovedParentOutside(fs: Tree, a: Path, b: Path, k: Path)
    requires TreeShaped(fs) && k != [] && !(b <= k) && k in Move(fs, a, b)
    ensures IsDir(Move(fs, a, b), Parent(k))
  {
    ParentBelow(b, k);
    ParentBelow(a, k);
  }

  lemma MoveTreeShaped(fs: Tree, a: Path, b: Path)
    requires TreeShaped(fs) && Disjoint(a, b)
    requires IsDir(fs, Parent(b))
    ensures TreeShaped(Move(fs, a, b))
  {
    var m := Move(fs, a, b);
    forall k | k in m && k != [] ensures Parent(k) in m && m[Parent(k)] == Dir {
      if k == b {
        ParentBelow(a, b);
      } else if b <= k {
        MovedParentInside(fs, a, b, k);
      } else {
        MovedParentOutside(fs, a, b, k);
      }
    }
  }

  /** `now` is `was` with some entries at or below `p` removed. */
  predicate Shrunk(was: Tree, now: Tree, p: Path) {
    && (forall k :: k in now ==> k in was && now[k] == was[k])
    && (forall k :: k in was && !(p <= k) ==> k in now)
  }

  predicate Nothing(fs: Tree, p: Path) {
    forall k :: k in fs ==> !(p <= k)
  }

  lemma ShrunkSub(was: Tree, now: Tree, p: Path, d: Path)
    requires Shrunk(was, now, p) && Disjoint(p, d)
    ensures Sub(now, d) == Sub(was, d)
  {
    forall q ensures d + q in now <==> d + q in was {
      DisjointBelow(d, p, q);
    }
  }

  lemma NothingSub(fs: Tree, p: Path)
    ensures Nothing(fs, p) <==> Sub(fs, p) == map[]
  {
    forall k | k in fs && p <= k ensures k[|p|..] in Sub(fs, p) {
      Rejoin(p, k);
    }
    forall q | q in Sub(fs, p) ensures p + q in fs && p <= p + q {
    }
  }

  function Children(fs: Tree, p: Path): set<Name> {
    set k | k in fs && |k| == |p| + 1 && p <= k :: k[|p|]
  }

  lemma ChildPath(fs: Tree, p: Path, n: Name)
    ensures n in Children(fs, p) <==> p + [n] in fs
  {
    assert (p + [n])[|p|] == n;
    forall k | k in fs && |k| == |p| + 1 && p <= k && k[|p|] == n ensures k == p + [n] {
    }
  }

  lemma NoChildren(fs: Tree, p: Path, k: Path)
    requires TreeShaped(fs) && k in fs && p <= k && k != p
    ensures k[|p|] in Children(fs, p)
  {
    PrefixPresent(fs, k, |p| + 1);
    assert k[..|p| + 1][|p|] == k[|p|];
    assert p <= k[..|p| + 1];
  }

  /** What happens to one file-system call. A stopped or throwing write may leave a torn
      file; any other call that throws has had no effect. */
  datatype Fault = Proceed | Fail(torn: bool) | Crash(torn: bool)

  datatype Outcome = Done | Threw | Crashed

  predicate NoCrash(faults: seq<Fault>) {
    faults == [] || (!faults[0].Crash? && NoCrash(faults[1..]))
  }

  /** How many calls will throw. */
  function Throws(faults: seq<Fault>): nat {
    if faults == [] then 0 else (if faults[0].Fail? then 1 else 0) + Throws(faults[1..])
  }

  /** Every call goes through. */
  predicate Quiet(faults: seq<Fault>) { NoCrash(faults) && Throws(faults) == 0 }

  /** Without a crash to come there was none, and no new faults. */
  predicate Tame(was: seq<Fault>, now: seq<Fault>, r: Outcome) {
    NoCrash(was) ==> NoCrash(now) && r != Crashed && Throws(now) <= Throws(was)
  }

  /** Besides, it threw only because a call did: on a quiet schedule it is done. */
  predicate Steady(was: seq<Fault>, now: seq<Fault>, r: Outcome) {
    NoCrash(was) ==> NoCrash(now) && r != Crashed && Throws(now) + (if r == Threw then 1 else 0) <= Throws(was)
  }

  function OutcomeOf(f: Fault): Outcome {
    match f case Proceed => Done case Fail(_) => Threw case Crash(_) => Crashed
  }

  predicate IsDir(fs: Tree, p: Path) {
    p in fs && fs[p] == Dir
  }

  predicate CanWrite(fs: Tree, p: Path)
    requires p != []
  {
    IsDir(fs, Parent(p)) && !IsDir(fs, p)
  }

  /** A directory may only replace an empty one, a file only a file. */
  predicate CanRename(fs: Tree, a: Path, b: Path)
    requires b != []
  {
    a in fs && IsDir(fs, Parent(b)) &&
    (b in fs ==> if fs[b] == Dir then fs[a] == Dir && Children(fs, b) == {} else fs[a].File?)
  }

  /** The only path whose appearance decides a publication. */
  const Committed: Path := [Plain(".setup-publish"), Plain("committed")]

  class Disk {
    var fs: Tree
    var faults: seq<Fault>
    /** Whether the commit marker has ever become durable. */
    ghost var sealed: bool

    constructor (fs: Tree, faults: seq<Fault>)
      requires TreeShaped(fs)
      ensures this.fs == fs && this.faults == faults && !sealed
    {
      this.fs, this.faults := fs, faults;
      sealed := false;
    }

    /** The fate of the next call, from the fault schedule. */
    method Fate() returns (f: Fault)
      modifies `faults
      ensures Steady(old(faults), faults, OutcomeOf(f))
    {
      if faults == [] {
        f := Proceed;
      } else {
        f, faults := faults[0], faults[1..];
      }
    }

    /** A call that only looks (lstat, readdir, readFile). */
    method Look() returns (r: Outcome)
      modifies `faults
      ensures Steady(old(faults), faults, r)
    {
      var f := Fate();
      r := OutcomeOf(f);
    }

    method WriteFile(p: Path, c: Content) returns (r: Outcome)
      requires TreeShaped(fs) && p != []
      modifies `fs, `faults
      ensures TreeShaped(fs)
      ensures forall k :: k != p ==> (k in fs <==> k in old(fs)) && (k in fs ==> fs[k] == old(fs)[k])
      ensures p in fs ==> fs[p] == File(c) || fs[p] == File(Torn) || (p in old(fs) && fs[p] == old(fs)[p])
      ensures p in old(fs) ==> p in fs
      ensures !CanWrite(old(fs), p) ==> fs == old(fs)
      ensures r == Done ==> fs == old(fs)[p := File(c)]
      ensures CanWrite(old(fs), p) ==> Steady(old(faults), faults, r)
      ensures Tame(old(faults), faults, r)
    {
      var f := Fate();
      if !CanWrite(fs, p) {
        return if f.Crash? then Crashed else Threw;
      }
      NoFileParent(p);
      match f
      case Proceed =>
        fs := fs[p := File(c)];
        r := Done;
      case Fail(torn) =>
        if torn { fs := fs[p := File(Torn)]; }
        r := Threw;
      case Crash(torn) =>
        if torn { fs := fs[p := File(Torn)]; }
        r := Crashed;
    }

    /** A path without a directory on it is no entry's parent. */
    lemma NoFileParent(p: Path)
      requires TreeShaped(fs) && !(p in fs && fs[p] == Dir)
      ensures forall k :: k in fs && k != [] ==> Parent(k) != p
    {
    }

    method Rename(a: Path, b: Path) returns (r: Outcome)
      requires TreeShaped(fs) && Disjoint(a, b)
      modifies this
      ensures TreeShaped(fs)
      ensures r != Done ==> fs == old(fs) && sealed == old(sealed)
      ensures r == Done ==> a in old(fs) && fs == Move(old(fs), a, b) && sealed == (old(sealed) || b == Committed)
      ensures Tame(old(faults), faults, r)
      ensures CanRename(old(fs), a, b) ==> Steady(old(faults), faults, r)
    {
      var f := Fate();
      if f.Crash? { return Crashed; }
      if f.Fail? || !CanRename(fs, a, b) { return Threw; }
      MoveTreeShaped(fs, a, b);
      fs := Move(fs, a, b);
      sealed := sealed || b == Committed;
      r := Done;
    }
  }
}
