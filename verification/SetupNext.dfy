/** Building the unpublished trees below `next`: copy the live trees, put the downloaded
    sources over them, drop their bytecode, prune stale sources, write the readiness marker. */
module SetupNext {
  import opened SetupDisk
  import opened SetupTrees
  import opened SetupPublish

  /** A complete download. Paths start with the name of their tree. */
  datatype Install = Install(stage: Path, files: seq<Path>)

  predicate EndsWith(s: string, suffix: string) {
    |suffix| <= |s| && s[|s| - |suffix|..] == suffix
  }

  predicate Plainly(q: Path) {
    forall i :: 0 <= i < |q| ==> q[i].Plain?
  }

  predicate Managed(q: Path) {
    q != [] && Last(q).Plain? && EndsWith(Last(q).text, ".ts")
  }

  function WithSuffix(q: Path, suffix: string): Path
    requires q != [] && Last(q).Plain?
  {
    Parent(q) + [Plain(Last(q).text + suffix)]
  }

  function Stripped(q: Path, n: nat): Path
    requires q != [] && Last(q).Plain? && n <= |Last(q).text|
  {
    Parent(q) + [Plain(Last(q).text[..|Last(q).text| - n])]
  }

  /** The source a bytecode file belongs to, or the empty path. */
  function BytecodeSource(q: Path): Path {
    if q == [] || !Last(q).Plain? then []
    else if EndsWith(Last(q).text, ".jsc.mt") then Stripped(q, 7)
    else if EndsWith(Last(q).text, ".jsc") then Stripped(q, 4)
    else []
  }

  lemma BytecodeOf(q: Path)
    requires BytecodeSource(q) != []
    ensures var s := BytecodeSource(q);
      Last(s).Plain? && (q == WithSuffix(s, ".jsc") || q == WithSuffix(s, ".jsc.mt"))
  {
    var text := Last(q).text;
    var n := if EndsWith(text, ".jsc.mt") then 7 else 4;
    assert text == text[..|text| - n] + text[|text| - n..];
    assert q == Parent(q) + [Last(q)];
  }

  predicate Stale(q: Path, files: seq<Path>) {
    (Managed(q) && q !in files) || (Managed(BytecodeSource(q)) && BytecodeSource(q) !in files)
  }

  /** What the download has checked: ordinary names ending in `.ts` inside one of the trees,
      and no file on the way to another. */
  predicate ValidFiles(files: seq<Path>) {
    && (forall f :: f in files ==> |f| >= 2 && Plainly(f) && Managed(f) && exists n: Slot :: f[0] == Plain(Text(n)))
    && (forall f, g :: f in files && g in files && f <= g ==> f == g)
  }

  /** The ordinary files of a tree; scratch files and directories left out. */
  type Files = map<Path, Content>

  function FilesOf(t: Tree): Files {
    map q | q in t && Plainly(q) && t[q].File? :: t[q].content
  }

  const MarkerPath: Path := [Plain(Text(Node)), Plain(".cno-setup-ready")]

  /** The file `f` put in place of whatever was at its path. */
  function Replaced(was: Files, f: Path, c: Content): Files {
    (map q | q in was && !(f <= q) :: was[q])[f := c]
  }

  /** One downloaded source put in place, its bytecode gone. */
  function Installed(was: Files, f: Path, c: Content): Files
    requires f != [] && Last(f).Plain?
  {
    (map q | q in was && !(f <= q) && q != WithSuffix(f, ".jsc") && q != WithSuffix(f, ".jsc.mt") :: was[q])[f := c]
  }

  predicate Installable(files: seq<Path>, staged: Files) {
    forall f :: f in files ==> f != [] && Last(f).Plain? && f in staged
  }

  lemma InstallablePrefix(files: seq<Path>, k: nat, staged: Files)
    requires Installable(files, staged) && k <= |files|
    ensures Installable(files[..k], staged)
  {
    forall f | f in files[..k] ensures f in files {
    }
  }

  function InstalledAll(was: Files, files: seq<Path>, staged: Files): Files
    requires Installable(files, staged)
  {
    if files == [] then was
    else
      var f := files[|files| - 1];
      InstallablePrefix(files, |files| - 1, staged);
      Installed(InstalledAll(was, files[..|files| - 1], staged), f, staged[f])
  }

  function Pruned(was: Files, files: seq<Path>): Files {
    map q | q in was && !Stale(q, files) :: was[q]
  }

  function NextFiles(was: Files, files: seq<Path>, staged: Files, marker: Content): Files
    requires Installable(files, staged)
  {
    var pruned := Pruned(InstalledAll(was, files, staged), files);
    Replaced(pruned, MarkerPath, marker)
  }

  /** Neither bytecode of a managed source nor at or below a downloaded path. */
  predicate Unrelated(q: Path, files: seq<Path>) {
    !Managed(BytecodeSource(q)) && forall f :: f in files ==> !(f <= q)
  }

  /** What a finished `next` holds, for every path: the managed sources are exactly the
      downloaded ones with the downloaded bytes, no managed source has bytecode left, and
      every other file is one of the old ones, unchanged, apart from the marker. */
  predicate BuiltAt(was: Files, now: Files, files: seq<Path>, staged: Files, q: Path) {
    && (q in files && !(MarkerPath <= q) ==> q in now && q in staged && now[q] == staged[q])
    && (q in now ==> (Managed(q) ==> q in files) && !Managed(BytecodeSource(q)))
    && (q in now && !Managed(q) && q != MarkerPath ==> q in was && now[q] == was[q])
    && (q in was && Unrelated(q, files) && !Managed(q) && !(MarkerPath <= q) ==> q in now)
  }

  ghost predicate Built(was: Files, now: Files, files: seq<Path>, staged: Files, marker: Content) {
    && MarkerPath in now && now[MarkerPath] == marker
    && forall q :: BuiltAt(was, now, files, staged, q)
  }

  lemma LastChar(s: string, suffix: string)
    requires EndsWith(s, suffix) && suffix != []
    ensures s[|s| - 1] == suffix[|suffix| - 1]
  {
    assert s[|s| - |suffix|..][|suffix| - 1] == s[|s| - 1];
  }

  lemma Appended(s: string, suffix: string)
    requires suffix != []
    ensures EndsWith(s + suffix, suffix)
    ensures (s + suffix)[|s + suffix| - 1] == suffix[|suffix| - 1]
    ensures (s + suffix)[..|s|] == s
  {
  }

  lemma MarkerUnmanaged()
    ensures !Managed(MarkerPath) && BytecodeSource(MarkerPath) == []
  {
    var t := Last(MarkerPath).text;
    assert t[|t| - 1] == 'y';
    if EndsWith(t, ".ts") { LastChar(t, ".ts"); }
    if EndsWith(t, ".jsc") { LastChar(t, ".jsc"); }
    if EndsWith(t, ".jsc.mt") { LastChar(t, ".jsc.mt"); }
  }

  lemma ManagedNoBytecode(q: Path)
    requires Managed(q)
    ensures BytecodeSource(q) == []
  {
    var t := Last(q).text;
    LastChar(t, ".ts");
    if EndsWith(t, ".jsc") { LastChar(t, ".jsc"); }
    if EndsWith(t, ".jsc.mt") { LastChar(t, ".jsc.mt"); }
  }

  lemma BytecodeNames(q: Path)
    requires Managed(q)
    ensures !Managed(WithSuffix(q, ".jsc")) && !Managed(WithSuffix(q, ".jsc.mt"))
    ensures BytecodeSource(WithSuffix(q, ".jsc")) == q && BytecodeSource(WithSuffix(q, ".jsc.mt")) == q
  {
    var t := Last(q).text;
    assert q == Parent(q) + [Plain(t)];
    assert Parent(WithSuffix(q, ".jsc")) == Parent(q) && Parent(WithSuffix(q, ".jsc.mt")) == Parent(q);
    TextEnds(t);
  }

  lemma TextEnds(t: string)
    ensures EndsWith(t + ".jsc", ".jsc") && !EndsWith(t + ".jsc", ".ts") && !EndsWith(t + ".jsc", ".jsc.mt")
    ensures EndsWith(t + ".jsc.mt", ".jsc.mt") && !EndsWith(t + ".jsc.mt", ".ts")
    ensures (t + ".jsc")[..|t|] == t && (t + ".jsc.mt")[..|t|] == t
  {
    Appended(t, ".jsc");
    Appended(t, ".jsc.mt");
    if EndsWith(t + ".jsc", ".ts") { LastChar(t + ".jsc", ".ts"); }
    if EndsWith(t + ".jsc", ".jsc.mt") { LastChar(t + ".jsc", ".jsc.mt"); }
    if EndsWith(t + ".jsc.mt", ".ts") { LastChar(t + ".jsc.mt", ".ts"); }
  }

  /** What installing the files in `installed`, of all `files`, has made of path `q`. */
  predicate InstalledOkAt(was: Files, now: Files, installed: seq<Path>, files: seq<Path>, staged: Files, q: Path) {
    && (q in installed ==> q in now && q in staged && now[q] == staged[q])
    && (q in now ==> BytecodeSource(q) !in installed)
    && (q in now && q !in installed ==> q in was && now[q] == was[q])
    && (q in was && Unrelated(q, files) ==> q in now)
  }

  ghost predicate InstalledOk(was: Files, now: Files, installed: seq<Path>, files: seq<Path>, staged: Files) {
    forall q :: InstalledOkAt(was, now, installed, files, staged, q)
  }

  lemma InstallDropsBytecode(mid: Files, f: Path, c: Content, q: Path)
    requires Managed(f) && q in Installed(mid, f, c)
    ensures BytecodeSource(q) != f
  {
    if q == f {
      ManagedNoBytecode(f);
    } else if BytecodeSource(q) != [] {
      BytecodeOf(q);
    }
  }

  lemma NotBytecodeOf(q: Path, f: Path)
    requires Managed(f)
    ensures BytecodeSource(q) != f ==> q != WithSuffix(f, ".jsc") && q != WithSuffix(f, ".jsc.mt")
  {
    BytecodeNames(f);
  }

  lemma NotSource(q: Path, f: Path)
    requires Managed(f) && (Managed(q) || !Managed(BytecodeSource(q)))
    ensures BytecodeSource(q) != f
  {
    if Managed(q) { ManagedNoBytecode(q); }
  }

  lemma InstallKeeps(mid: Files, f: Path, c: Content, q: Path)
    requires Managed(f) && q in mid && !(f <= q)
    requires Managed(q) || !Managed(BytecodeSource(q))
    ensures q in Installed(mid, f, c) && Installed(mid, f, c)[q] == mid[q]
  {
    NotSource(q, f);
    NotBytecodeOf(q, f);
    InstalledAt(mid, f, c, q);
  }

  lemma InstalledAt(mid: Files, f: Path, c: Content, q: Path)
    requires f != [] && Last(f).Plain? && q in mid && !(f <= q)
    requires q != WithSuffix(f, ".jsc") && q != WithSuffix(f, ".jsc.mt")
    ensures q in Installed(mid, f, c) && Installed(mid, f, c)[q] == mid[q]
  {
    assert f <= f;
  }

  lemma InstallOneAt(was: Files, mid: Files, installed: seq<Path>, files: seq<Path>, staged: Files, f: Path, q: Path)
    requires ValidFiles(files) && f in files && f in staged && (forall g :: g in installed ==> g in files)
    requires InstalledOkAt(was, mid, installed, files, staged, q) && Last(f).Plain?
    ensures InstalledOkAt(was, Installed(mid, f, staged[f]), installed + [f], files, staged, q)
  {
    var now := Installed(mid, f, staged[f]);
    if q in now { InstallDropsBytecode(mid, f, staged[f], q); }
    if q == f {
      ManagedNoBytecode(f);
    } else if q in mid && !(f <= q) && (Managed(q) || !Managed(BytecodeSource(q))) {
      InstallKeeps(mid, f, staged[f], q);
    }
    assert q in now && q != f ==> q in mid && now[q] == mid[q];
    assert q in files && f <= q ==> q == f;
  }

  lemma InstallOne(was: Files, mid: Files, installed: seq<Path>, files: seq<Path>, staged: Files, f: Path)
    requires ValidFiles(files) && f in files && f in staged && (forall g :: g in installed ==> g in files)
    requires InstalledOk(was, mid, installed, files, staged) && Last(f).Plain?
    ensures InstalledOk(was, Installed(mid, f, staged[f]), installed + [f], files, staged)
  {
    forall q ensures InstalledOkAt(was, Installed(mid, f, staged[f]), installed + [f], files, staged, q) {
      assert InstalledOkAt(was, mid, installed, files, staged, q);
      InstallOneAt(was, mid, installed, files, staged, f, q);
    }
  }

  lemma {:induction false} InstalledAllHolds(was: Files, files: seq<Path>, k: nat, staged: Files)
    requires ValidFiles(files) && k <= |files| && Installable(files, staged)
    ensures Installable(files[..k], staged) && InstalledOk(was, InstalledAll(was, files[..k], staged), files[..k], files, staged)
    decreases k
  {
    if k > 0 {
      InstalledAllHolds(was, files, k - 1, staged);
      assert files[..k][..k - 1] == files[..k - 1] && files[..k] == files[..k - 1] + [files[k - 1]];
      InstallOne(was, InstalledAll(was, files[..k - 1], staged), files[..k - 1], files, staged, files[k - 1]);
    }
  }

  /** The managed files of the pruned tree are the installed ones, and all of them. */
  lemma PrunedOk(was: Files, all: Files, files: seq<Path>, staged: Files, q: Path)
    requires ValidFiles(files) && InstalledOkAt(was, all, files, files, staged, q)
    ensures q in files ==> q in Pruned(all, files)
    ensures q in Pruned(all, files) ==> (Managed(q) ==> q in files) && !Managed(BytecodeSource(q))
    ensures q in was && Unrelated(q, files) && !Managed(q) ==> q in Pruned(all, files)
  {
    if q in files { ManagedNoBytecode(q); }
  }

  lemma NextFilesBuilt(was: Files, files: seq<Path>, staged: Files, marker: Content)
    requires ValidFiles(files) && Installable(files, staged)
    ensures Built(was, NextFiles(was, files, staged, marker), files, staged, marker)
  {
    InstalledAllHolds(was, files, |files|, staged);
    assert files[..|files|] == files;
    MarkerUnmanaged();
    var all := InstalledAll(was, files, staged);
    var now := NextFiles(was, files, staged, marker);
    forall q ensures BuiltAt(was, now, files, staged, q) {
      assert InstalledOkAt(was, all, files, files, staged, q);
      PrunedOk(was, all, files, staged, q);
      assert q != MarkerPath ==> (q in now <==> q in Pruned(all, files) && !(MarkerPath <= q));
      assert q in now && q != MarkerPath ==> now[q] == all[q];
      assert MarkerPath <= MarkerPath;
    }
  }
}
