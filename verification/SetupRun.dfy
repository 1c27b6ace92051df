/** Whole runs: one publication, stopped anywhere or not, then any number of recoveries. */
module SetupRun {
  import opened SetupDisk
  import opened SetupTrees
  import opened SetupPublish
  import opened SetupNext
  import opened SetupBuild
  import opened SetupSwitch

  /** Where a publication or its recovery can be stopped. */
  predicate Recoverable(fs: Tree, isSealed: bool, before: Trees, after: Trees) {
    if isSealed then RollsForward(fs, after) else RollsBack(fs, before)
  }

  lemma StageSub(was: Tree, now: Tree, install: Install, p: Path)
    requires Shrunk(was, now, install.stage) && StageApart(install)
    requires p != [] && p[0] != install.stage[0]
    ensures Sub(now, p) == Sub(was, p)
  {
    ShrunkSub(was, now, install.stage, p);
  }

  /** Dropping the download takes nothing that recovery or the live trees need. */
  lemma StageRemoved(was: Tree, now: Tree, install: Install, before: Trees, after: Trees, isSealed: bool)
    requires Shrunk(was, now, install.stage) && StageApart(install) && TreeShaped(now)
    requires Recoverable(was, isSealed, before, after)
    ensures Recoverable(now, isSealed, before, after)
    ensures LiveFiles(now) == LiveFiles(was)
    ensures Root !in was ==> Root !in now
  {
    forall n: Slot
      ensures Sub(now, Live(n)) == Sub(was, Live(n))
      ensures Sub(now, Next(n)) == Sub(was, Next(n)) && Sub(now, Backup(n)) == Sub(was, Backup(n))
    {
      assert Live(n)[0] == Plain(Text(n)) && Next(n)[0] == Backup(n)[0] == Root[0];
      StageSub(was, now, install, Live(n));
      StageSub(was, now, install, Next(n));
      StageSub(was, now, install, Backup(n));
    }
    assert Committed[0] == StateFile[0] == Root[0];
    StageSub(was, now, install, Committed);
    StageSub(was, now, install, StateFile);
    AtSub(was, now, Committed);
    AtSub(was, now, StateFile);
    OwnTrees(was);
    LiveFilesOfTrees(was, now, LiveTrees(was));
    if IsPublishing(was) && !isSealed { StillUndoable(was, now, before); }
  }

  lemma StillUndoable(was: Tree, now: Tree, before: Trees)
    requires RollsBack(was, before) && IsPublishing(was) && StateFile in now && now[StateFile] == was[StateFile]
    requires forall n: Slot :: Sub(now, Live(n)) == Sub(was, Live(n)) && Sub(now, Next(n)) == Sub(was, Next(n))
    requires forall n: Slot :: Sub(now, Backup(n)) == Sub(was, Backup(n))
    ensures forall n: Slot :: Undoable(now, before.At(n), n, was[StateFile].content.original)
  {
    forall n: Slot ensures Undoable(now, before.At(n), n, was[StateFile].content.original) {
      assert Undoable(was, before.At(n), n, was[StateFile].content.original);
    }
  }

  /** The first half of the `finally` block. */
  method CloseTransaction(d: Disk, ghost before: Trees, ghost after: Trees) returns (r: Outcome)
    requires if d.sealed then RollsForward(d.fs, after) && Committed in d.fs else Settled(d.fs, before)
    modifies d`fs, d`faults
    ensures Recoverable(d.fs, d.sealed, before, after)
    ensures r == Done ==> Root !in d.fs
    ensures Steady(old(d.faults), d.faults, r)
  {
    r := d.Look();
    if r != Done { return; }
    if Committed in d.fs {
      r := CleanupCommitted(d, after);
    } else {
      r := Discard(d, before);
    }
  }

  lemma OldTreesKept(was: Tree, now: Tree, install: Install, before: Trees)
    requires OnlyBelow(was, now, Root) && LiveIs(was, before) && LiveIs(now, before) && StageApart(install)
    ensures LiveFiles(now) == LiveFiles(was) && Staged(now, install) == Staged(was, install)
  {
    LiveFilesOfTrees(was, now, before);
    OnlyBelowSub(was, now, Root, install.stage);
  }

  /** Opening the transaction changes nothing that building needs. */
  lemma StillBuildable(was: Tree, now: Tree, install: Install)
    requires OnlyBelow(was, now, Root) && ValidFiles(install.files) && StageApart(install) && Buildable(was, install)
    ensures Buildable(now, install)
  {
    forall f | f in install.files ensures Room(now, [], f) && IsStaged(now, install.stage, f) {
      var n: Slot :| f[0] == Plain(Text(n));
      RoomKept(was, now, n, f);
      assert (install.stage + f)[0] == install.stage[0];
    }
    Layout(Node, Node);
    FreeKept(was, now, Node, MarkerPath);
    WayKept(was, now, Node, Parent(MarkerPath));
    LiveKept(was, now);
  }

  lemma LiveKept(was: Tree, now: Tree)
    requires OnlyBelow(was, now, Root) && LiveDirs(was)
    ensures LiveDirs(now)
  {
    forall n: Slot | Live(n) in now ensures now[Live(n)] == Dir {
      Layout(n, n);
    }
  }

  lemma RoomKept(was: Tree, now: Tree, n: Slot, f: Path)
    requires OnlyBelow(was, now, Root) && |f| >= 2 && f[0] == Plain(Text(n)) && Last(f).Plain? && Room(was, [], f)
    ensures Room(now, [], f)
  {
    FreeKept(was, now, n, f);
    FreeKept(was, now, n, WithSuffix(f, ".jsc"));
    FreeKept(was, now, n, WithSuffix(f, ".jsc.mt"));
    WayKept(was, now, n, Parent(f));
  }

  lemma FreeKept(was: Tree, now: Tree, n: Slot, p: Path)
    requires OnlyBelow(was, now, Root) && p != [] && p[0] == Plain(Text(n))
    ensures IsDir(now, [] + p) <==> IsDir(was, [] + p)
  {
    assert [] + p == p;
    Layout(n, n);
    assert !(Root <= p) by { assert Live(n)[0] == p[0] && |Root| == |Live(n)| == 1; }
  }

  lemma WayKept(was: Tree, now: Tree, n: Slot, p: Path)
    requires OnlyBelow(was, now, Root) && p != [] && p[0] == Plain(Text(n)) && WayClear(was, [] + p)
    ensures WayClear(now, [] + p)
  {
    var k := [] + p;
    Layout(n, n);
    forall i | 0 <= i <= |k| && k[..i] in now ensures now[k[..i]] == Dir {
      assert !(Root <= k[..i]) by {
        if i > 0 { assert k[..i][0] == Live(n)[0] && |Root| == |Live(n)| == 1; }
      }
    }
  }

  /** One publication of a complete download. A thrown error or a crash may come at any
      file operation; every state in which it may leave the disk is `Recoverable`, towards
      the new trees exactly when the commit marker has become durable. */
  method Publish(d: Disk, install: Install, marker: Content)
    returns (r: Outcome, ghost before: Trees, ghost after: Trees, ghost begun: bool)
    requires TreeShaped(d.fs) && Root !in d.fs && !d.sealed
    requires ValidFiles(install.files) && StageApart(install)
    modifies d
    ensures before == LiveTrees(old(d.fs))
    ensures Recoverable(d.fs, d.sealed, before, after)
    ensures !begun ==> r != Done && !d.sealed && OnlyBelow(old(d.fs), d.fs, Root)
    ensures d.sealed ==> Built(LiveFiles(old(d.fs)), LiveFiles(d.fs), install.files, Staged(old(d.fs), install), marker)
    ensures r == Done ==> d.sealed && Root !in d.fs && Nothing(d.fs, install.stage)
    ensures Quiet(old(d.faults)) ==> Quiet(d.faults) && r != Crashed && Root !in d.fs
    ensures Buildable(old(d.fs), install) ==> Steady(old(d.faults), d.faults, r)
    ensures Buildable(old(d.fs), install) && OneThrow(old(d.faults)) && begun && !d.sealed ==> Undone(d.fs, install, before, r)
  {
    before := LiveTrees(d.fs);
    after := before;
    ghost var was := d.fs;
    OwnTrees(was);
    r := Prepare(d, before);
    begun := r == Done;
    if r != Done { return; }
    OldTreesKept(was, d.fs, install, before);
    if Buildable(was, install) { StillBuildable(was, d.fs, install); }
    r, after := Transact(d, install, marker, before);
  }

  /** At most one call throws, and none crashes. */
  predicate OneThrow(faults: seq<Fault>) { NoCrash(faults) && Throws(faults) <= 1 }

  /** The error is reported over the old trees, and nothing else is left of the publication. */
  predicate Undone(fs: Tree, install: Install, before: Trees, r: Outcome) {
    r == Threw && LiveIs(fs, before) && Root !in fs && Nothing(fs, install.stage)
  }

  /** Within an open transaction. A publication whose one fault is a throw is either sealed or undone. */
  method Transact(d: Disk, install: Install, marker: Content, ghost before: Trees) returns (r: Outcome, ghost after: Trees)
    requires Fresh(d.fs, before) && HasState(d.fs) && CanWrite(d.fs, StateFile) && !d.sealed
    requires ValidFiles(install.files) && StageApart(install)
    modifies d
    ensures Recoverable(d.fs, d.sealed, before, after)
    ensures d.sealed ==> Built(LiveFiles(old(d.fs)), LiveFiles(d.fs), install.files, Staged(old(d.fs), install), marker)
    ensures r == Done ==> d.sealed && Root !in d.fs && Nothing(d.fs, install.stage)
    ensures Quiet(old(d.faults)) ==> Quiet(d.faults) && r != Crashed && Root !in d.fs
    ensures Buildable(old(d.fs), install) ==> Steady(old(d.faults), d.faults, r)
    ensures Buildable(old(d.fs), install) && OneThrow(old(d.faults)) && !d.sealed ==> Undone(d.fs, install, before, r)
  {
    var rollbackComplete;
    r, rollbackComplete, after := BuildAndSwitch(d, install, marker, before);
    if r == Crashed { return; }
    var closed := Finally(d, install, rollbackComplete, before, after);
    if closed != Done { r := closed; }
    PresentIff(d.fs, Root);
    if Root !in d.fs { RootGone(d.fs); }
  }

  method Finally(d: Disk, install: Install, rollbackComplete: bool, ghost before: Trees, ghost after: Trees) returns (r: Outcome)
    requires StageApart(install) && Recoverable(d.fs, d.sealed, before, after)
    requires rollbackComplete ==> if d.sealed then Committed in d.fs else Settled(d.fs, before)
    modifies d`fs, d`faults
    ensures Recoverable(d.fs, d.sealed, before, after)
    ensures d.sealed ==> LiveFiles(d.fs) == LiveFiles(old(d.fs))
    ensures r == Done ==> Nothing(d.fs, install.stage) && (rollbackComplete ==> Root !in d.fs)
    ensures Steady(old(d.faults), d.faults, r)
  {
    ghost var was := d.fs;
    if rollbackComplete {
      r := CloseTransaction(d, before, after);
      if d.sealed { LiveFilesOfTrees(was, d.fs, after); }
      if r != Done { return; }
    }
    ghost var closed := d.fs;
    r := RemoveTree(d, install.stage);
    StageRemoved(closed, d.fs, install, before, after, d.sealed);
  }

  lemma OldFilesBack(was: Tree, now: Tree)
    requires LiveIs(now, LiveTrees(was))
    ensures LiveFiles(now) == LiveFiles(was)
  {
    OwnTrees(was);
    LiveFilesOfTrees(was, now, LiveTrees(was));
  }

  /** A publication, then recoveries, each stopped anywhere or not, until one completes. */
  method PublishThenRecover(d: Disk, install: Install, marker: Content, attempts: nat)
    returns (recovered: bool, ghost before: Trees, ghost after: Trees)
    requires TreeShaped(d.fs) && Root !in d.fs && !d.sealed
    requires ValidFiles(install.files) && StageApart(install)
    modifies d
    ensures before == LiveTrees(old(d.fs))
    ensures Recoverable(d.fs, d.sealed, before, after)
    ensures recovered ==> Root !in d.fs && LiveIs(d.fs, if d.sealed then after else before)
    ensures d.sealed ==> Built(LiveFiles(old(d.fs)), LiveFiles(d.fs), install.files, Staged(old(d.fs), install), marker)
    ensures recovered && !d.sealed ==> LiveFiles(d.fs) == LiveFiles(old(d.fs))
    ensures Quiet(old(d.faults)) && attempts > 0 ==> recovered
    ensures Quiet(old(d.faults)) && Buildable(old(d.fs), install) ==> d.sealed
  {
    ghost var was := d.fs;
    var r;
    ghost var begun;
    r, before, after, begun := Publish(d, install, marker);
    recovered := false;
    var left := attempts;
    while left > 0 && !recovered
      invariant Recoverable(d.fs, d.sealed, before, after)
      invariant recovered ==> Root !in d.fs && LiveIs(d.fs, if d.sealed then after else before)
      invariant d.sealed ==> Built(LiveFiles(was), LiveFiles(d.fs), install.files, Staged(was, install), marker)
      invariant Quiet(old(d.faults)) && Buildable(was, install) ==> d.sealed
      invariant Quiet(old(d.faults)) ==> Quiet(d.faults) && (recovered || left == attempts)
      decreases left
    {
      ghost var stopped := d.fs;
      r := Recover(d, before, after);
      if d.sealed { LiveFilesOfTrees(stopped, d.fs, after); }
      recovered := r == Done;
      left := left - 1;
    }
    if recovered && !d.sealed { OldFilesBack(was, d.fs); }
  }

  /** What the readiness marker says, once parsed. */
  datatype Metadata = Unusable | Local | Remote(files: seq<Path>, digest: string)

  predicate IsRegular(fs: Tree, p: Path) { p in fs && fs[p].File? }

  const Probes: seq<Path> := [
    [Plain("node"), Plain("fs"), Plain("index.ts")], [Plain("bun"), Plain("index.ts")],
    [Plain("bun"), Plain("sqlite"), Plain("index.ts")], [Plain("utils"), Plain("path.ts")]]

  /** Whether a start of the program may use the installed trees. Parsing the marker and
      digesting the listed files are given functions. */
  predicate NodePolyfillsPresent(fs: Tree, parse: Content -> Metadata, digest: (Files, seq<Path>) -> string) {
    && Root !in fs
    && IsRegular(fs, MarkerPath)
    && (forall p :: p in Probes ==> IsRegular(fs, p))
    && match parse(fs[MarkerPath].content)
       case Unusable => false
       case Local => true
       case Remote(files, d) =>
         && files != []
         && (forall f :: f in files ==> InSlot(f) && Managed(f) && IsRegular(fs, f))
         && digest(LiveFiles(fs), files) == d
  }

  /** The probe never answers yes over a mixture of old and new trees, whatever is on disk
      from the first step of a publication to the last step of its recovery. */
  lemma PresentOnlyWhole(fs: Tree, isSealed: bool, before: Trees, after: Trees,
      parse: Content -> Metadata, digest: (Files, seq<Path>) -> string)
    requires Recoverable(fs, isSealed, before, after) && NodePolyfillsPresent(fs, parse, digest)
    ensures LiveIs(fs, if isSealed then after else before)
  {
    PresentIff(fs, Root);
    RootGone(fs);
  }
}
