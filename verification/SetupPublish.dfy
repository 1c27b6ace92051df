/** Publication of a downloaded set of polyfill trees: a write-ahead protocol over the
    three live trees, its in-process rollback, and the recovery that a later run performs. */
module SetupPublish {
  import opened SetupDisk
  import opened SetupTrees

  const SLOTS: seq<Slot> := [Node, Bun, Utils]

  function Rank(n: Slot): (i: nat)
    ensures i < |SLOTS| && SLOTS[i] == n
  {
    match n case Node => 0 case Bun => 1 case Utils => 2
  }

  const Root: Path := [Plain(".setup-publish")]
  const NextRoot: Path := Root + [Plain("next")]
  const BackupRoot: Path := Root + [Plain("backup")]
  const StateFile: Path := Root + [Plain("state.json")]

  function Text(n: Slot): string {
    match n case Node => "node" case Bun => "bun" case Utils => "utils"
  }

  function Live(n: Slot): Path { [Plain(Text(n))] }
  function Next(n: Slot): Path { NextRoot + [Plain(Text(n))] }
  function Backup(n: Slot): Path { BackupRoot + [Plain(Text(n))] }

  /** The three trees by name; the empty tree stands for an absent one. */
  datatype Trees = Trees(node: Tree, bun: Tree, utils: Tree) {
    function At(n: Slot): Tree {
      match n case Node => node case Bun => bun case Utils => utils
    }
  }

  function LiveTrees(fs: Tree): Trees {
    Trees(Sub(fs, Live(Node)), Sub(fs, Live(Bun)), Sub(fs, Live(Utils)))
  }

  predicate LiveIs(fs: Tree, t: Trees) {
    forall n: Slot :: Sub(fs, Live(n)) == t.At(n)
  }

  lemma OwnTrees(fs: Tree)
    ensures LiveIs(fs, LiveTrees(fs))
  {
    forall n: Slot ensures Sub(fs, Live(n)) == LiveTrees(fs).At(n) {
      match n
      case Node =>
      case Bun =>
      case Utils =>
    }
  }

  lemma Layout(n: Slot, m: Slot)
    ensures Disjoint(Live(n), Root)
    ensures n != m ==> Disjoint(Live(n), Live(m))
    ensures Disjoint(Live(n), NextRoot) && Disjoint(Live(n), StateFile) && Disjoint(Live(n), Committed)
    ensures Disjoint(Live(n), Next(m)) && Disjoint(Live(n), Backup(m)) && Disjoint(Next(n), Backup(m))
    ensures n != m ==> Disjoint(Next(n), Next(m)) && Disjoint(Backup(n), Backup(m))
    ensures Disjoint(NextRoot, Backup(n)) && Disjoint(NextRoot, StateFile) && Disjoint(NextRoot, Committed)
    ensures Disjoint(Backup(n), StateFile) && Disjoint(Backup(n), Committed)
    ensures Disjoint(Next(n), StateFile) && Disjoint(Next(n), Committed) && Disjoint(StateFile, Committed)
  {
    assert |".setup-publish"| == 14 && |Text(n)| < 14;
    assert |Text(Node)| == 4 && |Text(Bun)| == 3 && |Text(Utils)| == 5;
    assert |"next"| == 4 && |"backup"| == 6 && |"state.json"| == 10 && |"committed"| == 9;
    assert Next(n)[1] == Plain("next") && Backup(n)[1] == Plain("backup") && Next(m)[1] == Plain("next") && Backup(m)[1] == Plain("backup");
    assert Next(n)[2] == Plain(Text(n)) && Backup(n)[2] == Plain(Text(n)) && Next(m)[2] == Plain(Text(m)) && Backup(m)[2] == Plain(Text(m));
    assert StateFile[1] == Plain("state.json") && Committed[1] == Plain("committed") && NextRoot[1] == Plain("next");
    assert Live(n)[0] == Plain(Text(n)) && Root[0] == Plain(".setup-publish");
    assert Next(m)[0] == Backup(m)[0] == StateFile[0] == Committed[0] == NextRoot[0] == Plain(".setup-publish");
  }

  predicate ValidState(c: Content) {
    && c.State?
    && (forall i, j :: 0 <= i < j < |c.original| ==> c.original[i] != c.original[j])
  }

  predicate HasState(fs: Tree) {
    StateFile in fs && fs[StateFile].File? && ValidState(fs[StateFile].content)
  }

  predicate IsPublishing(fs: Tree) {
    HasState(fs) && fs[StateFile].content.phase == Publishing
  }

  /** Tree `n` is, or can still be put back to, what it was before the publication. */
  predicate Undoable(fs: Tree, before: Tree, n: Slot, original: seq<Slot>) {
    if n in original then
      before != map[] && (Sub(fs, Backup(n)) == before || Restored(fs, before, n))
    else
      before == map[] && (Sub(fs, Next(n)) != map[] ==> Sub(fs, Live(n)) == map[])
  }

  predicate Restored(fs: Tree, before: Tree, n: Slot) {
    Sub(fs, Backup(n)) == map[] && Sub(fs, Live(n)) == before
  }

  /** Recovery from here ends with the trees of before the publication. */
  predicate RollsBack(fs: Tree, before: Trees)
  {
    && TreeShaped(fs) && Committed !in fs
    && (StateFile in fs ==> HasState(fs))
    && (if IsPublishing(fs) then
          forall n: Slot :: Undoable(fs, before.At(n), n, fs[StateFile].content.original)
        else
          LiveIs(fs, before))
  }

  /** Recovery from here ends with the new trees. */
  predicate RollsForward(fs: Tree, after: Trees)
  {
    TreeShaped(fs) && LiveIs(fs, after) && (if Committed in fs then fs[Committed].File? else StateFile !in fs)
  }

  /** Nothing is left to undo: whatever else goes from the transaction, recovery stays a no-op. */
  predicate Settled(fs: Tree, before: Trees)
  {
    RollsBack(fs, before) && LiveIs(fs, before)
    && (IsPublishing(fs) ==> forall n: Slot :: n in fs[StateFile].content.original ==> Sub(fs, Backup(n)) == map[])
  }

  lemma ShrunkLive(was: Tree, now: Tree, t: Trees)
    requires LiveIs(was, t) && Shrunk(was, now, Root)
    ensures LiveIs(now, t)
  {
    forall n: Slot ensures Sub(now, Live(n)) == t.At(n) {
      Layout(n, n);
      ShrunkSub(was, now, Root, Live(n));
    }
  }

  lemma ShrunkEmpty(was: Tree, now: Tree, p: Path, q: Path)
    requires Shrunk(was, now, p) && Sub(was, q) == map[]
    ensures Sub(now, q) == map[]
  {
    forall x | x in Inside(now, q) ensures x in Sub(was, q) {
    }
  }

  lemma SettledShrinks(was: Tree, now: Tree, before: Trees)
    requires Settled(was, before) && Shrunk(was, now, Root) && TreeShaped(now)
    ensures Settled(now, before)
  {
    ShrunkLive(was, now, before);
    forall n: Slot | IsPublishing(now) && n in now[StateFile].content.original ensures Sub(now, Backup(n)) == map[] {
      ShrunkEmpty(was, now, Root, Backup(n));
    }
  }

  lemma RootGone(fs: Tree)
    requires Nothing(fs, Root)
    ensures Root !in fs && Committed !in fs && StateFile !in fs
  {
    assert Root <= Root && Root <= Committed && Root <= StateFile;
  }

  /** Removing a transaction directory that holds no decision any more. */
  method Discard(d: Disk, ghost before: Trees) returns (r: Outcome)
    requires Settled(d.fs, before)
    modifies d`fs, d`faults
    ensures Settled(d.fs, before) && Shrunk(old(d.fs), d.fs, Root)
    ensures r == Done ==> Root !in d.fs
    ensures Steady(old(d.faults), d.faults, r)
  {
    r := RemoveTree(d, Root);
    SettledShrinks(old(d.fs), d.fs, before);
    if r == Done { RootGone(d.fs); }
  }

  lemma OnlyMarkerLeft(fs: Tree)
    requires Children(fs, Root) <= {Plain("committed")}
    ensures StateFile !in fs
  {
    ChildPath(fs, Root, Plain("state.json"));
    assert |"state.json"| == 10 && |"committed"| == 9;
  }

  /** Everything but the marker goes first. */
  method RemoveOthers(d: Disk) returns (r: Outcome)
    requires TreeShaped(d.fs) && Committed in d.fs
    modifies d`fs, d`faults
    ensures TreeShaped(d.fs) && Committed in d.fs && Shrunk(old(d.fs), d.fs, Root)
    ensures r == Done ==> Children(d.fs, Root) <= {Plain("committed")}
    ensures Steady(old(d.faults), d.faults, r)
  {
    r := d.Look();
    if r != Done { return; }
    var names := Children(d.fs, Root) - {Plain("committed")};
    while names != {}
      invariant TreeShaped(d.fs) && Shrunk(old(d.fs), d.fs, Root) && Committed in d.fs
      invariant r == Done && Children(d.fs, Root) <= names + {Plain("committed")} && Plain("committed") !in names
      invariant Steady(old(d.faults), d.faults, Done)
      decreases |names|
    {
      var n :| n in names;
      ghost var was := d.fs;
      assert Committed == Root + [Plain("committed")];
      SameLengthDisjoint(Root + [n], Committed);
      assert (Root + [n])[1] == n;
      r := RemoveTree(d, Root + [n]);
      ShrunkTwice(old(d.fs), was, d.fs, Root, Root + [n]);
      if r != Done { return; }
      ChildPath(d.fs, Root, n);
      ShrunkChildren(was, d.fs, Root + [n], Root);
      names := names - {n};
    }
  }

  lemma ShrunkChildren(was: Tree, now: Tree, q: Path, p: Path)
    requires Shrunk(was, now, q)
    ensures Children(now, p) <= Children(was, p)
  {
  }

  /** The marker is the decision: it stays until every other transaction entry is gone. */
  method CleanupCommitted(d: Disk, ghost after: Trees) returns (r: Outcome)
    requires RollsForward(d.fs, after) && Committed in d.fs
    modifies d`fs, d`faults
    ensures RollsForward(d.fs, after)
    ensures r == Done ==> Root !in d.fs
    ensures Steady(old(d.faults), d.faults, r)
  {
    r := RemoveOthers(d);
    ShrunkLive(old(d.fs), d.fs, after);
    if r != Done { return; }
    ghost var was := d.fs;
    PrefixPresent(was, Committed, 1);
    assert Committed[..1] == Root;
    r := Unlink(d, Committed);
    assert Shrunk(was, d.fs, Root) by { ShrunkTwice(was, was, d.fs, Root, Committed); }
    ShrunkLive(was, d.fs, after);
    if r != Done { return; }
    ShrunkChildren(was, d.fs, Committed, Root);
    OnlyMarkerLeft(d.fs);
    ChildPath(d.fs, Root, Plain("committed"));
    assert Committed == Root + [Plain("committed")];
    ghost var empty := d.fs;
    assert Root in d.fs by { assert !(Committed <= Root); }
    r := Rmdir(d, Root);
    ShrunkLive(empty, d.fs, after);
    if r == Done { RootGone(d.fs); }
  }

  lemma PresentIff(fs: Tree, p: Path)
    requires TreeShaped(fs)
    ensures p in fs <==> Sub(fs, p) != map[]
    ensures p !in fs <==> Nothing(fs, p)
  {
    NothingSub(fs, p);
    assert p + [] == p;
    if p !in fs {
      forall k | k in fs ensures !(p <= k) {
        if p <= k { OnlyDirsHaveInside(fs, p, k); }
      }
    }
  }

  /** While tree `n` is put back, only its live tree and its backup change. */
  predicate Apart(was: Tree, now: Tree, n: Slot) {
    && (Committed in now <==> Committed in was)
    && (StateFile in now <==> StateFile in was)
    && (StateFile in was ==> now[StateFile] == was[StateFile])
    && (forall m: Slot :: Sub(now, Next(m)) == Sub(was, Next(m)))
    && (forall m: Slot :: m != n ==> Sub(now, Live(m)) == Sub(was, Live(m)) && Sub(now, Backup(m)) == Sub(was, Backup(m)))
  }

  lemma AtSub(was: Tree, now: Tree, p: Path)
    requires Sub(now, p) == Sub(was, p)
    ensures (p in now <==> p in was) && (p in was ==> now[p] == was[p])
  {
    assert p + [] == p;
    assert [] in Sub(was, p) <==> p in was;
    assert [] in Sub(now, p) <==> p in now;
  }

  lemma RemovedLive(was: Tree, now: Tree, n: Slot)
    requires Shrunk(was, now, Live(n))
    ensures Apart(was, now, n) && Sub(now, Backup(n)) == Sub(was, Backup(n))
  {
    forall m: Slot
      ensures Sub(now, Next(m)) == Sub(was, Next(m)) && Sub(now, Backup(m)) == Sub(was, Backup(m))
      ensures m != n ==> Sub(now, Live(m)) == Sub(was, Live(m))
    {
      Layout(n, m);
      ShrunkSub(was, now, Live(n), Next(m));
      ShrunkSub(was, now, Live(n), Backup(m));
      if m != n { ShrunkSub(was, now, Live(n), Live(m)); }
    }
    Layout(n, n);
  }

  lemma MovedBack(was: Tree, n: Slot)
    ensures var now := Move(was, Backup(n), Live(n));
      Apart(was, now, n) && Restored(now, Sub(was, Backup(n)), n)
  {
    var now := Move(was, Backup(n), Live(n));
    Layout(n, n);
    MoveSub(was, Backup(n), Live(n));
    MoveGone(was, Backup(n), Live(n));
    forall m: Slot
      ensures Sub(now, Next(m)) == Sub(was, Next(m))
      ensures m != n ==> Sub(now, Live(m)) == Sub(was, Live(m)) && Sub(now, Backup(m)) == Sub(was, Backup(m))
    {
      Layout(n, m);
      Layout(m, n);
      MoveElsewhere(was, Backup(n), Live(n), Next(m));
      if m != n {
        MoveElsewhere(was, Backup(n), Live(n), Live(m));
        MoveElsewhere(was, Backup(n), Live(n), Backup(m));
      }
    }
  }

  /** Undoing tree `n` leaves what recovery can do for the other trees as it was. */
  lemma ApartUndoable(was: Tree, now: Tree, before: Trees, n: Slot)
    requires RollsBack(was, before) && IsPublishing(was)
    requires Apart(was, now, n) && TreeShaped(now)
    requires Undoable(now, before.At(n), n, was[StateFile].content.original)
    ensures RollsBack(now, before) && IsPublishing(now)
  {
    var original := was[StateFile].content.original;
    forall m: Slot ensures Undoable(now, before.At(m), m, original) {
      if m != n { assert Undoable(was, before.At(m), m, original); }
    }
  }

  predicate Handled(fs: Tree, before: Tree, n: Slot)
    requires IsPublishing(fs)
  {
    Sub(fs, Live(n)) == before && (n in fs[StateFile].content.original ==> Sub(fs, Backup(n)) == map[])
  }

  predicate Parked(fs: Tree, before: Trees, n: Slot) {
    RollsBack(fs, before) && IsPublishing(fs) && n in fs[StateFile].content.original && Backup(n) in fs
  }

  lemma LiveRemoved(was: Tree, now: Tree, before: Trees, n: Slot)
    requires Parked(was, before, n) && Shrunk(was, now, Live(n)) && TreeShaped(now)
    ensures Parked(now, before, n) && Apart(was, now, n)
    ensures Sub(now, Backup(n)) == before.At(n)
  {
    assert Undoable(was, before.At(n), n, was[StateFile].content.original);
    PresentIff(was, Backup(n));
    RemovedLive(was, now, n);
    ApartUndoable(was, now, before, n);
    AtSub(was, now, Backup(n));
  }

  lemma BackupMoved(was: Tree, before: Trees, n: Slot)
    requires Parked(was, before, n) && TreeShaped(Move(was, Backup(n), Live(n)))
    ensures var now := Move(was, Backup(n), Live(n));
      RollsBack(now, before) && IsPublishing(now) && Apart(was, now, n) && Restored(now, before.At(n), n)
  {
    assert Undoable(was, before.At(n), n, was[StateFile].content.original);
    PresentIff(was, Backup(n));
    MovedBack(was, n);
    ApartUndoable(was, Move(was, Backup(n), Live(n)), before, n);
  }

  lemma ApartTwice(a: Tree, b: Tree, c: Tree, n: Slot)
    requires Apart(a, b, n) && Apart(b, c, n)
    ensures Apart(a, c, n)
  {
  }

  method RenameBack(d: Disk, n: Slot, ghost before: Trees) returns (r: Outcome)
    requires Parked(d.fs, before, n) && Nothing(d.fs, Live(n))
    modifies d
    ensures d.sealed == old(d.sealed)
    ensures if r == Done then d.fs == Move(old(d.fs), Backup(n), Live(n)) && TreeShaped(d.fs) else d.fs == old(d.fs)
    ensures Steady(old(d.faults), d.faults, r)
  {
    Layout(n, n);
    assert Parent(Live(n)) == [];
    assert Live(n) !in d.fs;
    r := d.Rename(Backup(n), Live(n));
  }

  method PutBack(d: Disk, n: Slot, ghost before: Trees) returns (r: Outcome)
    requires Parked(d.fs, before, n)
    modifies d
    ensures RollsBack(d.fs, before) && IsPublishing(d.fs) && d.sealed == old(d.sealed)
    ensures Apart(old(d.fs), d.fs, n)
    ensures r == Done ==> Restored(d.fs, before.At(n), n)
    ensures Steady(old(d.faults), d.faults, r)
  {
    r := RemoveTree(d, Live(n));
    LiveRemoved(old(d.fs), d.fs, before, n);
    if r == Done {
      ghost var was := d.fs;
      r := RenameBack(d, n, before);
      if r == Done {
        BackupMoved(was, before, n);
        ApartTwice(old(d.fs), was, d.fs, n);
      }
    }
  }

  method RestoreTree(d: Disk, n: Slot, ghost before: Trees) returns (r: Outcome)
    requires RollsBack(d.fs, before) && IsPublishing(d.fs)
    modifies d
    ensures RollsBack(d.fs, before) && IsPublishing(d.fs) && d.sealed == old(d.sealed)
    ensures d.fs[StateFile] == old(d.fs)[StateFile]
    ensures Apart(old(d.fs), d.fs, n)
    ensures r == Done ==> Handled(d.fs, before.At(n), n)
    ensures Steady(old(d.faults), d.faults, r)
  {
    var original := d.fs[StateFile].content.original;
    assert Undoable(d.fs, before.At(n), n, original);
    Layout(n, n);
    r := d.Look();
    if r != Done { return; }
    if n in original {
      PresentIff(d.fs, Backup(n));
      if Backup(n) in d.fs {
        r := PutBack(d, n, before);
      } else {
        PresentIff(d.fs, Live(n));
        r := d.Look();
        if r != Done { return; }
        if Live(n) !in d.fs { return Threw; }
      }
    } else {
      PresentIff(d.fs, Next(n));
      PresentIff(d.fs, Live(n));
      if Next(n) !in d.fs {
        r := RemoveTree(d, Live(n));
        RemovedLive(old(d.fs), d.fs, n);
        ApartUndoable(old(d.fs), d.fs, before, n);
        NothingSub(d.fs, Live(n));
      }
    }
  }

  /** What a restart does about an unfinished publication. It may itself be stopped anywhere. */
  method Recover(d: Disk, ghost before: Trees, ghost after: Trees) returns (r: Outcome)
    requires (RollsBack(d.fs, before) || RollsForward(d.fs, after))
    modifies d
    ensures d.sealed == old(d.sealed)
    ensures RollsBack(old(d.fs), before) ==> RollsBack(d.fs, before)
    ensures RollsForward(old(d.fs), after) ==> RollsForward(d.fs, after)
    ensures r == Done && RollsBack(old(d.fs), before) ==> LiveIs(d.fs, before)
    ensures r == Done ==> Root !in d.fs
    ensures Steady(old(d.faults), d.faults, r)
  {
    r := d.Look();
    if r != Done { return; }
    if Root !in d.fs {
      PresentIff(d.fs, Root);
      RootGone(d.fs);
      return;
    }
    r := d.Look();
    if r != Done { return; }
    if Committed in d.fs {
      r := CleanupCommitted(d, after);
      return;
    }
    r := d.Look();
    if r != Done { return; }
    if StateFile !in d.fs {
      r := Discard(d, if RollsBack(d.fs, before) then before else after);
      if RollsForward(old(d.fs), after) { ShrunkLive(old(d.fs), d.fs, after); }
      return;
    }
    r := d.Look();
    if r != Done { return; }
    if !HasState(d.fs) { return Threw; }
    if d.fs[StateFile].content.phase == Prepared {
      r := Discard(d, before);
      return;
    }
    r := RestoreAll(d, before);
    if r != Done { return; }
    r := Discard(d, before);
  }

  method RestoreAll(d: Disk, ghost before: Trees) returns (r: Outcome)
    requires RollsBack(d.fs, before) && IsPublishing(d.fs)
    modifies d
    ensures RollsBack(d.fs, before) && d.sealed == old(d.sealed)
    ensures r == Done ==> Settled(d.fs, before)
    ensures Steady(old(d.faults), d.faults, r)
  {
    r := Done;
    var i := 0;
    while i < |SLOTS|
      invariant 0 <= i <= |SLOTS| && r == Done
      invariant RollsBack(d.fs, before) && IsPublishing(d.fs) && d.sealed == old(d.sealed)
      invariant forall n: Slot :: Rank(n) < i ==> Handled(d.fs, before.At(n), n)
      invariant Steady(old(d.faults), d.faults, Done)
    {
      ghost var was := d.fs;
      r := RestoreTree(d, SLOTS[i], before);
      if r != Done { return; }
      forall n: Slot | Rank(n) < i ensures Handled(d.fs, before.At(n), n) {
        assert Handled(was, before.At(n), n);
      }
      i := i + 1;
    }
    forall n: Slot ensures Sub(d.fs, Live(n)) == before.At(n) {
      assert Handled(d.fs, before.At(n), n);
    }
    forall n: Slot | n in d.fs[StateFile].content.original ensures Sub(d.fs, Backup(n)) == map[] {
      assert Handled(d.fs, before.At(n), n);
    }
  }
}
