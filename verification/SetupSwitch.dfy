/** The publishing process itself: prepare the new trees, switch, and undo on an error. */
module SetupSwitch {
  import opened SetupDisk
  import opened SetupTrees
  import opened SetupPublish
  import opened SetupNext
  import opened SetupBuild

  /** Where the three trees are, `moved` parked and `published` switched in. */
  predicate Placed(fs: Tree, before: Trees, after: Trees, moved: seq<Slot>, published: seq<Slot>)
  {
    forall n: Slot :: PlacedTree(fs, before.At(n), after.At(n), n, n in moved, n in published)
  }

  predicate PlacedTree(fs: Tree, before: Tree, after: Tree, n: Slot, moved: bool, published: bool) {
    && after != map[]
    && (moved ==> before != map[])
    && (published && !moved ==> before == map[])
    && Sub(fs, Backup(n)) == (if moved then before else map[])
    && Sub(fs, Live(n)) == (if published then after else if moved then map[] else before)
    && Sub(fs, Next(n)) == (if published then map[] else after)
  }

  /** The transaction file is the one this process wrote last, or gone while nothing has moved yet. */
  predicate Logged(fs: Tree, before: Trees, switching: bool)
  {
    && TreeShaped(fs) && Committed !in fs
    && (StateFile in fs ==> HasState(fs))
    && (IsPublishing(fs) ==> forall n: Slot :: (n in fs[StateFile].content.original <==> before.At(n) != map[]))
    && (switching ==> IsPublishing(fs))
  }

  lemma PlacedRollsBack(fs: Tree, before: Trees, after: Trees, moved: seq<Slot>, published: seq<Slot>)
    requires Placed(fs, before, after, moved, published)
    requires Logged(fs, before, moved != [] || published != [])
    ensures RollsBack(fs, before)
  {
    forall n: Slot
      ensures IsPublishing(fs) ==> Undoable(fs, before.At(n), n, fs[StateFile].content.original)
      ensures !IsPublishing(fs) ==> Sub(fs, Live(n)) == before.At(n)
    {
      assert PlacedTree(fs, before.At(n), after.At(n), n, n in moved, n in published);
    }
  }

  /** What the switch needs besides: room for the renames. */
  predicate Roomy(fs: Tree) {
    IsDir(fs, NextRoot) && IsDir(fs, BackupRoot)
  }

  /** What moving a tree of slot `n` from `a` to `b` does to the trees of slot `m`. */
  lemma MovedSlot(fs: Tree, a: Path, b: Path, p: Path)
    requires Disjoint(a, b) && Disjoint(a, p) && Disjoint(b, p)
    ensures Sub(Move(fs, a, b), p) == Sub(fs, p)
  {
    MoveElsewhere(fs, a, b, p);
  }

  lemma ParkedSubs(fs: Tree, n: Slot, m: Slot)
    ensures var now := Move(fs, Live(n), Backup(n));
      && Sub(now, Next(m)) == Sub(fs, Next(m))
      && Sub(now, Live(m)) == (if m == n then map[] else Sub(fs, Live(m)))
      && Sub(now, Backup(m)) == (if m == n then Sub(fs, Live(n)) else Sub(fs, Backup(m)))
  {
    Layout(n, n);
    Layout(n, m);
    Layout(m, n);
    MovedSlot(fs, Live(n), Backup(n), Next(m));
    if m == n {
      MoveSub(fs, Live(n), Backup(n));
      MoveGone(fs, Live(n), Backup(n));
    } else {
      MovedSlot(fs, Live(n), Backup(n), Live(m));
      MovedSlot(fs, Live(n), Backup(n), Backup(m));
    }
  }

  lemma ParkedLive(fs: Tree, before: Trees, after: Trees, moved: seq<Slot>, n: Slot)
    requires Placed(fs, before, after, moved, [])
    requires n !in moved && Sub(fs, Live(n)) != map[]
    ensures Placed(Move(fs, Live(n), Backup(n)), before, after, moved + [n], [])
  {
    var now := Move(fs, Live(n), Backup(n));
    forall m: Slot ensures PlacedTree(now, before.At(m), after.At(m), m, m in moved + [n], m in []) {
      assert PlacedTree(fs, before.At(m), after.At(m), m, m in moved, m in []);
      ParkedSubs(fs, n, m);
    }
  }

  lemma SwitchedSubs(fs: Tree, n: Slot, m: Slot)
    ensures var now := Move(fs, Next(n), Live(n));
      && Sub(now, Backup(m)) == Sub(fs, Backup(m))
      && Sub(now, Next(m)) == (if m == n then map[] else Sub(fs, Next(m)))
      && Sub(now, Live(m)) == (if m == n then Sub(fs, Next(n)) else Sub(fs, Live(m)))
  {
    Layout(n, n);
    Layout(n, m);
    Layout(m, n);
    MovedSlot(fs, Next(n), Live(n), Backup(m));
    if m == n {
      MoveSub(fs, Next(n), Live(n));
      MoveGone(fs, Next(n), Live(n));
    } else {
      MovedSlot(fs, Next(n), Live(n), Live(m));
      MovedSlot(fs, Next(n), Live(n), Next(m));
    }
  }

  lemma SwitchedIn(fs: Tree, before: Trees, after: Trees, moved: seq<Slot>, published: seq<Slot>, n: Slot)
    requires Placed(fs, before, after, moved, published)
    requires n !in published && (n !in moved ==> before.At(n) == map[])
    ensures Placed(Move(fs, Next(n), Live(n)), before, after, moved, published + [n])
  {
    var now := Move(fs, Next(n), Live(n));
    forall m: Slot ensures PlacedTree(now, before.At(m), after.At(m), m, m in moved, m in published + [n]) {
      assert PlacedTree(fs, before.At(m), after.At(m), m, m in moved, m in published);
      SwitchedSubs(fs, n, m);
    }
  }

  /** A commit of one of the transaction's own files leaves every tree of it alone. */
  lemma LogCommit(was: Tree, now: Tree, dst: Path, n: Slot)
    requires (dst == StateFile || dst == Committed) && CommitFrame(was, now, dst)
    ensures Sub(now, Live(n)) == Sub(was, Live(n))
    ensures Sub(now, Next(n)) == Sub(was, Next(n))
    ensures Sub(now, Backup(n)) == Sub(was, Backup(n))
  {
    Layout(n, n);
    assert Parent(dst) == Root;
    assert Live(n)[0] != Root[0];
    CommitSub(was, now, dst, Live(n));
    CommitSub(was, now, dst, Next(n));
    CommitSub(was, now, dst, Backup(n));
  }

  lemma CommitSub(was: Tree, now: Tree, dst: Path, p: Path)
    requires |dst| == 2 && CommitFrame(was, now, dst) && Disjoint(p, dst) && p != []
    requires p[0] != dst[0] || (|p| >= 2 && p[1].Plain?)
    ensures Sub(now, p) == Sub(was, p)
  {
    forall q ensures p + q in now <==> p + q in was
      ensures p + q in was ==> now[p + q] == was[p + q]
    {
      var k := p + q;
      assert k[0] == p[0] && (|p| >= 2 ==> k[1] == p[1]);
      DisjointBelow(p, dst, q);
      assert !Scratch(dst, k) by {
        assert k[..1] == Parent(dst) ==> k[..1][0] == dst[0];
      }
      PrefixChain(p, q, dst);
    }
  }

  lemma PrefixChain(p: Path, q: Path, dst: Path)
    requires !(p <= dst)
    ensures !(p + q <= dst)
  {
    assert forall i :: 0 <= i < |p| ==> (p + q)[i] == p[i];
  }

  lemma CommitFixed(was: Tree, now: Tree, dst: Path, p: Path)
    requires (dst == StateFile || dst == Committed) && CommitFrame(was, now, dst)
    requires p == Root || p == NextRoot || p == BackupRoot || ((p == StateFile || p == Committed) && p != dst)
    ensures p in was ==> p in now && now[p] == was[p]
    ensures p in now && p !in was ==> p == Root
  {
    assert Root + [dst[1]] == dst;
    assert |p| == 2 ==> Root + [p[1]] == p && p[1].Plain?;
    assert |"next"| == 4 && |"backup"| == 6 && |"state.json"| == 10 && |"committed"| == 9;
    assert p != dst;
    if |p| == 2 { SameLengthDisjoint(p, dst); }
  }

  /** Which of the three live trees exist. */
  method PresentTrees(d: Disk) returns (r: Outcome, names: seq<Slot>)
    requires TreeShaped(d.fs)
    modifies d`faults
    ensures r == Done ==> ValidState(State(Publishing, names)) && forall n: Slot :: (n in names <==> Live(n) in d.fs)
    ensures Steady(old(d.faults), d.faults, r)
  {
    names := [];
    r := Done;
    var i := 0;
    while i < |SLOTS|
      invariant 0 <= i <= |SLOTS| && r == Done
      invariant forall n: Slot :: n in names ==> Rank(n) < i
      invariant forall j, k :: 0 <= j < k < |names| ==> names[j] != names[k]
      invariant forall n: Slot :: Rank(n) < i ==> (n in names <==> Live(n) in d.fs)
      invariant Steady(old(d.faults), d.faults, Done)
    {
      r := d.Look();
      if r != Done { return; }
      if Live(SLOTS[i]) in d.fs { names := names + [SLOTS[i]]; }
      i := i + 1;
    }
  }

  ghost predicate Ready(d: Disk, before: Trees, after: Trees)
    reads d
  {
    Placed(d.fs, before, after, [], []) && Logged(d.fs, before, false) && Roomy(d.fs) && !d.sealed
  }

  /** The write-ahead step: from here on a restart undoes the switch. */
  method LogSwitch(d: Disk, ghost before: Trees, ghost after: Trees) returns (r: Outcome)
    requires Ready(d, before, after)
    modifies d
    ensures Ready(d, before, after)
    ensures r == Done ==> Logged(d.fs, before, true)
    ensures Tame(old(d.faults), d.faults, r)
    ensures CanWrite(old(d.fs), StateFile) ==> Steady(old(d.faults), d.faults, r)
  {
    var names;
    r, names := PresentTrees(d);
    if r != Done { return; }
    assert forall n: Slot :: (n in names <==> before.At(n) != map[]) by {
      forall n: Slot ensures n in names <==> before.At(n) != map[] {
        assert PlacedTree(d.fs, before.At(n), after.At(n), n, n in [], n in []);
        PresentIff(d.fs, Live(n));
      }
    }
    r := CommitFile(d, StateFile, State(Publishing, names));
    Layout(Node, Node);
    assert StateFile != Committed;
    CommitFixed(old(d.fs), d.fs, StateFile, NextRoot);
    CommitFixed(old(d.fs), d.fs, StateFile, BackupRoot);
    CommitFixed(old(d.fs), d.fs, StateFile, Committed);
    forall n: Slot ensures PlacedTree(d.fs, before.At(n), after.At(n), n, n in [], n in []) {
      assert PlacedTree(old(d.fs), before.At(n), after.At(n), n, n in [], n in []);
      LogCommit(old(d.fs), d.fs, StateFile, n);
    }
  }

  lemma RenameKeepsLog(fs: Tree, before: Trees, n: Slot, a: Path, b: Path)
    requires Logged(fs, before, true) && Roomy(fs) && TreeShaped(Move(fs, a, b))
    requires a in {Live(n), Next(n), Backup(n)} && b in {Live(n), Next(n), Backup(n)}
    ensures Logged(Move(fs, a, b), before, true) && Roomy(Move(fs, a, b))
  {
    Layout(n, n);
    assert Live(n)[0] != Root[0];
    assert |Next(n)| == |Backup(n)| == 3 && |NextRoot| == |BackupRoot| == 2;
    assert !(Live(n) <= NextRoot) && !(Live(n) <= BackupRoot);
  }

  /** In the middle of the switch, after the write-ahead step. */
  predicate Switching(fs: Tree, before: Trees, after: Trees, moved: seq<Slot>, published: seq<Slot>)
  {
    Placed(fs, before, after, moved, published) && Logged(fs, before, true) && Roomy(fs)
  }

  method ParkOne(d: Disk, n: Slot, moved: seq<Slot>, ghost before: Trees, ghost after: Trees)
    returns (r: Outcome, now: seq<Slot>)
    requires Switching(d.fs, before, after, moved, []) && n !in moved
    modifies d
    ensures d.sealed == old(d.sealed)
    ensures Switching(d.fs, before, after, now, [])
    ensures now == moved || now == moved + [n]
    ensures r == Done && now == moved ==> before.At(n) == map[]
    ensures Steady(old(d.faults), d.faults, r)
  {
    now := moved;
    assert PlacedTree(d.fs, before.At(n), after.At(n), n, n in moved, n in []);
    PresentIff(d.fs, Live(n));
    r := d.Look();
    if r != Done || Live(n) !in d.fs { return; }
    Layout(n, n);
    PresentIff(d.fs, Backup(n));
    assert Parent(Backup(n)) == BackupRoot;
    assert |Backup(n)| == 3 && |Committed| == 2;
    r := d.Rename(Live(n), Backup(n));
    assert d.sealed == old(d.sealed);
    if r == Done {
      ParkStep(old(d.fs), before, after, moved, n);
      now := moved + [n];
    }
  }

  lemma ParkStep(fs: Tree, before: Trees, after: Trees, moved: seq<Slot>, n: Slot)
    requires Switching(fs, before, after, moved, []) && n !in moved
    requires Sub(fs, Live(n)) != map[] && TreeShaped(Move(fs, Live(n), Backup(n)))
    ensures Switching(Move(fs, Live(n), Backup(n)), before, after, moved + [n], [])
  {
    ParkedLive(fs, before, after, moved, n);
    RenameKeepsLog(fs, before, n, Live(n), Backup(n));
  }

  /** Parks every live tree there is. */
  method ParkAll(d: Disk, ghost before: Trees, ghost after: Trees) returns (r: Outcome, moved: seq<Slot>)
    requires Switching(d.fs, before, after, [], [])
    modifies d
    ensures d.sealed == old(d.sealed)
    ensures Switching(d.fs, before, after, moved, [])
    ensures NamesTrees(moved)
    ensures r == Done ==> forall n: Slot :: n !in moved ==> before.At(n) == map[]
    ensures Steady(old(d.faults), d.faults, r)
  {
    r, moved := Done, [];
    var i := 0;
    while i < |SLOTS|
      invariant 0 <= i <= |SLOTS| && r == Done && d.sealed == old(d.sealed)
      invariant Switching(d.fs, before, after, moved, []) && ParkedUpTo(before, moved, i)
      invariant Steady(old(d.faults), d.faults, Done)
    {
      ghost var was := moved;
      ParkedMore(before, was, i);
      r, moved := ParkOne(d, SLOTS[i], moved, before, after);
      if r != Done { return; }
      i := i + 1;
    }
  }

  /** The first `i` trees are parked, or there was nothing to park. */
  predicate ParkedUpTo(before: Trees, moved: seq<Slot>, i: nat) {
    && NamesTrees(moved)
    && (forall n: Slot :: n in moved ==> Rank(n) < i)
    && (forall n: Slot :: Rank(n) < i && n !in moved ==> before.At(n) == map[])
  }

  lemma ParkedMore(before: Trees, moved: seq<Slot>, i: nat)
    requires ParkedUpTo(before, moved, i) && i < |SLOTS|
    ensures SLOTS[i] !in moved && NamesTrees(moved + [SLOTS[i]]) && ParkedUpTo(before, moved + [SLOTS[i]], i + 1)
    ensures before.At(SLOTS[i]) == map[] ==> ParkedUpTo(before, moved, i + 1)
  {
    var s := SLOTS[i];
    assert Rank(s) == i;
    forall n: Slot | Rank(n) < i + 1 ensures n == s || Rank(n) < i {
      assert SLOTS[Rank(n)] == n;
    }
  }

  predicate NamesTrees(names: seq<Slot>) {
    (forall j, k :: 0 <= j < k < |names| ==> names[j] != names[k])
  }

  method SwitchOne(d: Disk, n: Slot, ghost moved: seq<Slot>, ghost published: seq<Slot>, ghost before: Trees, ghost after: Trees)
    returns (r: Outcome)
    requires Switching(d.fs, before, after, moved, published)
    requires n !in published && (n !in moved ==> before.At(n) == map[])
    modifies d
    ensures d.sealed == old(d.sealed)
    ensures Switching(d.fs, before, after, moved, if r == Done then published + [n] else published)
    ensures Steady(old(d.faults), d.faults, r)
  {
    Layout(n, n);
    assert PlacedTree(d.fs, before.At(n), after.At(n), n, n in moved, n in published);
    PresentIff(d.fs, Next(n));
    PresentIff(d.fs, Live(n));
    assert Parent(Live(n)) == [];
    r := d.Rename(Next(n), Live(n));
    if r == Done {
      SwitchedIn(old(d.fs), before, after, moved, published, n);
      RenameKeepsLog(old(d.fs), before, n, Next(n), Live(n));
    }
  }

  /** Switches the new trees in. */
  method SwitchAll(d: Disk, ghost moved: seq<Slot>, ghost before: Trees, ghost after: Trees)
    returns (r: Outcome, published: seq<Slot>)
    requires Switching(d.fs, before, after, moved, [])
    requires forall n: Slot :: n !in moved ==> before.At(n) == map[]
    modifies d
    ensures d.sealed == old(d.sealed)
    ensures Switching(d.fs, before, after, moved, published) && NamesTrees(published)
    ensures r == Done ==> forall n: Slot :: n in published
    ensures Steady(old(d.faults), d.faults, r)
  {
    r, published := Done, [];
    var i := 0;
    while i < |SLOTS|
      invariant 0 <= i <= |SLOTS| && r == Done && d.sealed == old(d.sealed) && SwitchedUpTo(published, i)
      invariant Switching(d.fs, before, after, moved, published)
      invariant Steady(old(d.faults), d.faults, Done)
    {
      SwitchedMore(published, i);
      r := SwitchOne(d, SLOTS[i], moved, published, before, after);
      if r != Done { return; }
      published := published + [SLOTS[i]];
      i := i + 1;
    }
  }

  predicate SwitchedUpTo(published: seq<Slot>, i: nat) {
    NamesTrees(published) && forall n: Slot :: n in published <==> Rank(n) < i
  }

  lemma SwitchedMore(published: seq<Slot>, i: nat)
    requires SwitchedUpTo(published, i) && i < |SLOTS|
    ensures SLOTS[i] !in published && SwitchedUpTo(published + [SLOTS[i]], i + 1)
  {
    var s := SLOTS[i];
    assert Rank(s) == i;
    forall n: Slot ensures n in published + [s] <==> Rank(n) < i + 1 {
      assert SLOTS[Rank(n)] == n;
    }
  }

  /** Tree `n` while the switch is being taken back. */
  predicate UnwindTree(fs: Tree, before: Tree, n: Slot, moved: bool, published: bool) {
    if moved then
      before != map[] && (Sub(fs, Backup(n)) == before || Restored(fs, before, n))
    else
      && Sub(fs, Backup(n)) == map[]
      && (if published then before == map[] && Sub(fs, Next(n)) == map[] else Sub(fs, Live(n)) == before)
  }

  predicate Unwinding(fs: Tree, before: Trees, moved: seq<Slot>, published: seq<Slot>) {
    && Logged(fs, before, moved != [] || published != [])
    && forall n: Slot :: UnwindTree(fs, before.At(n), n, n in moved, n in published)
  }

  lemma UnwindingRollsBack(fs: Tree, before: Trees, moved: seq<Slot>, published: seq<Slot>)
    requires Unwinding(fs, before, moved, published)
    ensures RollsBack(fs, before)
    ensures (forall n: Slot :: n in moved || n in published ==> Restored(fs, before.At(n), n)) ==> Settled(fs, before)
  {
    forall n: Slot
      ensures IsPublishing(fs) ==> Undoable(fs, before.At(n), n, fs[StateFile].content.original)
      ensures !IsPublishing(fs) ==> Sub(fs, Live(n)) == before.At(n)
      ensures (n in moved || n in published ==> Restored(fs, before.At(n), n)) ==> Restored(fs, before.At(n), n)
    {
      assert UnwindTree(fs, before.At(n), n, n in moved, n in published);
    }
  }

  lemma PlacedUnwinding(fs: Tree, before: Trees, after: Trees, moved: seq<Slot>, published: seq<Slot>)
    requires Placed(fs, before, after, moved, published) && Logged(fs, before, moved != [] || published != [])
    ensures Unwinding(fs, before, moved, published)
    ensures NamesTrees(moved) ==> Takeable(fs, before, moved, published)
  {
    forall n: Slot ensures UnwindTree(fs, before.At(n), n, n in moved, n in published)
      ensures n in moved ==> Sub(fs, Backup(n)) == before.At(n) && (n !in published ==> Sub(fs, Live(n)) == map[])
    {
      assert PlacedTree(fs, before.At(n), after.At(n), n, n in moved, n in published);
    }
  }

  /** One tree was taken back, or part of the way; the others are as they were. */
  lemma ApartUnwinding(was: Tree, now: Tree, before: Trees, moved: seq<Slot>, published: seq<Slot>, n: Slot)
    requires Unwinding(was, before, moved, published) && Apart(was, now, n) && TreeShaped(now)
    requires UnwindTree(now, before.At(n), n, n in moved, n in published)
    ensures Unwinding(now, before, moved, published)
  {
    forall m: Slot ensures UnwindTree(now, before.At(m), m, m in moved, m in published) {
      if m != n { assert UnwindTree(was, before.At(m), m, m in moved, m in published); }
    }
  }

  /** The catch block collects what its calls throw: no errors without a fault. */
  predicate Collected(was: seq<Fault>, now: seq<Fault>, crashed: bool, errors: nat) {
    NoCrash(was) ==> NoCrash(now) && !crashed && Throws(now) <= Throws(was) && (errors > 0 ==> Throws(now) < Throws(was))
  }

  /** No live tree stands in the way of the parked ones. */
  predicate Emptied(fs: Tree, moved: seq<Slot>) {
    forall n: Slot :: n in moved ==> Sub(fs, Live(n)) == map[]
  }

  predicate AllParked(fs: Tree, before: Trees, moved: seq<Slot>) {
    forall n: Slot :: n in moved ==> Sub(fs, Backup(n)) == before.At(n)
  }

  /** Where the catch block starts: what was parked is in the backup, and only what was switched
      in stands in its place. */
  predicate Takeable(fs: Tree, before: Trees, moved: seq<Slot>, published: seq<Slot>) {
    && NamesTrees(moved) && AllParked(fs, before, moved)
    && forall n: Slot :: n in moved && n !in published ==> Sub(fs, Live(n)) == map[]
  }

  method RemovePublished(d: Disk, n: Slot, moved: seq<Slot>, published: seq<Slot>, ghost before: Trees) returns (r: Outcome)
    requires Unwinding(d.fs, before, moved, published) && n in published && AllParked(d.fs, before, moved)
    modifies d`fs, d`faults
    ensures Unwinding(d.fs, before, moved, published) && Apart(old(d.fs), d.fs, n) && AllParked(d.fs, before, moved)
    ensures r == Done ==> Sub(d.fs, Live(n)) == map[]
    ensures r == Done && n !in moved ==> Restored(d.fs, before.At(n), n)
    ensures Steady(old(d.faults), d.faults, r)
  {
    r := RemoveTree(d, Live(n));
    RemovedLive(old(d.fs), d.fs, n);
    assert UnwindTree(old(d.fs), before.At(n), n, n in moved, n in published);
    ApartUnwinding(old(d.fs), d.fs, before, moved, published, n);
    NothingSub(d.fs, Live(n));
  }

  method Unpark(d: Disk, n: Slot, moved: seq<Slot>, published: seq<Slot>, ghost before: Trees) returns (r: Outcome)
    requires Unwinding(d.fs, before, moved, published) && n in moved
    modifies d
    ensures d.sealed == old(d.sealed)
    ensures Unwinding(d.fs, before, moved, published) && Apart(old(d.fs), d.fs, n)
    ensures r == Done ==> Restored(d.fs, before.At(n), n)
    ensures Tame(old(d.faults), d.faults, r)
    ensures Sub(old(d.fs), Backup(n)) == before.At(n) && Sub(old(d.fs), Live(n)) == map[] ==> Steady(old(d.faults), d.faults, r)
  {
    Layout(n, n);
    assert UnwindTree(d.fs, before.At(n), n, n in moved, n in published);
    PresentIff(d.fs, Backup(n));
    PresentIff(d.fs, Live(n));
    assert Parent(Live(n)) == [];
    r := d.Rename(Backup(n), Live(n));
    if r == Done {
      MovedBack(old(d.fs), n);
      ApartUnwinding(old(d.fs), d.fs, before, moved, published, n);
    }
  }

  method RemoveAllPublished(d: Disk, moved: seq<Slot>, published: seq<Slot>, ghost before: Trees)
    returns (crashed: bool, errors: nat)
    requires Unwinding(d.fs, before, moved, published) && Takeable(d.fs, before, moved, published)
    modifies d`fs, d`faults
    ensures Unwinding(d.fs, before, moved, published) && AllParked(d.fs, before, moved)
    ensures !crashed && errors == 0 ==> Emptied(d.fs, moved)
    ensures !crashed && errors == 0 ==> forall n: Slot :: n in published && n !in moved ==> Restored(d.fs, before.At(n), n)
    ensures Collected(old(d.faults), d.faults, crashed, errors)
  {
    crashed, errors := false, 0;
    var i := |published|;
    while i > 0
      invariant 0 <= i <= |published|
      invariant Unwinding(d.fs, before, moved, published) && AllParked(d.fs, before, moved)
      invariant errors == 0 ==> Removed(d.fs, before, moved, published[i..])
      invariant forall n: Slot :: n !in published ==> Sub(d.fs, Live(n)) == Sub(old(d.fs), Live(n))
      invariant Collected(old(d.faults), d.faults, false, errors)
    {
      i := i - 1;
      ghost var was := d.fs;
      var r := RemovePublished(d, published[i], moved, published, before);
      assert published[i..] == [published[i]] + published[i + 1..];
      if r == Crashed { return true, errors; }
      if r == Threw { errors := errors + 1; }
      if errors == 0 { RemovedMore(was, d.fs, before, moved, published[i], published[i + 1..]); }
    }
  }

  predicate Removed(fs: Tree, before: Trees, moved: seq<Slot>, names: seq<Slot>) {
    forall n: Slot :: n in names ==> Sub(fs, Live(n)) == map[] && (n !in moved ==> Restored(fs, before.At(n), n))
  }

  lemma RemovedMore(was: Tree, now: Tree, before: Trees, moved: seq<Slot>, n: Slot, names: seq<Slot>)
    requires Removed(was, before, moved, names) && Apart(was, now, n) && Sub(now, Live(n)) == map[]
    requires n !in moved ==> Restored(now, before.At(n), n)
    ensures Removed(now, before, moved, [n] + names)
  {
  }

  method UnparkAll(d: Disk, moved: seq<Slot>, published: seq<Slot>, ghost before: Trees)
    returns (crashed: bool, errors: nat)
    requires Unwinding(d.fs, before, moved, published) && NamesTrees(moved)
    modifies d
    ensures d.sealed == old(d.sealed)
    ensures Unwinding(d.fs, before, moved, published)
    ensures forall n: Slot :: n !in moved && Restored(old(d.fs), before.At(n), n) ==> Restored(d.fs, before.At(n), n)
    ensures !crashed && errors == 0 ==> forall n: Slot :: n in moved ==> Restored(d.fs, before.At(n), n)
    ensures Collected(old(d.faults), d.faults, crashed, 0)
    ensures AllParked(old(d.fs), before, moved) && Emptied(old(d.fs), moved) ==> Collected(old(d.faults), d.faults, crashed, errors)
  {
    crashed, errors := false, 0;
    ghost var clear := AllParked(d.fs, before, moved) && Emptied(d.fs, moved);
    assert moved[..|moved|] == moved;
    var i := |moved|;
    while i > 0
      invariant 0 <= i <= |moved| && d.sealed == old(d.sealed)
      invariant Unwinding(d.fs, before, moved, published)
      invariant RestoredOutside(old(d.fs), d.fs, before, moved)
      invariant errors == 0 ==> RestoredIn(d.fs, before, moved[i..])
      invariant clear ==> Unparkable(d.fs, before, moved[..i])
      invariant Collected(old(d.faults), d.faults, false, if clear then errors else 0)
    {
      i := i - 1;
      ghost var was := d.fs;
      var r := UnparkNth(d, i, moved, published, before);
      if r == Crashed { return true, errors; }
      if r == Threw { errors := errors + 1; }
      if errors == 0 { RestoredMore(was, d.fs, before, moved, i); }
    }
  }

  predicate RestoredIn(fs: Tree, before: Trees, names: seq<Slot>) {
    forall n: Slot :: n in names ==> Restored(fs, before.At(n), n)
  }

  lemma RestoredMore(was: Tree, now: Tree, before: Trees, moved: seq<Slot>, i: nat)
    requires i < |moved| && RestoredIn(was, before, moved[i + 1..]) && Apart(was, now, moved[i])
    requires Restored(now, before.At(moved[i]), moved[i])
    ensures RestoredIn(now, before, moved[i..])
  {
    OneLess(moved, i);
  }

  predicate Unparkable(fs: Tree, before: Trees, names: seq<Slot>) {
    AllParked(fs, before, names) && Emptied(fs, names)
  }

  predicate RestoredOutside(was: Tree, now: Tree, before: Trees, moved: seq<Slot>) {
    forall n: Slot :: n !in moved && Restored(was, before.At(n), n) ==> Restored(now, before.At(n), n)
  }

  method UnparkNth(d: Disk, i: nat, moved: seq<Slot>, published: seq<Slot>, ghost before: Trees) returns (r: Outcome)
    requires Unwinding(d.fs, before, moved, published) && NamesTrees(moved) && i < |moved|
    modifies d
    ensures d.sealed == old(d.sealed)
    ensures Unwinding(d.fs, before, moved, published) && Apart(old(d.fs), d.fs, moved[i])
    ensures r == Done ==> Restored(d.fs, before.At(moved[i]), moved[i])
    ensures Tame(old(d.faults), d.faults, r)
    ensures Unparkable(old(d.fs), before, moved[..i + 1]) ==> Steady(old(d.faults), d.faults, r) && Unparkable(d.fs, before, moved[..i])
  {
    OneLess(moved, i);
    r := Unpark(d, moved[i], moved, published, before);
    if Unparkable(old(d.fs), before, moved[..i + 1]) { StillParked(old(d.fs), d.fs, before, moved, i); }
  }

  lemma OneLess(moved: seq<Slot>, i: nat)
    requires i < |moved|
    ensures moved[i..] == [moved[i]] + moved[i + 1..] && moved[i] in moved[..i + 1]
  {
    assert moved[..i + 1][i] == moved[i];
  }

  lemma StillParked(was: Tree, now: Tree, before: Trees, moved: seq<Slot>, i: nat)
    requires i < |moved| && NamesTrees(moved) && Apart(was, now, moved[i])
    requires AllParked(was, before, moved[..i + 1]) && Emptied(was, moved[..i + 1])
    ensures AllParked(now, before, moved[..i]) && Emptied(now, moved[..i])
  {
    forall n: Slot | n in moved[..i] ensures Sub(now, Backup(n)) == before.At(n) && Sub(now, Live(n)) == map[] {
      assert n in moved[..i + 1] && n != moved[i];
    }
  }

  /** The catch block: errors are collected, not fatal; only a clean pass may discard the transaction,
      and it is clean if none of its own calls throws. */
  method Rollback(d: Disk, moved: seq<Slot>, published: seq<Slot>, ghost before: Trees)
    returns (crashed: bool, errors: nat)
    requires Unwinding(d.fs, before, moved, published) && Takeable(d.fs, before, moved, published)
    modifies d
    ensures d.sealed == old(d.sealed)
    ensures RollsBack(d.fs, before)
    ensures !crashed && errors == 0 ==> Settled(d.fs, before)
    ensures Collected(old(d.faults), d.faults, crashed, errors)
  {
    crashed, errors := RemoveAllPublished(d, moved, published, before);
    if crashed {
      UnwindingRollsBack(d.fs, before, moved, published);
      return;
    }
    var more;
    crashed, more := UnparkAll(d, moved, published, before);
    errors := errors + more;
    UnwindingRollsBack(d.fs, before, moved, published);
  }

  const CommittedText: Content := Bytes([0x63, 0x6f, 0x6d, 0x6d, 0x69, 0x74, 0x74, 0x65, 0x64, 0x0a])

  lemma Sealing(was: Tree, now: Tree, before: Trees, after: Trees, moved: seq<Slot>, published: seq<Slot>)
    requires Switching(was, before, after, moved, published) && TreeShaped(now) && CommitFrame(was, now, Committed)
    ensures Placed(now, before, after, moved, published)
    ensures Committed !in now ==> Logged(now, before, true)
    ensures (forall n: Slot :: n in published) && Committed in now && now[Committed].File? ==> RollsForward(now, after)
  {
    Layout(Node, Node);
    CommitFixed(was, now, Committed, StateFile);
    forall n: Slot
      ensures PlacedTree(now, before.At(n), after.At(n), n, n in moved, n in published)
      ensures n in published ==> Sub(now, Live(n)) == after.At(n)
    {
      assert PlacedTree(was, before.At(n), after.At(n), n, n in moved, n in published);
      LogCommit(was, now, Committed, n);
    }
  }

  method Seal(d: Disk, moved: seq<Slot>, published: seq<Slot>, ghost before: Trees, ghost after: Trees) returns (r: Outcome)
    requires Switching(d.fs, before, after, moved, published) && !d.sealed && forall n: Slot :: n in published
    modifies d
    ensures if d.sealed then RollsForward(d.fs, after) && Committed in d.fs else RollsBack(d.fs, before)
    ensures r == Done ==> d.sealed
    ensures r == Threw ==> !d.sealed && Placed(d.fs, before, after, moved, published) && Logged(d.fs, before, true)
    ensures Steady(old(d.faults), d.faults, r)
  {
    assert CanWrite(d.fs, Committed) by {
      assert Parent(Committed) == Root == Parent(NextRoot);
      assert NextRoot in d.fs && NextRoot != [];
    }
    r := CommitFile(d, Committed, CommittedText);
    Sealing(old(d.fs), d.fs, before, after, moved, published);
    if !d.sealed { PlacedRollsBack(d.fs, before, after, moved, published); }
  }

  /** Nothing but the two empty directories and the transaction file. */
  predicate Fresh(fs: Tree, before: Trees) {
    && Settled(fs, before) && !IsPublishing(fs) && Roomy(fs)
    && Sub(fs, NextRoot) == map[[] := Dir] && (forall n: Slot :: Sub(fs, Backup(n)) == map[])
  }

  /** Nothing below the transaction directory yet except `next` and `backup`. */
  predicate Opening(was: Tree, now: Tree) {
    && TreeShaped(now)
    && (forall k :: k in was ==> k in now && now[k] == was[k])
    && (forall k :: k in now && k !in was ==> now[k] == Dir && (k == Root || k == NextRoot || k == BackupRoot))
  }

  lemma PrefixesOfTwo(k: Path, p: Path)
    requires p == NextRoot || p == BackupRoot
    ensures k <= p ==> k == [] || k == Root || k == p
  {
    if k <= p {
      assert |k| == 1 ==> k == p[..1] == Root;
      assert |k| == 2 ==> k == p;
    }
  }

  lemma OpeningSub(was: Tree, now: Tree, p: Path)
    requires Opening(was, now) && p != [] && !(p <= Root) && !(p <= NextRoot) && !(p <= BackupRoot)
    ensures Sub(now, p) == Sub(was, p)
  {
    forall q ensures p + q in now <==> p + q in was {
      PrefixChain(p, q, Root);
      PrefixChain(p, q, NextRoot);
      PrefixChain(p, q, BackupRoot);
    }
  }

  method OpenTransaction(d: Disk) returns (r: Outcome)
    requires TreeShaped(d.fs) && Root !in d.fs
    modifies d`fs, d`faults
    ensures Opening(old(d.fs), d.fs)
    ensures r == Done ==> Roomy(d.fs)
    ensures Steady(old(d.faults), d.faults, r)
  {
    PresentIff(d.fs, Root);
    assert Root <= NextRoot && Root <= BackupRoot;
    assert Parent(NextRoot) == Parent(BackupRoot) == Root && Parent(Root) == [];
    assert |"next"| == 4 && |"backup"| == 6 && NextRoot[1] != BackupRoot[1];
    r := EnsureDirectory(d, Root);
    OpeningStep(old(d.fs), old(d.fs), d.fs, Root);
    if r != Done { return; }
    ghost var root := d.fs;
    r := EnsureDirectory(d, NextRoot);
    OpeningStep(old(d.fs), root, d.fs, NextRoot);
    if r != Done { return; }
    ghost var next := d.fs;
    r := EnsureDirectory(d, BackupRoot);
    OpeningStep(old(d.fs), next, d.fs, BackupRoot);
  }

  lemma OpeningStep(was: Tree, mid: Tree, now: Tree, p: Path)
    requires Opening(was, mid) && TreeShaped(now) && OnlyNewDirs(mid, now, p)
    requires p == Root || p == NextRoot || p == BackupRoot
    ensures Opening(was, now)
  {
    forall k | k in now && k !in mid ensures k == Root || k == NextRoot || k == BackupRoot {
      if p == Root {
        assert |k| == 1 ==> k == Root;
      } else {
        PrefixesOfTwo(k, p);
      }
    }
  }

  lemma OpenedSlots(was: Tree, now: Tree, n: Slot)
    requires TreeShaped(was) && Root !in was && Opening(was, now)
    ensures Sub(now, Live(n)) == Sub(was, Live(n)) && Sub(now, Backup(n)) == map[]
  {
    PresentIff(was, Root);
    Layout(n, n);
    assert Live(n)[0] != Root[0];
    OpeningSub(was, now, Live(n));
    OpeningSub(was, now, Backup(n));
    forall q ensures Backup(n) + q !in was { assert Root <= Backup(n) + q; }
  }

  lemma SecondNames()
    ensures NextRoot[1] != BackupRoot[1] && NextRoot[1] != StateFile[1] && NextRoot[1] != Committed[1]
    ensures BackupRoot[1] != StateFile[1] && BackupRoot[1] != Committed[1] && StateFile[1] != Committed[1]
    ensures Parent(NextRoot) == Parent(BackupRoot) == Parent(StateFile) == Parent(Committed) == Root
  {
    assert |"next"| == 4 && |"backup"| == 6 && |"state.json"| == 10 && |"committed"| == 9;
  }

  lemma OpenedNext(was: Tree, now: Tree)
    requires TreeShaped(was) && Root !in was && Opening(was, now) && IsDir(now, NextRoot)
    ensures Sub(now, NextRoot) == map[[] := Dir]
  {
    PresentIff(was, Root);
    SecondNames();
    assert NextRoot + [] == NextRoot;
    forall q | NextRoot + q in now ensures q == [] {
      assert Root <= NextRoot + q && (NextRoot + q)[1] == NextRoot[1];
    }
  }

  lemma OpenedUndecided(was: Tree, now: Tree)
    requires TreeShaped(was) && Root !in was && Opening(was, now)
    ensures Committed !in now && StateFile !in now
  {
    PresentIff(was, Root);
    SecondNames();
    assert Root <= Committed && Root <= StateFile;
  }

  lemma OpenedRollsBack(was: Tree, now: Tree, before: Trees)
    requires TreeShaped(was) && Root !in was && LiveIs(was, before) && Opening(was, now)
    ensures Settled(now, before) && StateFile !in now
  {
    OpenedUndecided(was, now);
    forall n: Slot ensures Sub(now, Live(n)) == before.At(n) {
      OpenedSlots(was, now, n);
    }
  }

  lemma OpenedFresh(was: Tree, now: Tree, before: Trees)
    requires TreeShaped(was) && Root !in was && LiveIs(was, before) && Opening(was, now) && Roomy(now)
    ensures Fresh(now, before) && CanWrite(now, StateFile)
  {
    OpenedRollsBack(was, now, before);
    OpenedNext(was, now);
    SecondNames();
    assert Root in now by { assert TreeShaped(now) && NextRoot in now; }
    forall n: Slot ensures Sub(now, Backup(n)) == map[] {
      OpenedSlots(was, now, n);
    }
  }

  lemma PreparedFresh(was: Tree, now: Tree, before: Trees, names: seq<Slot>, r: Outcome)
    requires Fresh(was, before) && StateFile !in was && TreeShaped(now)
    requires CommitFrame(was, now, StateFile) && ValidState(State(Prepared, names))
    requires Committing(was, now, StateFile, State(Prepared, names), r)
    ensures Fresh(now, before) && (r == Done ==> HasState(now) && CanWrite(now, StateFile))
  {
    SecondNames();
    CommitFixed(was, now, StateFile, Root);
    CommitFixed(was, now, StateFile, NextRoot);
    CommitFixed(was, now, StateFile, BackupRoot);
    CommitFixed(was, now, StateFile, Committed);
    Layout(Node, Node);
    CommitSub(was, now, StateFile, NextRoot);
    forall n: Slot ensures Sub(now, Live(n)) == before.At(n) && Sub(now, Backup(n)) == map[] {
      LogCommit(was, now, StateFile, n);
    }
  }

  lemma OpenedBelow(was: Tree, now: Tree)
    requires Opening(was, now)
    ensures OnlyBelow(was, now, Root)
  {
    assert Root <= Root && Root <= NextRoot && Root <= BackupRoot;
  }

  lemma CommitBelowRoot(was: Tree, now: Tree)
    requires [] in was && CommitFrame(was, now, StateFile)
    ensures OnlyBelow(was, now, Root)
  {
    forall k ensures StateFile <= k || Scratch(StateFile, k) ==> Root <= k
      ensures k <= StateFile ==> k in was || Root <= k
    {
      NearState(k);
    }
  }

  lemma NearState(k: Path)
    ensures StateFile <= k || Scratch(StateFile, k) ==> Root <= k
    ensures k <= StateFile ==> k == [] || Root <= k
  {
    assert StateFile[..1] == Root && Parent(StateFile) == Root;
    if StateFile <= k { assert k[..1] == StateFile[..1]; }
    if k <= StateFile && |k| >= 1 { assert k[0] == StateFile[0] == Root[0]; }
  }

  /** Everything before the first try: the live trees are not touched yet. */
  method Prepare(d: Disk, ghost before: Trees) returns (r: Outcome)
    requires TreeShaped(d.fs) && Root !in d.fs && LiveIs(d.fs, before)
    modifies d
    ensures Settled(d.fs, before) && d.sealed == old(d.sealed) && OnlyBelow(old(d.fs), d.fs, Root)
    ensures r == Done ==> Fresh(d.fs, before) && HasState(d.fs) && CanWrite(d.fs, StateFile)
    ensures Steady(old(d.faults), d.faults, r)
  {
    r := OpenTransaction(d);
    OpenedRollsBack(old(d.fs), d.fs, before);
    OpenedBelow(old(d.fs), d.fs);
    if r != Done { return; }
    OpenedFresh(old(d.fs), d.fs, before);
    var names;
    r, names := PresentTrees(d);
    if r != Done { return; }
    ghost var unlogged := d.fs;
    SecondNames();
    r := CommitFile(d, StateFile, State(Prepared, names));
    PreparedFresh(unlogged, d.fs, before, names, r);
    CommitBelowRoot(unlogged, d.fs);
    OnlyBelowTwice(old(d.fs), unlogged, d.fs, Root, Root);
  }

  /** The body of the inner try: log, park, switch, seal. */
  method Attempt(d: Disk, ghost before: Trees, ghost after: Trees)
    returns (r: Outcome, moved: seq<Slot>, published: seq<Slot>)
    requires Ready(d, before, after) && CanWrite(d.fs, StateFile)
    modifies d
    ensures if d.sealed then RollsForward(d.fs, after) && Committed in d.fs else RollsBack(d.fs, before)
    ensures r == Done ==> d.sealed
    ensures r == Threw ==> !d.sealed && Unwinding(d.fs, before, moved, published) && Takeable(d.fs, before, moved, published)
    ensures Steady(old(d.faults), d.faults, r)
  {
    moved, published := [], [];
    r := LogSwitch(d, before, after);
    PlacedRollsBack(d.fs, before, after, [], []);
    PlacedUnwinding(d.fs, before, after, [], []);
    if r != Done { return; }
    r, moved := ParkAll(d, before, after);
    PlacedRollsBack(d.fs, before, after, moved, []);
    PlacedUnwinding(d.fs, before, after, moved, []);
    if r != Done { return; }
    r, published := SwitchAll(d, moved, before, after);
    PlacedRollsBack(d.fs, before, after, moved, published);
    PlacedUnwinding(d.fs, before, after, moved, published);
    if r != Done { return; }
    r := Seal(d, moved, published, before, after);
    if r == Threw { PlacedUnwinding(d.fs, before, after, moved, published); }
  }

  /** One throw starts the catch block; only another one keeps it from taking everything back. */
  predicate RolledBack(was: seq<Fault>, now: seq<Fault>, complete: bool) {
    NoCrash(was) && !complete ==> Throws(now) + 2 <= Throws(was)
  }

  method SwitchTrees(d: Disk, ghost before: Trees, ghost after: Trees) returns (r: Outcome, rollbackComplete: bool)
    requires Ready(d, before, after) && CanWrite(d.fs, StateFile)
    modifies d
    ensures if d.sealed then RollsForward(d.fs, after) && Committed in d.fs else RollsBack(d.fs, before)
    ensures r == Done ==> d.sealed && rollbackComplete
    ensures r == Threw ==> !d.sealed && (rollbackComplete ==> Settled(d.fs, before))
    ensures Steady(old(d.faults), d.faults, r) && RolledBack(old(d.faults), d.faults, rollbackComplete)
  {
    var moved, published;
    r, moved, published := Attempt(d, before, after);
    rollbackComplete := r == Done;
    if r == Threw {
      var crashed, errors := Rollback(d, moved, published, before);
      if crashed { return Crashed, false; }
      rollbackComplete := errors == 0;
    }
  }

  /** Building `next` touches neither the log nor the trees of before. */
  lemma BuiltReady(was: Tree, now: Tree, before: Trees)
    requires Fresh(was, before) && HasState(was) && CanWrite(was, StateFile) && OnlyBelow(was, now, NextRoot) && TreeShaped(now)
    requires IsDir(now, NextRoot)
    ensures Settled(now, before) && Logged(now, before, false) && Roomy(now) && CanWrite(now, StateFile)
    ensures (forall n: Slot :: IsDir(now, Next(n))) ==> Placed(now, before, NextTrees(now), [], [])
  {
    forall n: Slot ensures Sub(now, Live(n)) == before.At(n) && Sub(now, Backup(n)) == map[] {
      BuiltSubs(was, now, before, n);
    }
    BuiltLog(was, now, before);
    forall n: Slot ensures IsDir(now, Next(n)) ==> PlacedTree(now, before.At(n), NextTrees(now).At(n), n, n in [], n in []) {
      PresentIff(now, Next(n));
    }
  }

  lemma BuiltSubs(was: Tree, now: Tree, before: Trees, n: Slot)
    requires Fresh(was, before) && OnlyBelow(was, now, NextRoot)
    ensures Sub(now, Live(n)) == before.At(n) && Sub(now, Backup(n)) == map[]
  {
    Layout(n, n);
    OnlyBelowSub(was, now, NextRoot, Live(n));
    OnlyBelowSub(was, now, NextRoot, Backup(n));
  }

  lemma BuiltLog(was: Tree, now: Tree, before: Trees)
    requires Fresh(was, before) && HasState(was) && CanWrite(was, StateFile) && OnlyBelow(was, now, NextRoot) && TreeShaped(now)
    requires IsDir(now, NextRoot) && LiveIs(now, before)
    ensures Committed !in now && HasState(now) && now[StateFile] == was[StateFile]
    ensures Roomy(now) && CanWrite(now, StateFile)
  {
    Layout(Node, Node);
    SecondNames();
    assert !(NextRoot <= Root);
    SameLengthDisjoint(NextRoot, BackupRoot);
  }

  lemma FreshCopying(fs: Tree, before: Trees)
    requires Fresh(fs, before)
    ensures Copying(fs, fs, 0)
  {
    forall k | k in fs && NextRoot <= k ensures k == NextRoot {
      Rejoin(NextRoot, k);
      assert k[2..] in Sub(fs, NextRoot);
    }
  }

  /** The body of the outer try. */
  method BuildAndSwitch(d: Disk, install: Install, marker: Content, ghost before: Trees)
    returns (r: Outcome, rollbackComplete: bool, ghost after: Trees)
    requires Fresh(d.fs, before) && HasState(d.fs) && CanWrite(d.fs, StateFile) && !d.sealed
    requires ValidFiles(install.files) && StageApart(install)
    modifies d
    ensures if d.sealed then RollsForward(d.fs, after) && Committed in d.fs else RollsBack(d.fs, before)
    ensures d.sealed ==> Built(LiveFiles(old(d.fs)), LiveFiles(d.fs), install.files, Staged(old(d.fs), install), marker)
    ensures r == Done ==> d.sealed && rollbackComplete
    ensures r == Threw ==> !d.sealed && (rollbackComplete ==> Settled(d.fs, before))
    ensures Tame(old(d.faults), d.faults, r) && RolledBack(old(d.faults), d.faults, rollbackComplete)
    ensures Buildable(old(d.fs), install) ==> Steady(old(d.faults), d.faults, r)
  {
    rollbackComplete := true;
    ghost var was := d.fs;
    FreshCopying(was, before);
    r := BuildNext(d, install, marker);
    BuiltReady(was, d.fs, before);
    ghost var built := d.fs;
    after := NextTrees(built);
    if r != Done { return; }
    r, rollbackComplete := SwitchTrees(d, before, after);
    if d.sealed { SwitchedView(built, d.fs); }
  }
}
