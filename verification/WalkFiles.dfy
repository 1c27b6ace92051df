/** What the full walk finds: the test files that names lead to. */
module WalkFiles {
  import opened ExcludeWalk

  /** The names lead from a directory through directories to a test file, and none is skipped. */
  predicate Leads(rules: Rules, t: Node, names: seq<string>)
    decreases |names|
  {
    names != [] && t.Dir? && exists i :: 0 <= i < |t.entries| && LeadsAt(rules, t, names, i)
  }

  predicate LeadsAt(rules: Rules, t: Node, names: seq<string>, i: nat)
    requires names != [] && t.Dir? && i < |t.entries|
    decreases |names|, 0
  {
    && t.entries[i].0 == names[0] && !rules.skip(names[0])
    && if |names| == 1 then t.entries[i].1.File? && rules.test(names[0]) else Leads(rules, t.entries[i].1, names[1..])
  }

  function PathOf(dir: string, names: seq<string>): string
    decreases |names|
  {
    if names == [] then dir else PathOf(Join(dir, names[0]), names[1..])
  }

  predicate IsFound(rules: Rules, dir: string, t: Node, names: seq<string>, p: string) {
    Leads(rules, t, names) && p == PathOf(dir, names)
  }

  lemma {:induction false} EntryAmong(rules: Rules, dir: string, t: Node, n: nat, i: nat, p: string)
    requires t.Dir? && i < n <= |t.entries| && p in TestsAt(rules, Join(dir, t.entries[i].0), t.entries[i].0, t.entries[i].1)
    ensures p in AllTests(rules, dir, t, n)
    decreases n
  {
    if i < n - 1 { EntryAmong(rules, dir, t, n - 1, i, p); }
  }

  /** The walk finds what names lead to. */
  lemma {:induction false} LedTo(rules: Rules, dir: string, t: Node, names: seq<string>)
    requires Leads(rules, t, names)
    ensures PathOf(dir, names) in TestsBelow(rules, dir, t)
    decreases |names|
  {
    var i :| 0 <= i < |t.entries| && LeadsAt(rules, t, names, i);
    var full := Join(dir, names[0]);
    if |names| == 1 {
      assert names[1..] == [] && PathOf(dir, names) == full;
    } else {
      LedTo(rules, full, t.entries[i].1, names[1..]);
    }
    EntryAmong(rules, dir, t, |t.entries|, i, PathOf(dir, names));
  }

  /** And to what it finds, names lead. */
  lemma {:induction false} FoundLeads(rules: Rules, dir: string, t: Node, n: nat, p: string) returns (names: seq<string>)
    requires t.Dir? && n <= |t.entries| && p in AllTests(rules, dir, t, n)
    ensures IsFound(rules, dir, t, names, p)
    decreases t, n
  {
    var (name, entry) := t.entries[n - 1];
    var full := Join(dir, name);
    if p in AllTests(rules, dir, t, n - 1) {
      names := FoundLeads(rules, dir, t, n - 1, p);
    } else if entry.File? {
      names := [name];
      assert names[1..] == [] && LeadsAt(rules, t, names, n - 1);
    } else {
      var more := FoundLeads(rules, full, entry, |entry.entries|, p);
      names := [name] + more;
      assert names[1..] == more && LeadsAt(rules, t, names, n - 1);
    }
  }

  lemma FoundIff(rules: Rules, dir: string, t: Node, p: string)
    requires t.Dir?
    ensures p in TestsBelow(rules, dir, t) <==> exists names :: IsFound(rules, dir, t, names, p)
  {
    if p in TestsBelow(rules, dir, t) {
      var names := FoundLeads(rules, dir, t, |t.entries|, p);
    }
    forall names | IsFound(rules, dir, t, names, p) ensures p in TestsBelow(rules, dir, t) {
      LedTo(rules, dir, t, names);
    }
  }
}
