/** Which conversions throw, and which lose a field. Both depend on nothing but the objects some
    way down comes to. */
module JsonLoss {
  import opened JsonSafe
  import opened Options

  // ───────────── ways down that meet nothing twice ─────────────

  predicate Simple(w: seq<Ref>, path: set<Ref>) {
    && (forall i :: 0 <= i < |w| ==> w[i] !in path)
    && (forall i, j :: 0 <= i < j < |w| ==> w[i] != w[j])
  }

  predicate SimpleWalk(h: Heap, v: Val, w: seq<Ref>, path: set<Ref>, bad: set<Ref>, lost: set<string>)
    requires Closed(h)
  {
    Walk(h, v, w, lost) && Simple(w, path) && w[|w| - 1] in bad
  }

  /** The conversion comes to one of these objects. */
  ghost predicate Meets(h: Heap, v: Val, path: set<Ref>, bad: set<Ref>, lost: set<string>)
    requires Closed(h)
  {
    exists w :: SimpleWalk(h, v, w, path, bad, lost)
  }

  lemma MeetsDown(h: Heap, v: Val, c: Val, w: seq<Ref>, path: set<Ref>, bad: set<Ref>, lost: set<string>)
    requires Closed(h) && v.At? && v.ref in h && v.ref !in path && c in Kept(h[v.ref], lost)
    requires SimpleWalk(h, c, w, path + {v.ref}, bad, lost)
    ensures SimpleWalk(h, v, [v.ref] + w, path, bad, lost)
  {
    var x := [v.ref] + w;
    forall i | 0 <= i < |x| - 1 ensures At(x[i + 1]) in Kept(h[x[i]], lost) {
      if i > 0 { assert At(w[i]) in Kept(h[w[i - 1]], lost); }
    }
    forall i, j | 0 <= i < j < |x| ensures x[i] != x[j] { assert w[j - 1] !in path + {v.ref}; }
    forall i | 0 <= i < |x| ensures x[i] !in path { if i > 0 { assert w[i - 1] !in path + {v.ref}; } }
  }

  lemma MeetsUp(h: Heap, v: Val, w: seq<Ref>, path: set<Ref>, bad: set<Ref>, lost: set<string>) returns (c: Val)
    requires Closed(h) && v.At? && SimpleWalk(h, v, w, path, bad, lost) && v.ref !in bad
    ensures c in Kept(h[v.ref], lost) && Meets(h, c, path + {v.ref}, bad, lost)
  {
    assert |w| > 1;
    var x := w[1..];
    c := At(x[0]);
    assert At(w[0 + 1]) in Kept(h[w[0]], lost);
    forall i | 0 <= i < |x| - 1 ensures At(x[i + 1]) in Kept(h[x[i]], lost) {
      assert At(w[i + 1 + 1]) in Kept(h[w[i + 1]], lost);
    }
    forall i | 0 <= i < |x| ensures x[i] !in path + {v.ref} { assert w[i + 1] !in path && w[0] != w[i + 1]; }
    assert SimpleWalk(h, c, x, path + {v.ref}, bad, lost);
  }

  lemma MeetsChildren(h: Heap, v: Val, path: set<Ref>, bad: set<Ref>, lost: set<string>)
    requires Closed(h) && v.At? && v.ref in h && v.ref !in path
    ensures Meets(h, v, path, bad, lost) <==>
      v.ref in bad || exists c :: c in Kept(h[v.ref], lost) && Meets(h, c, path + {v.ref}, bad, lost)
  {
    if v.ref in bad {
      assert SimpleWalk(h, v, [v.ref], path, bad, lost);
    } else if Meets(h, v, path, bad, lost) {
      var w :| SimpleWalk(h, v, w, path, bad, lost);
      var c := MeetsUp(h, v, w, path, bad, lost);
    } else {
      forall c, w | c in Kept(h[v.ref], lost) && SimpleWalk(h, c, w, path + {v.ref}, bad, lost)
        ensures Meets(h, v, path, bad, lost)
      {
        MeetsDown(h, v, c, w, path, bad, lost);
      }
    }
  }

  lemma MeetsNothing(h: Heap, v: Val, path: set<Ref>, bad: set<Ref>, lost: set<string>)
    requires Closed(h) && (v.At? ==> v.ref in path)
    ensures !Meets(h, v, path, bad, lost)
  {
  }

  /** Whatever is reached at all is reached without meeting anything twice. */
  lemma {:induction false} Shortened(h: Heap, v: Val, w: seq<Ref>, bad: set<Ref>, lost: set<string>)
    requires Closed(h) && Walk(h, v, w, lost) && w[|w| - 1] in bad
    ensures Meets(h, v, {}, bad, lost)
    decreases |w|
  {
    if i, j :| 0 <= i < j < |w| && w[i] == w[j] {
      var x := w[..i] + w[j..];
      forall k | 0 <= k < |x| - 1 ensures At(x[k + 1]) in Kept(h[x[k]], lost) {
        if k < i {
          assert x[k] == w[k] && x[k + 1] == w[k + 1];
        } else {
          assert x[k] == w[k - i + j] && x[k + 1] == w[k - i + j + 1];
        }
      }
      assert x[0] == w[0] && x[|x| - 1] == w[|w| - 1];
      Shortened(h, v, x, bad, lost);
    } else {
      assert SimpleWalk(h, v, w, {}, bad, lost);
    }
  }

  lemma MeetsReached(h: Heap, v: Val, bad: set<Ref>, lost: set<string>)
    requires Closed(h)
    ensures Meets(h, v, {}, bad, lost) <==> exists r :: r in bad && r in Reach(h, v, lost)
  {
    if r :| r in bad && r in Reach(h, v, lost) {
      var w :| WalkTo(h, v, w, r, lost);
      Shortened(h, v, w, bad, lost);
    }
    if Meets(h, v, {}, bad, lost) {
      var w :| SimpleWalk(h, v, w, {}, bad, lost);
      assert WalkTo(h, v, w, w[|w| - 1], lost);
    }
  }

  // ───────────── throwing ─────────────

  function Throwing(h: Heap): set<Ref> { set r | r in h && Raises in Children(h[r]) }

  ghost predicate Throws(h: Heap, v: Val, path: set<Ref>)
    requires Closed(h)
  {
    v.Raises? || Meets(h, v, path, Throwing(h), {})
  }

  /** Without keys that make no field every child is kept. */
  lemma {:induction false} AllKept(keys: seq<string>, values: seq<Val>)
    requires |keys| == |values|
    ensures KeptValues(keys, values, {}) == values
    decreases |values|
  {
    if values != [] {
      var n := |values| - 1;
      AllKept(keys[..n], values[..n]);
      assert values == values[..n] + [values[n]];
    }
  }

  lemma {:induction false} ThrowsWithin(h: Heap, v: Val, path: set<Ref>, lost: set<string>)
    requires Closed(h) && In(h, v)
    ensures Unfold(h, v, path, lost).None? <==> Throws(h, v, path)
    decreases |h.Keys - path|, 0, 0
  {
    if v.At? && v.ref !in path {
      Deeper(h, path, v.ref);
      assert AllIn(h, Children(h[v.ref]));
      MeetsChildren(h, v, path, Throwing(h), {});
      match h[v.ref]
      case Arr(items) => ThrowsItems(h, items, path + {v.ref}, lost);
      case Rec(keys, values) =>
        AllKept(keys, values);
        ThrowsFields(h, keys, values, path + {v.ref}, lost);
    } else {
      MeetsNothing(h, v, path, Throwing(h), {});
    }
  }

  lemma {:induction false} ThrowsItems(h: Heap, items: seq<Val>, path: set<Ref>, lost: set<string>)
    requires Closed(h) && AllIn(h, items)
    ensures UnfoldItems(h, items, path, lost).None? <==> exists c :: c in items && Throws(h, c, path)
    decreases |h.Keys - path|, 1, |items|
  {
    if items != [] {
      var n := |items| - 1;
      ThrowsItems(h, items[..n], path, lost);
      ThrowsWithin(h, items[n], path, lost);
      assert items == items[..n] + [items[n]];
    }
  }

  lemma {:induction false} ThrowsFields(h: Heap, keys: seq<string>, values: seq<Val>, path: set<Ref>, lost: set<string>)
    requires Closed(h) && |keys| == |values| && AllIn(h, values)
    ensures UnfoldFields(h, keys, values, path, lost).None? <==> exists c :: c in values && Throws(h, c, path)
    decreases |h.Keys - path|, 1, |values|
  {
    if values != [] {
      var n := |values| - 1;
      ThrowsFields(h, keys[..n], values[..n], path, lost);
      ThrowsWithin(h, values[n], path, lost);
      assert values == values[..n] + [values[n]];
    }
  }

  /** The conversion throws exactly if some way down, whatever the keys on it, comes to an object
      one of whose getters throws. */
  lemma ThrowsIff(h: Heap, v: Val, lost: set<string>)
    requires Closed(h) && In(h, v)
    ensures Unfold(h, v, {}, lost).None? <==> v.Raises? || exists r :: r in Reach(h, v, {}) && Raises in Children(h[r])
  {
    ThrowsWithin(h, v, {}, lost);
    MeetsReached(h, v, Throwing(h), {});
  }

  // ───────────── losing a field ─────────────

  /** The rest has a JSON form, unless converting it throws. */
  predicate Shows(v: Val) { !v.Hidden? && !v.Undefined? }

  predicate LosesField(keys: seq<string>, values: seq<Val>, lost: set<string>)
    requires |keys| == |values|
  {
    exists i :: 0 <= i < |keys| && keys[i] in lost && Shows(values[i])
  }

  predicate Loses(o: Obj, lost: set<string>) {
    o.Rec? && |o.keys| == |o.values| && LosesField(o.keys, o.values, lost)
  }

  function Losing(h: Heap, lost: set<string>): set<Ref> { set r | r in h && Loses(h[r], lost) }

  lemma ShowsIff(h: Heap, v: Val, path: set<Ref>, lost: set<string>)
    requires Closed(h) && In(h, v) && Unfold(h, v, path, lost).Some?
    ensures Shows(v) <==> !Unfold(h, v, path, lost).value.JUndefined?
  {
  }

  /** The keys of a record's result: those with a JSON form, but for the ones that make no field. */
  lemma {:induction false} FieldKeys(h: Heap, keys: seq<string>, values: seq<Val>, path: set<Ref>, lost: set<string>)
    requires Closed(h) && |keys| == |values| && AllIn(h, values) && UnfoldFields(h, keys, values, path, lost).Some?
    ensures forall k :: k in UnfoldFields(h, keys, values, path, lost).value.0 <==>
      k !in lost && exists i :: 0 <= i < |keys| && keys[i] == k && Shows(values[i])
    decreases |values|
  {
    if values != [] {
      var n := |values| - 1;
      FieldKeys(h, keys[..n], values[..n], path, lost);
      ShowsIff(h, values[n], path, lost);
    }
  }

  /** Every field with a JSON form is kept if and only if none of them is under a key that makes
      no field. */
  lemma FieldsKeptIff(h: Heap, keys: seq<string>, values: seq<Val>, path: set<Ref>, lost: set<string>)
    requires Closed(h) && |keys| == |values| && AllIn(h, values) && UnfoldFields(h, keys, values, path, lost).Some?
    ensures !LosesField(keys, values, lost) <==>
      forall i :: 0 <= i < |keys| && Shows(values[i]) ==> keys[i] in UnfoldFields(h, keys, values, path, lost).value.0
  {
    FieldKeys(h, keys, values, path, lost);
  }

  /** The conversion is the one that would lose no field. */
  predicate Same(h: Heap, v: Val, path: set<Ref>, lost: set<string>)
    requires Closed(h) && In(h, v)
  {
    Unfold(h, v, path, lost) == Unfold(h, v, path, {})
  }

  lemma {:induction false} SameWithin(h: Heap, v: Val, path: set<Ref>, lost: set<string>)
    requires Closed(h) && In(h, v) && Unfold(h, v, path, lost).Some?
    ensures Same(h, v, path, lost) <==> !Meets(h, v, path, Losing(h, lost), lost)
    decreases |h.Keys - path|, 0, 0
  {
    ThrowsWithin(h, v, path, lost);
    ThrowsWithin(h, v, path, {});
    if v.At? && v.ref !in path {
      Deeper(h, path, v.ref);
      assert AllIn(h, Children(h[v.ref]));
      MeetsChildren(h, v, path, Losing(h, lost), lost);
      match h[v.ref]
      case Arr(items) => SameItems(h, items, path + {v.ref}, lost);
      case Rec(keys, values) => SameFields(h, keys, values, path + {v.ref}, lost);
    } else {
      MeetsNothing(h, v, path, Losing(h, lost), lost);
    }
  }

  lemma {:induction false} SameItems(h: Heap, items: seq<Val>, path: set<Ref>, lost: set<string>)
    requires Closed(h) && AllIn(h, items)
    requires UnfoldItems(h, items, path, lost).Some? && UnfoldItems(h, items, path, {}).Some?
    ensures UnfoldItems(h, items, path, lost) == UnfoldItems(h, items, path, {}) <==>
      forall c :: c in items ==> !Meets(h, c, path, Losing(h, lost), lost)
    decreases |h.Keys - path|, 1, |items|
  {
    if items != [] {
      var n := |items| - 1;
      SameItems(h, items[..n], path, lost);
      SameWithin(h, items[n], path, lost);
      ShowsIff(h, items[n], path, lost);
      ShowsIff(h, items[n], path, {});
      Appended(UnfoldItems(h, items[..n], path, lost).value, UnfoldItems(h, items[..n], path, {}).value,
        Placed(Unfold(h, items[n], path, lost).value), Placed(Unfold(h, items[n], path, {}).value));
      assert items == items[..n] + [items[n]];
    }
  }

  function Placed(j: Json): Json { if j.JUndefined? then JNull else j }

  lemma Appended<T>(s: seq<T>, t: seq<T>, x: T, y: T)
    ensures s + [x] == t + [y] <==> s == t && x == y
  {
    if s + [x] == t + [y] {
      assert s == (s + [x])[..|s|] && t == (t + [y])[..|t|];
      assert x == (s + [x])[|s|] && y == (t + [y])[|t|];
    }
  }

  lemma {:induction false} SameFields(h: Heap, keys: seq<string>, values: seq<Val>, path: set<Ref>, lost: set<string>)
    requires Closed(h) && |keys| == |values| && AllIn(h, values)
    requires UnfoldFields(h, keys, values, path, lost).Some? && UnfoldFields(h, keys, values, path, {}).Some?
    ensures |UnfoldFields(h, keys, values, path, lost).value.0| <= |UnfoldFields(h, keys, values, path, {}).value.0|
    ensures UnfoldFields(h, keys, values, path, lost) == UnfoldFields(h, keys, values, path, {}) <==>
      !LosesField(keys, values, lost)
      && forall c :: c in KeptValues(keys, values, lost) ==> !Meets(h, c, path, Losing(h, lost), lost)
    decreases |h.Keys - path|, 1, |values|
  {
    if values != [] {
      var n := |values| - 1;
      SameFields(h, keys[..n], values[..n], path, lost);
      SameWithin(h, values[n], path, lost);
      ShowsIff(h, values[n], path, lost);
      ShowsIff(h, values[n], path, {});
      var f := UnfoldFields(h, keys[..n], values[..n], path, lost).value;
      var g := UnfoldFields(h, keys[..n], values[..n], path, {}).value;
      var j, k := Unfold(h, values[n], path, lost).value, Unfold(h, values[n], path, {}).value;
      Appended(f.0, g.0, keys[n], keys[n]);
      Appended(f.1, g.1, j, k);
      LosesLast(keys, values, lost);
    }
  }

  lemma LosesLast(keys: seq<string>, values: seq<Val>, lost: set<string>)
    requires |keys| == |values| >= 1
    ensures var n := |values| - 1;
      LosesField(keys, values, lost) <==> LosesField(keys[..n], values[..n], lost) || (keys[n] in lost && Shows(values[n]))
  {
    var n := |values| - 1;
    if i :| 0 <= i < n && keys[i] in lost && Shows(values[i]) {
      assert keys[..n][i] in lost && Shows(values[..n][i]);
    }
  }

  /** The whole result loses nothing, at any depth, if and only if no way down comes to a record
      with such a field. */
  lemma NothingLostIff(h: Heap, v: Val, lost: set<string>)
    requires Closed(h) && In(h, v) && Unfold(h, v, {}, lost).Some?
    ensures Unfold(h, v, {}, lost) == Unfold(h, v, {}, {}) <==> forall r :: r in Reach(h, v, lost) ==> !Loses(h[r], lost)
  {
    SameWithin(h, v, {}, lost);
    MeetsReached(h, v, Losing(h, lost), lost);
  }

  /** An own `__proto__`, as parsing JSON makes one, is not in the result. */
  lemma ProtoLost(n: string)
    ensures var h := map[0 := Rec(["__proto__"], [Prim(n)])];
      Closed(h) && Unfold(h, At(0), {}, LOST) == Some(JRec([], []))
      && Unfold(h, At(0), {}, {}) == Some(JRec(["__proto__"], [JPrim(n)]))
  {
    var h := map[0 := Rec(["__proto__"], [Prim(n)])];
    var keys, values := ["__proto__"], [Prim(n)];
    assert Closed(h);
    assert keys[..0] == [] && values[..0] == [];
    assert [] + ["__proto__"] == ["__proto__"] && [] + [JPrim(n)] == [JPrim(n)];
    assert UnfoldFields(h, keys, values, {} + {0}, LOST) == Some(([], []));
    assert UnfoldFields(h, keys, values, {} + {0}, {}) == Some((["__proto__"], [JPrim(n)]));
  }
}
