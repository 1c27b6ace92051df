/** Converting a value to something JSON can carry: objects on the way down are remembered,
    and meeting one of them again yields a marker instead of an endless descent. */
module JsonSafe {
  import opened Options

  type Ref = nat

  /** `Hidden` is a symbol or a function, `Raises` a property whose getter throws. */
  datatype Val = Big(n: int) | Hidden | Undefined | Prim(text: string) | Raises | At(ref: Ref)

  datatype Obj = Arr(items: seq<Val>) | Rec(keys: seq<string>, values: seq<Val>)

  datatype Json = JUndefined | JNull | JBig(n: int) | JPrim(text: string) | JCircular
    | JArr(items: seq<Json>) | JRec(keys: seq<string>, values: seq<Json>)

  type Heap = map<Ref, Obj>

  type Fields = (seq<string>, seq<Json>)

  /** Assigning to such a key of a plain object sets its prototype and makes no field. */
  const LOST: set<string> := {"__proto__"}

  function Assign(fields: Fields, key: string, j: Json, lost: set<string>): Fields {
    if key in lost then fields else (fields.0 + [key], fields.1 + [j])
  }

  function Children(o: Obj): seq<Val> { if o.Arr? then o.items else o.values }

  /** The values a result can show: those under keys that make a field. */
  function Kept(o: Obj, lost: set<string>): (vs: seq<Val>)
    ensures forall v :: v in vs ==> v in Children(o)
  {
    if o.Arr? then o.items else KeptValues(o.keys, o.values, lost)
  }

  function KeptValues(keys: seq<string>, values: seq<Val>, lost: set<string>): (vs: seq<Val>)
    ensures forall v :: v in vs ==> v in values
  {
    if |keys| != |values| || values == [] then []
    else
      var n := |values| - 1;
      KeptValues(keys[..n], values[..n], lost) + if keys[n] in lost then [] else [values[n]]
  }

  predicate In(h: Heap, v: Val) { v.At? ==> v.ref in h }

  predicate Closed(h: Heap) {
    forall r :: r in h ==> (h[r].Rec? ==> |h[r].keys| == |h[r].values|) && forall v :: v in Children(h[r]) ==> In(h, v)
  }

  predicate AllIn(h: Heap, vs: seq<Val>) { forall v :: v in vs ==> In(h, v) }

  // ───────────── the unfolding along a path ─────────────

  /** `None`: a getter on the way threw. */
  function Unfold(h: Heap, v: Val, path: set<Ref>, lost: set<string>): Option<Json>
    requires Closed(h) && In(h, v)
    decreases |h.Keys - path|, 0, 0
  {
    match v
    case Big(n) => Some(JBig(n))
    case Hidden => Some(JUndefined)
    case Undefined => Some(JUndefined)
    case Prim(text) => Some(JPrim(text))
    case Raises => None
    case At(r) =>
      if r in path then Some(JCircular)
      else
        Deeper(h, path, r);
        assert AllIn(h, Children(h[r]));
        match h[r]
        case Arr(items) =>
          (match UnfoldItems(h, items, path + {r}, lost)
           case Some(js) => Some(JArr(js))
           case None => None)
        case Rec(keys, values) =>
          (match UnfoldFields(h, keys, values, path + {r}, lost)
           case Some(fields) => Some(JRec(fields.0, fields.1))
           case None => None)
  }

  lemma Deeper(h: Heap, path: set<Ref>, r: Ref)
    requires r in h && r !in path
    ensures |h.Keys - (path + {r})| < |h.Keys - path|
  {
    assert h.Keys - path == (h.Keys - (path + {r})) + {r};
  }

  /** An array keeps its places: what has no JSON form becomes null. */
  function UnfoldItems(h: Heap, items: seq<Val>, path: set<Ref>, lost: set<string>): (r: Option<seq<Json>>)
    requires Closed(h) && AllIn(h, items)
    ensures r.Some? ==> |r.value| == |items|
    decreases |h.Keys - path|, 1, |items|
  {
    if items == [] then Some([])
    else
      match UnfoldItems(h, items[..|items| - 1], path, lost)
      case None => None
      case Some(js) =>
        match Unfold(h, items[|items| - 1], path, lost)
        case None => None
        case Some(j) => Some(js + [if j.JUndefined? then JNull else j])
  }

  /** A record drops such a field, and one whose key makes none; its value is converted all the same. */
  function UnfoldFields(h: Heap, keys: seq<string>, values: seq<Val>, path: set<Ref>, lost: set<string>): Option<Fields>
    requires Closed(h) && |keys| == |values| && AllIn(h, values)
    decreases |h.Keys - path|, 1, |values|
  {
    if values == [] then Some(([], []))
    else
      var n := |values| - 1;
      match UnfoldFields(h, keys[..n], values[..n], path, lost)
      case None => None
      case Some(fields) =>
        match Unfold(h, values[n], path, lost)
        case None => None
        case Some(j) => Some(if j.JUndefined? then fields else Assign(fields, keys[n], j, lost))
  }

  // ───────────── the conversion ─────────────

  class Converter {
    const heap: Heap
    var path: set<Ref>

    constructor (heap: Heap)
      ensures this.heap == heap && path == {}
    {
      this.heap := heap;
      path := {};
    }

    /** Leaves the path as it found it, also when a getter throws. */
    method Convert(v: Val) returns (r: Option<Json>)
      requires Closed(heap) && In(heap, v)
      modifies this
      ensures path == old(path) && r == Unfold(heap, v, path, LOST)
      decreases |heap.Keys - path|, 0
    {
      match v
      case Big(n) => return Some(JBig(n));
      case Hidden => return Some(JUndefined);
      case Undefined => return Some(JUndefined);
      case Prim(text) => return Some(JPrim(text));
      case Raises => return None;
      case At(ref) =>
        if ref in path { return Some(JCircular); }
        Deeper(heap, path, ref);
        ghost var outer := path;
        path := path + {ref};
        assert AllIn(heap, Children(heap[ref]));
        match heap[ref] {
          case Arr(items) =>
            var js := ConvertItems(items);
            r := if js.Some? then Some(JArr(js.value)) else None;
          case Rec(keys, values) =>
            var fields := ConvertFields(keys, values);
            r := if fields.Some? then Some(JRec(fields.value.0, fields.value.1)) else None;
        }
        path := path - {ref};
        assert path == outer;
    }

    method ConvertItems(items: seq<Val>) returns (r: Option<seq<Json>>)
      requires Closed(heap) && AllIn(heap, items)
      modifies this
      ensures path == old(path) && r == UnfoldItems(heap, items, path, LOST)
      decreases |heap.Keys - path|, 1
    {
      var js: seq<Json> := [];
      var i := 0;
      while i < |items|
        invariant 0 <= i <= |items| && path == old(path)
        invariant UnfoldItems(heap, items[..i], path, LOST) == Some(js)
      {
        ItemsStep(heap, items, path, i, js);
        ItemsStop(heap, items, path, i + 1);
        var j := Convert(items[i]);
        if j.None? { return None; }
        js := js + [if j.value.JUndefined? then JNull else j.value];
        i := i + 1;
      }
      assert items[..i] == items;
      r := Some(js);
    }

    method ConvertFields(keys: seq<string>, values: seq<Val>) returns (r: Option<Fields>)
      requires Closed(heap) && |keys| == |values| && AllIn(heap, values)
      modifies this
      ensures path == old(path) && r == UnfoldFields(heap, keys, values, path, LOST)
      decreases |heap.Keys - path|, 1
    {
      var out: Fields := ([], []);
      var i := 0;
      while i < |keys|
        invariant 0 <= i <= |keys| && path == old(path)
        invariant UnfoldFields(heap, keys[..i], values[..i], path, LOST) == Some(out)
      {
        assert keys[..i + 1][..i] == keys[..i] && values[..i + 1][..i] == values[..i];
        FieldsStop(heap, keys, values, path, i + 1);
        var j := Convert(values[i]);
        if j.None? { return None; }
        if !j.value.JUndefined? { out := Assign(out, keys[i], j.value, LOST); }
        i := i + 1;
      }
      assert keys[..i] == keys && values[..i] == values;
      r := Some(out);
    }
  }

  lemma ItemsStep(h: Heap, items: seq<Val>, path: set<Ref>, i: nat, js: seq<Json>)
    requires Closed(h) && AllIn(h, items) && i < |items| && UnfoldItems(h, items[..i], path, LOST) == Some(js)
    ensures var j := Unfold(h, items[i], path, LOST);
      UnfoldItems(h, items[..i + 1], path, LOST) == if j.None? then None else Some(js + [if j.value.JUndefined? then JNull else j.value])
  {
    assert items[..i + 1][..i] == items[..i];
  }

  /** A throw ends the array. */
  lemma {:induction false} ItemsStop(h: Heap, items: seq<Val>, path: set<Ref>, i: nat)
    requires Closed(h) && AllIn(h, items) && i <= |items|
    ensures UnfoldItems(h, items[..i], path, LOST).None? ==> UnfoldItems(h, items, path, LOST).None?
    decreases |items| - i
  {
    if i < |items| {
      assert items[..i + 1][..i] == items[..i];
      ItemsStop(h, items, path, i + 1);
    } else {
      assert items[..i] == items;
    }
  }

  lemma {:induction false} FieldsStop(h: Heap, keys: seq<string>, values: seq<Val>, path: set<Ref>, i: nat)
    requires Closed(h) && |keys| == |values| && AllIn(h, values) && i <= |values|
    ensures UnfoldFields(h, keys[..i], values[..i], path, LOST).None? ==>
      UnfoldFields(h, keys, values, path, LOST).None?
    decreases |values| - i
  {
    if i < |values| {
      assert keys[..i + 1][..i] == keys[..i] && values[..i + 1][..i] == values[..i];
      FieldsStop(h, keys, values, path, i + 1);
    } else {
      assert keys[..i] == keys && values[..i] == values;
    }
  }

  method JsonSafeValue(h: Heap, v: Val) returns (r: Option<Json>)
    requires Closed(h) && In(h, v)
    ensures r == Unfold(h, v, {}, LOST)
  {
    var c := new Converter(h);
    r := c.Convert(v);
  }

  // ───────────── where the marker appears ─────────────

  predicate HasCircular(j: Json) {
    match j
    case JCircular => true
    case JArr(items) => AnyCircular(items)
    case JRec(_, values) => AnyCircular(values)
    case _ => false
  }

  predicate AnyCircular(js: seq<Json>) {
    exists i :: 0 <= i < |js| && HasCircular(js[i])
  }

  /** A way down from `v`: every object on it is a child of the one before, under a key that makes a field. */
  predicate Walk(h: Heap, v: Val, w: seq<Ref>, lost: set<string>)
    requires Closed(h)
  {
    && w != [] && v == At(w[0]) && (forall i :: 0 <= i < |w| ==> w[i] in h)
    && (forall i :: 0 <= i < |w| - 1 ==> At(w[i + 1]) in Kept(h[w[i]], lost))
  }

  /** It ends on an object it has passed, or that was passed on the way to `v`. */
  predicate Repeats(w: seq<Ref>, path: set<Ref>)
    requires w != []
  {
    w[|w| - 1] in path || w[|w| - 1] in w[..|w| - 1]
  }

  ghost predicate Cyclic(h: Heap, v: Val, path: set<Ref>, lost: set<string>)
    requires Closed(h)
  {
    exists w :: Walk(h, v, w, lost) && Repeats(w, path)
  }

  lemma WalkDown(h: Heap, v: Val, c: Val, w: seq<Ref>, path: set<Ref>, lost: set<string>)
    requires Closed(h) && v.At? && v.ref in h && c in Kept(h[v.ref], lost)
    requires Walk(h, c, w, lost) && Repeats(w, path + {v.ref})
    ensures Cyclic(h, v, path, lost)
  {
    var x := [v.ref] + w;
    forall i | 0 <= i < |x| - 1 ensures At(x[i + 1]) in Kept(h[x[i]], lost) {
      if i > 0 { assert At(w[i]) in Kept(h[w[i - 1]], lost); }
    }
    assert x[..|x| - 1] == [v.ref] + w[..|w| - 1];
    assert Walk(h, v, x, lost) && Repeats(x, path);
  }

  lemma WalkUp(h: Heap, v: Val, w: seq<Ref>, path: set<Ref>, lost: set<string>) returns (c: Val)
    requires Closed(h) && v.At? && v.ref in h && v.ref !in path && Walk(h, v, w, lost) && Repeats(w, path)
    ensures c in Kept(h[v.ref], lost) && Cyclic(h, c, path + {v.ref}, lost)
  {
    assert |w| > 1;
    c := At(w[1]);
    var x := w[1..];
    assert At(w[0 + 1]) in Kept(h[w[0]], lost);
    forall i | 0 <= i < |x| - 1 ensures At(x[i + 1]) in Kept(h[x[i]], lost) {
      assert At(w[i + 2]) in Kept(h[w[i + 1]], lost);
    }
    assert w[..|w| - 1] == [w[0]] + x[..|x| - 1];
    assert Walk(h, c, x, lost) && Repeats(x, path + {v.ref});
  }

  /** Object by object: cyclic means already passed, or some child is cyclic. */
  lemma CyclicChildren(h: Heap, v: Val, path: set<Ref>, lost: set<string>)
    requires Closed(h) && In(h, v)
    ensures Cyclic(h, v, path, lost) <==>
      v.At? && (v.ref in path || exists c :: c in Kept(h[v.ref], lost) && Cyclic(h, c, path + {v.ref}, lost))
  {
    if v.At? {
      if v.ref in path {
        assert Walk(h, v, [v.ref], lost) && Repeats([v.ref], path);
      } else {
        forall w | Walk(h, v, w, lost) && Repeats(w, path)
          ensures exists c :: c in Kept(h[v.ref], lost) && Cyclic(h, c, path + {v.ref}, lost)
        {
          var c := WalkUp(h, v, w, path, lost);
        }
        forall c, w | c in Kept(h[v.ref], lost) && Walk(h, c, w, lost) && Repeats(w, path + {v.ref})
          ensures Cyclic(h, v, path, lost)
        {
          WalkDown(h, v, c, w, path, lost);
        }
      }
    }
  }

  /** The marker appears in the result exactly when some way down comes back to an object it
      has passed. Objects that are only shared never produce it. */
  lemma {:induction false} CircularIff(h: Heap, v: Val, path: set<Ref>, lost: set<string>)
    requires Closed(h) && In(h, v) && Unfold(h, v, path, lost).Some?
    ensures HasCircular(Unfold(h, v, path, lost).value) <==> Cyclic(h, v, path, lost)
    decreases |h.Keys - path|, 0, 0
  {
    CyclicChildren(h, v, path, lost);
    if v.At? && v.ref !in path {
      Deeper(h, path, v.ref);
      assert AllIn(h, Children(h[v.ref]));
      match h[v.ref]
      case Arr(items) => CircularItems(h, items, path + {v.ref}, lost);
      case Rec(keys, values) => CircularFields(h, keys, values, path + {v.ref}, lost);
    }
  }

  lemma {:induction false} CircularItems(h: Heap, items: seq<Val>, path: set<Ref>, lost: set<string>)
    requires Closed(h) && AllIn(h, items) && UnfoldItems(h, items, path, lost).Some?
    ensures AnyCircular(UnfoldItems(h, items, path, lost).value) <==> exists c :: c in items && Cyclic(h, c, path, lost)
    decreases |h.Keys - path|, 1, |items|
  {
    if items != [] {
      var n := |items| - 1;
      var js := UnfoldItems(h, items[..n], path, lost).value;
      var j := Unfold(h, items[n], path, lost).value;
      CircularItems(h, items[..n], path, lost);
      CircularIff(h, items[n], path, lost);
      AnyAppend(js, if j.JUndefined? then JNull else j);
      assert items == items[..n] + [items[n]];
    }
  }

  lemma {:induction false} CircularFields(h: Heap, keys: seq<string>, values: seq<Val>, path: set<Ref>, lost: set<string>)
    requires Closed(h) && |keys| == |values| && AllIn(h, values) && UnfoldFields(h, keys, values, path, lost).Some?
    ensures AnyCircular(UnfoldFields(h, keys, values, path, lost).value.1) <==>
      exists c :: c in KeptValues(keys, values, lost) && Cyclic(h, c, path, lost)
    decreases |h.Keys - path|, 1, |values|
  {
    if values != [] {
      var n := |values| - 1;
      var fields := UnfoldFields(h, keys[..n], values[..n], path, lost).value;
      var j := Unfold(h, values[n], path, lost).value;
      CircularFields(h, keys[..n], values[..n], path, lost);
      CircularIff(h, values[n], path, lost);
      AnyAppend(fields.1, j);
      assert values == values[..n] + [values[n]];
    }
  }

  lemma AnyAppend(js: seq<Json>, j: Json)
    ensures AnyCircular(js + [j]) <==> AnyCircular(js) || HasCircular(j)
  {
    var all := js + [j];
    if AnyCircular(js) {
      var i :| 0 <= i < |js| && HasCircular(js[i]);
      assert HasCircular(all[i]);
    }
    if HasCircular(j) { assert HasCircular(all[|js|]); }
  }

  // ───────────── without cycles: the plain expansion ─────────────

  /** The objects some way down from `v` comes to. */
  ghost function Reach(h: Heap, v: Val, lost: set<string>): set<Ref>
    requires Closed(h)
  {
    set r | r in h.Keys && Reaches(h, v, r, lost)
  }

  ghost predicate Reaches(h: Heap, v: Val, r: Ref, lost: set<string>)
    requires Closed(h)
  {
    exists w :: WalkTo(h, v, w, r, lost)
  }

  predicate WalkTo(h: Heap, v: Val, w: seq<Ref>, r: Ref, lost: set<string>)
    requires Closed(h)
  {
    Walk(h, v, w, lost) && w[|w| - 1] == r
  }

  lemma ReachDown(h: Heap, v: Val, c: Val, w: seq<Ref>, r: Ref, lost: set<string>)
    requires Closed(h) && v.At? && v.ref in h && c in Kept(h[v.ref], lost) && WalkTo(h, c, w, r, lost)
    ensures WalkTo(h, v, [v.ref] + w, r, lost)
  {
    var x := [v.ref] + w;
    forall i | 0 <= i < |x| - 1 ensures At(x[i + 1]) in Kept(h[x[i]], lost) {
      if i > 0 { assert At(w[i]) in Kept(h[w[i - 1]], lost); }
    }
  }

  lemma ReachBack(h: Heap, v: Val, c: Val, w: seq<Ref>, lost: set<string>)
    requires Closed(h) && v.At? && v.ref in h && c in Kept(h[v.ref], lost)
    ensures WalkTo(h, c, w, v.ref, lost) ==> Cyclic(h, v, {}, lost)
  {
    if WalkTo(h, c, w, v.ref, lost) {
      ReachDown(h, v, c, w, v.ref, lost);
      var x := [v.ref] + w;
      assert x[0] == v.ref && Walk(h, v, x, lost) && Repeats(x, {});
    }
  }

  lemma LongerPath(h: Heap, v: Val, path: set<Ref>, lost: set<string>)
    requires Closed(h)
    ensures Cyclic(h, v, {}, lost) ==> Cyclic(h, v, path, lost)
  {
    forall w | Walk(h, v, w, lost) && Repeats(w, {}) ensures Cyclic(h, v, path, lost) {
      assert Repeats(w, path);
    }
  }

  /** Below an object that is not cyclic, fewer objects are reached: not itself. */
  lemma ReachLess(h: Heap, v: Val, c: Val, lost: set<string>)
    requires Closed(h) && v.At? && v.ref in h && c in Kept(h[v.ref], lost) && !Cyclic(h, v, {}, lost)
    ensures Reach(h, c, lost) <= Reach(h, v, lost) && v.ref in Reach(h, v, lost) && v.ref !in Reach(h, c, lost)
    ensures |Reach(h, c, lost)| < |Reach(h, v, lost)|
  {
    forall r | r in Reach(h, c, lost) ensures r in Reach(h, v, lost) {
      var w :| WalkTo(h, c, w, r, lost);
      ReachDown(h, v, c, w, r, lost);
    }
    assert WalkTo(h, v, [v.ref], v.ref, lost);
    forall w ensures !WalkTo(h, c, w, v.ref, lost) { ReachBack(h, v, c, w, lost); }
    Smaller(Reach(h, c, lost), Reach(h, v, lost), v.ref);
  }

  lemma {:induction false} Smaller(a: set<Ref>, b: set<Ref>, x: Ref)
    requires a <= b && x in b && x !in a
    ensures |a| < |b|
    decreases |a|
  {
    if a != {} {
      var y :| y in a;
      Smaller(a - {y}, b - {y}, x);
    }
  }

  /** A child of something that is not cyclic is not cyclic, seen from anywhere outside. */
  lemma AcyclicChild(h: Heap, v: Val, c: Val, lost: set<string>)
    requires Closed(h) && v.At? && v.ref in h && c in Kept(h[v.ref], lost) && !Cyclic(h, v, {}, lost)
    ensures !Cyclic(h, c, {}, lost)
  {
    assert In(h, c) by { assert c in Kept(h[v.ref], lost); }
    CyclicChildren(h, v, {}, lost);
    assert !Cyclic(h, c, {} + {v.ref}, lost);
    LongerPath(h, c, {} + {v.ref}, lost);
  }

  ghost predicate AllAcyclic(h: Heap, vs: seq<Val>, top: nat, lost: set<string>)
    requires Closed(h)
  {
    forall v :: v in vs ==> !Cyclic(h, v, {}, lost) && |Reach(h, v, lost)| < top
  }

  lemma AcyclicChildren(h: Heap, v: Val, lost: set<string>)
    requires Closed(h) && v.At? && v.ref in h && !Cyclic(h, v, {}, lost)
    ensures AllIn(h, Kept(h[v.ref], lost)) && AllAcyclic(h, Kept(h[v.ref], lost), |Reach(h, v, lost)|, lost)
  {
    forall c | c in Kept(h[v.ref], lost) ensures !Cyclic(h, c, {}, lost) && |Reach(h, c, lost)| < |Reach(h, v, lost)| {
      AcyclicChild(h, v, c, lost);
      ReachLess(h, v, c, lost);
    }
  }

  /** Every occurrence written out, shared or not; no path is remembered. Cycles that no way down
      comes to do not matter, and neither do values that raise. */
  function Expand(h: Heap, v: Val, lost: set<string>): Json
    requires Closed(h) && In(h, v) && !Cyclic(h, v, {}, lost)
    decreases |Reach(h, v, lost)|, 1, 0
  {
    match v
    case Big(n) => JBig(n)
    case Prim(text) => JPrim(text)
    case At(r) =>
      AcyclicChildren(h, v, lost);
      (match h[r]
       case Arr(items) => JArr(ExpandItems(h, items, |Reach(h, v, lost)|, lost))
       case Rec(keys, values) =>
         var fields := ExpandFields(h, keys, values, |Reach(h, v, lost)|, lost);
         JRec(fields.0, fields.1))
    case _ => JUndefined
  }

  function ExpandItems(h: Heap, items: seq<Val>, ghost top: nat, lost: set<string>): seq<Json>
    requires Closed(h) && AllIn(h, items) && AllAcyclic(h, items, top, lost)
    decreases top, 0, |items|
  {
    if items == [] then []
    else
      var j := Expand(h, items[|items| - 1], lost);
      ExpandItems(h, items[..|items| - 1], top, lost) + [if j.JUndefined? then JNull else j]
  }

  function ExpandFields(h: Heap, keys: seq<string>, values: seq<Val>, ghost top: nat, lost: set<string>): Fields
    requires Closed(h) && |keys| == |values| && AllIn(h, values) && AllAcyclic(h, KeptValues(keys, values, lost), top, lost)
    decreases top, 0, |values|
  {
    if values == [] then ([], [])
    else
      var n := |values| - 1;
      var fields := ExpandFields(h, keys[..n], values[..n], top, lost);
      if keys[n] in lost then fields
      else
        assert values[n] in KeptValues(keys, values, lost);
        var j := Expand(h, values[n], lost);
        if j.JUndefined? then fields else Assign(fields, keys[n], j, lost)
  }

  /** No way down from `v` comes to an object of the path. */
  ghost predicate Clear(h: Heap, v: Val, path: set<Ref>, lost: set<string>)
    requires Closed(h)
  {
    !Cyclic(h, v, {}, lost) && Reach(h, v, lost) * path == {}
  }

  lemma ClearChild(h: Heap, v: Val, c: Val, path: set<Ref>, lost: set<string>)
    requires Closed(h) && v.At? && v.ref in h && c in Kept(h[v.ref], lost) && Clear(h, v, path, lost)
    ensures Clear(h, c, path + {v.ref}, lost)
  {
    AcyclicChild(h, v, c, lost);
    ReachLess(h, v, c, lost);
  }

  ghost predicate AllClear(h: Heap, vs: seq<Val>, path: set<Ref>, lost: set<string>)
    requires Closed(h)
  {
    forall v :: v in vs ==> Clear(h, v, path, lost)
  }

  /** On a value from which no way down comes back, remembering the path changes nothing. */
  lemma AcyclicExpands(h: Heap, v: Val, lost: set<string>)
    requires Closed(h) && In(h, v) && !Cyclic(h, v, {}, lost)
    ensures Unfold(h, v, {}, lost).Some? ==> Unfold(h, v, {}, lost).value == Expand(h, v, lost)
  {
    ClearExpands(h, v, {}, lost);
  }

  lemma {:induction false} ClearExpands(h: Heap, v: Val, path: set<Ref>, lost: set<string>)
    requires Closed(h) && In(h, v) && Clear(h, v, path, lost)
    ensures Unfold(h, v, path, lost).Some? ==> Unfold(h, v, path, lost).value == Expand(h, v, lost)
    decreases |Reach(h, v, lost)|, 1, 0
  {
    if v.At? {
      assert WalkTo(h, v, [v.ref], v.ref, lost) && v.ref in Reach(h, v, lost) && v.ref !in path;
      AcyclicChildren(h, v, lost);
      assert AllIn(h, Children(h[v.ref]));
      forall c | c in Kept(h[v.ref], lost) ensures Clear(h, c, path + {v.ref}, lost) { ClearChild(h, v, c, path, lost); }
      match h[v.ref]
      case Arr(items) => ClearItems(h, items, path + {v.ref}, |Reach(h, v, lost)|, lost);
      case Rec(keys, values) => ClearFields(h, keys, values, path + {v.ref}, |Reach(h, v, lost)|, lost);
    }
  }

  lemma {:induction false} ClearItems(h: Heap, items: seq<Val>, path: set<Ref>, top: nat, lost: set<string>)
    requires Closed(h) && AllIn(h, items) && AllAcyclic(h, items, top, lost) && AllClear(h, items, path, lost)
    ensures UnfoldItems(h, items, path, lost).Some? ==>
      UnfoldItems(h, items, path, lost).value == ExpandItems(h, items, top, lost)
    decreases top, 0, |items|
  {
    if items != [] {
      ClearItems(h, items[..|items| - 1], path, top, lost);
      ClearExpands(h, items[|items| - 1], path, lost);
    }
  }

  lemma {:induction false} ClearFields(h: Heap, keys: seq<string>, values: seq<Val>, path: set<Ref>, top: nat, lost: set<string>)
    requires Closed(h) && |keys| == |values| && AllIn(h, values)
    requires AllAcyclic(h, KeptValues(keys, values, lost), top, lost) && AllClear(h, KeptValues(keys, values, lost), path, lost)
    ensures UnfoldFields(h, keys, values, path, lost).Some? ==>
      UnfoldFields(h, keys, values, path, lost).value == ExpandFields(h, keys, values, top, lost)
    decreases top, 0, |values|
  {
    if values != [] {
      var n := |values| - 1;
      ClearFields(h, keys[..n], values[..n], path, top, lost);
      if keys[n] !in lost {
        assert values[n] in KeptValues(keys, values, lost);
        ClearExpands(h, values[n], path, lost);
      }
    }
  }
}
