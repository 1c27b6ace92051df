/** Maps that remember insertion order, as the inspector's tables are. */
module InsertionMap {
  import opened Options

  type Id = string

  type Table<V> = seq<(Id, V)>

  function Find<V>(t: Table<V>, k: Id): Option<V> {
    if t == [] then None else if t[0].0 == k then Some(t[0].1) else Find(t[1..], k)
  }

  predicate Has<V>(t: Table<V>, k: Id) { Find(t, k).Some? }

  /** A key keeps its place when its value is replaced. */
  function Put<V>(t: Table<V>, k: Id, v: V): Table<V> {
    if t == [] then [(k, v)]
    else if t[0].0 == k then [(k, v)] + t[1..]
    else [t[0]] + Put(t[1..], k, v)
  }

  function Delete<V>(t: Table<V>, k: Id): Table<V> {
    if t == [] then [] else if t[0].0 == k then Delete(t[1..], k) else [t[0]] + Delete(t[1..], k)
  }

  /** Keys occur once. */
  predicate Unique<V>(t: Table<V>) {
    t == [] || (!Has(t[1..], t[0].0) && Unique(t[1..]))
  }

  lemma {:induction false} FindPut<V>(t: Table<V>, k: Id, v: V, x: Id)
    ensures Find(Put(t, k, v), x) == if x == k then Some(v) else Find(t, x)
  {
    if t != [] && t[0].0 != k {
      FindPut(t[1..], k, v, x);
      assert Put(t, k, v)[1..] == Put(t[1..], k, v);
    } else if t != [] {
      assert Put(t, k, v)[1..] == t[1..];
    }
  }

  lemma {:induction false} FindDelete<V>(t: Table<V>, k: Id, x: Id)
    ensures Find(Delete(t, k), x) == if x == k then None else Find(t, x)
  {
    if t != [] {
      FindDelete(t[1..], k, x);
      if t[0].0 != k { assert Delete(t, k)[1..] == Delete(t[1..], k); }
    }
  }

  lemma {:induction false} PutUnique<V>(t: Table<V>, k: Id, v: V)
    requires Unique(t)
    ensures Unique(Put(t, k, v)) && |Put(t, k, v)| == |t| + (if Has(t, k) then 0 else 1)
  {
    if t != [] {
      var r := Put(t, k, v);
      if t[0].0 == k {
        assert r[1..] == t[1..];
      } else {
        assert r[1..] == Put(t[1..], k, v);
        PutUnique(t[1..], k, v);
        FindPut(t[1..], k, v, t[0].0);
      }
    }
  }

  lemma {:induction false} DeleteUnique<V>(t: Table<V>, k: Id)
    requires Unique(t)
    ensures Unique(Delete(t, k)) && |Delete(t, k)| == |t| - (if Has(t, k) then 1 else 0)
  {
    if t != [] {
      DeleteUnique(t[1..], k);
      if t[0].0 == k {
        assert Delete(t, k) == Delete(t[1..], k);
      } else {
        assert Delete(t, k)[1..] == Delete(t[1..], k);
        FindDelete(t[1..], k, t[0].0);
      }
    }
  }

  lemma FindPutAll<V>(t: Table<V>, k: Id, v: V)
    requires Unique(t)
    ensures Unique(Put(t, k, v)) && |Put(t, k, v)| == |t| + (if Has(t, k) then 0 else 1)
    ensures forall x :: Find(Put(t, k, v), x) == if x == k then Some(v) else Find(t, x)
  {
    PutUnique(t, k, v);
    forall x ensures Find(Put(t, k, v), x) == if x == k then Some(v) else Find(t, x) {
      FindPut(t, k, v, x);
    }
  }

  lemma FindDeleteAll<V>(t: Table<V>, k: Id)
    requires Unique(t)
    ensures Unique(Delete(t, k)) && |Delete(t, k)| == |t| - (if Has(t, k) then 1 else 0)
    ensures forall x :: Find(Delete(t, k), x) == if x == k then None else Find(t, x)
  {
    DeleteUnique(t, k);
    forall x ensures Find(Delete(t, k), x) == if x == k then None else Find(t, x) {
      FindDelete(t, k, x);
    }
  }

  /** The sizes of all entries together. */
  function Total<V>(t: Table<V>, size: V -> nat): nat {
    if t == [] then 0 else size(t[0].1) + Total(t[1..], size)
  }

  lemma {:induction false} TotalPut<V>(t: Table<V>, k: Id, v: V, size: V -> nat)
    requires Unique(t)
    ensures Total(Put(t, k, v), size) == Total(t, size) + size(v) - (if Has(t, k) then size(Find(t, k).value) else 0)
    ensures Has(t, k) ==> size(Find(t, k).value) <= Total(t, size)
  {
    if t == [] {
      assert Put(t, k, v)[1..] == [];
    } else if t[0].0 == k {
      assert Put(t, k, v)[1..] == t[1..];
    } else {
      TotalPut(t[1..], k, v, size);
      assert Put(t, k, v)[1..] == Put(t[1..], k, v);
    }
  }

  lemma {:induction false} TotalDelete<V>(t: Table<V>, k: Id, size: V -> nat)
    requires Unique(t)
    ensures Total(Delete(t, k), size) == Total(t, size) - (if Has(t, k) then size(Find(t, k).value) else 0)
    ensures Has(t, k) ==> size(Find(t, k).value) <= Total(t, size)
  {
    if t != [] {
      TotalDelete(t[1..], k, size);
      if t[0].0 == k {
        assert Delete(t, k) == Delete(t[1..], k);
      } else {
        assert Delete(t, k)[1..] == Delete(t[1..], k);
      }
    }
  }

  function Keys<V>(t: Table<V>): (ks: seq<Id>)
    ensures |ks| == |t|
  {
    if t == [] then [] else [t[0].0] + Keys(t[1..])
  }

  lemma {:induction false} KeysUnique<V>(t: Table<V>)
    requires Unique(t)
    ensures forall i :: 0 <= i < |Keys(t)| ==> Has(t, Keys(t)[i])
    ensures forall i, j :: 0 <= i < j < |Keys(t)| ==> Keys(t)[i] != Keys(t)[j]
  {
    if t != [] {
      KeysUnique(t[1..]);
      assert Keys(t)[1..] == Keys(t[1..]);
      forall i | 0 <= i < |Keys(t)| ensures Has(t, Keys(t)[i]) {
        if i > 0 { assert Keys(t)[i] == Keys(t[1..])[i - 1]; }
      }
      forall i, j | 0 <= i < j < |Keys(t)| ensures Keys(t)[i] != Keys(t)[j] {
        assert Keys(t)[j] == Keys(t[1..])[j - 1];
        if i > 0 { assert Keys(t)[i] == Keys(t[1..])[i - 1]; }
      }
    }
  }

  lemma {:induction false} KeysAll<V>(t: Table<V>, x: Id)
    ensures Has(t, x) <==> x in Keys(t)
  {
    if t != [] { KeysAll(t[1..], x); }
  }

  lemma OnlyOne<V>(t: Table<V>, k: Id, size: V -> nat)
    requires Unique(t) && Has(t, k) && forall x :: Has(t, x) ==> x == k
    ensures Total(t, size) == size(Find(t, k).value)
  {
    TwoKeys(t);
    assert Has(t, t[0].0);
    assert Total(t[1..], size) == 0 by { assert |t| <= 1; }
  }

  lemma TwoKeys<V>(t: Table<V>)
    requires Unique(t)
    ensures |t| > 1 ==> Has(t, t[0].0) && Has(t, t[1].0) && t[0].0 != t[1].0
  {
    if |t| > 1 {
      assert t[1..][0] == t[1];
      assert Has(t[1..], t[1].0);
    }
  }

  lemma {:induction false} DeleteAbsent<V>(t: Table<V>, k: Id)
    ensures !Has(t, k) ==> Delete(t, k) == t
  {
    if t != [] { DeleteAbsent(t[1..], k); }
  }

  lemma {:induction false} PutKeys<V>(t: Table<V>, k: Id, v: V)
    requires Has(t, k)
    ensures Keys(Put(t, k, v)) == Keys(t)
  {
    if t[0].0 != k {
      PutKeys(t[1..], k, v);
      assert Put(t, k, v)[1..] == Put(t[1..], k, v);
    } else {
      assert Put(t, k, v)[1..] == t[1..];
    }
  }

  /** A new key comes last. */
  lemma {:induction false} PutAbsent<V>(t: Table<V>, k: Id, v: V)
    requires !Has(t, k)
    ensures Put(t, k, v) == t + [(k, v)]
  {
    if t != [] { PutAbsent(t[1..], k, v); }
  }

  lemma {:induction false} PutNewKeys<V>(t: Table<V>, k: Id, v: V)
    requires !Has(t, k)
    ensures Keys(Put(t, k, v)) == Keys(t) + [k]
  {
    if t == [] {
      assert Keys([(k, v)][1..]) == [];
    } else {
      PutNewKeys(t[1..], k, v);
      assert Put(t, k, v)[1..] == Put(t[1..], k, v);
    }
  }
}
