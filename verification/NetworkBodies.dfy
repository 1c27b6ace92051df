/** The Network domain's two body tables: bodies still arriving, within half the preview
    limit, and the cache of finished ones, with its own byte counter. */
module NetworkBodies {
  import opened Options
  import opened InsertionMap

  datatype Body = Body(total: nat, truncated: bool, liveStreamed: bool)

  const SizeOf := (b: Body) => b.total

  function Max(a: int, b: int): int { if a < b then b else a }

  // ───────────── bodies still arriving ─────────────

  class PendingBodies {
    const preview: nat
    var bodies: Table<Body>
    var bytes: int

    ghost predicate Valid()
      reads this
    {
      Unique(bodies) && bytes == Total(bodies, SizeOf) && 2 * bytes <= preview
    }

    constructor (preview: nat)
      ensures Valid() && this.preview == preview && bodies == []
    {
      this.preview := preview;
      bodies, bytes := [], 0;
    }

    method Clear()
      modifies this
      ensures Valid() && bodies == []
    {
      bodies, bytes := [], 0;
    }

    /** Removes the body; the clamp at zero never bites. */
    method DropPendingBody(id: Id)
      requires Valid()
      modifies this
      ensures Valid() && bodies == Delete(old(bodies), id)
      ensures forall x :: Find(bodies, x) == if x == id then None else Find(old(bodies), x)
    {
      FindDeleteAll(bodies, id);
      TotalDelete(bodies, id, SizeOf);
      DeleteAbsent(bodies, id);
      if !Has(bodies, id) { return; }
      bytes := Max(0, bytes - Find(bodies, id).value.total);
      bodies := Delete(bodies, id);
    }

    /** Empties the body but keeps its key. */
    method DropBufferedBody(id: Id)
      requires Valid()
      modifies this
      ensures Valid() && bytes <= old(bytes)
      ensures forall x :: Has(bodies, x) <==> Has(old(bodies), x)
      ensures forall x :: x != id ==> Find(bodies, x) == Find(old(bodies), x)
      ensures Has(old(bodies), id) ==> Find(bodies, id) == Some(Body(0, true, Find(old(bodies), id).value.liveStreamed))
      ensures bytes == old(bytes) - old(Held(id)) && Keys(bodies) == Keys(old(bodies))
    {
      if !Has(bodies, id) { return; }
      var emptied := Body(0, true, Find(bodies, id).value.liveStreamed);
      FindPutAll(bodies, id, emptied);
      TotalPut(bodies, id, emptied, SizeOf);
      PutKeys(bodies, id, emptied);
      bytes := Max(0, bytes - Find(bodies, id).value.total);
      bodies := Put(bodies, id, emptied);
    }

    function Held(id: Id): nat
      reads `bodies
    {
      if Has(bodies, id) then Find(bodies, id).value.total else 0
    }

    /** Empties the oldest other bodies until the new bytes fit, or gives this one up. */
    method EnsureCapacity(id: Id, incoming: nat) returns (ok: bool)
      requires Valid() && Has(bodies, id)
      modifies this
      ensures Valid() && (forall x :: Has(bodies, x) <==> Has(old(bodies), x))
      ensures ok ==> 2 * (bytes + incoming) <= preview && Find(bodies, id) == Find(old(bodies), id)
      ensures ok <==> 2 * (old(Held(id)) + incoming) <= preview
      ensures !ok ==> Find(bodies, id) == Some(Body(0, true, Find(old(bodies), id).value.liveStreamed))
      ensures ok ==> OldestFirst(old(bodies), bodies, id) && NoneInVain(old(bodies), bodies, preview, 2 * (bytes + incoming))
      ensures ok ==> Thinner(old(bodies), bodies, id)
      ensures !ok && 2 * incoming <= preview ==> AllEmptied(bodies, id)
      ensures OthersEmptied(old(bodies), bodies, id)
      ensures 2 * (old(bytes) + incoming) <= preview || 2 * incoming > preview ==> forall x :: x != id ==> Find(bodies, x) == Find(old(bodies), x)
    {
      if 2 * incoming > preview {
        DropBufferedBody(id);
        return false;
      }
      DropOthers(id, incoming);
      TotalDelete(bodies, id, SizeOf);
      if 2 * (bytes + incoming) <= preview { return true; }
      OthersEmpty(bodies, id);
      ghost var mid := bodies;
      DropBufferedBody(id);
      GivenUp(old(bodies), mid, bodies, id);
      ok := false;
    }

    method DropOthers(id: Id, incoming: nat)
      requires Valid() && Has(bodies, id)
      modifies this
      ensures Valid() && Thinner(old(bodies), bodies, id) && OldestFirst(old(bodies), bodies, id)
      ensures 2 * (bytes + incoming) <= preview || AllEmptied(bodies, id)
      ensures NoneInVain(old(bodies), bodies, preview, 2 * (bytes + incoming))
      ensures 2 * (old(bytes) + incoming) <= preview ==> bodies == old(bodies)
    {
      var ids := Keys(bodies);
      KeysUnique(bodies);
      forall x ensures Has(bodies, x) <==> x in ids { KeysAll(bodies, x); }
      var k := 0;
      while k < |ids| && 2 * (bytes + incoming) > preview
        invariant 0 <= k <= |ids| && Valid()
        invariant EmptiedUpTo(old(bodies), bodies, ids, k, id, preview, 2 * (bytes + incoming))
        invariant 2 * (old(bytes) + incoming) <= preview ==> bodies == old(bodies) && bytes == old(bytes)
      {
        DropNth(ids, k, id, incoming, old(bodies));
        k := k + 1;
      }
      if k == |ids| { assert forall x :: Has(bodies, x) ==> x in ids; }
    }

    method DropNth(ids: seq<Id>, k: nat, id: Id, incoming: nat, ghost was: Table<Body>)
      requires Valid() && k < |ids| && ids == Keys(was) && 2 * (bytes + incoming) > preview
      requires forall i, j :: 0 <= i < j < |ids| ==> ids[i] != ids[j]
      requires EmptiedUpTo(was, bodies, ids, k, id, preview, 2 * (bytes + incoming))
      modifies this
      ensures Valid() && EmptiedUpTo(was, bodies, ids, k + 1, id, preview, 2 * (bytes + incoming))
    {
      if ids[k] != id && Held(ids[k]) != 0 {
        ghost var mid := bodies;
        DropBufferedBody(ids[k]);
        ThinnerStep(was, mid, bodies, id, ids[k]);
      }
    }

    /** The body of a request, or the one its first chunk opens. */
    function Opened(id: Id, live: bool): Body
      reads `bodies
    {
      if Has(bodies, id) then Find(bodies, id).value else Body(0, false, live)
    }

    method Open(id: Id, live: bool)
      requires Valid()
      modifies `bodies
      ensures Valid()
      ensures Find(bodies, id) == if Has(old(bodies), id) then Find(old(bodies), id) else Some(Body(0, false, live))
      ensures forall x :: x != id ==> Find(bodies, x) == Find(old(bodies), x)
      ensures forall x :: Has(bodies, x) <==> Has(old(bodies), x) || x == id
    {
      if !Has(bodies, id) {
        FindPutAll(bodies, id, Body(0, false, live));
        TotalPut(bodies, id, Body(0, false, live), SizeOf);
        bodies := Put(bodies, id, Body(0, false, live));
      }
    }

    /** One chunk. Room is made for all the bytes it counts, but only those it carries come. */
    method Arrive(id: Id, chunk: Chunk, live: bool, webSocket: bool)
      requires Valid()
      modifies this
      ensures Valid() && forall x :: Has(bodies, x) <==> Has(old(bodies), x) || x == id
      ensures Find(bodies, id) == Some(Arrived(old(Opened(id, live)), chunk, webSocket, preview))
      ensures OthersEmptied(old(bodies), bodies, id)
      ensures 2 * (old(bytes) + Counted(chunk)) <= preview ==> forall x :: x != id ==> Find(bodies, x) == Find(old(bodies), x)
    {
      Open(id, live);
      ghost var start := bodies;
      var entry := Find(bodies, id).value;
      assert entry == old(Opened(id, live)) && bytes == old(bytes) && Held(id) == entry.total;
      if entry.liveStreamed { return; }
      if !entry.truncated && !webSocket && entry.total + Counted(chunk) <= preview {
        var ok := EnsureCapacity(id, Counted(chunk));
        if ok {
          ghost var room := bodies;
          Grow(id, entry, chunk.carried);
          OthersVia(old(bodies), start, room, bodies, id);
          return;
        }
      }
      ghost var room := bodies;
      DropBufferedBody(id);
      OthersVia(old(bodies), start, room, bodies, id);
    }

    method Grow(id: Id, entry: Body, n: nat)
      requires Valid() && Find(bodies, id) == Some(entry) && 2 * (bytes + n) <= preview
      modifies this
      ensures Valid() && Find(bodies, id) == Some(entry.(total := entry.total + n))
      ensures forall x :: x != id ==> Find(bodies, x) == Find(old(bodies), x)
      ensures forall x :: Has(bodies, x) <==> Has(old(bodies), x)
    {
      var grown := entry.(total := entry.total + n);
      FindPutAll(bodies, id, grown);
      TotalPut(bodies, id, grown, SizeOf);
      bodies := Put(bodies, id, grown);
      bytes := bytes + n;
    }
  }

  predicate Changed(was: Table<Body>, now: Table<Body>, x: Id) { Find(now, x) != Find(was, x) }

  /** Its bytes are gone for good, its key and its streaming mark stay. */
  predicate Emptied(was: Table<Body>, now: Table<Body>, x: Id) {
    Has(was, x) && Find(now, x) == Some(Body(0, true, Find(was, x).value.liveStreamed))
  }

  /** Bodies but that of `id` are as they were, or emptied. */
  ghost predicate Thinner(was: Table<Body>, now: Table<Body>, id: Id) {
    && (forall x :: Has(now, x) <==> Has(was, x)) && Find(now, id) == Find(was, id)
    && forall x :: Changed(was, now, x) ==> Emptied(was, now, x)
  }

  lemma ThinnerStep(was: Table<Body>, mid: Table<Body>, now: Table<Body>, id: Id, x: Id)
    requires Thinner(was, mid, id) && x != id && !Changed(was, mid, x) && Emptied(mid, now, x)
    requires forall y :: (Has(now, y) <==> Has(mid, y)) && (y != x ==> Find(now, y) == Find(mid, y))
    ensures Thinner(was, now, id)
    ensures forall y :: y != x ==> (Changed(was, now, y) <==> Changed(was, mid, y)) && TotalOf(now, y) == TotalOf(mid, y)
  {
    forall y | Changed(was, now, y) ensures Emptied(was, now, y) {
      assert y != x ==> Changed(was, mid, y);
    }
  }

  lemma GivenUp(was: Table<Body>, mid: Table<Body>, now: Table<Body>, id: Id)
    requires Thinner(was, mid, id) && AllEmptied(mid, id)
    requires forall y :: (Has(now, y) <==> Has(mid, y)) && (y != id ==> Find(now, y) == Find(mid, y))
    ensures AllEmptied(now, id) && OthersEmptied(was, now, id)
  {
    forall x | x != id ensures TotalOf(now, x) == 0 && (Changed(was, now, x) ==> Emptied(was, now, x)) {
      assert TotalOf(mid, x) == 0 && (Changed(was, mid, x) <==> Changed(was, now, x));
    }
  }

  /** The other bodies are as they were, or emptied. */
  ghost predicate OthersEmptied(was: Table<Body>, now: Table<Body>, id: Id) {
    forall x :: x != id && Changed(was, now, x) ==> Emptied(was, now, x)
  }

  lemma OthersVia(was: Table<Body>, start: Table<Body>, room: Table<Body>, now: Table<Body>, id: Id)
    requires forall x :: x != id ==> Find(start, x) == Find(was, x) && Find(now, x) == Find(room, x)
    requires OthersEmptied(start, room, id)
    ensures OthersEmptied(was, now, id)
  {
    forall x | x != id && Changed(was, now, x) ensures Emptied(was, now, x) {
      assert Changed(start, room, x);
    }
  }

  /** None but that of `id` has bytes. */
  ghost predicate AllEmptied(t: Table<Body>, id: Id) {
    forall x :: x != id ==> TotalOf(t, x) == 0
  }

  /** Among the others, a body is emptied only after every older one. */
  predicate OldestFirst(was: Table<Body>, now: Table<Body>, id: Id) {
    var ids := Keys(was);
    forall i, j :: 0 <= i < j < |ids| && ids[i] != id && ids[j] != id && Changed(was, now, ids[j]) ==> TotalOf(now, ids[i]) == 0
  }

  /** The last of the others to be emptied had to be: with its bytes, what comes would not fit. */
  predicate NoneInVain(was: Table<Body>, now: Table<Body>, preview: nat, needed: int) {
    var ids := Keys(was);
    forall j :: 0 <= j < |ids| && Changed(was, now, ids[j]) && (forall m :: j < m < |ids| ==> !Changed(was, now, ids[m]))
      ==> needed + 2 * TotalOf(was, ids[j]) > preview
  }

  /** The first `k` of the others have been dealt with. */
  ghost predicate EmptiedUpTo(was: Table<Body>, now: Table<Body>, ids: seq<Id>, k: nat, id: Id, preview: nat, needed: int)
    requires k <= |ids|
  {
    && Thinner(was, now, id) && ids == Keys(was)
    && (forall j :: 0 <= j < k ==> ids[j] == id || TotalOf(now, ids[j]) == 0)
    && (forall j :: k <= j < |ids| ==> !Changed(was, now, ids[j]))
    && NoneInVain(was, now, preview, needed)
  }

  /** A chunk of a response: the bytes it carries, and more that it only counts. */
  datatype Chunk = Chunk(carried: nat, withheld: nat)

  function Counted(c: Chunk): nat { c.carried + c.withheld }

  /** What a chunk makes of its body: streamed bytes are not kept, a body whose counted bytes
      no longer fit is given up for good, and otherwise it grows by what the chunk carries. */
  function Arrived(b: Body, c: Chunk, webSocket: bool, preview: nat): Body {
    if b.liveStreamed then b
    else if !b.truncated && !webSocket && b.total + Counted(c) <= preview && 2 * (b.total + Counted(c)) <= preview then
      b.(total := b.total + c.carried)
    else Body(0, true, false)
  }

  /** A body after all its chunks, with nothing else in between. */
  function ArrivedAll(b: Body, chunks: seq<Chunk>, webSocket: bool, preview: nat): Body {
    if chunks == [] then b
    else Arrived(ArrivedAll(b, chunks[..|chunks| - 1], webSocket, preview), chunks[|chunks| - 1], webSocket, preview)
  }

  function CarriedBy(chunks: seq<Chunk>): nat {
    if chunks == [] then 0 else CarriedBy(chunks[..|chunks| - 1]) + chunks[|chunks| - 1].carried
  }

  function CountedBy(chunks: seq<Chunk>): nat {
    if chunks == [] then 0 else CountedBy(chunks[..|chunks| - 1]) + Counted(chunks[|chunks| - 1])
  }

  /** Each chunk, when it comes, fits into half the preview with what was stored before it. */
  predicate AllFit(chunks: seq<Chunk>, preview: nat) {
    forall i :: 0 <= i < |chunks| ==> FitsAt(chunks, i, preview)
  }

  predicate FitsAt(chunks: seq<Chunk>, i: nat, preview: nat)
    requires i < |chunks|
  {
    2 * (CarriedBy(chunks[..i]) + Counted(chunks[i])) <= preview
  }

  /** A body is not given up exactly if every chunk fits; then it has all the bytes carried. */
  lemma {:induction false} ArrivedIs(chunks: seq<Chunk>, preview: nat)
    ensures var b := ArrivedAll(Body(0, false, false), chunks, false, preview);
      b == if AllFit(chunks, preview) then Body(CarriedBy(chunks), false, false) else Body(0, true, false)
    decreases |chunks|
  {
    if chunks != [] {
      var n := |chunks| - 1;
      ArrivedIs(chunks[..n], preview);
      AllFitLast(chunks, preview);
    }
  }

  lemma CarriedFits(chunks: seq<Chunk>, preview: nat)
    requires AllFit(chunks, preview)
    ensures 2 * CarriedBy(chunks) <= preview
  {
    if chunks != [] { assert FitsAt(chunks, |chunks| - 1, preview); }
  }

  lemma AllFitLast(chunks: seq<Chunk>, preview: nat)
    requires chunks != []
    ensures var n := |chunks| - 1; AllFit(chunks, preview) <==> AllFit(chunks[..n], preview) && FitsAt(chunks, n, preview)
  {
    var n := |chunks| - 1;
    forall i | 0 <= i < n ensures FitsAt(chunks, i, preview) <==> FitsAt(chunks[..n], i, preview) {
      assert chunks[..n][..i] == chunks[..i];
    }
    if AllFit(chunks, preview) {
      forall i | 0 <= i < n ensures FitsAt(chunks[..n], i, preview) { assert FitsAt(chunks, i, preview); }
    }
  }

  /** So it stands as complete with bytes missing exactly if all fit and some were withheld. */
  lemma IncompleteIff(chunks: seq<Chunk>, preview: nat)
    ensures var b := ArrivedAll(Body(0, false, false), chunks, false, preview);
      !b.truncated && b.total < CountedBy(chunks) <==> AllFit(chunks, preview) && exists c :: c in chunks && c.withheld > 0
  {
    ArrivedIs(chunks, preview);
    WithheldIff(chunks);
  }

  lemma {:induction false} WithheldIff(chunks: seq<Chunk>)
    ensures CarriedBy(chunks) <= CountedBy(chunks)
    ensures CarriedBy(chunks) < CountedBy(chunks) <==> exists c :: c in chunks && c.withheld > 0
    decreases |chunks|
  {
    if chunks != [] {
      var n := |chunks| - 1;
      WithheldIff(chunks[..n]);
      assert chunks == chunks[..n] + [chunks[n]];
    }
  }

  lemma {:induction false} OthersEmpty(t: Table<Body>, id: Id)
    requires Unique(t) && AllEmptied(t, id)
    ensures Total(t, SizeOf) == TotalOf(t, id)
  {
    if t != [] {
      assert TotalOf(t, t[0].0) == t[0].1.total;
      forall x | x != id ensures TotalOf(t[1..], x) == 0 {
        assert TotalOf(t, x) == 0;
      }
      OthersEmpty(t[1..], id);
    }
  }

  // ───────────── finished bodies ─────────────

  /** What the eviction loop leaves of a table when `incoming` more bytes are to fit. */
  function Evicted(t: Table<Body>, bytes: int, incoming: nat, maxBodies: nat, preview: nat): (r: (Table<Body>, int))
    ensures r.0 == [] || (|r.0| < maxBodies && r.1 + incoming <= preview)
    decreases |t|
  {
    if t == [] || (|t| < maxBodies && bytes + incoming <= preview) then (t, bytes)
    else Evicted(t[1..], bytes - t[0].1.total, incoming, maxBodies, preview)
  }

  /** The entries in front of `id`. */
  function Older(t: Table<Body>, id: Id): nat {
    if t == [] || t[0].0 == id then 0 else t[0].1.total + Older(t[1..], id)
  }

  function OlderCount(t: Table<Body>, id: Id): nat {
    if t == [] || t[0].0 == id then 0 else 1 + OlderCount(t[1..], id)
  }

  /** Whether the eviction loop stops before it reaches the entry of `id`. */
  predicate Spared(t: Table<Body>, id: Id, bytes: int, incoming: nat, maxBodies: nat, preview: nat) {
    |t| - OlderCount(t, id) < maxBodies && bytes - Older(t, id) + incoming <= preview
  }

  lemma {:induction false} OlderBounds(t: Table<Body>, id: Id)
    requires Unique(t)
    ensures Older(t, id) + (if Has(t, id) then Find(t, id).value.total else 0) <= Total(t, SizeOf)
    ensures OlderCount(t, id) <= |t|
  {
    if t != [] { OlderBounds(t[1..], id); }
  }

  /** The loop takes the oldest entries and their bytes; it spares `id` exactly when what is
      left with it fits. */
  lemma {:induction false} EvictedIs(t: Table<Body>, bytes: int, incoming: nat, maxBodies: nat, preview: nat, id: Id)
    requires Unique(t)
    ensures var r := Evicted(t, bytes, incoming, maxBodies, preview);
      && Unique(r.0) && |r.0| <= |t| && bytes - r.1 == Total(t, SizeOf) - Total(r.0, SizeOf)
      && (Has(r.0, id) ==> Find(r.0, id) == Find(t, id))
      && (Has(t, id) ==> (Has(r.0, id) <==> Spared(t, id, bytes, incoming, maxBodies, preview)))
    decreases |t|
  {
    if !(t == [] || (|t| < maxBodies && bytes + incoming <= preview)) {
      EvictedIs(t[1..], bytes - t[0].1.total, incoming, maxBodies, preview, id);
    }
  }

  /** The same loop when only the number of entries matters. */
  function Thinned(t: Table<Body>, bytes: int, maxBodies: nat): (r: (Table<Body>, int))
    decreases |t|
  {
    if t == [] || |t| < maxBodies then (t, bytes) else Thinned(t[1..], bytes - t[0].1.total, maxBodies)
  }

  /** How many of `n` entries are too many for one more. */
  function Surplus(n: nat, maxBodies: nat): (k: nat)
    ensures k <= n
  {
    if n < maxBodies then 0 else if maxBodies == 0 then n else n - maxBodies + 1
  }

  /** It takes the oldest, as many as are too many and no more. */
  lemma {:induction false} ThinnedIs(t: Table<Body>, bytes: int, maxBodies: nat, id: Id)
    requires Unique(t)
    ensures var r := Thinned(t, bytes, maxBodies);
      && r.0 == t[Surplus(|t|, maxBodies)..]
      && Unique(r.0) && (|r.0| < maxBodies || r.0 == []) && bytes - r.1 == Total(t, SizeOf) - Total(r.0, SizeOf)
      && (Has(r.0, id) ==> Find(r.0, id) == Find(t, id))
    decreases |t|
  {
    if !(t == [] || |t| < maxBodies) {
      ThinnedIs(t[1..], bytes - t[0].1.total, maxBodies, id);
      assert t[1..][Surplus(|t| - 1, maxBodies)..] == t[Surplus(|t|, maxBodies)..];
    }
  }

  function TotalOf(t: Table<Body>, id: Id): nat { if Has(t, id) then Find(t, id).value.total else 0 }

  const Unavailable := Body(0, true, false)

  /** A body that is too large is cached as a placeholder. */
  function CachedUnavailable(t: Table<Body>, bytes: int, id: Id, maxBodies: nat): (Table<Body>, int) {
    var (kept, left) := Thinned(Delete(t, id), bytes - TotalOf(t, id), maxBodies);
    (Put(kept, id, Unavailable), left)
  }

  /** The old entry's bytes are taken off the counter at once, the entry itself only when it
      is replaced or evicted. */
  function Cached(t: Table<Body>, bytes: int, id: Id, body: Body, maxBodies: nat, preview: nat): (Table<Body>, int) {
    var (kept, left) := Evicted(t, bytes - TotalOf(t, id), body.total, maxBodies, preview);
    if body.total > preview then CachedUnavailable(kept, left, id, maxBodies)
    else (Put(kept, id, body), left + body.total)
  }

  /** The counter is what the entries hold, and both caps are kept. */
  predicate Exact(t: Table<Body>, bytes: int, maxBodies: nat, preview: nat) {
    Unique(t) && |t| <= maxBodies && bytes == Total(t, SizeOf) && bytes <= preview
  }

  lemma UnavailableExact(t: Table<Body>, bytes: int, id: Id, maxBodies: nat)
    requires Unique(t) && maxBodies > 0
    ensures var (u, left) := CachedUnavailable(t, bytes, id, maxBodies);
      Unique(u) && |u| <= maxBodies && left - Total(u, SizeOf) == bytes - Total(t, SizeOf) && left <= bytes && Find(u, id) == Some(Unavailable)
  {
    FindDeleteAll(t, id);
    TotalDelete(t, id, SizeOf);
    var r := Thinned(Delete(t, id), bytes - TotalOf(t, id), maxBodies);
    ThinnedIs(Delete(t, id), bytes - TotalOf(t, id), maxBodies, id);
    FindPutAll(r.0, id, Unavailable);
    TotalPut(r.0, id, Unavailable, SizeOf);
    ThinnedLess(Delete(t, id), bytes - TotalOf(t, id), maxBodies);
  }

  /** Of the others the newest stay, one fewer than fit. */
  lemma UnavailableKeeps(t: Table<Body>, bytes: int, id: Id, maxBodies: nat)
    requires Unique(t) && maxBodies > 0
    ensures var others := Delete(t, id);
      CachedUnavailable(t, bytes, id, maxBodies).0 == others[Surplus(|others|, maxBodies)..] + [(id, Unavailable)]
  {
    FindDeleteAll(t, id);
    var r := Thinned(Delete(t, id), bytes - TotalOf(t, id), maxBodies);
    ThinnedIs(Delete(t, id), bytes - TotalOf(t, id), maxBodies, id);
    PutAbsent(r.0, id, Unavailable);
  }

  lemma {:induction false} ThinnedLess(t: Table<Body>, bytes: int, maxBodies: nat)
    ensures Thinned(t, bytes, maxBodies).1 <= bytes
    decreases |t|
  {
    if !(t == [] || |t| < maxBodies) { ThinnedLess(t[1..], bytes - t[0].1.total, maxBodies); }
  }

  /** How far the counter is off after caching: by the bytes of the old entry, if the
      eviction loop took that one too. */
  lemma CachedDrift(t: Table<Body>, bytes: int, id: Id, body: Body, maxBodies: nat, preview: nat)
    requires Exact(t, bytes, maxBodies, preview) && maxBodies > 0
    ensures var (u, left) := Cached(t, bytes, id, body, maxBodies, preview);
      && Unique(u) && |u| <= maxBodies && left <= preview
      && Find(u, id) == Some(if body.total > preview then Unavailable else body)
      && left == Total(u, SizeOf) - (if Spared(t, id, bytes - TotalOf(t, id), body.total, maxBodies, preview) then 0 else TotalOf(t, id))
  {
    var before := bytes - TotalOf(t, id);
    var r := Evicted(t, before, body.total, maxBodies, preview);
    EvictedIs(t, before, body.total, maxBodies, preview, id);
    OlderBounds(t, id);
    EvictedLess(t, before, body.total, maxBodies, preview);
    if body.total > preview {
      UnavailableExact(r.0, r.1, id, maxBodies);
    } else {
      FindPutAll(r.0, id, body);
      TotalPut(r.0, id, body, SizeOf);
    }
  }

  lemma {:induction false} EvictedLess(t: Table<Body>, bytes: int, incoming: nat, maxBodies: nat, preview: nat)
    requires bytes <= preview
    ensures Evicted(t, bytes, incoming, maxBodies, preview).1 <= bytes
    ensures Evicted(t, bytes, incoming, maxBodies, preview).0 == [] ==> Evicted(t, bytes, incoming, maxBodies, preview).1 == bytes - Total(t, SizeOf)
    decreases |t|
  {
    if !(t == [] || (|t| < maxBodies && bytes + incoming <= preview)) {
      EvictedLess(t[1..], bytes - t[0].1.total, incoming, maxBodies, preview);
    }
  }

  /** Exact bookkeeping survives caching a body if and only if its id holds no bytes in the
      cache yet, or the eviction loop will stop before it reaches that entry. */
  lemma CachedExactIff(t: Table<Body>, bytes: int, id: Id, body: Body, maxBodies: nat, preview: nat)
    requires Exact(t, bytes, maxBodies, preview) && maxBodies > 0
    ensures Exact(Cached(t, bytes, id, body, maxBodies, preview).0, Cached(t, bytes, id, body, maxBodies, preview).1, maxBodies, preview)
      <==> TotalOf(t, id) == 0 || Spared(t, id, bytes - TotalOf(t, id), body.total, maxBodies, preview)
  {
    CachedDrift(t, bytes, id, body, maxBodies, preview);
  }

  lemma CachedFirst(x: Id, b: Body, maxBodies: nat, preview: nat)
    requires b.total <= preview && maxBodies > 0
    ensures Cached([], 0, x, b, maxBodies, preview) == ([(x, b)], b.total)
  {
  }

  lemma CachedSecond(x: Id, a: Body, y: Id, b: Body, maxBodies: nat, preview: nat)
    requires x != y && a.total + b.total <= preview && maxBodies > 1
    ensures Cached([(x, a)], a.total, y, b, maxBodies, preview) == ([(x, a), (y, b)], a.total + b.total)
  {
    var t := [(x, a)];
    assert t[1..] == [] && Find(t[1..], y) == None && Find(t, y) == None && TotalOf(t, y) == 0;
    assert Evicted(t, a.total, b.total, maxBodies, preview) == (t, a.total);
    assert Put(t[1..], y, b) == [(y, b)] && Put(t, y, b) == [t[0]] + Put(t[1..], y, b) == [(x, a), (y, b)];
  }

  lemma TwoEntries(x: Id, a: Body, y: Id, b: Body)
    requires x != y
    ensures var t := [(x, a), (y, b)]; Unique(t) && Unique(t[1..]) && Find(t[1..], x) == None && Find(t, x) == Some(a)
  {
    var t := [(x, a), (y, b)];
    var rest := t[1..];
    assert rest == [(y, b)] && rest[0].0 == y && rest[1..] == [] && t[0].0 == x;
    assert Find(rest[1..], x) == None && Find(rest, x) == Find(rest[1..], x) && !Has(rest, t[0].0);
    assert !Has(rest[1..], rest[0].0) && Unique(rest[1..]) && Unique(rest);
  }

  /** Whatever the limits: caching a larger body for an id that is cached already can leave
      more than the byte cap, with a counter that shows almost nothing. */
  lemma RecachedOverrun(x: Id, y: Id, maxBodies: nat, preview: nat)
    requires x != y && maxBodies > 2 && preview > 5
    ensures var a, b, c := Body(preview - 4, false, false), Body(4, false, false), Body(preview - 2, false, false);
      var t := [(x, a), (y, b)];
      && Exact(t, preview, maxBodies, preview)
      && Cached(t, preview, x, c, maxBodies, preview) == ([(y, b), (x, c)], 6)
      && Total([(y, b), (x, c)], SizeOf) == preview + 2
      && !(TotalOf(t, x) == 0 || Spared(t, x, preview - TotalOf(t, x), c.total, maxBodies, preview))
  {
    var a, b, c := Body(preview - 4, false, false), Body(4, false, false), Body(preview - 2, false, false);
    var t := [(x, a), (y, b)];
    assert t[1..] == [(y, b)] && [(y, b)][1..] == [];
    assert t[0].0 == x && t[1..][0].0 == y && t[1..][1..] == [];
    assert Total(t, SizeOf) == preview - 4 + Total(t[1..], SizeOf) && Total([(y, b)], SizeOf) == 4;
    TwoEntries(x, a, y, b);
    assert Evicted(t[1..], 8 - preview, preview - 2, maxBodies, preview) == (t[1..], 8 - preview);
    assert Evicted(t, 4, preview - 2, maxBodies, preview) == (t[1..], 8 - preview);
    var u := Put([(y, b)], x, c);
    assert [(y, b)][0].0 == y && Put([(y, b)][1..], x, c) == [(x, c)];
    assert u == [(y, b)] + [(x, c)] == [(y, b), (x, c)];
    assert u[1..] == [(x, c)] && [(x, c)][1..] == [];
    assert Total(u[1..], SizeOf) == preview - 2;
  }

  class ResponseCache {
    const maxBodies: nat
    const preview: nat
    var bodies: Table<Body>
    var bytes: int

    constructor (maxBodies: nat, preview: nat)
      requires maxBodies > 0
      ensures Exact(bodies, bytes, maxBodies, preview) && bodies == []
      ensures this.maxBodies == maxBodies && this.preview == preview && bytes == 0
    {
      this.maxBodies, this.preview := maxBodies, preview;
      bodies, bytes := [], 0;
    }

    method Clear()
      modifies this
      ensures bodies == [] && Exact(bodies, bytes, maxBodies, preview)
    {
      bodies, bytes := [], 0;
    }

    method RemoveOldest()
      requires Unique(bodies) && bodies != []
      modifies this
      ensures bodies == old(bodies)[1..] && bytes == old(bytes) - old(bodies)[0].1.total
    {
      DeleteFirst(bodies);
      bytes := bytes - bodies[0].1.total;
      bodies := Delete(bodies, bodies[0].0);
    }

    method CacheUnavailableResponseBody(id: Id)
      requires Unique(bodies) && maxBodies > 0
      modifies this
      ensures (bodies, bytes) == CachedUnavailable(old(bodies), old(bytes), id, maxBodies)
    {
      FindDeleteAll(bodies, id);
      bytes := bytes - TotalOf(bodies, id);
      bodies := Delete(bodies, id);
      ghost var start, from := bodies, bytes;
      while |bodies| >= maxBodies && |bodies| > 0
        invariant Unique(bodies)
        invariant Thinned(bodies, bytes, maxBodies) == Thinned(start, from, maxBodies)
        decreases |bodies|
      {
        RemoveOldest();
      }
      bodies := Put(bodies, id, Unavailable);
    }

    method CacheResponseBody(id: Id, body: Body)
      requires Unique(bodies) && maxBodies > 0
      modifies this
      ensures (bodies, bytes) == Cached(old(bodies), old(bytes), id, body, maxBodies, preview)
    {
      bytes := bytes - TotalOf(bodies, id);
      ghost var from := bytes;
      while (|bodies| >= maxBodies || bytes + body.total > preview) && |bodies| > 0
        invariant Unique(bodies)
        invariant Evicted(bodies, bytes, body.total, maxBodies, preview) == Evicted(old(bodies), from, body.total, maxBodies, preview)
        decreases |bodies|
      {
        RemoveOldest();
      }
      if body.total > preview {
        CacheUnavailableResponseBody(id);
        return;
      }
      bodies := Put(bodies, id, body);
      bytes := bytes + body.total;
    }
  }

  lemma DeleteFirst(t: Table<Body>)
    ensures t != [] && Unique(t) ==> Delete(t, t[0].0) == t[1..] && Unique(t[1..])
  {
    if t != [] { DeleteAbsent(t[1..], t[0].0); }
  }
}
