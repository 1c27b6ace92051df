/** What the capture of response bodies keeps of each request, what its log says, and what one
    step changes in either. */
module BodyAccounts {
  import opened Options
  import opened BodyBuffers
  import opened InsertionMap

  const MAX_COMPLETED_BODIES := 50

  function Max(a: int, b: int): int { if a < b then b else a }

  /** What happened, in order. `Data` reaches the client as it is, `Handed` is the answer to
      enabling streaming; a `Data` without bytes only counts them. */
  datatype Entry =
    | Arrived(id: Id, bytes: Bytes)
    | Data(id: Id, bytes: Bytes, byteLength: nat)
    | Handed(id: Id, bytes: Bytes)
    | Done(id: Id, body: Bytes, totalBytes: nat)

  /** The bytes of request `id` that arrived since it last finished. */
  ghost function DeliveredOf(log: seq<Entry>, id: Id): Bytes {
    if log == [] then []
    else
      var e, before := log[|log| - 1], DeliveredOf(log[..|log| - 1], id);
      if e.id != id then before
      else if e.Done? then []
      else if e.Arrived? then before + e.bytes
      else before
  }

  /** The bytes the client got for it while it was streaming. */
  ghost function StreamOf(log: seq<Entry>, id: Id): Bytes {
    if log == [] then []
    else
      var e, before := log[|log| - 1], StreamOf(log[..|log| - 1], id);
      if e.id != id then before
      else if e.Done? then []
      else if e.Arrived? then before
      else before + e.bytes
  }

  lemma LogAppendAll(log: seq<Entry>, e: Entry)
    ensures forall x :: DeliveredOf(log + [e], x) == if e.id != x then DeliveredOf(log, x) else if e.Done? then []
      else if e.Arrived? then DeliveredOf(log, x) + e.bytes else DeliveredOf(log, x)
    ensures forall x :: StreamOf(log + [e], x) == if e.id != x then StreamOf(log, x) else if e.Done? then []
      else if e.Arrived? then StreamOf(log, x) else StreamOf(log, x) + e.bytes
  {
    assert (log + [e])[..|log|] == log;
  }

  /** A part of the beginning, then everything from some point on. */
  ghost predicate Resumes(str: Bytes, del: Bytes) {
    exists r: nat, n: nat :: ResumesAt(str, del, r, n)
  }

  ghost predicate ResumesAt(str: Bytes, del: Bytes, r: nat, n: nat) {
    r <= n <= |del| && str == del[..r] + del[n..]
  }

  lemma ResumesGrows(str: Bytes, del: Bytes, more: Bytes)
    requires Resumes(str, del)
    ensures Resumes(str + more, del + more)
  {
    var r: nat, n: nat :| ResumesAt(str, del, r, n);
    assert (del + more)[..r] == del[..r] && (del + more)[n..] == del[n..] + more;
    assert ResumesAt(str + more, del + more, r, n);
  }

  lemma ResumesFrom(part: Bytes, del: Bytes)
    requires part <= del
    ensures Resumes(part, del)
  {
    assert del[..|part|] == part && del[|del|..] == [];
    assert ResumesAt(part, del, |part|, |del|);
  }

  /** All that is kept of one request, and what its log says. A request a limit has cut was stored
      up to `cut` bytes; `gone` tells that this body has been pushed out or reaped. */
  datatype View = View(buffered: Option<Bytes>, completed: Option<Bytes>, counted: nat,
                       live: bool, dropped: bool, lost: bool, cut: nat, gone: bool, delivered: Bytes, streamed: Bytes)

  /** What is stored of a request, by its log and the cut alone. */
  function StoredPart(v: View): Bytes {
    if v.live then []
    else if !v.dropped then v.delivered
    else if v.gone then []
    else v.delivered[..if v.cut <= |v.delivered| then v.cut else 0]
  }

  /** No byte of the request is lost or doubled; `late` arrived but is not stored yet. */
  ghost predicate Exact(v: View, late: Bytes) {
    && (v.buffered.Some? ==> if v.dropped then v.buffered.value == [] else v.buffered.value + late == v.delivered)
    && (v.completed.Some? ==> v.dropped && !v.gone)
    && (v.dropped ==> Cut(v))
    && (!v.live ==> v.streamed == [] && (v.lost ==> v.dropped))
    && (!v.live && !v.dropped && v.buffered.None? ==> v.delivered == late)
    && (v.live ==> !v.dropped && v.buffered.None? && late == [] && Resumes(v.streamed, v.delivered))
    && (v.live && !v.lost ==> v.streamed == v.delivered)
    && (v.dropped ==> v.lost)
    && v.counted == |v.delivered|
  }

  /** The body is what had been delivered when the limit struck, unless it is gone. */
  ghost predicate Cut(v: View) {
    v.cut <= |v.delivered| && if v.completed.Some? then v.completed.value == v.delivered[..v.cut] else v.gone || v.cut == 0
  }

  lemma ForgottenExact(v: View, w: View, late: Bytes)
    requires Exact(v, late) && w == v.(completed := w.completed, gone := w.gone)
    requires (w.completed == v.completed && w.gone == v.gone) || (w.completed.None? && w.gone)
    ensures Exact(w, late)
  {
  }

  /** A limit takes the buffer away: what was stored stays as the body. */
  lemma DroppedExact(v: View, w: View, late: Bytes)
    requires Exact(v, late) && v.buffered.Some? && !v.dropped
    requires w == v.(buffered := w.buffered, completed := w.completed, dropped := true, lost := true,
                     cut := |v.buffered.value|, gone := w.gone)
    requires w.buffered.None? || w.buffered == Some([])
    requires (w.completed == v.buffered && !w.gone) || (v.buffered == Some([]) && w.completed == v.completed && w.gone == v.gone)
    ensures Exact(w, late) && StoredPart(w) == v.buffered.value
  {
    assert (v.buffered.value + late)[..w.cut] == v.buffered.value;
  }

  /** It takes an emptied buffer away. */
  lemma DroppedAgain(v: View, w: View, late: Bytes)
    requires Exact(v, late) && v.dropped && w == v.(buffered := w.buffered) && w.buffered.None?
    ensures Exact(w, late)
  {
  }

  /** Everything the capture keeps, with its log. */
  datatype State = State(buffers: Table<Buffer>, completed: Table<Bytes>, totals: Table<nat>, bytes: int,
                         live: set<Id>, dropped: set<Id>, log: seq<Entry>, lost: set<Id>, reaped: set<Id>,
                         cuts: map<Id, nat>, gone: set<Id>)

  const SizeOf := (b: Buffer) => b.total

  /** The counter is exactly what the buffers hold, and within the limit. */
  predicate Tables(s: State, limit: nat) {
    && Unique(s.buffers) && s.bytes == Total(s.buffers, SizeOf) && s.bytes <= limit
    && Unique(s.completed) && |s.completed| <= MAX_COMPLETED_BODIES && Unique(s.totals)
  }

  function CountOf(t: Table<nat>, x: Id): nat { if Has(t, x) then Find(t, x).value else 0 }

  function CutOf(s: State, x: Id): nat { if x in s.cuts then s.cuts[x] else 0 }

  predicate Stored(s: State, x: Id) {
    Has(s.buffers, x) ==>
      var b := Find(s.buffers, x).value;
      b.total == |Merge(b.chunks)| && x !in s.live && (x in s.dropped ==> b.chunks == [])
  }

  ghost function ViewOf(s: State, x: Id): View {
    View(if Has(s.buffers, x) then Some(Merge(Find(s.buffers, x).value.chunks)) else None, Find(s.completed, x), CountOf(s.totals, x),
         x in s.live, x in s.dropped, x in s.lost, CutOf(s, x), x in s.gone, DeliveredOf(s.log, x), StreamOf(s.log, x))
  }

  /** Every request is in order; of request `id`, `late` has arrived but is not stored yet. */
  ghost predicate Accounts(s: State, id: Id, late: Bytes) {
    forall x :: Stored(s, x) && (x !in s.reaped ==> Exact(ViewOf(s, x), if x == id then late else []))
  }

  ghost predicate Valid(s: State, limit: nat) {
    Tables(s, limit) && forall x :: Stored(s, x) && (x !in s.reaped ==> Exact(ViewOf(s, x), []))
  }

  /** The cut bodies, and those that are not there any more. */
  datatype Bodies = Bodies(table: Table<Bytes>, gone: set<Id>)

  function BodiesOf(s: State): Bodies { Bodies(s.completed, s.gone) }

  /** The body of `x` stays, or it is gone. */
  predicate BodyStays(was: Bodies, now: Bodies, x: Id) {
    || (Find(now.table, x) == Find(was.table, x) && (x in now.gone <==> x in was.gone))
    || (Find(was.table, x).Some? && Find(now.table, x) == None && x in now.gone)
  }

  /** A limit strikes request `id`: it is cut where its buffer ends, unless it was cut before. */
  ghost predicate Strikes(was: State, now: State, id: Id)
    requires Has(was.buffers, id)
  {
    var b := Find(was.buffers, id).value;
    && now.totals == was.totals && now.live == was.live && now.log == was.log && now.reaped == was.reaped
    && now.dropped == was.dropped + {id} && now.lost == was.lost + {id}
    && (forall x :: x != id ==> BodyStays(BodiesOf(was), BodiesOf(now), x))
    && if id in was.dropped then
         now.cuts == was.cuts && Find(now.completed, id) == Find(was.completed, id) && (id in now.gone <==> id in was.gone)
       else
         now.cuts == was.cuts[id := b.total] && CutBody(was, now, id)
  }

  predicate CutBody(was: State, now: State, id: Id)
    requires Has(was.buffers, id)
  {
    var b := Find(was.buffers, id).value;
    || (Find(now.completed, id) == Some(Merge(b.chunks)) && id !in now.gone)
    || (b.chunks == [] && Find(now.completed, id) == Find(was.completed, id) && (id in now.gone <==> id in was.gone))
  }

  lemma StrikesOn(was: State, mid: State, now: State, id: Id)
    requires Has(was.buffers, id) && Strikes(was, mid, id) && now == mid.(buffers := now.buffers, bytes := now.bytes)
    ensures Strikes(was, now, id)
  {
    forall x | x != id ensures BodyStays(BodiesOf(was), BodiesOf(now), x) {
      assert BodyStays(BodiesOf(was), BodiesOf(mid), x);
    }
  }

  lemma AccountsAfterDrop(was: State, now: State, id: Id, current: Id, late: Bytes)
    requires Accounts(was, current, late) && Has(was.buffers, id) && Strikes(was, now, id)
    requires forall x :: x != id ==> Find(now.buffers, x) == Find(was.buffers, x)
    requires Find(now.buffers, id) == None || (Find(now.buffers, id) == Some(Buffer([], 0)) && id !in was.dropped)
    ensures Accounts(now, current, late)
  {
    forall x ensures Stored(now, x) && (x !in now.reaped ==> Exact(ViewOf(now, x), if x == current then late else [])) {
      var v, w, unstored := ViewOf(was, x), ViewOf(now, x), if x == current then late else [];
      assert Stored(was, x);
      if x !in now.reaped {
        if x != id {
          assert BodyStays(BodiesOf(was), BodiesOf(now), x);
          ForgottenExact(v, w, unstored);
        } else if x in was.dropped {
          DroppedAgain(v, w, unstored);
        } else {
          DroppedExact(v, w, unstored);
        }
      }
    }
  }

  /** A chunk has come in for a request that is still buffered. */
  lemma LateExact(v: View, w: View, data: Bytes)
    requires Exact(v, []) && !v.live && !v.dropped
    requires w == v.(buffered := Some(if v.buffered.Some? then v.buffered.value else []),
                     counted := v.counted + |data|, delivered := v.delivered + data)
    ensures Exact(w, data)
  {
  }

  /** It is stored, */
  lemma StoredExact(v: View, w: View, data: Bytes)
    requires Exact(v, data) && v.buffered.Some? && !v.dropped
    requires w == v.(buffered := Some(v.buffered.value + data))
    ensures Exact(w, [])
  {
  }

  /** or lost to a limit, */
  lemma LostExact(v: View, data: Bytes)
    requires Exact(v, data) && v.dropped && (v.buffered.Some? ==> v.buffered.value == [])
    ensures Exact(v, [])
  {
  }

  /** or passed on, by a request that streams or one that only counts. */
  lemma PassedExact(v: View, w: View, data: Bytes)
    requires Exact(v, []) && (v.live || v.dropped)
    requires w == v.(counted := v.counted + |data|,
                     delivered := v.delivered + data, streamed := if v.live then v.streamed + data else v.streamed)
    ensures Exact(w, [])
  {
    if v.live { ResumesGrows(v.streamed, v.delivered, data); }
  }

  /** The hand-over: what is stored goes to the client once, and nothing stays behind. */
  lemma HandedExact(v: View, w: View, data: Bytes)
    requires Exact(v, [])
    requires data == if v.completed.Some? then v.completed.value else if v.buffered.Some? then v.buffered.value else []
    requires w == v.(buffered := None, completed := None, live := true, dropped := false, streamed := v.streamed + data)
    ensures Exact(w, [])
  {
    assert v.streamed + [] == v.streamed;
    if v.live {
      assert data == [];
    } else {
      assert [] + data == data && data <= v.delivered;
      ResumesFrom(data, v.delivered);
    }
  }

  /** What the log of one more chunk changes in the views. */
  predicate Counted(was: State, now: State, id: Id, n: nat) {
    && now.live == was.live && now.dropped == was.dropped && now.lost == was.lost && now.reaped == was.reaped
    && now.completed == was.completed && now.cuts == was.cuts && now.gone == was.gone
    && CountOf(now.totals, id) == CountOf(was.totals, id) + n
  }

  lemma PassedOn(was: State, now: State, id: Id, data: Bytes)
    requires forall x :: Stored(was, x) && (x !in was.reaped ==> Exact(ViewOf(was, x), []))
    requires (id in was.live || id in was.dropped) && Counted(was, now, id, |data|) && now.buffers == was.buffers
    requires forall x :: x != id ==> Find(now.totals, x) == Find(was.totals, x)
    requires forall x :: DeliveredOf(now.log, x) == if x == id then DeliveredOf(was.log, x) + data else DeliveredOf(was.log, x)
    requires forall x :: StreamOf(now.log, x) == if x == id then StreamOf(was.log, x) + (if id in was.live then data else []) else StreamOf(was.log, x)
    ensures forall x :: Stored(now, x) && (x !in now.reaped ==> Exact(ViewOf(now, x), []))
  {
    forall x ensures Stored(now, x) && (x !in now.reaped ==> Exact(ViewOf(now, x), [])) {
      assert Stored(was, x);
      if x !in now.reaped && x == id {
        assert StreamOf(was.log, x) + [] == StreamOf(was.log, x);
        PassedExact(ViewOf(was, x), ViewOf(now, x), data);
      } else {
        assert ViewOf(now, x) == ViewOf(was, x) || x == id;
      }
    }
  }

  lemma Admitted(was: State, now: State, id: Id, data: Bytes)
    requires forall x :: Stored(was, x) && (x !in was.reaped ==> Exact(ViewOf(was, x), []))
    requires id !in was.live && id !in was.dropped && Counted(was, now, id, |data|)
    requires forall x :: x != id ==> Find(now.totals, x) == Find(was.totals, x) && Find(now.buffers, x) == Find(was.buffers, x)
    requires Find(now.buffers, id) == if Has(was.buffers, id) then Find(was.buffers, id) else Some(Buffer([], 0))
    requires forall x :: DeliveredOf(now.log, x) == if x == id then DeliveredOf(was.log, x) + data else DeliveredOf(was.log, x)
    requires forall x :: StreamOf(now.log, x) == StreamOf(was.log, x)
    ensures Accounts(now, id, data)
  {
    forall x ensures Stored(now, x) && (x !in now.reaped ==> Exact(ViewOf(now, x), if x == id then data else [])) {
      assert Stored(was, x);
      if x !in now.reaped && x == id {
        LateExact(ViewOf(was, x), ViewOf(now, x), data);
      } else {
        assert ViewOf(now, x) == ViewOf(was, x) || x == id;
      }
    }
  }

  lemma Kept(was: State, now: State, id: Id, data: Bytes)
    requires Accounts(was, id, data) && Has(was.buffers, id) && id !in was.dropped
    requires now == was.(buffers := now.buffers, bytes := now.bytes)
    requires var b := Find(was.buffers, id).value; Find(now.buffers, id) == Some(Buffer(b.chunks + [data], b.total + |data|))
    requires forall x :: x != id ==> Find(now.buffers, x) == Find(was.buffers, x)
    ensures forall x :: Stored(now, x) && (x !in now.reaped ==> Exact(ViewOf(now, x), []))
  {
    MergeAppend(Find(was.buffers, id).value.chunks, data);
    forall x ensures Stored(now, x) && (x !in now.reaped ==> Exact(ViewOf(now, x), [])) {
      assert Stored(was, x);
      if x !in now.reaped && x == id {
        StoredExact(ViewOf(was, x), ViewOf(now, x), data);
      } else {
        assert ViewOf(now, x) == ViewOf(was, x) || x == id;
      }
    }
  }

  lemma LostAll(was: State, now: State, id: Id, data: Bytes)
    requires Accounts(was, id, data) && id in was.dropped && now == was.(log := now.log)
    requires Has(was.buffers, id) ==> Find(was.buffers, id).value.chunks == []
    requires forall x :: DeliveredOf(now.log, x) == DeliveredOf(was.log, x)
    requires forall x :: StreamOf(now.log, x) == if x == id then StreamOf(was.log, x) + [] else StreamOf(was.log, x)
    ensures forall x :: Stored(now, x) && (x !in now.reaped ==> Exact(ViewOf(now, x), []))
  {
    forall x ensures Stored(now, x) && (x !in now.reaped ==> Exact(ViewOf(now, x), [])) {
      assert Stored(was, x);
      assert StreamOf(was.log, x) + [] == StreamOf(was.log, x);
      assert ViewOf(now, x) == ViewOf(was, x);
      if x !in now.reaped && x == id { LostExact(ViewOf(was, x), data); }
    }
  }

  /** What is stored of a response: the body it was cut to, or its chunks. */
  function Body(s: State, x: Id): Bytes {
    if Has(s.completed, x) then Find(s.completed, x).value
    else if Has(s.buffers, x) then Merge(Find(s.buffers, x).value.chunks)
    else []
  }

  function TotalBytes(s: State, x: Id): nat {
    if Has(s.totals, x) then CountOf(s.totals, x)
    else if Has(s.buffers, x) then Find(s.buffers, x).value.total
    else 0
  }

  lemma HandedOver(was: State, now: State, id: Id, data: Bytes)
    requires forall x :: Stored(was, x) && (x !in was.reaped ==> Exact(ViewOf(was, x), []))
    requires data == Body(was, id)
    requires forall x :: Find(now.buffers, x) == if x == id then None else Find(was.buffers, x)
    requires forall x :: Find(now.completed, x) == if x == id then None else Find(was.completed, x)
    requires now.live == was.live + {id} && now.dropped == was.dropped - {id}
    requires now.lost == was.lost && now.reaped == was.reaped && now.totals == was.totals
    requires now.cuts == was.cuts && now.gone == was.gone
    requires forall x :: DeliveredOf(now.log, x) == DeliveredOf(was.log, x)
    requires forall x :: StreamOf(now.log, x) == if x == id then StreamOf(was.log, x) + data else StreamOf(was.log, x)
    ensures forall x :: Stored(now, x) && (x !in now.reaped ==> Exact(ViewOf(now, x), []))
    ensures id !in was.reaped && id !in was.lost ==> StreamOf(was.log, id) + data == DeliveredOf(was.log, id)
    ensures id !in was.reaped ==> data == StoredPart(ViewOf(was, id))
  {
    forall x ensures Stored(now, x) && (x !in now.reaped ==> Exact(ViewOf(now, x), [])) {
      assert Stored(was, x);
      if x !in now.reaped && x == id {
        HandedExact(ViewOf(was, x), ViewOf(now, x), data);
      } else {
        assert ViewOf(now, x) == ViewOf(was, x) || x == id;
      }
    }
    if id !in was.reaped { StoredIsRest(ViewOf(was, id), data); }
  }

  /** What is stored of an intact request is what the client has not got yet. */
  lemma StoredIsRest(v: View, data: Bytes)
    requires Exact(v, [])
    requires data == if v.completed.Some? then v.completed.value else if v.buffered.Some? then v.buffered.value else []
    ensures !v.lost ==> v.streamed + data == v.delivered
    ensures data == StoredPart(v)
  {
    assert v.streamed + [] == v.streamed && [] + data == data;
  }

  lemma Finished(was: State, now: State, id: Id, body: Bytes, totalBytes: nat)
    requires forall x :: Stored(was, x) && (x !in was.reaped ==> Exact(ViewOf(was, x), []))
    requires body == Body(was, id)
    requires totalBytes == TotalBytes(was, id)
    requires forall x :: Find(now.buffers, x) == if x == id then None else Find(was.buffers, x)
    requires forall x :: Find(now.completed, x) == if x == id then None else Find(was.completed, x)
    requires forall x :: Find(now.totals, x) == if x == id then None else Find(was.totals, x)
    requires now.live == was.live - {id} && now.dropped == was.dropped - {id} && now.lost == was.lost - {id} && now.reaped == was.reaped - {id}
    requires now.cuts == was.cuts && now.gone == was.gone - {id}
    requires forall x :: DeliveredOf(now.log, x) == if x == id then [] else DeliveredOf(was.log, x)
    requires forall x :: StreamOf(now.log, x) == if x == id then [] else StreamOf(was.log, x)
    ensures forall x :: Stored(now, x) && (x !in now.reaped ==> Exact(ViewOf(now, x), []))
    ensures id !in was.reaped ==> totalBytes == |DeliveredOf(was.log, id)|
    ensures id !in was.reaped && id !in was.lost ==> StreamOf(was.log, id) + body == DeliveredOf(was.log, id)
    ensures id !in was.reaped ==> body == StoredPart(ViewOf(was, id))
  {
    forall x ensures Stored(now, x) && (x !in now.reaped ==> Exact(ViewOf(now, x), [])) {
      assert Stored(was, x);
      assert x != id ==> ViewOf(now, x) == ViewOf(was, x);
    }
    if id !in was.reaped {
      assert Stored(was, id);
      StoredIsRest(ViewOf(was, id), body);
    }
  }

  lemma Reaped(was: State, now: State, id: Id)
    requires forall x :: Stored(was, x) && (x !in was.reaped ==> Exact(ViewOf(was, x), []))
    requires forall x :: Find(now.buffers, x) == if x == id then None else Find(was.buffers, x)
    requires forall x :: Find(now.totals, x) == if x == id then None else Find(was.totals, x)
    requires now.completed == was.completed && now.live == was.live - {id} && now.dropped == was.dropped - {id}
    requires now.lost == was.lost && now.reaped == was.reaped + {id} && now.log == was.log
    requires now.cuts == was.cuts && now.gone == was.gone
    ensures forall x :: Stored(now, x) && (x !in now.reaped ==> Exact(ViewOf(now, x), []))
  {
    forall x ensures Stored(now, x) && (x !in now.reaped ==> Exact(ViewOf(now, x), [])) {
      assert Stored(was, x);
      assert x != id ==> ViewOf(now, x) == ViewOf(was, x);
    }
  }

  lemma CompletedReaped(was: State, now: State, id: Id)
    requires forall x :: Stored(was, x) && (x !in was.reaped ==> Exact(ViewOf(was, x), []))
    requires now == was.(completed := now.completed, gone := was.gone + {id})
    requires forall x :: Find(now.completed, x) == if x == id then None else Find(was.completed, x)
    ensures forall x :: Stored(now, x) && (x !in now.reaped ==> Exact(ViewOf(now, x), []))
  {
    forall x ensures Stored(now, x) && (x !in now.reaped ==> Exact(ViewOf(now, x), [])) {
      assert Stored(was, x);
      if x !in now.reaped { ForgottenExact(ViewOf(was, x), ViewOf(now, x), []); }
    }
  }

  // ───────────── which bodies are cut, and which go ─────────────

  /** The bodies go in the order they came, and only while the table is full. */
  ghost predicate Rolled(was: Bodies, now: Bodies) {
    exists added, n: nat :: RolledBy(was, now, added, n)
  }

  ghost predicate RolledBy(was: Bodies, now: Bodies, added: seq<Id>, n: nat) {
    var all := Keys(was.table) + added;
    && n <= |all| && Keys(now.table) == all[n..] && (n > 0 ==> |now.table| >= MAX_COMPLETED_BODIES - 1)
    && forall x :: x in now.gone && x !in was.gone ==> x in all[..n]
  }

  lemma RolledTwice(a: Bodies, b: Bodies, c: Bodies)
    requires Rolled(a, b) && Rolled(b, c)
    ensures Rolled(a, c)
  {
    var add1, n1: nat :| RolledBy(a, b, add1, n1);
    var add2, n2: nat :| RolledBy(b, c, add2, n2);
    var all1, all2, all := Keys(a.table) + add1, Keys(b.table) + add2, Keys(a.table) + (add1 + add2);
    assert all == all1 + add2 && all2 == all[n1..];
    assert all[n1 + n2..] == all2[n2..];
    forall x | x in all1[..n1] || x in all2[..n2] ensures x in all[..n1 + n2] {
      if x in all1[..n1] {
        var i :| 0 <= i < n1 && all1[i] == x;
        assert all[..n1 + n2][i] == x;
      } else {
        var i :| 0 <= i < n2 && all2[i] == x;
        assert all[..n1 + n2][n1 + i] == x;
      }
    }
    assert RolledBy(a, c, add1 + add2, n1 + n2);
  }

  lemma RolledNot(b: Bodies)
    ensures Rolled(b, b)
  {
    assert Keys(b.table) + [] == Keys(b.table);
    assert RolledBy(b, b, [], 0);
  }

  /** Requests newly dropped are cut at what was delivered, but for `late` bytes of `id`; the cuts
      of others stay. */
  ghost predicate Cutting(was: State, now: State, id: Id, late: nat) {
    && was.dropped <= now.dropped
    && (forall x :: x in was.dropped ==> CutOf(now, x) == CutOf(was, x))
    && (forall x :: x in now.dropped && x !in was.dropped && x !in was.reaped ==>
          CutOf(now, x) + (if x == id then late else 0) == |DeliveredOf(was.log, x)|)
  }

  lemma StruckCutting(was: State, now: State, x: Id, id: Id, late: Bytes)
    requires Accounts(was, id, late) && Has(was.buffers, x) && Strikes(was, now, x)
    ensures Cutting(was, now, id, |late|) && OthersStay(was, now)
  {
    forall y | y in was.dropped || y !in now.dropped ensures BodyStays(BodiesOf(was), BodiesOf(now), y) {
    }
    assert Stored(was, x);
    if x !in was.reaped { assert Exact(ViewOf(was, x), if x == id then late else []); }
  }

  /** The request itself, if it had no body yet, does not lose the one it gets. */
  predicate NotGone(was: Bodies, now: Bodies, id: Id) {
    !Has(was.table, id) && id in now.gone ==> id in was.gone
  }

  /** What making room does: it cuts, and the bodies go in their order. */
  ghost predicate Sheds(was: State, now: State, id: Id, late: nat) {
    && Cutting(was, now, id, late) && Rolled(BodiesOf(was), BodiesOf(now)) && OthersStay(was, now)
    && now.log == was.log && now.reaped == was.reaped
  }

  /** Only what is newly dropped gets a body. */
  ghost predicate OthersStay(was: State, now: State) {
    forall x :: x in was.dropped || x !in now.dropped ==> BodyStays(BodiesOf(was), BodiesOf(now), x)
  }

  lemma SameBodies(was: State, mid: State, now: State)
    requires mid.dropped == was.dropped && BodiesOf(mid) == BodiesOf(was) && OthersStay(mid, now)
    ensures OthersStay(was, now)
  {
    forall x | x in was.dropped || x !in now.dropped ensures BodyStays(BodiesOf(was), BodiesOf(now), x) {
      assert BodyStays(BodiesOf(mid), BodiesOf(now), x);
    }
  }

  lemma KeptOn(was: State, mid: State, now: State, id: Id, late: nat)
    requires Cutting(was, mid, id, late) && OthersStay(was, mid) && mid.dropped == now.dropped && mid.cuts == now.cuts
    requires BodiesOf(mid) == BodiesOf(now)
    ensures Cutting(was, now, id, late) && OthersStay(was, now)
  {
  }

  lemma OthersStayTwice(a: State, b: State, c: State)
    requires OthersStay(a, b) && OthersStay(b, c) && a.dropped <= b.dropped <= c.dropped
    ensures OthersStay(a, c)
  {
    forall x | x in a.dropped || x !in c.dropped ensures BodyStays(BodiesOf(a), BodiesOf(c), x) {
      assert BodyStays(BodiesOf(a), BodiesOf(b), x) && BodyStays(BodiesOf(b), BodiesOf(c), x);
    }
  }

  lemma ShedsNot(s: State, id: Id, late: nat)
    ensures Sheds(s, s, id, late)
  {
    RolledNot(BodiesOf(s));
  }

  lemma ShedsTwice(a: State, b: State, c: State, id: Id, late: nat)
    requires Sheds(a, b, id, late) && Sheds(b, c, id, late)
    ensures Sheds(a, c, id, late)
  {
    RolledTwice(BodiesOf(a), BodiesOf(b), BodiesOf(c));
    CuttingTwice(a, b, c, id, late);
    OthersStayTwice(a, b, c);
  }

  /** Requests newly dropped are cut at what was delivered of them. */
  ghost predicate CutAt(was: State, now: State) {
    Cutting(was, now, "", 0)
  }

  lemma CutBefore(was: State, mid: State, now: State, id: Id, data: Bytes)
    requires Cutting(mid, now, id, |data|) && mid.dropped == was.dropped && mid.cuts == was.cuts && mid.reaped == was.reaped
    requires forall x :: DeliveredOf(mid.log, x) == if x == id then DeliveredOf(was.log, x) + data else DeliveredOf(was.log, x)
    ensures CutAt(was, now)
  {
  }

  lemma CuttingTwice(a: State, b: State, c: State, id: Id, late: nat)
    requires Cutting(a, b, id, late) && Cutting(b, c, id, late) && b.log == a.log && b.reaped == a.reaped
    ensures Cutting(a, c, id, late)
  {
  }

  lemma FirstGone(t: Table<Bytes>, gone: set<Id>)
    requires |t| >= MAX_COMPLETED_BODIES && Unique(t)
    ensures Rolled(Bodies(t, gone), Bodies(Delete(t, t[0].0), gone + {t[0].0}))
  {
    DeleteAbsent(t[1..], t[0].0);
    assert Delete(t, t[0].0) == t[1..];
    assert Keys(t) + [] == Keys(t) && Keys(t)[1..] == Keys(t[1..]);
    assert Keys(t)[..1][0] == t[0].0;
    assert RolledBy(Bodies(t, gone), Bodies(Delete(t, t[0].0), gone + {t[0].0}), [], 1);
  }

  lemma PutLast(t: Table<Bytes>, gone: set<Id>, id: Id, data: Bytes)
    ensures Rolled(Bodies(t, gone), Bodies(Put(t, id, data), gone - {id}))
  {
    if Has(t, id) {
      PutKeys(t, id, data);
      assert Keys(t) + [] == Keys(t);
      assert RolledBy(Bodies(t, gone), Bodies(Put(t, id, data), gone - {id}), [], 0);
    } else {
      PutNewKeys(t, id, data);
      assert RolledBy(Bodies(t, gone), Bodies(Put(t, id, data), gone - {id}), [id], 0);
    }
  }

  // ───────────── making room ─────────────

  ghost predicate OneLess(was: Table<Buffer>, now: Table<Buffer>, id: Id) {
    forall x :: Find(now, x) == if x == id then None else Find(was, x)
  }

  /** Buffers only go; those that stay do not change. */
  ghost predicate Within(was: Table<Buffer>, now: Table<Buffer>) {
    forall x :: Has(now, x) ==> Find(now, x) == Find(was, x)
  }

  /** The last of the others to go had to: with its buffer, what comes would not fit. */
  predicate NoneInVain(was: Table<Buffer>, now: Table<Buffer>, bytes: int, id: Id, room: int) {
    var ids := Keys(was);
    forall j :: 0 <= j < |ids| && Has(was, ids[j]) && !Has(now, ids[j]) && (forall m :: j < m < |ids| ==> Has(now, ids[m]) || ids[m] == id)
      ==> bytes + Find(was, ids[j]).value.total > room
  }

  lemma NoneInVainStep(was: Table<Buffer>, mid: Table<Buffer>, now: Table<Buffer>, before: int, bytes: int, k: nat, id: Id, room: int)
    requires k < |Keys(was)| && before > room && Unique(was) && Within(was, mid) && Has(mid, id)
    requires forall j :: k <= j < |Keys(was)| ==> Has(mid, Keys(was)[j])
    requires NoneInVain(was, mid, before, id, room)
    requires var x := Keys(was)[k];
      if x == id then now == mid && bytes == before else OneLess(mid, now, x) && bytes == before - Find(mid, x).value.total
    ensures Within(was, now) && NoneInVain(was, now, bytes, id, room)
  {
    var ids := Keys(was);
    KeysUnique(was);
    forall j | 0 <= j < |ids| && Has(was, ids[j]) && !Has(now, ids[j]) && (forall m :: j < m < |ids| ==> Has(now, ids[m]) || ids[m] == id)
      ensures bytes + Find(was, ids[j]).value.total > room
    {
      if ids[k] != id { assert !Has(now, ids[k]) && j == k; }
    }
  }
}
