/** Capturing response bodies on the main thread: bounded buffers that are evicted under
    pressure, truncated when a body is too long, and handed over to live streaming. */
module BodyCapture {
  import opened Options
  import opened BodyBuffers
  import opened InsertionMap
  import opened BodyAccounts

  class Capture {
    const preview: nat
    const limit: nat
    var buffers: Table<Buffer>
    var completed: Table<Bytes>
    var totals: Table<nat>
    var bytes: int
    var live: set<Id>
    var dropped: set<Id>
    ghost var log: seq<Entry>
    /** Requests that lost bytes to a limit, and requests the stale reaper touched. */
    ghost var lost: set<Id>
    ghost var reaped: set<Id>
    /** Where the dropped requests were cut, and whose body has been pushed out or reaped since. */
    ghost var cuts: map<Id, nat>
    ghost var gone: set<Id>

    constructor (preview: nat, limit: nat)
      ensures Valid(Snapshot(), limit) && this.preview == preview && this.limit == limit && log == []
    {
      this.preview, this.limit := preview, limit;
      buffers, completed, totals, bytes := [], [], [], 0;
      live, dropped := {}, {};
      log, lost, reaped, cuts, gone := [], {}, {}, map[], {};
    }

    ghost function Snapshot(): State
      reads this
    {
      State(buffers, completed, totals, bytes, live, dropped, log, lost, reaped, cuts, gone)
    }

    ghost function CutBodies(): (b: Bodies)
      reads `completed, `gone
      ensures b == BodiesOf(Snapshot())
    {
      Bodies(completed, gone)
    }

    predicate Fits(n: nat) { n <= preview && n <= limit }

    function Held(id: Id): nat
      reads `buffers
    {
      if Has(buffers, id) then Find(buffers, id).value.total else 0
    }

    method EvictOldestBody()
      requires Unique(completed) && |completed| <= MAX_COMPLETED_BODIES
      modifies `completed, `gone
      ensures Unique(completed) && |completed| < MAX_COMPLETED_BODIES
      ensures completed == if |old(completed)| >= MAX_COMPLETED_BODIES then Delete(old(completed), old(completed)[0].0) else old(completed)
      ensures forall x :: BodyStays(old(CutBodies()), CutBodies(), x)
      ensures Rolled(old(CutBodies()), CutBodies())
    {
      RolledNot(CutBodies());
      if |completed| >= MAX_COMPLETED_BODIES {
        var oldest := completed[0].0;
        FirstGone(completed, gone);
        FindDeleteAll(completed, oldest);
        gone := gone + {oldest};
        completed := Delete(completed, oldest);
      }
    }

    method Complete(id: Id, data: Bytes)
      requires Unique(completed) && |completed| <= MAX_COMPLETED_BODIES
      modifies `completed, `gone
      ensures Unique(completed) && |completed| <= MAX_COMPLETED_BODIES
      ensures Find(completed, id) == Some(data) && id !in gone
      ensures forall x :: x != id ==> BodyStays(old(CutBodies()), CutBodies(), x)
      ensures Rolled(old(CutBodies()), CutBodies())
    {
      ghost var was := CutBodies();
      EvictOldestBody();
      ghost var evicted := CutBodies();
      FindPutAll(completed, id, data);
      PutLast(completed, gone, id, data);
      completed := Put(completed, id, data);
      gone := gone - {id};
      RolledTwice(was, evicted, CutBodies());
      forall x | x != id ensures BodyStays(was, CutBodies(), x) { assert BodyStays(was, evicted, x); }
    }

    /** The clamp at zero never bites. */
    method DropBodyBuffer(id: Id)
      requires Tables(Snapshot(), limit)
      modifies `buffers, `bytes
      ensures Tables(Snapshot(), limit) && buffers == Delete(old(buffers), id)
      ensures bytes == old(bytes) - (if Has(old(buffers), id) then Find(old(buffers), id).value.total else 0)
    {
      FindDeleteAll(buffers, id);
      TotalDelete(buffers, id, SizeOf);
      DeleteAbsent(buffers, id);
      if !Has(buffers, id) { return; }
      var existing := Find(buffers, id).value;
      bytes := Max(0, bytes - existing.total);
      buffers := Delete(buffers, id);
    }

    /** What was stored becomes the body, cut where the buffer ends. */
    method CutOff(id: Id)
      requires Tables(Snapshot(), limit) && Stored(Snapshot(), id) && Has(buffers, id)
      modifies `dropped, `lost, `completed, `cuts, `gone
      ensures Tables(Snapshot(), limit) && Strikes(old(Snapshot()), Snapshot(), id) && Rolled(old(CutBodies()), CutBodies())
    {
      RolledNot(CutBodies());
      var buf := Find(buffers, id).value;
      if id !in dropped { cuts := cuts[id := buf.total]; }
      dropped := dropped + {id};
      lost := lost + {id};
      if |buf.chunks| > 0 {
        var data := MergeChunks(buf.chunks);
        Complete(id, data);
      }
    }

    method DropRequestBody(id: Id, ghost current: Id, ghost late: Bytes)
      requires Tables(Snapshot(), limit) && Accounts(Snapshot(), current, late) && Has(buffers, id)
      modifies `dropped, `lost, `completed, `buffers, `bytes, `cuts, `gone
      ensures Tables(Snapshot(), limit) && Accounts(Snapshot(), current, late)
      ensures buffers == Delete(old(buffers), id)
      ensures bytes == old(bytes) - Find(old(buffers), id).value.total
      ensures dropped == old(dropped) + {id} && lost == old(lost) + {id}
      ensures Sheds(old(Snapshot()), Snapshot(), current, |late|) && (id in gone ==> id in old(gone))
    {
      ghost var was := Snapshot();
      assert Stored(was, id);
      CutOff(id);
      ghost var struck := Snapshot();
      FindDeleteAll(buffers, id);
      DropBodyBuffer(id);
      StrikesOn(was, struck, Snapshot(), id);
      AccountsAfterDrop(was, Snapshot(), id, current, late);
      StruckCutting(was, Snapshot(), id, current, late);
    }

    /** Makes room by dropping other requests, oldest first, never the one about to grow. */
    method EnsureCapacity(id: Id, incoming: nat, ghost late: Bytes) returns (ok: bool)
      requires Tables(Snapshot(), limit) && Accounts(Snapshot(), id, late) && Has(buffers, id)
      modifies `dropped, `lost, `completed, `buffers, `bytes, `cuts, `gone
      ensures Tables(Snapshot(), limit) && Accounts(Snapshot(), id, late)
      ensures ok ==> bytes + incoming <= limit && Find(buffers, id) == Find(old(buffers), id)
      ensures ok ==> (id in dropped <==> id in old(dropped))
      ensures !ok ==> !Has(buffers, id) && id in dropped
      ensures ok <==> Find(old(buffers), id).value.total + incoming <= limit
      ensures ok ==> OldestFirst(old(buffers), id) && NoneInVain(old(buffers), buffers, bytes, id, limit - incoming)
      ensures !ok ==> forall x :: !Has(buffers, x)
      ensures old(bytes) + incoming <= limit ==> buffers == old(buffers) && dropped == old(dropped) && lost == old(lost)
      ensures Sheds(old(Snapshot()), Snapshot(), id, |late|) && NotGone(old(CutBodies()), CutBodies(), id)
    {
      ghost var was := Snapshot();
      DropOthers(id, incoming, late);
      assert id !in old(dropped) ==> BodyStays(old(CutBodies()), CutBodies(), id);
      ghost var room := Snapshot();
      TotalDelete(buffers, id, SizeOf);
      if bytes + incoming <= limit { return true; }
      OnlyOne(buffers, id, SizeOf);
      FindDeleteAll(buffers, id);
      DropRequestBody(id, id, late);
      ShedsTwice(was, room, Snapshot(), id, |late|);
      assert forall x :: Has(buffers, x) <==> Has(room.buffers, x) && x != id;
      ok := false;
    }

    method DropOthers(id: Id, incoming: nat, ghost late: Bytes)
      requires Tables(Snapshot(), limit) && Accounts(Snapshot(), id, late) && Has(buffers, id)
      modifies `dropped, `lost, `completed, `buffers, `bytes, `cuts, `gone
      ensures OldestFirst(old(buffers), id) && NoneInVain(old(buffers), buffers, bytes, id, limit - incoming)
      ensures Tables(Snapshot(), limit) && Accounts(Snapshot(), id, late)
      ensures Find(buffers, id) == Find(old(buffers), id) && (id in dropped <==> id in old(dropped))
      ensures bytes + incoming <= limit || forall x :: Has(buffers, x) ==> x == id
      ensures old(bytes) + incoming <= limit ==> buffers == old(buffers) && dropped == old(dropped) && lost == old(lost)
      ensures Sheds(old(Snapshot()), Snapshot(), id, |late|)
    {
      ShedsNot(Snapshot(), id, |late|);
      var ids := Keys(buffers);
      KeysUnique(buffers);
      forall x ensures Has(buffers, x) <==> x in ids { KeysAll(buffers, x); }
      var k := 0;
      while k < |ids| && bytes + incoming > limit
        invariant 0 <= k <= |ids|
        invariant Tables(Snapshot(), limit) && Accounts(Snapshot(), id, late)
        invariant DroppedUpTo(ids, k, id) && Within(old(buffers), buffers) && NoneInVain(old(buffers), buffers, bytes, id, limit - incoming)
        invariant Find(buffers, id) == Find(old(buffers), id) && (id in dropped <==> id in old(dropped))
        invariant Sheds(old(Snapshot()), Snapshot(), id, |late|)
        invariant old(bytes) + incoming <= limit ==> buffers == old(buffers) && dropped == old(dropped) && lost == old(lost) && bytes == old(bytes)
      {
        ghost var mid := Snapshot();
        DropNth(ids, k, id, late);
        NoneInVainStep(old(buffers), mid.buffers, buffers, mid.bytes, bytes, k, id, limit - incoming);
        ShedsTwice(old(Snapshot()), mid, Snapshot(), id, |late|);
        k := k + 1;
      }
    }

    method DropNth(ids: seq<Id>, k: nat, id: Id, ghost late: Bytes)
      requires Tables(Snapshot(), limit) && Accounts(Snapshot(), id, late) && Has(buffers, id)
      requires k < |ids| && DroppedUpTo(ids, k, id) && forall i, j :: 0 <= i < j < |ids| ==> ids[i] != ids[j]
      modifies `dropped, `lost, `completed, `buffers, `bytes, `cuts, `gone
      ensures Tables(Snapshot(), limit) && Accounts(Snapshot(), id, late) && DroppedUpTo(ids, k + 1, id)
      ensures Find(buffers, id) == Find(old(buffers), id) && (id in dropped <==> id in old(dropped))
      ensures Sheds(old(Snapshot()), Snapshot(), id, |late|)
      ensures if ids[k] == id then buffers == old(buffers) && bytes == old(bytes)
        else OneLess(old(buffers), buffers, ids[k]) && bytes == old(bytes) - Find(old(buffers), ids[k]).value.total
    {
      ShedsNot(Snapshot(), id, |late|);
      if ids[k] != id { DropOther(ids[k], id, late); }
    }

    /** The first `k` of the others have no buffer any more. */
    ghost predicate DroppedUpTo(ids: seq<Id>, k: nat, id: Id)
      requires k <= |ids|
      reads `buffers
    {
      && (forall j :: k <= j < |ids| ==> Has(buffers, ids[j]))
      && (forall j :: 0 <= j < k ==> ids[j] == id || !Has(buffers, ids[j]))
      && (forall x :: Has(buffers, x) ==> x in ids)
    }

    /** Among the others, a buffer goes only after every older one. */
    predicate OldestFirst(was: Table<Buffer>, id: Id)
      reads `buffers
    {
      var ids := Keys(was);
      forall i, j :: 0 <= i < j < |ids| && ids[i] != id && !Has(buffers, ids[j]) ==> !Has(buffers, ids[i])
    }

    method DropOther(other: Id, id: Id, ghost late: Bytes)
      requires Tables(Snapshot(), limit) && Accounts(Snapshot(), id, late) && Has(buffers, other) && other != id
      modifies `dropped, `lost, `completed, `buffers, `bytes, `cuts, `gone
      ensures Tables(Snapshot(), limit) && Accounts(Snapshot(), id, late)
      ensures OneLess(old(buffers), buffers, other) && bytes == old(bytes) - Find(old(buffers), other).value.total
      ensures id in dropped <==> id in old(dropped)
      ensures Sheds(old(Snapshot()), Snapshot(), id, |late|)
    {
      FindDeleteAll(buffers, other);
      DropRequestBody(other, id, late);
    }

    method Count(id: Id, n: nat)
      requires Unique(totals)
      modifies `totals
      ensures Unique(totals)
      ensures CountOf(totals, id) == CountOf(old(totals), id) + n
      ensures forall x :: x != id ==> Find(totals, x) == Find(old(totals), x)
    {
      var before: nat := CountOf(totals, id) + n;
      FindPutAll(totals, id, before);
      totals := Put(totals, id, before);
    }

    /** A chunk of a response body. Whatever a limit takes is cut at what was delivered before it. */
    method HandleData(id: Id, data: Bytes)
      requires Valid(Snapshot(), limit)
      modifies this
      ensures Valid(Snapshot(), limit)
      ensures live == old(live) && reaped == old(reaped)
      ensures id in live ==> log == old(log) + [Arrived(id, data), Data(id, data, |data|)]
      ensures id !in live && id in dropped ==> log == old(log) + [Arrived(id, data), Data(id, [], |data|)]
      ensures id !in live && id !in dropped ==> log == old(log) + [Arrived(id, data)]
      ensures id !in live && id !in old(dropped) ==> (id in dropped <==> !Fits(old(Held(id)) + |data|))
      ensures id !in live + dropped && old(bytes) + |data| <= limit ==> dropped == old(dropped) && lost == old(lost)
      ensures id in live + old(dropped) ==> dropped == old(dropped) && cuts == old(cuts) && CutBodies() == old(CutBodies())
      ensures CutAt(old(Snapshot()), Snapshot()) && Rolled(old(CutBodies()), CutBodies())
      ensures OthersStay(old(Snapshot()), Snapshot()) && NotGone(old(CutBodies()), CutBodies(), id)
    {
      ShedsNot(Snapshot(), id, 0);
      if id in live {
        PassOn(id, data, data);
      } else if id in dropped {
        PassOn(id, data, []);
      } else {
        Store(id, data);
      }
    }

    method Store(id: Id, data: Bytes)
      requires Valid(Snapshot(), limit) && id !in live && id !in dropped
      modifies `dropped, `lost, `completed, `totals, `buffers, `bytes, `log, `cuts, `gone
      ensures Valid(Snapshot(), limit)
      ensures log == old(log) + [Arrived(id, data)] + if id in dropped then [Data(id, [], |data|)] else []
      ensures id in dropped <==> !Fits(old(Held(id)) + |data|)
      ensures id !in dropped && old(bytes) + |data| <= limit ==> dropped == old(dropped) && lost == old(lost)
      ensures CutAt(old(Snapshot()), Snapshot()) && Rolled(old(CutBodies()), CutBodies())
      ensures OthersStay(old(Snapshot()), Snapshot()) && NotGone(old(CutBodies()), CutBodies(), id)
    {
      ghost var was := Snapshot();
      RolledNot(CutBodies());
      Admit(id, data);
      ghost var admitted := Snapshot();
      Keep(id, data);
      LogAppendAll(was.log, Arrived(id, data));
      SameBodies(was, admitted, Snapshot());
      CutBefore(was, admitted, Snapshot(), id, data);
    }

    method PassOn(id: Id, data: Bytes, shown: Bytes)
      requires Valid(Snapshot(), limit) && (id in live || id in dropped)
      requires shown == if id in live then data else []
      modifies `totals, `log
      ensures Valid(Snapshot(), limit)
      ensures log == old(log) + [Arrived(id, data), Data(id, shown, |data|)]
    {
      ghost var was := Snapshot();
      Count(id, |data|);
      log := log + [Arrived(id, data)];
      LogAppendAll(was.log, Arrived(id, data));
      LogAppendAll(log, Data(id, shown, |data|));
      assert was.log + [Arrived(id, data), Data(id, shown, |data|)] == log + [Data(id, shown, |data|)];
      log := log + [Data(id, shown, |data|)];
      PassedOn(was, Snapshot(), id, data);
    }

    /** The request gets a buffer if it has none; the chunk is not stored yet. */
    method Admit(id: Id, data: Bytes)
      requires Valid(Snapshot(), limit) && id !in live && id !in dropped
      modifies `totals, `log, `buffers
      ensures Tables(Snapshot(), limit) && Accounts(Snapshot(), id, data) && Has(buffers, id)
      ensures log == old(log) + [Arrived(id, data)]
      ensures Find(buffers, id).value.total == old(Held(id)) && bytes == old(bytes)
    {
      ghost var was := Snapshot();
      Count(id, |data|);
      log := log + [Arrived(id, data)];
      LogAppendAll(was.log, Arrived(id, data));
      if !Has(buffers, id) {
        FindPutAll(buffers, id, Buffer([], 0));
        TotalPut(buffers, id, Buffer([], 0), SizeOf);
        buffers := Put(buffers, id, Buffer([], 0));
      }
      Admitted(was, Snapshot(), id, data);
    }

    /** Stores the chunk, or loses it to the preview limit or to the pending limit. */
    method Keep(id: Id, data: Bytes)
      requires Tables(Snapshot(), limit) && Accounts(Snapshot(), id, data)
      requires Has(buffers, id) && id !in live && id !in dropped
      modifies `dropped, `lost, `completed, `buffers, `bytes, `log, `cuts, `gone
      ensures Valid(Snapshot(), limit)
      ensures log == if id in dropped then old(log) + [Data(id, [], |data|)] else old(log)
      ensures id !in dropped <==> Fits(Find(old(buffers), id).value.total + |data|)
      ensures id !in dropped && old(bytes) + |data| <= limit ==> dropped == old(dropped) && lost == old(lost)
      ensures Cutting(old(Snapshot()), Snapshot(), id, |data|) && Rolled(old(CutBodies()), CutBodies())
      ensures OthersStay(old(Snapshot()), Snapshot()) && NotGone(old(CutBodies()), CutBodies(), id)
    {
      ShedsNot(Snapshot(), id, |data|);
      var buf := Find(buffers, id).value;
      if buf.total + |data| > preview {
        Truncate(id, data);
        Placeholder(id, data);
        return;
      }
      Squeeze(id, data);
    }

    /** Within the preview limit: room is made, or this request is dropped. */
    method Squeeze(id: Id, data: Bytes)
      requires Tables(Snapshot(), limit) && Accounts(Snapshot(), id, data)
      requires Has(buffers, id) && id !in live && id !in dropped
      modifies `dropped, `lost, `completed, `buffers, `bytes, `log, `cuts, `gone
      ensures Valid(Snapshot(), limit)
      ensures log == if id in dropped then old(log) + [Data(id, [], |data|)] else old(log)
      ensures id !in dropped <==> Find(old(buffers), id).value.total + |data| <= limit
      ensures id !in dropped && old(bytes) + |data| <= limit ==> dropped == old(dropped) && lost == old(lost)
      ensures Cutting(old(Snapshot()), Snapshot(), id, |data|) && Rolled(old(CutBodies()), CutBodies())
      ensures OthersStay(old(Snapshot()), Snapshot()) && NotGone(old(CutBodies()), CutBodies(), id)
    {
      ghost var was := Snapshot();
      var ok := EnsureCapacity(id, |data|, data);
      ghost var room := Snapshot();
      if ok { Grow(id, data); } else { Placeholder(id, data); }
      assert Sheds(was, room, id, |data|);
      KeptOn(was, room, Snapshot(), id, |data|);
    }

    method Grow(id: Id, data: Bytes)
      requires Tables(Snapshot(), limit) && Accounts(Snapshot(), id, data)
      requires Has(buffers, id) && id !in live && id !in dropped && bytes + |data| <= limit
      modifies `buffers, `bytes
      ensures Valid(Snapshot(), limit)
    {
      ghost var was := Snapshot();
      var buf := Find(buffers, id).value;
      var grown := Buffer(buf.chunks + [data], buf.total + |data|);
      FindPutAll(buffers, id, grown);
      TotalPut(buffers, id, grown, SizeOf);
      buffers := Put(buffers, id, grown);
      bytes := bytes + |data|;
      Kept(was, Snapshot(), id, data);
    }

    /** The preview limit: the body is cut where the buffer ends. */
    method Truncate(id: Id, data: Bytes)
      requires Tables(Snapshot(), limit) && Accounts(Snapshot(), id, data) && Has(buffers, id) && id !in dropped
      modifies `dropped, `lost, `completed, `buffers, `bytes, `cuts, `gone
      ensures Tables(Snapshot(), limit) && Accounts(Snapshot(), id, data)
      ensures dropped == old(dropped) + {id} && Find(buffers, id) == Some(Buffer([], 0))
      ensures Sheds(old(Snapshot()), Snapshot(), id, |data|) && id !in gone
    {
      ghost var was := Snapshot();
      assert Stored(was, id);
      CutShort(id);
      ghost var struck := Snapshot();
      var total := Find(buffers, id).value.total;
      FindPutAll(buffers, id, Buffer([], 0));
      TotalPut(buffers, id, Buffer([], 0), SizeOf);
      bytes := Max(0, bytes - total);
      buffers := Put(buffers, id, Buffer([], 0));
      StrikesOn(was, struck, Snapshot(), id);
      AccountsAfterDrop(was, Snapshot(), id, id, data);
      StruckCutting(was, Snapshot(), id, id, data);
    }

    method CutShort(id: Id)
      requires Tables(Snapshot(), limit) && Stored(Snapshot(), id) && Has(buffers, id) && id !in dropped
      modifies `dropped, `lost, `completed, `cuts, `gone
      ensures Tables(Snapshot(), limit) && Strikes(old(Snapshot()), Snapshot(), id) && Rolled(old(CutBodies()), CutBodies())
      ensures id !in gone
    {
      var buf := Find(buffers, id).value;
      var merged := MergeChunks(buf.chunks);
      Complete(id, merged);
      dropped := dropped + {id};
      lost, cuts := lost + {id}, cuts[id := buf.total];
    }

    method Placeholder(id: Id, data: Bytes)
      requires Tables(Snapshot(), limit) && Accounts(Snapshot(), id, data) && id in dropped
      requires Has(buffers, id) ==> Find(buffers, id).value.chunks == []
      modifies `log
      ensures Valid(Snapshot(), limit) && log == old(log) + [Data(id, [], |data|)]
    {
      ghost var was := Snapshot();
      LogAppendAll(log, Data(id, [], |data|));
      log := log + [Data(id, [], |data|)];
      LostAll(was, Snapshot(), id, data);
    }

    method TakeBodyBuffer(id: Id) returns (data: Bytes)
      requires Tables(Snapshot(), limit)
      modifies `completed, `buffers, `bytes
      ensures Tables(Snapshot(), limit)
      ensures data == Body(old(Snapshot()), id)
      ensures forall x :: Find(completed, x) == if x == id then None else Find(old(completed), x)
      ensures forall x :: Find(buffers, x) == if x == id then None else Find(old(buffers), x)
    {
      var chunks := [];
      if Has(completed, id) {
        chunks := [Find(completed, id).value];
      } else if Has(buffers, id) {
        chunks := Find(buffers, id).value.chunks;
      }
      data := MergeChunks(chunks);
      assert Has(completed, id) ==> chunks[1..] == [] && chunks[0] + [] == chunks[0];
      FindDeleteAll(completed, id);
      completed := Delete(completed, id);
      FindDeleteAll(buffers, id);
      DropBodyBuffer(id);
    }

    /** Hands what is stored to the client, and everything that follows as it comes. */
    method EnableStreaming(id: Id) returns (data: Bytes)
      requires Valid(Snapshot(), limit)
      modifies this
      ensures Valid(Snapshot(), limit) && live == old(live) + {id} && reaped == old(reaped)
      ensures log == old(log) + [Handed(id, data)]
      ensures id !in reaped && id !in old(lost) ==> StreamOf(old(log), id) + data == DeliveredOf(old(log), id)
      ensures id !in reaped ==> data == old(StoredPart(ViewOf(Snapshot(), id)))
      ensures cuts == old(cuts) && gone == old(gone) && forall x :: x != id ==> Find(completed, x) == Find(old(completed), x)
      ensures forall x :: x != id ==> Find(buffers, x) == Find(old(buffers), x)
    {
      ghost var was := Snapshot();
      data := TakeBodyBuffer(id);
      live := live + {id};
      dropped := dropped - {id};
      LogAppendAll(log, Handed(id, data));
      log := log + [Handed(id, data)];
      HandedOver(was, Snapshot(), id, data);
    }

    /** The end of a response: whatever is still stored goes out as its body. */
    method Finish(id: Id) returns (body: Bytes, totalBytes: nat)
      requires Valid(Snapshot(), limit)
      modifies this
      ensures Valid(Snapshot(), limit)
      ensures log == old(log) + [Done(id, body, totalBytes)]
      ensures id !in old(reaped) ==> totalBytes == |DeliveredOf(old(log), id)|
      ensures id !in old(reaped) && id !in old(lost) ==> StreamOf(old(log), id) + body == DeliveredOf(old(log), id)
      ensures id !in old(reaped) ==> body == old(StoredPart(ViewOf(Snapshot(), id)))
      ensures cuts == old(cuts) && gone == old(gone) - {id} && forall x :: x != id ==> Find(completed, x) == Find(old(completed), x)
      ensures id !in live + dropped + lost + reaped && !Has(buffers, id) && !Has(completed, id) && !Has(totals, id)
    {
      ghost var was := Snapshot();
      totalBytes := if Has(totals, id) then CountOf(totals, id) else Held(id);
      body := TakeBodyBuffer(id);
      Conclude(id, body, totalBytes);
      Finished(was, Snapshot(), id, body, totalBytes);
    }

    method Conclude(id: Id, body: Bytes, totalBytes: nat)
      requires Unique(totals)
      modifies `totals, `live, `dropped, `lost, `reaped, `gone, `log
      ensures Unique(totals) && forall x :: Find(totals, x) == if x == id then None else Find(old(totals), x)
      ensures live == old(live) - {id} && dropped == old(dropped) - {id} && lost == old(lost) - {id}
      ensures reaped == old(reaped) - {id} && gone == old(gone) - {id} && log == old(log) + [Done(id, body, totalBytes)]
      ensures forall x :: DeliveredOf(log, x) == if x == id then [] else DeliveredOf(old(log), x)
      ensures forall x :: StreamOf(log, x) == if x == id then [] else StreamOf(old(log), x)
    {
      Forget(id);
      lost := lost - {id};
      reaped := reaped - {id};
      gone := gone - {id};
      LogAppendAll(log, Done(id, body, totalBytes));
      log := log + [Done(id, body, totalBytes)];
    }

    method Forget(id: Id)
      requires Unique(totals)
      modifies `totals, `live, `dropped
      ensures Unique(totals) && forall x :: Find(totals, x) == if x == id then None else Find(old(totals), x)
      ensures live == old(live) - {id} && dropped == old(dropped) - {id}
    {
      FindDeleteAll(totals, id);
      totals := Delete(totals, id);
      live := live - {id};
      dropped := dropped - {id};
    }

    /** The stale reaper reclaims what a lost end of response would pin: a buffer, a
        streaming id without one, or a truncated body. */
    method ReapBuffer(id: Id)
      requires Valid(Snapshot(), limit) && Has(buffers, id)
      modifies this
      ensures Valid(Snapshot(), limit) && reaped == old(reaped) + {id} && bytes == old(bytes) - old(Held(id)) && log == old(log)
      ensures CutBodies() == old(CutBodies()) && cuts == old(cuts)
    {
      ghost var was := Snapshot();
      FindDeleteAll(buffers, id);
      DropBodyBuffer(id);
      Forget(id);
      reaped := reaped + {id};
      Reaped(was, Snapshot(), id);
    }

    method ReapStream(id: Id)
      requires Valid(Snapshot(), limit)
      modifies this
      ensures Valid(Snapshot(), limit) && reaped == old(reaped) + (if Has(buffers, id) then {} else {id})
      ensures bytes == old(bytes) && buffers == old(buffers) && log == old(log)
      ensures CutBodies() == old(CutBodies()) && cuts == old(cuts)
    {
      if Has(buffers, id) { return; }
      ghost var was := Snapshot();
      Forget(id);
      reaped := reaped + {id};
      Reaped(was, Snapshot(), id);
    }

    method ReapCompleted(id: Id)
      requires Valid(Snapshot(), limit)
      modifies this
      ensures Valid(Snapshot(), limit) && reaped == old(reaped) && bytes == old(bytes) && log == old(log)
      ensures forall x :: Find(completed, x) == if x == id then None else Find(old(completed), x)
      ensures cuts == old(cuts) && gone == old(gone) + {id}
    {
      ghost var was := Snapshot();
      FindDeleteAll(completed, id);
      completed := Delete(completed, id);
      gone := gone + {id};
      CompletedReaped(was, Snapshot(), id);
    }
  }
}
