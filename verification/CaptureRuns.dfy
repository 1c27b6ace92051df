/** A response that a limit cuts, over its whole life. */
module CaptureRuns {
  import opened Options
  import opened BodyBuffers
  import opened InsertionMap
  import opened BodyAccounts
  import opened BodyCapture

  /** Nothing is known of the request yet. */
  ghost predicate Unknown(c: Capture, id: Id)
    reads c
  {
    && id !in c.live + c.dropped + c.lost + c.reaped + c.gone
    && !Has(c.buffers, id) && !Has(c.completed, id) && DeliveredOf(c.log, id) == []
  }

  /** The request is buffered, with all its bytes. */
  ghost predicate Buffering(c: Capture, id: Id, bytes: Bytes)
    reads c
  {
    && Valid(c.Snapshot(), c.limit) && id !in c.live + c.dropped + c.reaped + c.gone
    && c.Held(id) == |bytes| && !Has(c.completed, id) && DeliveredOf(c.log, id) == bytes
  }

  /** A limit has cut the request at `n` bytes. */
  ghost predicate WasCut(c: Capture, id: Id, n: nat, bytes: Bytes)
    reads c
  {
    && Valid(c.Snapshot(), c.limit) && id in c.dropped && id !in c.live + c.reaped + c.gone
    && CutOf(c.Snapshot(), id) == n && DeliveredOf(c.log, id) == bytes
  }

  method Fit(c: Capture, id: Id, data: Bytes)
    requires Valid(c.Snapshot(), c.limit) && Unknown(c, id) && c.Fits(|data|)
    modifies c
    ensures Buffering(c, id, data)
  {
    LogAppendAll(c.log, Arrived(id, data));
    c.HandleData(id, data);
    assert [] + data == data;
    StoredTotal(c, id);
  }

  method Overflow(c: Capture, id: Id, bytes: Bytes, data: Bytes)
    requires Buffering(c, id, bytes) && !c.Fits(|bytes| + |data|)
    modifies c
    ensures WasCut(c, id, |bytes|, bytes + data)
  {
    ArrivedUnseen(c.log, id, data);
    c.HandleData(id, data);
  }

  method PassBy(c: Capture, id: Id, n: nat, bytes: Bytes, data: Bytes)
    requires WasCut(c, id, n, bytes)
    modifies c
    ensures WasCut(c, id, n, bytes + data)
  {
    ArrivedUnseen(c.log, id, data);
    ghost var was := c.CutBodies();
    assert Exact(ViewOf(c.Snapshot(), id), []);
    c.HandleData(id, data);
  }

  lemma ArrivedUnseen(log: seq<Entry>, id: Id, data: Bytes)
    ensures DeliveredOf(log + [Arrived(id, data), Data(id, [], |data|)], id) == DeliveredOf(log, id) + data
  {
    LogAppendAll(log, Arrived(id, data));
    LogAppendAll(log + [Arrived(id, data)], Data(id, [], |data|));
    assert log + [Arrived(id, data)] + [Data(id, [], |data|)] == log + [Arrived(id, data), Data(id, [], |data|)];
  }

  /** The first chunk fits, the second does not, more may follow: the body is the first chunk. */
  method CutShortRun(c: Capture, id: Id, first: Bytes, over: Bytes, more: seq<Bytes>) returns (body: Bytes, totalBytes: nat)
    requires Valid(c.Snapshot(), c.limit) && Unknown(c, id)
    requires c.Fits(|first|) && !c.Fits(|first| + |over|)
    modifies c
    ensures Valid(c.Snapshot(), c.limit) && body == first && totalBytes == |first| + |over| + |Merge(more)|
  {
    Fit(c, id, first);
    Overflow(c, id, first, over);
    MergeNone(more, first + over);
    for i := 0 to |more|
      invariant WasCut(c, id, |first|, Start(first + over, more, i))
    {
      PassBy(c, id, |first|, Start(first + over, more, i), more[i]);
      MergeMore(more, first + over, i);
    }
    body, totalBytes := End(c, id, first, over, more);
  }

  function Start(start: Bytes, more: seq<Bytes>, i: nat): Bytes
    requires i <= |more|
  {
    start + Merge(more[..i])
  }

  lemma MergeNone(more: seq<Bytes>, start: Bytes)
    ensures Start(start, more, 0) == start && Start(start, more, |more|) == start + Merge(more)
  {
    assert more[..0] == [] && more[..|more|] == more;
  }

  lemma MergeMore(more: seq<Bytes>, start: Bytes, i: nat)
    requires i < |more|
    ensures Start(start, more, i + 1) == Start(start, more, i) + more[i]
  {
    MergePrefix(more, i);
  }

  method End(c: Capture, id: Id, first: Bytes, over: Bytes, more: seq<Bytes>) returns (body: Bytes, totalBytes: nat)
    requires WasCut(c, id, |first|, Start(first + over, more, |more|))
    modifies c
    ensures Valid(c.Snapshot(), c.limit) && body == first && totalBytes == |first| + |over| + |Merge(more)|
  {
    MergeNone(more, first + over);
    assert (first + over + Merge(more))[..|first|] == first;
    body, totalBytes := c.Finish(id);
  }

  /** A request that is buffered holds all that was delivered. */
  lemma StoredTotal(c: Capture, id: Id)
    requires Valid(c.Snapshot(), c.limit) && id !in c.live + c.dropped + c.reaped
    ensures c.Held(id) == |DeliveredOf(c.log, id)| && !Has(c.completed, id)
  {
    assert Stored(c.Snapshot(), id) && Exact(ViewOf(c.Snapshot(), id), []);
  }
}
