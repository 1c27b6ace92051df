/** The one result frame a test child writes: bytes up to a newline, however they arrive. */
module ResultPipe {
  import opened Options
  import opened BodyBuffers

  const NEWLINE: bv8 := 0x0a
  const MAX_RESULT_BYTES := 64 * 1024 * 1024

  datatype Outcome<M> = Result(message: M) | Closed | Error

  function NewlineAt(bytes: Bytes): (n: nat)
    ensures n <= |bytes| && (n < |bytes| ==> bytes[n] == NEWLINE)
    ensures forall i :: 0 <= i < n ==> bytes[i] != NEWLINE
  {
    if bytes == [] || bytes[0] == NEWLINE then 0 else 1 + NewlineAt(bytes[1..])
  }

  /** What all bytes before the end of the stream mean together. Parsing a frame into a
      message object is a given partial function. */
  function OneShot<M>(bytes: Bytes, parse: Bytes -> Option<M>): Outcome<M> {
    var n := NewlineAt(bytes);
    if n > MAX_RESULT_BYTES then Error
    else if n == |bytes| then Closed
    else if parse(bytes[..n]).None? || n + 1 < |bytes| then Error
    else Result(parse(bytes[..n]).value)
  }

  lemma {:induction false} NewlineIs(bytes: Bytes, n: nat)
    requires n <= |bytes| && (n < |bytes| ==> bytes[n] == NEWLINE)
    requires forall i :: 0 <= i < n ==> bytes[i] != NEWLINE
    ensures NewlineAt(bytes) == n
  {
    if n > 0 {
      assert bytes[0] != NEWLINE;
      forall i | 0 <= i < n - 1 ensures bytes[1..][i] != NEWLINE {
        assert bytes[1..][i] == bytes[i + 1];
      }
      NewlineIs(bytes[1..], n - 1);
    }
  }

  lemma NewlineConcat(a: Bytes, b: Bytes)
    ensures NewlineAt(a + b) == if NewlineAt(a) < |a| then NewlineAt(a) else |a| + NewlineAt(b)
  {
    var n := if NewlineAt(a) < |a| then NewlineAt(a) else |a| + NewlineAt(b);
    forall i | 0 <= i < n ensures (a + b)[i] != NEWLINE {
      if i >= |a| { assert (a + b)[i] == b[i - |a|]; }
    }
    NewlineIs(a + b, n);
  }

  /** More bytes cannot make up for an error, and any more bytes spoil a complete frame. */
  lemma MoreBytes<M>(a: Bytes, b: Bytes, parse: Bytes -> Option<M>)
    ensures OneShot(a, parse).Error? ==> OneShot(a + b, parse).Error?
    ensures OneShot(a, parse).Result? && b != [] ==> OneShot(a + b, parse).Error?
  {
    NewlineConcat(a, b);
    var n := NewlineAt(a);
    if n < |a| { assert (a + b)[..n] == a[..n]; }
  }

  /** What one more chunk decides, while no newline has come. */
  lemma ChunkRead<M>(was: Bytes, chunk: Bytes, parse: Bytes -> Option<M>)
    requires NewlineAt(was) == |was|
    ensures NewlineAt(was + chunk) == |was| + NewlineAt(chunk)
    ensures |was| + NewlineAt(chunk) > MAX_RESULT_BYTES ==> OneShot(was + chunk, parse).Error?
    ensures |was| + NewlineAt(chunk) <= MAX_RESULT_BYTES && NewlineAt(chunk) < |chunk| ==>
      OneShot(was + chunk, parse) == Framed(was + chunk[..NewlineAt(chunk)], |chunk| - NewlineAt(chunk), parse)
  {
    var seen, d := was + chunk, NewlineAt(chunk);
    NewlineConcat(was, chunk);
    CutConcat(was, chunk, d);
    ShotAt(seen, |was| + d, was + chunk[..d], parse);
  }

  lemma ShotAt<M>(bytes: Bytes, n: nat, frame: Bytes, parse: Bytes -> Option<M>)
    requires n <= |bytes| && NewlineAt(bytes) == n && bytes[..n] == frame
    ensures n > MAX_RESULT_BYTES ==> OneShot(bytes, parse).Error?
    ensures n <= MAX_RESULT_BYTES && n < |bytes| ==> OneShot(bytes, parse) == Framed(frame, |bytes| - n, parse)
  {
  }

  lemma CutConcat(a: Bytes, b: Bytes, d: nat)
    requires d <= |b|
    ensures (a + b)[..|a| + d] == a + b[..d]
  {
  }

  /** A frame with its newline, `rest` bytes from the newline on. */
  function Framed<M>(frame: Bytes, rest: int, parse: Bytes -> Option<M>): Outcome<M> {
    if parse(frame).None? || rest > 1 then Error else Result(parse(frame).value)
  }

  /** The state after the bytes `seen`. */
  ghost predicate After<M>(seen: Bytes, outcome: Option<Outcome<M>>, chunks: seq<Bytes>, length: nat, message: Option<M>, parse: Bytes -> Option<M>) {
    match outcome
    case Some(o) => o.Error? && OneShot(seen, parse).Error?
    case None =>
      if message.Some? then OneShot(seen, parse) == Result(message.value)
      else Merge(chunks) == seen && length == |seen| && NewlineAt(seen) == |seen| && |seen| <= MAX_RESULT_BYTES
  }

  method FindNewline(bytes: Bytes) returns (r: int)
    ensures r == if NewlineAt(bytes) < |bytes| then NewlineAt(bytes) else -1
  {
    for i := 0 to |bytes|
      invariant forall k :: 0 <= k < i ==> bytes[k] != NEWLINE
    {
      if bytes[i] == NEWLINE {
        NewlineIs(bytes, i);
        return i;
      }
    }
    NewlineIs(bytes, |bytes|);
    r := -1;
  }

  method JoinChunks(chunks: seq<Bytes>, length: nat) returns (frame: Bytes)
    requires length == |Merge(chunks)|
    ensures frame == Merge(chunks)
  {
    var data := new bv8[length];
    var offset := 0;
    for i := 0 to |chunks|
      invariant offset == |Merge(chunks[..i])| <= length && data[..offset] == Merge(chunks[..i])
    {
      MergePrefix(chunks, i);
      Set(data, chunks[i], offset);
      offset := offset + |chunks[i]|;
    }
    assert chunks[..|chunks|] == chunks;
    frame := data[..];
    assert data[..length] == data[..];
  }

  class Reader<M(!new)> {
    const parse: Bytes -> Option<M>
    var outcome: Option<Outcome<M>>
    var chunks: seq<Bytes>
    var length: nat
    var message: Option<M>
    ghost var seen: Bytes

    constructor (parse: Bytes -> Option<M>)
      ensures Reading() && seen == [] && outcome == None && this.parse == parse
    {
      this.parse := parse;
      outcome, chunks, length, message, seen := None, [], 0, None, [];
    }

    ghost predicate Reading()
      reads this
    {
      After(seen, outcome, chunks, length, message, parse)
    }

    method Finish(o: Outcome<M>)
      modifies `outcome
      ensures outcome == if old(outcome).Some? then old(outcome) else Some(o)
    {
      if outcome.Some? { return; }
      outcome := Some(o);
    }

    method OnChunk(chunk: Bytes)
      requires Reading()
      modifies this
      ensures Reading() && seen == old(seen) + chunk
    {
      if outcome.None? && message.None? {
        TakeIn(chunk);
        return;
      }
      MoreBytes(seen, chunk, parse);
      assert chunk == [] ==> seen + chunk == seen;
      seen := seen + chunk;
      if outcome.None? && |chunk| > 0 { Finish(Error); }
    }

    /** A chunk of the frame, while it is incomplete. */
    method TakeIn(chunk: Bytes)
      requires Reading() && outcome.None? && message.None?
      modifies this
      ensures Reading() && seen == old(seen) + chunk
    {
      ChunkRead(seen, chunk, parse);
      var delimiter := FindNewline(chunk);
      var part := if delimiter < 0 then chunk else chunk[..delimiter];
      seen := seen + chunk;
      if length + |part| > MAX_RESULT_BYTES {
        Finish(Error);
        return;
      }
      MergeAppend(chunks, part);
      chunks := chunks + [part];
      length := length + |part|;
      if delimiter < 0 { return; }
      var frame := JoinChunks(chunks, length);
      var value := parse(frame);
      if value.None? || delimiter + 1 != |chunk| {
        Finish(Error);
        return;
      }
      message := value;
    }

    method OnEof()
      requires Reading()
      modifies `outcome
      ensures outcome == Some(OneShot(seen, parse))
    {
      if outcome.None? { Finish(if message.None? then Closed else Result(message.value)); }
    }

    /** A read error, unless the outcome is known already. */
    method OnError()
      modifies `outcome
      ensures outcome == if old(outcome).Some? then old(outcome) else Some(Error)
    {
      Finish(Error);
    }

    /** The owner stops listening: an unfinished read counts as closed. */
    method Close()
      modifies `outcome
      ensures outcome == if old(outcome).Some? then old(outcome) else Some(Closed)
    {
      Finish(Closed);
    }
  }

  /** The outcome is that of all bytes together, however they were split. */
  method ReadAll<M(!new)>(parse: Bytes -> Option<M>, parts: seq<Bytes>) returns (o: Outcome<M>)
    ensures o == OneShot(Merge(parts), parse)
  {
    var reader := new Reader(parse);
    for i := 0 to |parts|
      invariant reader.Reading() && reader.seen == Merge(parts[..i]) && reader.parse == parse
    {
      MergePrefix(parts, i);
      reader.OnChunk(parts[i]);
    }
    assert parts[..|parts|] == parts;
    reader.OnEof();
    o := reader.outcome.value;
  }

  /** A frame on its own is read back: exactly the messages that fit and parse. */
  lemma FrameAccepted<M>(frame: Bytes, parse: Bytes -> Option<M>)
    requires NewlineAt(frame) == |frame|
    ensures OneShot(frame + [NEWLINE], parse) ==
      if |frame| > MAX_RESULT_BYTES || parse(frame).None? then Error else Result(parse(frame).value)
  {
    NewlineConcat(frame, [NEWLINE]);
    assert (frame + [NEWLINE])[..|frame|] == frame;
  }
}
