/** Byte chunks and joining them. */
module BodyBuffers {
  type Bytes = seq<bv8>

  datatype Buffer = Buffer(chunks: seq<Bytes>, total: nat)

  function Merge(chunks: seq<Bytes>): Bytes {
    if chunks == [] then [] else chunks[0] + Merge(chunks[1..])
  }

  lemma {:induction false} MergeAppend(chunks: seq<Bytes>, last: Bytes)
    ensures Merge(chunks + [last]) == Merge(chunks) + last
  {
    if chunks == [] {
      assert chunks + [last] == [last];
    } else {
      assert (chunks + [last])[1..] == chunks[1..] + [last];
      MergeAppend(chunks[1..], last);
      assert Merge(chunks + [last]) == chunks[0] + (Merge(chunks[1..]) + last);
    }
  }

  lemma {:induction false} MergePrefix(chunks: seq<Bytes>, i: nat)
    requires i < |chunks|
    ensures Merge(chunks[..i + 1]) == Merge(chunks[..i]) + chunks[i]
    ensures |Merge(chunks[..i + 1])| <= |Merge(chunks)|
    decreases |chunks| - i
  {
    assert chunks[..i + 1] == chunks[..i] + [chunks[i]];
    MergeAppend(chunks[..i], chunks[i]);
    if i + 1 < |chunks| { MergePrefix(chunks, i + 1); } else { assert chunks[..i + 1] == chunks; }
  }

  /** One array of the summed length, each chunk copied to its offset. */
  method MergeChunks(chunks: seq<Bytes>) returns (merged: Bytes)
    ensures merged == Merge(chunks)
  {
    if |chunks| == 1 {
      assert chunks[1..] == [];
      return chunks[0];
    }
    var total := 0;
    for i := 0 to |chunks|
      invariant total == |Merge(chunks[..i])|
    {
      MergePrefix(chunks, i);
      total := total + |chunks[i]|;
    }
    assert chunks[..|chunks|] == chunks;
    var data := new bv8[total];
    var offset := 0;
    for i := 0 to |chunks|
      invariant offset == |Merge(chunks[..i])| <= total && data[..offset] == Merge(chunks[..i])
    {
      MergePrefix(chunks, i);
      Set(data, chunks[i], offset);
      offset := offset + |chunks[i]|;
    }
    merged := data[..];
    assert data[..total] == data[..];
  }

  method Set(target: array<bv8>, source: Bytes, offset: nat)
    requires offset + |source| <= target.Length
    modifies target
    ensures target[..offset + |source|] == old(target[..offset]) + source
  {
    for i := 0 to |source|
      invariant target[..offset] == old(target[..offset])
      invariant target[offset..offset + i] == source[..i]
    {
      target[offset + i] := source[i];
    }
  }
}
