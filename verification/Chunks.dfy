/** Bytes that arrive in chunks. */
module Chunks {
  import opened HiveCnf
  import opened Seqs

  function Joined(chunks: seq<Bytes>): Bytes {
    if chunks == [] then [] else Joined(chunks[..|chunks| - 1]) + chunks[|chunks| - 1]
  }

  lemma JoinedGrows(chunks: seq<Bytes>, k: nat)
    requires k < |chunks|
    ensures Joined(chunks[..k + 1]) == Joined(chunks[..k]) + chunks[k]
    ensures |Joined(chunks[..k + 1])| <= |Joined(chunks)|
    decreases |chunks| - k
  {
    TakeTake(chunks, k);
    if k + 1 < |chunks| {
      JoinedGrows(chunks, k + 1);
    } else {
      assert chunks[..k + 1] == chunks;
    }
  }

  lemma JoinedAppend(chunks: seq<Bytes>, chunk: Bytes)
    ensures Joined(chunks + [chunk]) == Joined(chunks) + chunk
  {
    assert (chunks + [chunk])[..|chunks|] == chunks;
  }

  method CopyChunk(output: array<Byte>, offset: nat, chunk: Bytes)
    requires offset + |chunk| <= output.Length
    modifies output
    ensures output[..offset + |chunk|] == old(output[..offset]) + chunk
  {
    for k := 0 to |chunk|
      invariant output[..offset + k] == old(output[..offset]) + chunk[..k]
    {
      output[offset + k] := chunk[k];
    }
    Whole(chunk);
  }

  /** Copies every chunk to its place in one buffer. */
  method Assemble(chunks: seq<Bytes>, length: nat) returns (r: Bytes)
    requires length == |Joined(chunks)|
    ensures r == Joined(chunks)
  {
    var output, offset := new Byte[length](_ => 0), 0;
    for i := 0 to |chunks|
      invariant offset == |Joined(chunks[..i])| <= output.Length
      invariant output[..offset] == Joined(chunks[..i])
    {
      JoinedGrows(chunks, i);
      CopyChunk(output, offset, chunks[i]);
      offset := offset + |chunks[i]|;
    }
    Whole(chunks);
    assert output[..] == output[..offset];
    return output[..];
  }
}
