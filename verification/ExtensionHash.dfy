/**
 The two-level hash over an unsigned extension: the digest of the concatenated digests of its
 1 MiB chunks. An empty payload counts as one empty chunk.
 */
module ExtensionHash {
  import opened Words
  import opened Fips180
  import opened Sha256

  const CHUNK_BYTES := 1048576

  function Concat(parts: seq<Bytes>): Bytes {
    if parts == [] then [] else parts[0] + Concat(parts[1..])
  }

  function Digests(chunks: seq<Bytes>): Bytes {
    if chunks == [] then [] else Digests(chunks[..|chunks| - 1]) + Digest(chunks[|chunks| - 1])
  }

  /** `chunks` cuts `data` into chunks of 1 MiB and a last one, which is empty only for no data. */
  predicate Chunking(data: Bytes, chunks: seq<Bytes>) {
    && chunks != [] && Concat(chunks) == data
    && (forall i :: 0 <= i < |chunks| - 1 ==> |chunks[i]| == 1048576)
    && |chunks[|chunks| - 1]| <= 1048576
    && (|chunks| > 1 ==> chunks[|chunks| - 1] != [])
  }

  /** There is only one way to cut a payload, so its hash is well defined. */
  lemma {:induction false} ChunkingUnique(data: Bytes, a: seq<Bytes>, b: seq<Bytes>)
    requires Chunking(data, a) && Chunking(data, b)
    ensures a == b
  {
    Length(a);
    Length(b);
    if |a| == 1 || |b| == 1 {
      assert |a| == 1 && |b| == 1;
      assert a[0] + [] == a[0] && b[0] + [] == b[0];
    } else {
      assert a[0] == data[..CHUNK_BYTES] && b[0] == data[..CHUNK_BYTES];
      assert Concat(a[1..]) == data[CHUNK_BYTES..] && Concat(b[1..]) == data[CHUNK_BYTES..];
      assert a[1..][|a| - 2] == a[|a| - 1] && b[1..][|b| - 2] == b[|b| - 1];
      ChunkingUnique(data[CHUNK_BYTES..], a[1..], b[1..]);
      assert a == [a[0]] + a[1..] && b == [b[0]] + b[1..];
    }
  }

  lemma {:induction false} Length(chunks: seq<Bytes>)
    requires chunks != []
    requires forall i :: 0 <= i < |chunks| - 1 ==> |chunks[i]| == CHUNK_BYTES
    ensures |Concat(chunks)| == CHUNK_BYTES * (|chunks| - 1) + |chunks[|chunks| - 1]|
  {
    if |chunks| > 1 {
      Length(chunks[1..]);
    }
  }

  lemma {:induction false} ConcatSnoc(parts: seq<Bytes>, last: Bytes)
    ensures Concat(parts + [last]) == Concat(parts) + last
  {
    if parts == [] {
      assert parts + [last] == [last];
      assert Concat([last]) == last + [];
    } else {
      assert (parts + [last])[1..] == parts[1..] + [last];
      ConcatSnoc(parts[1..], last);
    }
  }

  lemma {:induction false} DigestsSnoc(chunks: seq<Bytes>, last: Bytes)
    ensures Digests(chunks + [last]) == Digests(chunks) + Digest(last)
  {
    assert (chunks + [last])[..|chunks|] == chunks;
  }

  /** One more chunk: up to the end of the payload or full. */
  lemma ChunkNext(data: Bytes, pos: nat, next: nat, chunks: seq<Bytes>)
    requires pos < next <= |data| && next - pos <= CHUNK_BYTES
    requires chunks == [] <==> pos == 0
    requires chunks != [] ==> Chunking(data[..pos], chunks) && Full(chunks)
    ensures Chunking(data[..next], chunks + [data[pos..next]])
  {
    ConcatSnoc(chunks, data[pos..next]);
    assert data[..next] == data[..pos] + data[pos..next];
  }

  predicate Full(chunks: seq<Bytes>) {
    chunks != [] ==> |chunks[|chunks| - 1]| == CHUNK_BYTES
  }

  /** The hash of a payload, and the one way to cut it. */
  method ComputeExtensionHash(data: Bytes) returns (digest: Bytes, ghost chunks: seq<Bytes>)
    ensures Chunking(data, chunks) && digest == Digest(Digests(chunks))
  {
    var concatenated: Bytes;
    if data == [] {
      concatenated := Hash256([]);
      chunks := [[]];
      DigestsOne([]);
    } else {
      concatenated, chunks := HashChunks(data);
    }
    digest := Hash256(concatenated);
  }

  lemma DigestsOne(chunk: Bytes)
    ensures Concat([chunk]) == chunk && Digests([chunk]) == Digest(chunk)
  {
    assert Digests([]) + Digest(chunk) == Digest(chunk);
    assert chunk + [] == chunk;
  }

  method HashChunks(data: Bytes) returns (concatenated: Bytes, ghost chunks: seq<Bytes>)
    requires data != []
    ensures Chunking(data, chunks) && concatenated == Digests(chunks)
  {
    concatenated, chunks := [], [];
    var pos := 0;
    while pos < |data|
      invariant 0 <= pos <= |data|
      invariant chunks == [] <==> pos == 0
      invariant chunks != [] ==> Chunking(data[..pos], chunks)
      invariant pos < |data| ==> Full(chunks)
      invariant concatenated == Digests(chunks)
    {
      var next := if pos + CHUNK_BYTES <= |data| then pos + CHUNK_BYTES else |data|;
      ChunkNext(data, pos, next, chunks);
      DigestsSnoc(chunks, data[pos..next]);
      var hash := Hash256(data[pos..next]);
      concatenated := concatenated + hash;
      chunks := chunks + [data[pos..next]];
      pos := next;
    }
    assert data[..|data|] == data;
  }
}
