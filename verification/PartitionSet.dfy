/**
 Partitions of a scan, and the check that a set of partition files belongs together.
 */
module PartitionSet {
  import opened Wrappers

  /** A rectangle of one tile's chunk grid, half-open in both directions. */
  datatype ChunkBlock = ChunkBlock(tile: nat, colStart: nat, colEnd: nat, rowStart: nat, rowEnd: nat) {
    predicate Contains(c: Chunk) {
      tile == c.tile && colStart <= c.col < colEnd && rowStart <= c.row < rowEnd
    }

    predicate NonEmpty() {
      colStart < colEnd && rowStart < rowEnd
    }
  }

  /** A chunk, by its position in the grid of its tile. */
  datatype Chunk = Chunk(tile: nat, col: nat, row: nat)

  datatype ScanPartition = ScanPartition(index: nat, count: nat, fingerprint: int, blocks: seq<ChunkBlock>) {
    predicate Contains(c: Chunk) {
      exists i :: 0 <= i < |blocks| && blocks[i].Contains(c)
    }
  }

  /** What a partition file says of its scan: the options it was scanned with, and its part. */
  datatype Header = Header(scan: string, partition: ScanPartition)

  // ----- Overlap of blocks -----

  /** The test of the code. */
  predicate Overlap(x: ChunkBlock, y: ChunkBlock) {
    && x.tile == y.tile
    && x.colStart < y.colEnd && y.colStart < x.colEnd
    && x.rowStart < y.rowEnd && y.rowStart < x.rowEnd
  }

  predicate Common(x: ChunkBlock, y: ChunkBlock, c: Chunk) {
    x.Contains(c) && y.Contains(c)
  }

  /** Blocks that share a chunk overlap; blocks that overlap share one exactly when neither is
      empty. */
  lemma OverlapIsSharing(x: ChunkBlock, y: ChunkBlock)
    ensures (exists c :: Common(x, y, c)) ==> Overlap(x, y)
    ensures Overlap(x, y) ==> ((exists c :: Common(x, y, c)) <==> x.NonEmpty() && y.NonEmpty())
  {
    if Overlap(x, y) && x.NonEmpty() && y.NonEmpty() {
      var col := if x.colStart < y.colStart then y.colStart else x.colStart;
      var row := if x.rowStart < y.rowStart then y.rowStart else x.rowStart;
      assert Common(x, y, Chunk(x.tile, col, row));
    }
  }

  /** An empty block inside another one counts as overlapping, and shares no chunk with it. */
  lemma EmptyBlockOverlaps()
    ensures var x, y := ChunkBlock(0, 1, 1, 0, 2), ChunkBlock(0, 0, 5, 0, 5);
      Overlap(x, y) && !x.NonEmpty() && !exists c :: Common(x, y, c)
  {
    OverlapIsSharing(ChunkBlock(0, 1, 1, 0, 2), ChunkBlock(0, 0, 5, 0, 5));
  }

  // ----- What an acceptable set of headers is -----

  predicate OneScan(headers: seq<Header>)
    requires headers != []
  {
    forall i :: 0 <= i < |headers| ==>
      && headers[i].scan == headers[0].scan
      && headers[i].partition.count == headers[0].partition.count
      && headers[i].partition.fingerprint == headers[0].partition.fingerprint
  }

  predicate Given(headers: seq<Header>, index: nat) {
    exists i :: 0 <= i < |headers| && headers[i].partition.index == index
  }

  /** Every index below the count is given once, and no other. */
  predicate EveryIndexOnce(headers: seq<Header>)
    requires headers != []
  {
    && (forall i :: 0 <= i < |headers| ==> headers[i].partition.index < headers[0].partition.count)
    && (forall i, j :: 0 <= i < j < |headers| ==>
          headers[i].partition.index != headers[j].partition.index)
    && (forall k :: 0 <= k < headers[0].partition.count ==> Given(headers, k))
  }

  /** The blocks of all headers in order, each with the header it is from. */
  function AllBlocks(headers: seq<Header>): seq<(nat, ChunkBlock)> {
    if headers == [] then []
    else
      var n := |headers| - 1;
      AllBlocks(headers[..n]) + Tagged(n, headers[n].partition.blocks)
  }

  function Tagged(i: nat, blocks: seq<ChunkBlock>): seq<(nat, ChunkBlock)> {
    seq(|blocks|, k requires 0 <= k < |blocks| => (i, blocks[k]))
  }

  predicate Disjoint(blocks: seq<(nat, ChunkBlock)>) {
    forall a, b :: 0 <= a < b < |blocks| ==> !Overlap(blocks[a].1, blocks[b].1)
  }

  predicate Acceptable(headers: seq<Header>)
    requires headers != []
  {
    OneScan(headers) && EveryIndexOnce(headers) && Disjoint(AllBlocks(headers))
  }

  // ----- The check -----

  /** Why a set is refused, naming the files by position. */
  datatype Refusal =
    | OtherOptions(file: nat)
    | OtherPlan(file: nat)
    | IndexOutOfRange(file: nat)
    | GivenTwice(first: nat, second: nat)
    | MissingPartitions(indices: seq<nat>)
    | SameChunks(first: nat, second: nat)

  /** The refusal is justified. */
  ghost predicate Justified(headers: seq<Header>, e: Refusal)
    requires headers != []
  {
    match e
    case OtherOptions(i) => i < |headers| && headers[i].scan != headers[0].scan
    case OtherPlan(i) =>
      && i < |headers|
      && (|| headers[i].partition.count != headers[0].partition.count
          || headers[i].partition.fingerprint != headers[0].partition.fingerprint)
    case IndexOutOfRange(i) =>
      i < |headers| && headers[i].partition.index >= headers[0].partition.count
    case GivenTwice(i, j) =>
      i < j < |headers| && headers[i].partition.index == headers[j].partition.index
    case MissingPartitions(ks) =>
      && ks != []
      && (forall x, y :: 0 <= x < y < |ks| ==> ks[x] < ks[y])
      && (forall k :: k in ks <==> 0 <= k < headers[0].partition.count && !Given(headers, k))
    case SameChunks(i, j) =>
      && i <= j < |headers|
      && exists x, y :: x in headers[i].partition.blocks && y in headers[j].partition.blocks && Overlap(x, y)
  }

  method CheckPartitionSet(headers: seq<Header>) returns (r: Result<(), Refusal>)
    requires headers != []
    ensures r.Ok? <==> Acceptable(headers)
    ensures r.Err? ==> Justified(headers, r.error)
  {
    r := CheckScan(headers);
    if r.Err? {
      return;
    }
    r := CheckIndices(headers);
    if r.Err? {
      return;
    }
    r := CheckBlocks(headers);
  }

  method CheckScan(headers: seq<Header>) returns (r: Result<(), Refusal>)
    requires headers != []
    ensures r.Ok? <==> OneScan(headers)
    ensures r.Err? ==> Justified(headers, r.error)
  {
    for i := 1 to |headers|
      invariant OneScan(headers[..i])
    {
      if headers[i].scan != headers[0].scan {
        return Err(OtherOptions(i));
      }
      if || headers[i].partition.count != headers[0].partition.count
         || headers[i].partition.fingerprint != headers[0].partition.fingerprint {
        return Err(OtherPlan(i));
      }
    }
    assert headers[..|headers|] == headers;
    r := Ok(());
  }

  /** What the slots of the indices hold after the first `n` headers. */
  predicate SlotsAfter(seen: seq<Option<nat>>, headers: seq<Header>, n: nat)
    requires n <= |headers|
  {
    && (forall k :: 0 <= k < |seen| && seen[k].Some? ==>
          seen[k].value < n && headers[seen[k].value].partition.index == k)
    && (forall i :: 0 <= i < n ==>
          headers[i].partition.index < |seen| && seen[headers[i].partition.index] == Some(i))
  }

  method CheckIndices(headers: seq<Header>) returns (r: Result<(), Refusal>)
    requires headers != []
    ensures r.Ok? <==> EveryIndexOnce(headers)
    ensures r.Err? ==> Justified(headers, r.error)
  {
    var count := headers[0].partition.count;
    var seen := new Option<nat>[count](_ => None);
    for i := 0 to |headers|
      invariant SlotsAfter(seen[..], headers, i)
    {
      var index := headers[i].partition.index;
      if index >= count {
        return Err(IndexOutOfRange(i));
      }
      if seen[index].Some? {
        return Err(GivenTwice(seen[index].value, i));
      }
      seen[index] := Some(i);
    }
    var missing := MissingSlots(seen, headers);
    if missing != [] {
      assert !Given(headers, missing[0]);
      return Err(MissingPartitions(missing));
    }
    r := Ok(());
  }

  method MissingSlots(seen: array<Option<nat>>, ghost headers: seq<Header>) returns (missing: seq<nat>)
    requires SlotsAfter(seen[..], headers, |headers|)
    ensures forall x, y :: 0 <= x < y < |missing| ==> missing[x] < missing[y]
    ensures forall k :: k in missing <==> 0 <= k < seen.Length && !Given(headers, k)
  {
    missing := [];
    for k := 0 to seen.Length
      invariant forall x :: 0 <= x < |missing| ==> missing[x] < k
      invariant forall x, y :: 0 <= x < y < |missing| ==> missing[x] < missing[y]
      invariant forall l :: l in missing <==> 0 <= l < k && !Given(headers, l)
    {
      SlotIsGiven(seen[..], headers, k);
      if seen[k].None? {
        missing := missing + [k];
      }
    }
  }

  lemma SlotIsGiven(seen: seq<Option<nat>>, headers: seq<Header>, k: nat)
    requires SlotsAfter(seen, headers, |headers|) && k < |seen|
    ensures seen[k].Some? <==> Given(headers, k)
  {
    if seen[k].Some? {
      assert headers[seen[k].value].partition.index == k;
    }
  }

  /** The pairs of a flattened list are the blocks of the headers. */
  lemma {:induction false} BlockOfHeader(headers: seq<Header>, a: nat, b: nat)
    requires a <= b < |AllBlocks(headers)|
    ensures var x, y := AllBlocks(headers)[a], AllBlocks(headers)[b];
      && x.0 <= y.0 < |headers|
      && x.1 in headers[x.0].partition.blocks && y.1 in headers[y.0].partition.blocks
  {
    var n := |headers| - 1;
    var front := AllBlocks(headers[..n]);
    if b < |front| {
      BlockOfHeader(headers[..n], a, b);
    } else if a < |front| {
      BlockOfHeader(headers[..n], a, a);
    }
  }

  method CheckBlocks(headers: seq<Header>) returns (r: Result<(), Refusal>)
    requires headers != []
    ensures r.Ok? <==> Disjoint(AllBlocks(headers))
    ensures r.Err? ==> Justified(headers, r.error)
  {
    var blocks := AllBlocks(headers);
    for a := 0 to |blocks|
      invariant forall x, y :: 0 <= x < a && x < y < |blocks| ==> !Overlap(blocks[x].1, blocks[y].1)
    {
      for b := a + 1 to |blocks|
        invariant forall y :: a < y < b ==> !Overlap(blocks[a].1, blocks[y].1)
      {
        if Overlap(blocks[a].1, blocks[b].1) {
          BlockOfHeader(headers, a, b);
          return Err(SameChunks(blocks[a].0, blocks[b].0));
        }
      }
    }
    r := Ok(());
  }

  // ----- What acceptance means for the chunks -----

  lemma {:induction false} HeaderBlock(headers: seq<Header>, i: nat, k: nat) returns (a: nat)
    requires i < |headers| && k < |headers[i].partition.blocks|
    ensures a < |AllBlocks(headers)| && AllBlocks(headers)[a] == (i, headers[i].partition.blocks[k])
  {
    var n := |headers| - 1;
    if i == n {
      a := |AllBlocks(headers[..n])| + k;
    } else {
      a := HeaderBlock(headers[..n], i, k);
    }
  }

  /** An accepted set gives each chunk to at most one partition. */
  lemma AcceptedAtMostOnce(headers: seq<Header>, i: nat, j: nat, c: Chunk)
    requires headers != [] && Acceptable(headers) && i < |headers| && j < |headers|
    requires headers[i].partition.Contains(c) && headers[j].partition.Contains(c)
    ensures i == j
  {
    var k :| 0 <= k < |headers[i].partition.blocks| && headers[i].partition.blocks[k].Contains(c);
    var l :| 0 <= l < |headers[j].partition.blocks| && headers[j].partition.blocks[l].Contains(c);
    var a := HeaderBlock(headers, i, k);
    var b := HeaderBlock(headers, j, l);
    var blocks := AllBlocks(headers);
    assert Common(blocks[a].1, blocks[b].1, c) && Common(blocks[b].1, blocks[a].1, c);
    OverlapIsSharing(blocks[a].1, blocks[b].1);
    OverlapIsSharing(blocks[b].1, blocks[a].1);
  }

  /** Without empty blocks, disjointness is exactly that no chunk lies in two blocks. */
  lemma {:induction false} DisjointIsAtMostOnce(headers: seq<Header>)
    requires forall a :: 0 <= a < |AllBlocks(headers)| ==> AllBlocks(headers)[a].1.NonEmpty()
    ensures var blocks := AllBlocks(headers);
      Disjoint(blocks)
      <==> forall a, b, c :: 0 <= a < b < |blocks| ==> !Common(blocks[a].1, blocks[b].1, c)
  {
    var blocks := AllBlocks(headers);
    forall a, b | 0 <= a < b < |blocks|
      ensures Overlap(blocks[a].1, blocks[b].1) <==> exists c :: Common(blocks[a].1, blocks[b].1, c)
    {
      OverlapIsSharing(blocks[a].1, blocks[b].1);
    }
  }

  // ----- Whether an accepted set misses chunks -----

  /** How many of the streamed chunks belong to a partition. */
  function ChunkCount(p: ScanPartition, chunks: seq<Chunk>): nat {
    if chunks == [] then 0
    else
      var n := |chunks| - 1;
      ChunkCount(p, chunks[..n]) + (if p.Contains(chunks[n]) then 1 else 0)
  }

  function TotalCount(headers: seq<Header>, chunks: seq<Chunk>): nat {
    if headers == [] then 0
    else
      var n := |headers| - 1;
      TotalCount(headers[..n], chunks) + ChunkCount(headers[n].partition, chunks)
  }

  predicate Covered(headers: seq<Header>, c: Chunk) {
    exists i :: 0 <= i < |headers| && headers[i].partition.Contains(c)
  }

  predicate AtMostOnce(headers: seq<Header>, c: Chunk) {
    forall i, j :: 0 <= i < j < |headers| ==>
      !(headers[i].partition.Contains(c) && headers[j].partition.Contains(c))
  }

  /** How many headers' partitions hold one chunk. */
  function Holders(headers: seq<Header>, c: Chunk): nat {
    if headers == [] then 0
    else
      var n := |headers| - 1;
      Holders(headers[..n], c) + (if headers[n].partition.Contains(c) then 1 else 0)
  }

  lemma {:induction false} HoldersAtMostOnce(headers: seq<Header>, c: Chunk)
    requires AtMostOnce(headers, c)
    ensures Holders(headers, c) == if Covered(headers, c) then 1 else 0
  {
    if headers != [] {
      var n := |headers| - 1;
      HoldersAtMostOnce(headers[..n], c);
      if headers[n].partition.Contains(c) {
        assert !Covered(headers[..n], c);
      } else if Covered(headers[..n], c) {
        var i :| 0 <= i < n && headers[..n][i].partition.Contains(c);
        assert headers[i].partition.Contains(c);
      }
    }
  }

  lemma {:induction false} TotalCountSnoc(headers: seq<Header>, chunks: seq<Chunk>, c: Chunk)
    ensures TotalCount(headers, chunks + [c]) == TotalCount(headers, chunks) + Holders(headers, c)
  {
    if headers != [] {
      TotalCountSnoc(headers[..|headers| - 1], chunks, c);
      assert (chunks + [c])[..|chunks|] == chunks;
    }
  }

  lemma {:induction false} NoChunks(headers: seq<Header>)
    ensures TotalCount(headers, []) == 0
  {
    if headers != [] {
      NoChunks(headers[..|headers| - 1]);
    }
  }

  lemma {:induction false} CountedOnce(headers: seq<Header>, chunks: seq<Chunk>)
    requires forall k :: 0 <= k < |chunks| ==> AtMostOnce(headers, chunks[k])
    ensures TotalCount(headers, chunks) <= |chunks|
    ensures TotalCount(headers, chunks) == |chunks| <==>
            forall k :: 0 <= k < |chunks| ==> Covered(headers, chunks[k])
  {
    if chunks == [] {
      NoChunks(headers);
    } else {
      var n := |chunks| - 1;
      CountedOnce(headers, chunks[..n]);
      assert chunks == chunks[..n] + [chunks[n]];
      TotalCountSnoc(headers, chunks[..n], chunks[n]);
      HoldersAtMostOnce(headers, chunks[n]);
      assert forall k :: 0 <= k < n ==> chunks[..n][k] == chunks[k];
    }
  }

  /** An accepted set covers every streamed chunk exactly when its partitions' chunk counts add up
      to their number. */
  lemma {:induction false} AcceptedCovers(headers: seq<Header>, chunks: seq<Chunk>)
    requires headers != [] && Acceptable(headers)
    ensures (forall k :: 0 <= k < |chunks| ==> Covered(headers, chunks[k]))
            <==> TotalCount(headers, chunks) == |chunks|
  {
    forall k | 0 <= k < |chunks|
      ensures AtMostOnce(headers, chunks[k])
    {
      forall i, j | 0 <= i < j < |headers|
        ensures !(headers[i].partition.Contains(chunks[k]) && headers[j].partition.Contains(chunks[k]))
      {
        if headers[i].partition.Contains(chunks[k]) && headers[j].partition.Contains(chunks[k]) {
          AcceptedAtMostOnce(headers, i, j, chunks[k]);
        }
      }
    }
    CountedOnce(headers, chunks);
  }

  // ----- Plans of one layout that differ -----

  /** A run of columns in a one-row tile. */
  function Columns(start: nat, end: nat): ChunkBlock {
    ChunkBlock(0, start, end, 0, 1)
  }

  /** A set of two files of one scan. */
  function Pair(scan: string, fingerprint: int, first: seq<ChunkBlock>, second: seq<ChunkBlock>): seq<Header> {
    [Header(scan, ScanPartition(0, 2, fingerprint, first)),
     Header(scan, ScanPartition(1, 2, fingerprint, second))]
  }

  lemma PairAcceptable(scan: string, fingerprint: int, first: seq<ChunkBlock>, second: seq<ChunkBlock>)
    requires forall i, j :: 0 <= i < |first| && 0 <= j < |second| ==> !Overlap(first[i], second[j])
    requires forall i, j :: 0 <= i < j < |first| ==> !Overlap(first[i], first[j])
    requires forall i, j :: 0 <= i < j < |second| ==> !Overlap(second[i], second[j])
    ensures Acceptable(Pair(scan, fingerprint, first, second))
  {
    var headers := Pair(scan, fingerprint, first, second);
    assert headers[..1][..0] == [];
    assert AllBlocks(headers[..1]) == [] + Tagged(0, first);
    assert AllBlocks(headers) == Tagged(0, first) + Tagged(1, second);
    assert headers[0].partition.index == 0 && headers[1].partition.index == 1;
  }

  lemma PairCovers(scan: string, fingerprint: int, first: seq<ChunkBlock>, second: seq<ChunkBlock>, c: Chunk)
    ensures Covered(Pair(scan, fingerprint, first, second), c)
            <==> exists b :: b in first + second && b.Contains(c)
  {
    var headers := Pair(scan, fingerprint, first, second);
    assert headers[0].partition.blocks == first && headers[1].partition.blocks == second;
    if b :| b in first + second && b.Contains(c) {
      var i :| 0 <= i < |first + second| && (first + second)[i] == b;
      if i < |first| {
        assert first[i].Contains(c) && headers[0].partition.Contains(c);
      } else {
        assert second[i - |first|].Contains(c) && headers[1].partition.Contains(c);
      }
    }
  }

  /** Two complete sets over five columns, and the first part of the one with the last part of the
      other: all are accepted, although nobody scans columns 2 and 3 of the mixture. */
  lemma MixturesAccepted(scan: string, f: int)
    ensures Acceptable(Pair(scan, f, [Columns(0, 2)], [Columns(2, 4), Columns(4, 5)]))
    ensures Acceptable(Pair(scan, f, [Columns(0, 2), Columns(2, 4)], [Columns(4, 5)]))
    ensures Acceptable(Pair(scan, f, [Columns(0, 2)], [Columns(4, 5)]))
    ensures forall col :: 0 <= col < 5 ==>
              && Covered(Pair(scan, f, [Columns(0, 2)], [Columns(2, 4), Columns(4, 5)]), Chunk(0, col, 0))
              && Covered(Pair(scan, f, [Columns(0, 2), Columns(2, 4)], [Columns(4, 5)]), Chunk(0, col, 0))
              && (Covered(Pair(scan, f, [Columns(0, 2)], [Columns(4, 5)]), Chunk(0, col, 0))
                  <==> col != 2 && col != 3)
  {
    PairAcceptable(scan, f, [Columns(0, 2)], [Columns(2, 4), Columns(4, 5)]);
    PairAcceptable(scan, f, [Columns(0, 2), Columns(2, 4)], [Columns(4, 5)]);
    PairAcceptable(scan, f, [Columns(0, 2)], [Columns(4, 5)]);
    forall col | 0 <= col < 5
      ensures Covered(Pair(scan, f, [Columns(0, 2)], [Columns(2, 4), Columns(4, 5)]), Chunk(0, col, 0))
      ensures Covered(Pair(scan, f, [Columns(0, 2), Columns(2, 4)], [Columns(4, 5)]), Chunk(0, col, 0))
      ensures Covered(Pair(scan, f, [Columns(0, 2)], [Columns(4, 5)]), Chunk(0, col, 0)) <==> col != 2 && col != 3
    {
      FiveColumns(scan, f, col);
    }
  }

  lemma FiveColumns(scan: string, f: int, col: nat)
    requires col < 5
    ensures Covered(Pair(scan, f, [Columns(0, 2)], [Columns(2, 4), Columns(4, 5)]), Chunk(0, col, 0))
    ensures Covered(Pair(scan, f, [Columns(0, 2), Columns(2, 4)], [Columns(4, 5)]), Chunk(0, col, 0))
    ensures Covered(Pair(scan, f, [Columns(0, 2)], [Columns(4, 5)]), Chunk(0, col, 0)) <==> col != 2 && col != 3
  {
    var c := Chunk(0, col, 0);
    PairCovers(scan, f, [Columns(0, 2)], [Columns(2, 4), Columns(4, 5)], c);
    PairCovers(scan, f, [Columns(0, 2), Columns(2, 4)], [Columns(4, 5)], c);
    PairCovers(scan, f, [Columns(0, 2)], [Columns(4, 5)], c);
    var b := if col < 2 then Columns(0, 2) else if col < 4 then Columns(2, 4) else Columns(4, 5);
    assert b.Contains(c);
    assert b in [Columns(0, 2)] + [Columns(2, 4), Columns(4, 5)];
    assert b in [Columns(0, 2), Columns(2, 4)] + [Columns(4, 5)];
    assert col != 2 && col != 3 ==> b in [Columns(0, 2)] + [Columns(4, 5)];
  }
}
