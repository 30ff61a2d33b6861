/**
 End to end: partition files written by workers that classify their cells soundly merge into the
 rows of one scan over all observations.
 */
module PartitionedScan {
  import opened Wrappers
  import opened PartialStates
  import opened MergeUdaf
  import opened RecordBatches
  import opened PartialMerger
  import opened PartialRows
  import opened MergeBatches
  import opened PartitionMerge
  import opened MergePartitions
  import opened PartitionSet
  import opened Observations
  import PartitionPlan

  predicate DistinctKeys(records: seq<Record>) {
    forall i, j :: 0 <= i < j < |records| ==> records[i].key != records[j].key
  }

  /** The final state of a cell. */
  function Whole(mode: Mode, key: Key, obs: seq<Observation>): Content {
    Observations.ContentOf(mode, Observations.SourceOf(mode.kind, InCell(key), obs))
  }

  /** A partition's share of a cell. */
  function Share(mode: Mode, p: ScanPartition, key: Key, obs: seq<Observation>): Content {
    Observations.ContentOf(mode, Observations.SourceOf(mode.kind, SeenBy(p, key), obs))
  }

  /** The records of one scan over some observations: one for each cell that is reached. */
  ghost predicate IsScan(records: seq<Record>, mode: Mode, obs: seq<Observation>) {
    && DistinctKeys(records)
    && (forall key :: HasKey(records, key) <==> Observed(obs, InCell(key)))
    && (forall i :: 0 <= i < |records| ==> records[i].content == Whole(mode, records[i].key, obs))
  }

  // ----- What a worker provides -----

  /** The records a worker writes: final ones, and shares to be merged. */
  datatype Emitted = Emitted(finals: seq<Record>, shares: seq<Record>)

  /** No other partition has an observation in the cell. */
  predicate Interior(p: ScanPartition, key: Key, obs: seq<Observation>) {
    forall i :: 0 <= i < |obs| && obs[i].key == key ==> p.Contains(obs[i].chunk)
  }

  /** The worker writes each cell it reaches once, with its own share of the observations, and a
      cell as final only if it is interior. */
  ghost predicate Sound(e: Emitted, p: ScanPartition, mode: Mode, obs: seq<Observation>) {
    && DistinctKeys(e.finals + e.shares)
    && (forall key :: HasKey(e.finals, key) || HasKey(e.shares, key) <==> Observed(obs, SeenBy(p, key)))
    && (forall i :: 0 <= i < |e.finals| ==>
          && e.finals[i].content == Share(mode, p, e.finals[i].key, obs)
          && Interior(p, e.finals[i].key, obs))
    && (forall i :: 0 <= i < |e.shares| ==> e.shares[i].content == Share(mode, p, e.shares[i].key, obs))
  }

  /** The file holds the rows of the records. */
  ghost predicate Written(f: PartitionFile, e: Emitted, layout: Layout, codec: Codec, render: Renderer)
    requires layout.Valid() && GoodFile(f)
  {
    && f.PartitionFile? && layout.Fits(ItemRows(f.items))
    && layout.FinalRows(ItemRows(f.items)) == Rendered(render, e.finals)
    && layout.Readable(codec, layout.PartialRows(ItemRows(f.items)))
    && layout.Shares(codec, layout.PartialRows(ItemRows(f.items))) == e.shares
  }

  // ----- The rows of all files -----

  function AllFinals(es: seq<Emitted>): seq<Record> {
    if es == [] then [] else AllFinals(es[..|es| - 1]) + es[|es| - 1].finals
  }

  function AllShares(es: seq<Emitted>): seq<Record> {
    if es == [] then [] else AllShares(es[..|es| - 1]) + es[|es| - 1].shares
  }

  lemma {:induction false} FileRowsSnoc(files: seq<PartitionFile>)
    requires files != []
    ensures FileRows(files) == FileRows(files[..|files| - 1]) + OpenRows(files[|files| - 1])
  {
    var n := |files| - 1;
    if n == 0 {
      assert files[..0] == [] && files[1..] == [];
    } else {
      FileRowsSnoc(files[1..]);
      assert files[1..][..n - 1] == files[..n][1..];
      RowsAssoc(OpenRows(files[0]), FileRows(files[1..][..n - 1]), OpenRows(files[n]));
    }
  }

  lemma {:induction false} WrittenRows(files: seq<PartitionFile>, es: seq<Emitted>, layout: Layout, codec: Codec,
                                       render: Renderer)
    requires |files| == |es| && GoodFiles(files) && layout.Valid()
    requires forall k :: 0 <= k < |files| ==> Written(files[k], es[k], layout, codec, render)
    ensures layout.Fits(FileRows(files))
    ensures layout.FinalRows(FileRows(files)) == Rendered(render, AllFinals(es))
    ensures layout.Readable(codec, layout.PartialRows(FileRows(files)))
    ensures layout.Shares(codec, layout.PartialRows(FileRows(files))) == AllShares(es)
  {
    if files != [] {
      var n := |files| - 1;
      WrittenRows(files[..n], es[..n], layout, codec, render);
      FileRowsSnoc(files);
      assert Written(files[n], es[n], layout, codec, render);
      WrittenNext(FileRows(files[..n]), ItemRows(files[n].items), AllFinals(es[..n]), es[n], AllShares(es[..n]),
                  layout, codec, render);
    }
  }

  lemma {:induction false} WrittenNext(rows: seq<Row>, more: seq<Row>, finals: seq<Record>, e: Emitted,
                                       shares: seq<Record>, layout: Layout, codec: Codec, render: Renderer)
    requires layout.Valid() && layout.Fits(rows) && layout.Fits(more)
    requires layout.FinalRows(rows) == Rendered(render, finals)
    requires layout.FinalRows(more) == Rendered(render, e.finals)
    requires layout.Readable(codec, layout.PartialRows(rows)) && layout.Readable(codec, layout.PartialRows(more))
    requires layout.Shares(codec, layout.PartialRows(rows)) == shares
    requires layout.Shares(codec, layout.PartialRows(more)) == e.shares
    ensures layout.Fits(rows + more)
    ensures layout.FinalRows(rows + more) == Rendered(render, finals + e.finals)
    ensures layout.Readable(codec, layout.PartialRows(rows + more))
    ensures layout.Shares(codec, layout.PartialRows(rows + more)) == shares + e.shares
  {
    layout.SplitAppend(rows, more);
    RenderedAppend(render, finals, e.finals);
    ReadableAppend(layout, codec, layout.PartialRows(rows), layout.PartialRows(more));
  }

  // ----- The merge of the shares -----

  lemma {:induction false} SharesOfAppend(a: seq<Record>, b: seq<Record>, key: Key)
    ensures SharesOf(a + b, key) == SharesOf(a, key) + SharesOf(b, key)
  {
    if b == [] {
      assert a + b == a;
    } else {
      var n := |b| - 1;
      assert (a + b)[..|a| + n] == a + b[..n];
      SharesOfAppend(a, b[..n], key);
    }
  }

  lemma {:induction false} SharesOfDistinct(records: seq<Record>, key: Key)
    requires DistinctKeys(records)
    ensures !HasKey(records, key) ==> SharesOf(records, key) == []
    ensures forall i :: 0 <= i < |records| && records[i].key == key ==>
              SharesOf(records, key) == [records[i].content]
  {
    if records != [] {
      var n := |records| - 1;
      SharesOfDistinct(records[..n], key);
      if HasKey(records[..n], key) {
        var i :| 0 <= i < n && records[..n][i].key == key;
        assert records[i].key == key;
      }
      if records[n].key == key {
        assert records[n].key == key;
      }
    }
  }

  /** The sketch holds all samples of the source, or there is none, as the scan has it. */
  ghost predicate SketchOf(mode: Mode, x: Option<Content>, src: Source) {
    x.Some? && x.value.ContinuousContent? ==> x.value.sketch == mode.SketchOver(src.samples)
  }

  /** All shares of a cell that is merged: no worker that saw the cell took it for final. */
  predicate Merging(es: seq<Emitted>, headers: seq<Header>, key: Key, obs: seq<Observation>)
    requires |es| == |headers|
  {
    forall k :: 0 <= k < |es| && Observed(obs, SeenBy(headers[k].partition, key)) ==> HasKey(es[k].shares, key)
  }

  /** What a worker adds to the merge of a cell that none took for final. */
  lemma {:induction false} SharesOfWorker(e: Emitted, p: ScanPartition, mode: Mode, key: Key, obs: seq<Observation>)
    requires Sound(e, p, mode, obs) && (Observed(obs, SeenBy(p, key)) ==> HasKey(e.shares, key))
    ensures SharesOf(e.shares, key)
         == if Observed(obs, SeenBy(p, key)) then [Share(mode, p, key, obs)] else []
  {
    assert DistinctKeys(e.shares) by {
      assert forall i :: 0 <= i < |e.shares| ==> e.shares[i] == (e.finals + e.shares)[|e.finals| + i];
    }
    SharesOfDistinct(e.shares, key);
    if HasKey(e.shares, key) {
      var i :| 0 <= i < |e.shares| && e.shares[i].key == key;
    }
  }

  lemma {:induction false} FoldSnoc(x: seq<Content>, c: Content)
    ensures FoldContents(x + [c]) == Step(FoldContents(x), Some(c))
  {
    assert (x + [c])[..|x|] == x;
  }

  lemma SourceNothing(kind: Kind, pick: Observation -> bool, obs: seq<Observation>)
    requires !Observed(obs, pick)
    ensures Observations.SourceOf(kind, pick, obs) == NOTHING
  {
    PickedNone(SampleOf, pick, obs);
    PickedNone(Observations.EntryOf, pick, obs);
  }

  lemma StepShare(mode: Mode, a: Option<Content>, src: Source, share: Content, next: Source)
    requires Represents(mode.kind, a, src) && Represents(mode.kind, Some(share), next)
    requires SketchOf(mode, a, src) && SketchOf(mode, Some(share), next)
    requires mode.kind.Continuous? ==> next.samples != []
    ensures Represents(mode.kind, Step(a, Some(share)), Join(src, next))
    ensures SketchOf(mode, Step(a, Some(share)), Join(src, next))
  {
    StepRepresents(mode.kind, a, src, Some(share), next);
    if a.None? {
      assert [] + next.samples == next.samples;
    }
  }

  /** Merging one more worker's share of a cell, if it has one. */
  lemma {:induction false} FoldShare(x: seq<Content>, src: Source, e: Emitted, p: ScanPartition, mode: Mode, key: Key,
                                     obs: seq<Observation>)
    requires PositiveWeights(obs) && Sound(e, p, mode, obs)
    requires Observed(obs, SeenBy(p, key)) ==> HasKey(e.shares, key)
    requires Represents(mode.kind, FoldContents(x), src) && SketchOf(mode, FoldContents(x), src)
    ensures var joined := Join(src, Observations.SourceOf(mode.kind, SeenBy(p, key), obs));
      && Represents(mode.kind, FoldContents(x + SharesOf(e.shares, key)), joined)
      && SketchOf(mode, FoldContents(x + SharesOf(e.shares, key)), joined)
  {
    SharesOfWorker(e, p, mode, key, obs);
    var next := Observations.SourceOf(mode.kind, SeenBy(p, key), obs);
    if Observed(obs, SeenBy(p, key)) {
      SourceRepresents(mode, SeenBy(p, key), obs);
      PickedNone(SampleOf, SeenBy(p, key), obs);
      FoldSnoc(x, Share(mode, p, key, obs));
      StepShare(mode, FoldContents(x), src, Share(mode, p, key, obs), next);
    } else {
      SourceNothing(mode.kind, SeenBy(p, key), obs);
      assert x + [] == x;
      assert Join(src, NOTHING) == src;
    }
  }

  lemma TogetherSnoc(kind: Kind, headers: seq<Header>, key: Key, obs: seq<Observation>)
    requires headers != []
    ensures var n := |headers| - 1;
      Together(kind, headers, key, obs)
      == Join(Together(kind, headers[..n], key, obs),
              Observations.SourceOf(kind, SeenBy(headers[n].partition, key), obs))
  {}

  lemma {:induction false} FoldShares(es: seq<Emitted>, headers: seq<Header>, mode: Mode, key: Key,
                                      obs: seq<Observation>)
    requires |es| == |headers| && PositiveWeights(obs) && Merging(es, headers, key, obs)
    requires forall k :: 0 <= k < |es| ==> Sound(es[k], headers[k].partition, mode, obs)
    ensures Represents(mode.kind, FoldContents(SharesOf(AllShares(es), key)), Together(mode.kind, headers, key, obs))
    ensures SketchOf(mode, FoldContents(SharesOf(AllShares(es), key)), Together(mode.kind, headers, key, obs))
  {
    if es != [] {
      var n := |es| - 1;
      FoldShares(es[..n], headers[..n], mode, key, obs);
      TogetherSnoc(mode.kind, headers, key, obs);
      SharesOfAppend(AllShares(es[..n]), es[n].shares, key);
      FoldShare(SharesOf(AllShares(es[..n]), key), Together(mode.kind, headers[..n], key, obs), es[n],
                headers[n].partition, mode, key, obs);
    }
  }

  // ----- The merged records are one scan -----

  /** The workers of an accepted set that reads every observation. */
  ghost predicate Workers(es: seq<Emitted>, headers: seq<Header>, mode: Mode, obs: seq<Observation>) {
    && headers != [] && |es| == |headers| && Acceptable(headers) && PositiveWeights(obs)
    && (forall i :: 0 <= i < |obs| ==> Covered(headers, obs[i].chunk))
    && (forall k :: 0 <= k < |es| ==> Sound(es[k], headers[k].partition, mode, obs))
  }

  lemma EachReadOnce(headers: seq<Header>, obs: seq<Observation>)
    requires headers != [] && Acceptable(headers)
    requires forall i :: 0 <= i < |obs| ==> Covered(headers, obs[i].chunk)
    ensures ReadOnce(headers, obs)
  {
    forall i | 0 <= i < |obs|
      ensures Holders(headers, obs[i].chunk) == 1
    {
      forall j, k | 0 <= j < k < |headers|
        ensures !(headers[j].partition.Contains(obs[i].chunk) && headers[k].partition.Contains(obs[i].chunk))
      {
        if headers[j].partition.Contains(obs[i].chunk) && headers[k].partition.Contains(obs[i].chunk) {
          AcceptedAtMostOnce(headers, j, k, obs[i].chunk);
        }
      }
      HoldersAtMostOnce(headers, obs[i].chunk);
    }
  }

  /** A worker that saw an observation of a cell that another worker wrote as final is that worker. */
  lemma OneFinal(es: seq<Emitted>, headers: seq<Header>, mode: Mode, obs: seq<Observation>, j: nat, k: nat, key: Key)
    requires Workers(es, headers, mode, obs) && j < |es| && k < |es|
    requires HasKey(es[j].finals, key) && Observed(obs, SeenBy(headers[k].partition, key))
    ensures j == k
  {
    assert Sound(es[j], headers[j].partition, mode, obs);
    var x :| 0 <= x < |es[j].finals| && es[j].finals[x].key == key;
    assert Interior(headers[j].partition, key, obs);
    var i :| 0 <= i < |obs| && SeenBy(headers[k].partition, key)(obs[i]);
    AcceptedAtMostOnce(headers, j, k, obs[i].chunk);
  }

  lemma {:induction false} InAllShares(es: seq<Emitted>, key: Key)
    ensures HasKey(AllShares(es), key) <==> exists k :: 0 <= k < |es| && HasKey(es[k].shares, key)
  {
    if es != [] {
      var n := |es| - 1;
      InAllShares(es[..n], key);
      HasKeyAppend(AllShares(es[..n]), es[n].shares, key);
      if k :| 0 <= k < n && HasKey(es[..n][k].shares, key) {
        assert HasKey(es[k].shares, key);
      }
      if k :| 0 <= k < |es| && HasKey(es[k].shares, key) {
        assert k == n || HasKey(es[..n][k].shares, key);
      }
    }
  }

  lemma {:induction false} InAllFinals(es: seq<Emitted>, key: Key)
    ensures HasKey(AllFinals(es), key) <==> exists k :: 0 <= k < |es| && HasKey(es[k].finals, key)
  {
    if es != [] {
      var n := |es| - 1;
      InAllFinals(es[..n], key);
      HasKeyAppend(AllFinals(es[..n]), es[n].finals, key);
      if k :| 0 <= k < n && HasKey(es[..n][k].finals, key) {
        assert HasKey(es[k].finals, key);
      }
      if k :| 0 <= k < |es| && HasKey(es[k].finals, key) {
        assert k == n || HasKey(es[..n][k].finals, key);
      }
    }
  }

  lemma HasKeyAppend(a: seq<Record>, b: seq<Record>, key: Key)
    ensures HasKey(a + b, key) <==> HasKey(a, key) || HasKey(b, key)
  {
    if HasKey(a, key) {
      var i :| 0 <= i < |a| && a[i].key == key;
      assert (a + b)[i].key == key;
    }
    if HasKey(b, key) {
      var i :| 0 <= i < |b| && b[i].key == key;
      assert (a + b)[|a| + i].key == key;
    }
  }

  /** A cell that a worker passes on for merging is passed on by every worker that saw it. */
  lemma {:induction false} SharedIsMerging(es: seq<Emitted>, headers: seq<Header>, mode: Mode, obs: seq<Observation>,
                                           key: Key)
    requires Workers(es, headers, mode, obs) && HasKey(AllShares(es), key)
    ensures Merging(es, headers, key, obs)
  {
    InAllShares(es, key);
    var j :| 0 <= j < |es| && HasKey(es[j].shares, key);
    assert Sound(es[j], headers[j].partition, mode, obs);
    assert Observed(obs, SeenBy(headers[j].partition, key));
    forall k | 0 <= k < |es| && Observed(obs, SeenBy(headers[k].partition, key))
      ensures HasKey(es[k].shares, key)
    {
      assert Sound(es[k], headers[k].partition, mode, obs);
      if HasKey(es[k].finals, key) {
        OneFinal(es, headers, mode, obs, k, j, key);
        NotBoth(es[k], key);
      }
    }
  }

  lemma NotBoth(e: Emitted, key: Key)
    requires DistinctKeys(e.finals + e.shares)
    ensures !(HasKey(e.finals, key) && HasKey(e.shares, key))
  {
    var all := e.finals + e.shares;
    forall i, j | 0 <= i < |e.finals| && 0 <= j < |e.shares|
      ensures e.finals[i].key != e.shares[j].key
    {
      assert all[i].key != all[|e.finals| + j].key;
    }
  }

  /** Every merged cell has its final state. */
  lemma {:induction false} MergedIsWhole(es: seq<Emitted>, headers: seq<Header>, mode: Mode, obs: seq<Observation>,
                                         key: Key)
    requires Workers(es, headers, mode, obs) && key in CellsOf(AllShares(es))
    ensures CellsOf(AllShares(es))[key] == Whole(mode, key, obs)
  {
    CellIsFold(AllShares(es), key);
    SharesHaveKey(AllShares(es), key);
    SharedIsMerging(es, headers, mode, obs, key);
    FoldShares(es, headers, mode, key, obs);
    EachReadOnce(headers, obs);
    WholeState(mode, headers, key, obs);
  }

  lemma {:induction false} SharesHaveKey(shares: seq<Record>, key: Key)
    ensures SharesOf(shares, key) != [] <==> HasKey(shares, key)
  {
    if shares != [] {
      var n := |shares| - 1;
      SharesHaveKey(shares[..n], key);
      if HasKey(shares[..n], key) {
        var i :| 0 <= i < n && shares[..n][i].key == key;
        assert shares[i].key == key;
      }
      if HasKey(shares, key) && shares[n].key != key {
        var i :| 0 <= i < |shares| && shares[i].key == key;
        assert shares[..n][i].key == key;
      }
    }
  }

  lemma {:induction false} SortedListing(m: Cells)
    ensures Listing(SortedRecords(m), m)
    decreases |m|
  {
    if exists k :: k in m {
      var k := SortedUnfold(m);
      SortedListing(m - {k});
      ListingSnoc(SortedRecords(m - {k}), m, k);
    }
  }

  lemma ListingSnoc(front: seq<Record>, m: Cells, k: Key)
    requires Last(m, k) && Listing(front, m - {k})
    ensures Listing(front + [Record(k, m[k])], m)
  {
    var t := front + [Record(k, m[k])];
    forall l | l in m
      ensures HasKey(t, l)
    {
      HasKeyAppend(front, [Record(k, m[k])], l);
      if l == k {
        assert [Record(k, m[k])][0].key == k;
      }
    }
  }

  lemma {:induction false} FinalsDistinct(es: seq<Emitted>, headers: seq<Header>, mode: Mode, obs: seq<Observation>,
                                          n: nat)
    requires Workers(es, headers, mode, obs) && n <= |es|
    ensures DistinctKeys(AllFinals(es[..n]))
  {
    if n > 0 {
      FinalsDistinct(es, headers, mode, obs, n - 1);
      assert es[..n][..n - 1] == es[..n - 1];
      var a, e := AllFinals(es[..n - 1]), es[n - 1];
      assert Sound(e, headers[n - 1].partition, mode, obs);
      assert DistinctKeys(e.finals) by {
        assert forall i :: 0 <= i < |e.finals| ==> e.finals[i] == (e.finals + e.shares)[i];
      }
      forall key | HasKey(a, key) && HasKey(e.finals, key)
        ensures false
      {
        InAllFinals(es[..n - 1], key);
        var j :| 0 <= j < n - 1 && HasKey(es[..n - 1][j].finals, key);
        assert HasKey(es[j].finals, key);
        OneFinal(es, headers, mode, obs, j, n - 1, key);
      }
      DistinctAppend(a, e.finals);
    }
  }

  lemma DistinctAppend(a: seq<Record>, b: seq<Record>)
    requires DistinctKeys(a) && DistinctKeys(b)
    requires forall key :: !(HasKey(a, key) && HasKey(b, key))
    ensures DistinctKeys(a + b)
  {
    forall i, j | 0 <= i < |a| && 0 <= j < |b|
      ensures a[i].key != b[j].key
    {
      assert HasKey(a, a[i].key) && HasKey(b, b[j].key);
    }
  }

  /** The records behind the merged output. */
  ghost function MergedRecords(es: seq<Emitted>): seq<Record> {
    AllFinals(es) + SortedRecords(CellsOf(AllShares(es)))
  }

  lemma {:induction false} MergedKeys(es: seq<Emitted>, headers: seq<Header>, mode: Mode, obs: seq<Observation>,
                                      key: Key)
    requires Workers(es, headers, mode, obs)
    ensures HasKey(MergedRecords(es), key) <==> Observed(obs, InCell(key))
    ensures !(HasKey(AllFinals(es), key) && HasKey(SortedRecords(CellsOf(AllShares(es))), key))
  {
    var m := CellsOf(AllShares(es));
    SortedListing(m);
    HasKeyAppend(AllFinals(es), SortedRecords(m), key);
    InAllFinals(es, key);
    InAllShares(es, key);
    CellIsFold(AllShares(es), key);
    SharesHaveKey(AllShares(es), key);
    assert HasKey(SortedRecords(m), key) <==> key in m;
    if i :| 0 <= i < |obs| && InCell(key)(obs[i]) {
      assert Covered(headers, obs[i].chunk);
      var k :| 0 <= k < |headers| && headers[k].partition.Contains(obs[i].chunk);
      assert SeenBy(headers[k].partition, key)(obs[i]);
      assert Sound(es[k], headers[k].partition, mode, obs);
    }
    if k :| 0 <= k < |es| && (HasKey(es[k].finals, key) || HasKey(es[k].shares, key)) {
      assert Sound(es[k], headers[k].partition, mode, obs);
      var i :| 0 <= i < |obs| && SeenBy(headers[k].partition, key)(obs[i]);
      assert InCell(key)(obs[i]);
    }
    if HasKey(AllFinals(es), key) && HasKey(AllShares(es), key) {
      var j :| 0 <= j < |es| && HasKey(es[j].finals, key);
      var k :| 0 <= k < |es| && HasKey(es[k].shares, key);
      assert Sound(es[k], headers[k].partition, mode, obs);
      OneFinal(es, headers, mode, obs, j, k, key);
      NotBoth(es[k], key);
    }
  }

  lemma {:induction false} FinalsWhole(es: seq<Emitted>, headers: seq<Header>, mode: Mode, obs: seq<Observation>,
                                       n: nat)
    requires Workers(es, headers, mode, obs) && n <= |es|
    ensures forall i :: 0 <= i < |AllFinals(es[..n])| ==>
              AllFinals(es[..n])[i].content == Whole(mode, AllFinals(es[..n])[i].key, obs)
  {
    if n > 0 {
      FinalsWhole(es, headers, mode, obs, n - 1);
      assert es[..n][..n - 1] == es[..n - 1];
      var e, p := es[n - 1], headers[n - 1].partition;
      assert Sound(e, p, mode, obs);
      forall i | 0 <= i < |e.finals|
        ensures e.finals[i].content == Whole(mode, e.finals[i].key, obs)
      {
        var key := e.finals[i].key;
        assert Interior(p, key, obs);
        PickedSame(SampleOf, SeenBy(p, key), InCell(key), obs);
        PickedSame(Observations.EntryOf, SeenBy(p, key), InCell(key), obs);
      }
    }
  }

  /** The merged records are the records of one scan over all observations. */
  lemma MergedIsScan(es: seq<Emitted>, headers: seq<Header>, mode: Mode, obs: seq<Observation>)
    requires Workers(es, headers, mode, obs)
    ensures IsScan(MergedRecords(es), mode, obs)
  {
    var m := CellsOf(AllShares(es));
    SortedListing(m);
    assert es[..|es|] == es;
    FinalsDistinct(es, headers, mode, obs, |es|);
    FinalsWhole(es, headers, mode, obs, |es|);
    forall key
      ensures HasKey(MergedRecords(es), key) <==> Observed(obs, InCell(key))
      ensures !(HasKey(AllFinals(es), key) && HasKey(SortedRecords(m), key))
    {
      MergedKeys(es, headers, mode, obs, key);
    }
    DistinctAppend(AllFinals(es), SortedRecords(m));
    forall i | 0 <= i < |SortedRecords(m)|
      ensures SortedRecords(m)[i].content == Whole(mode, SortedRecords(m)[i].key, obs)
    {
      MergedIsWhole(es, headers, mode, obs, SortedRecords(m)[i].key);
    }
  }

  // ----- In another order -----

  lemma {:induction false} DistinctCount(a: seq<Record>, x: Record)
    requires DistinctKeys(a)
    ensures multiset(a)[x] == if x in a then 1 else 0
  {
    if a != [] {
      var n := |a| - 1;
      DistinctCount(a[..n], x);
      assert a == a[..n] + [a[n]];
      if x in a[..n] {
        var i :| 0 <= i < n && a[..n][i] == x;
        assert a[i].key != a[n].key;
      }
    }
  }

  /** Two scans of the same observations have the same records. */
  lemma ScansAgree(a: seq<Record>, b: seq<Record>, mode: Mode, obs: seq<Observation>)
    requires IsScan(a, mode, obs) && IsScan(b, mode, obs)
    ensures multiset(a) == multiset(b)
  {
    forall x: Record
      ensures multiset(a)[x] == multiset(b)[x]
    {
      DistinctCount(a, x);
      DistinctCount(b, x);
      ScanHas(a, b, mode, obs, x);
      ScanHas(b, a, mode, obs, x);
    }
  }

  lemma ScanHas(a: seq<Record>, b: seq<Record>, mode: Mode, obs: seq<Observation>, x: Record)
    requires IsScan(a, mode, obs) && IsScan(b, mode, obs)
    ensures x in a ==> x in b
  {
    if x in a {
      assert HasKey(a, x.key);
      assert HasKey(b, x.key);
      var i :| 0 <= i < |b| && b[i].key == x.key;
      assert b[i] == x;
    }
  }

  lemma {:induction false} RenderedPermuted(render: Renderer, a: seq<Record>, b: seq<Record>)
    requires multiset(a) == multiset(b)
    ensures multiset(Rendered(render, a)) == multiset(Rendered(render, b))
    decreases |a|
  {
    if a == [] {
      assert |multiset(b)| == 0;
    } else {
      var last := a[|a| - 1];
      assert last in multiset(a);
      var i :| 0 <= i < |b| && b[i] == last;
      var front, rest := a[..|a| - 1], b[..i] + b[i + 1..];
      assert a == front + [last];
      assert b == b[..i] + [last] + b[i + 1..];
      assert multiset(front) == multiset(a) - multiset{last};
      assert multiset(rest) == multiset(b) - multiset{last};
      RenderedPermuted(render, front, rest);
      RenderedAppend(render, front, [last]);
      RenderedAppend(render, b[..i] + [last], b[i + 1..]);
      RenderedAppend(render, b[..i], [last]);
      RenderedAppend(render, b[..i], b[i + 1..]);
    }
  }

  lemma {:induction false} PassingAll(records: seq<Record>)
    ensures Passing(records, _ => true) == records
  {
    if records != [] {
      PassingAll(records[..|records| - 1]);
    }
  }

  /** States decode as one kind only: a merge that takes the files of a scan for the other kind fails,
      unless there is nothing to merge. */
  lemma SameShares(layout: Layout, rows: seq<Row>, a: Codec, b: Codec)
    requires layout.Valid() && layout.Fits(rows) && layout.Readable(a, rows) && layout.Readable(b, rows)
    ensures layout.Shares(a, rows) == layout.Shares(b, rows) && (rows != [] ==> a.kind == b.kind)
  {
    if rows != [] {
      assert layout.ShareOf(a, rows[0]).Some? && layout.ShareOf(b, rows[0]).Some?;
    }
  }

  /** The merge of the partition files of a scan is the unpartitioned scan, in another order: for
      workers that classify soundly and files that hold what they wrote, the merged output has the
      rows of any scan over all observations, each cell once. */
  lemma {:induction false} MergedScanIsScan(files: seq<PartitionFile>, categorical: bool, budget: Budget,
                                            es: seq<Emitted>, codec: Codec, mode: Mode, obs: seq<Observation>,
                                            scan: seq<Record>, render: Renderer)
    requires GoodFiles(files) && Mergeable(files, categorical, budget) && |es| == |files|
    requires Workers(es, Headers(files), mode, obs)
    requires forall k :: 0 <= k < |files| ==>
               Written(files[k], es[k], LayoutOf(files[0].schema).value, codec, render)
    requires IsScan(scan, mode, obs)
    ensures MergedScan(files, categorical, budget, render) == Rendered(render, MergedRecords(es))
    ensures IsScan(MergedRecords(es), mode, obs)
    ensures multiset(MergedScan(files, categorical, budget, render)) == multiset(Rendered(render, scan))
  {
    var (layout, inferred) := SettingsOf(files[0].schema, categorical, budget).value;
    WrittenRows(files, es, layout, codec, render);
    SameShares(layout, layout.PartialRows(FileRows(files)), inferred, codec);
    PassingAll(SortedRecords(CellsOf(AllShares(es))));
    RenderedAppend(render, AllFinals(es), SortedRecords(CellsOf(AllShares(es))));
    MergedIsScan(es, Headers(files), mode, obs);
    ScansAgree(MergedRecords(es), scan, mode, obs);
    RenderedPermuted(render, MergedRecords(es), scan);
  }

  /** The workers of a plan: its files pass the check and together read every streamed chunk. */
  lemma PlannedWorkers(m: PartitionPlan.Mosaic, plan: seq<ScanPartition>, target: nat, options: string,
                       es: seq<Emitted>, mode: Mode, obs: seq<Observation>)
    requires m.Valid() && PartitionPlan.GoodPlan(m, plan, target) && plan != [] && |es| == |plan|
    requires PositiveWeights(obs)
    requires forall i :: 0 <= i < |obs| ==> obs[i].chunk in m.Streamed()
    requires forall k :: 0 <= k < |es| ==> Sound(es[k], plan[k], mode, obs)
    ensures Workers(es, PartitionPlan.HeadersOf(plan, options), mode, obs)
  {
    var headers := PartitionPlan.HeadersOf(plan, options);
    PartitionPlan.PlanAccepted(m, plan, target, options);
    forall i | 0 <= i < |obs|
      ensures Covered(headers, obs[i].chunk)
    {
      var x :| 0 <= x < |m.refs| && m.Streamed()[x] == obs[i].chunk;
      var k :| 0 <= k < |plan| && plan[k].Contains(m.Position(m.refs[x]));
      assert headers[k].partition.Contains(obs[i].chunk);
    }
  }
}
