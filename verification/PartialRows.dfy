/**
 The rows of a partitioned scan: final rows have a null state, partial rows carry one. Splitting a
 batch into both, and merging the partial rows of all partitions into final rows.
 */
module PartialRows {
  import opened Wrappers
  import opened MergeUdaf
  import opened RecordBatches
  import opened PartialMerger

  /** Where the columns of a partition file are: the state, and the keys by which partial rows are
      merged, unless they are missing or of another type. */
  datatype Layout = Layout(schema: Schema, state: nat, resolution: Option<nat>, h3: Option<nat>) {
    predicate Valid() {
      && state < |schema| && |schema| > 1
      && (resolution.Some? ==> resolution.value < |schema| && schema[resolution.value].dataType == UInt8)
      && (h3.Some? ==> h3.value < |schema| && schema[h3.value].dataType == UInt64)
    }

    /** The state column holds bytes. */
    predicate Typed()
      ensures Typed() <==> state < |schema| && schema[state].dataType == Binary
    {
      state < |schema| && schema[state].dataType == Binary
    }

    /** Partial rows can be merged. */
    predicate Keyed()
      ensures Keyed() <==> resolution.Some? && h3.Some? && state < |schema| && schema[state].dataType == Binary
    {
      resolution.Some? && h3.Some? && Typed()
    }

    /** Every column but the state, in ascending order. */
    function Keep(): (keep: seq<nat>)
      requires Valid()
      ensures |keep| == |schema| - 1
      ensures forall k :: 0 <= k < |keep| ==> keep[k] < |schema|
      ensures forall j, k :: 0 <= j < k < |keep| ==> keep[j] < keep[k]
      ensures state !in keep
    {
      seq(|schema| - 1, k requires 0 <= k < |schema| - 1 => if k < state then k else k + 1)
    }

    lemma KeepHasTheRest()
      requires Valid()
      ensures forall c: nat :: c in Keep() <==> c < |schema| && c != state
    {
      forall c: nat | c < |schema| && c != state
        ensures c in Keep()
      {
        assert Keep()[if c < state then c else c - 1] == c;
      }
    }

    predicate Fits(rows: seq<Row>) {
      forall i :: 0 <= i < |rows| ==> |rows[i]| == |schema|
    }

    predicate IsPartial(row: Row)
      requires Valid() && |row| == |schema|
    {
      row[state].Some?
    }

    /** The final rows, each as it is but for the state's column. */
    function FinalRows(rows: seq<Row>): seq<Row>
      requires Valid() && Fits(rows)
    {
      if rows == [] then []
      else
        var n := |rows| - 1;
        FinalRows(rows[..n]) + (if IsPartial(rows[n]) then [] else [rows[n][..state] + rows[n][state + 1..]])
    }

    function PartialRows(rows: seq<Row>): (r: seq<Row>)
      requires Valid() && Fits(rows)
      ensures Fits(r)
    {
      if rows == [] then []
      else
        var n := |rows| - 1;
        PartialRows(rows[..n]) + (if IsPartial(rows[n]) then [rows[n]] else [])
    }

    /** The share of a cell that a row carries, if it can be read. */
    function ShareOf(codec: Codec, row: Row): Option<Record>
      requires Valid() && |row| == |schema|
    {
      if !Keyed() then None
      else
        match (row[resolution.value], row[h3.value], row[state])
        case (Some(UInt8Value(r)), Some(UInt64Value(h)), Some(BinaryValue(e))) =>
          (var content := Decode(codec, e);
           if content.Some? then Some(Record(Key(r, h), content.value)) else None)
        case _ => None
    }

    predicate Readable(codec: Codec, rows: seq<Row>)
      requires Valid() && Fits(rows)
    {
      forall i :: 0 <= i < |rows| ==> ShareOf(codec, rows[i]).Some?
    }

    function Shares(codec: Codec, rows: seq<Row>): seq<Record>
      requires Valid() && Fits(rows) && Readable(codec, rows)
    {
      seq(|rows|, i requires 0 <= i < |rows| => ShareOf(codec, rows[i]).value)
    }

    lemma {:induction false} SplitAppend(a: seq<Row>, b: seq<Row>)
      requires Valid() && Fits(a) && Fits(b)
      ensures FinalRows(a + b) == FinalRows(a) + FinalRows(b)
      ensures PartialRows(a + b) == PartialRows(a) + PartialRows(b)
    {
      if b == [] {
        assert a + b == a;
      } else {
        var n := |b| - 1;
        assert (a + b)[..|a| + n] == a + b[..n];
        SplitAppend(a, b[..n]);
      }
    }

    /** Each row without a state is found among the final ones, cut, right after those before it;
        a row that carries one is not. */
    lemma {:induction false} FinalRowAt(rows: seq<Row>, i: nat)
      requires Valid() && Fits(rows) && i < |rows|
      ensures FinalRows(rows[..i]) <= FinalRows(rows[..i + 1]) <= FinalRows(rows)
      ensures |FinalRows(rows[..i + 1])| == |FinalRows(rows[..i])| + (if rows[i][state].None? then 1 else 0)
      ensures rows[i][state].None? ==>
                FinalRows(rows)[|FinalRows(rows[..i])|] == rows[i][..state] + rows[i][state + 1..]
    {
      assert rows[..i + 1][..i] == rows[..i];
      assert rows == rows[..i + 1] + rows[i + 1..];
      SplitAppend(rows[..i + 1], rows[i + 1..]);
    }

    /** A run of partial rows. */
    lemma {:induction false} PartialRunRows(run: seq<Row>)
      requires Valid() && Fits(run) && forall i :: 0 <= i < |run| ==> IsPartial(run[i])
      ensures PartialRows(run) == run && FinalRows(run) == []
    {
      if run != [] {
        var n := |run| - 1;
        PartialRunRows(run[..n]);
        assert run == run[..n] + [run[n]];
        assert PartialRows(run) == PartialRows(run[..n]) + [run[n]];
        assert FinalRows(run) == FinalRows(run[..n]) + [];
      }
    }

    /** Keeping the columns of `Keep` cuts the state out of a row. */
    lemma KeptIsCut(row: Row)
      requires Valid() && |row| == |schema|
      ensures KeptRow(row, Keep()) == row[..state] + row[state + 1..]
    {
      assert forall k :: 0 <= k < |Keep()| ==> Keep()[k] == if k < state then k else k + 1;
    }

    /** A run of final rows. */
    lemma {:induction false} FinalRunRows(run: seq<Row>)
      requires Valid() && Fits(run) && forall i :: 0 <= i < |run| ==> !IsPartial(run[i])
      ensures PartialRows(run) == [] && FinalRows(run) == Kept(run, Keep(), |schema|)
    {
      if run != [] {
        var n := |run| - 1;
        FinalRunRows(run[..n]);
        KeptSnoc(run, Keep(), |schema|);
        KeptIsCut(run[n]);
      }
    }
  }

  /** A batch read from a partition file. */
  predicate FromFile(b: RecordBatch, layout: Layout) {
    b.Valid() && b.schema == layout.schema
  }

  predicate AllFromFile(batches: seq<RecordBatch>, layout: Layout) {
    forall b :: 0 <= b < |batches| ==> FromFile(batches[b], layout)
  }

  /** Batches of partial rows, none of them empty. */
  predicate AllPartial(batches: seq<RecordBatch>, layout: Layout) {
    AllFromFile(batches, layout) && forall b :: 0 <= b < |batches| ==> batches[b].numRows > 0
  }

  lemma {:induction false} RowsFit(batches: seq<RecordBatch>, layout: Layout)
    requires AllFromFile(batches, layout)
    ensures layout.Fits(AllRows(batches))
  {
    if batches != [] {
      RowsFit(batches[..|batches| - 1], layout);
    }
  }

  // ----- Splitting a batch -----

  /** Which rows carry a state. */
  method PartialMask(b: RecordBatch, layout: Layout) returns (mask: seq<bool>)
    requires layout.Valid() && FromFile(b, layout)
    ensures |mask| == b.numRows
    ensures forall i :: 0 <= i < b.numRows ==> mask[i] == layout.IsPartial(b.Rows()[i])
  {
    var validity := b.columns[layout.state].validity;
    mask := if validity.Some? then validity.value else seq(b.numRows, _ => true);
  }

  /** The length of the run of equal entries at `start`. */
  method RunLength(mask: seq<bool>, start: nat) returns (len: nat)
    requires start < |mask|
    ensures 0 < len && start + len <= |mask|
    ensures forall i :: start <= i < start + len ==> mask[i] == mask[start]
  {
    len := 1;
    while start + len < |mask| && mask[start + len] == mask[start]
      invariant 0 < len && start + len <= |mask|
      invariant forall i :: start <= i < start + len ==> mask[i] == mask[start]
    {
      len := len + 1;
    }
  }

  /** The batches taken out of some rows. */
  ghost predicate SplitOf(layout: Layout, rows: seq<Row>, finals: seq<RecordBatch>, partials: seq<RecordBatch>)
    requires layout.Valid() && layout.Fits(rows)
  {
    && AllPartial(partials, layout) && AllRows(partials) == layout.PartialRows(rows)
    && AllKept(finals, layout) && AllRows(finals) == layout.FinalRows(rows)
  }

  function KeptSchema(layout: Layout): Schema
    requires layout.Valid()
  {
    layout.schema[..layout.state] + layout.schema[layout.state + 1..]
  }

  /** Batches of final rows, none of them empty. */
  predicate AllKept(finals: seq<RecordBatch>, layout: Layout)
    requires layout.Valid()
  {
    forall b :: 0 <= b < |finals| ==>
      finals[b].Valid() && finals[b].schema == KeptSchema(layout) && finals[b].numRows > 0
  }

  /** Splits a batch into runs: the final rows without their state, and the partial rows. */
  method Split(b: RecordBatch, layout: Layout) returns (finals: Option<RecordBatch>, partials: seq<RecordBatch>)
    requires layout.Valid() && layout.Typed() && FromFile(b, layout)
    ensures AllPartial(partials, layout) && AllRows(partials) == layout.PartialRows(b.Rows())
    ensures finals.None? <==> layout.FinalRows(b.Rows()) == []
    ensures finals.Some? ==> finals.value.Valid() && finals.value.Rows() == layout.FinalRows(b.Rows())
  {
    var runs: seq<RecordBatch>;
    runs, partials := SplitRuns(b, layout);
    if runs == [] {
      finals := None;
    } else if |runs| == 1 {
      AllRowsOne(runs[0]);
      assert runs == [runs[0]];
      finals := Some(runs[0]);
    } else {
      var joined := ConcatBatches(runs);
      assert |joined.value.Rows()| == |AllRows(runs)| > 0 by {
        assert AllRows(runs) == AllRows(runs[..|runs| - 1]) + runs[|runs| - 1].Rows();
      }
      finals := Some(joined.value);
    }
  }

  method SplitRuns(b: RecordBatch, layout: Layout) returns (runs: seq<RecordBatch>, partials: seq<RecordBatch>)
    requires layout.Valid() && FromFile(b, layout)
    ensures SplitOf(layout, b.Rows(), runs, partials)
  {
    var mask := PartialMask(b, layout);
    ghost var rows := b.Rows();
    runs, partials := [], [];
    var start := 0;
    while start < b.numRows
      invariant start <= b.numRows && SplitOf(layout, rows[..start], runs, partials)
      decreases b.numRows - start
    {
      start, runs, partials := SplitNext(b, layout, mask, rows, start, runs, partials);
    }
    assert rows[..b.numRows] == rows;
  }

  /** Takes out the run at `start`. */
  method SplitNext(b: RecordBatch, layout: Layout, mask: seq<bool>, ghost rows: seq<Row>, start: nat,
                   runs: seq<RecordBatch>, partials: seq<RecordBatch>)
    returns (end: nat, runs': seq<RecordBatch>, partials': seq<RecordBatch>)
    requires layout.Valid() && FromFile(b, layout) && rows == b.Rows() && |mask| == |rows| && start < |rows|
    requires forall i :: 0 <= i < |rows| ==> mask[i] == layout.IsPartial(rows[i])
    requires SplitOf(layout, rows[..start], runs, partials)
    ensures start < end <= |rows| && SplitOf(layout, rows[..end], runs', partials')
  {
    var len := RunLength(mask, start);
    var run := TakeRun(b, layout, start, len);
    RunIs(layout, mask, rows, start, len);
    runs', partials' := PlaceRun(layout, rows[..start], rows[start..start + len], runs, partials, run, mask[start]);
    end := start + len;
  }

  lemma RunIs(layout: Layout, mask: seq<bool>, rows: seq<Row>, start: nat, len: nat)
    requires layout.Valid() && layout.Fits(rows) && |mask| == |rows| && start + len <= |rows| && len > 0
    requires forall i :: 0 <= i < |rows| ==> mask[i] == layout.IsPartial(rows[i])
    requires forall i :: start <= i < start + len ==> mask[i] == mask[start]
    ensures var run := rows[start..start + len];
      && layout.Fits(rows[..start]) && layout.Fits(run)
      && (forall i :: 0 <= i < |run| ==> layout.IsPartial(run[i]) == mask[start])
      && rows[..start + len] == rows[..start] + run
  {
    var run := rows[start..start + len];
    assert forall i :: 0 <= i < len ==> run[i] == rows[start + i];
  }

  /** Puts one run with the final rows or with the partial rows. */
  method PlaceRun(layout: Layout, ghost before: seq<Row>, ghost rows: seq<Row>,
                  runs: seq<RecordBatch>, partials: seq<RecordBatch>, run: RecordBatch, partial: bool)
    returns (runs': seq<RecordBatch>, partials': seq<RecordBatch>)
    requires layout.Valid() && layout.Fits(before) && layout.Fits(rows) && rows != []
    requires SplitOf(layout, before, runs, partials)
    requires FromFile(run, layout) && run.Rows() == rows
    requires forall i :: 0 <= i < |rows| ==> layout.IsPartial(rows[i]) == partial
    ensures SplitOf(layout, before + rows, runs', partials')
  {
    if partial {
      PartialRun(layout, before, rows, runs, partials, run);
      return runs, partials + [run];
    }
    var kept := KeepColumns(run, layout);
    FinalRun(layout, before, rows, runs, partials, kept);
    return runs + [kept], partials;
  }

  method TakeRun(b: RecordBatch, layout: Layout, start: nat, len: nat) returns (run: RecordBatch)
    requires layout.Valid() && FromFile(b, layout) && start + len <= b.numRows
    ensures FromFile(run, layout) && run.Rows() == b.Rows()[start..start + len]
  {
    b.SliceRows(start, len);
    run := b.Slice(start, len);
  }

  method KeepColumns(run: RecordBatch, layout: Layout) returns (kept: RecordBatch)
    requires layout.Valid() && FromFile(run, layout)
    ensures kept.Valid() && kept.schema == KeptSchema(layout) && kept.numRows == run.numRows
    ensures kept.Rows() == Kept(run.Rows(), layout.Keep(), |layout.schema|)
  {
    run.ProjectRows(layout.Keep());
    kept := run.Project(layout.Keep());
    assert kept.schema == KeptSchema(layout);
  }

  lemma PartialRun(layout: Layout, before: seq<Row>, rows: seq<Row>,
                   finals: seq<RecordBatch>, partials: seq<RecordBatch>, run: RecordBatch)
    requires layout.Valid() && layout.Fits(before) && layout.Fits(rows)
    requires SplitOf(layout, before, finals, partials)
    requires forall i :: 0 <= i < |rows| ==> layout.IsPartial(rows[i])
    requires FromFile(run, layout) && run.Rows() == rows && rows != []
    ensures SplitOf(layout, before + rows, finals, partials + [run])
  {
    layout.SplitAppend(before, rows);
    layout.PartialRunRows(rows);
    AllRowsSnoc(partials, run);
    SameSplit(layout.FinalRows(before), AllRows(finals));
    AllPartialSnoc(partials, run, layout);
  }

  lemma SameSplit(a: seq<Row>, b: seq<Row>)
    requires a == b
    ensures a + [] == b
  {}

  lemma AllPartialSnoc(partials: seq<RecordBatch>, run: RecordBatch, layout: Layout)
    requires AllPartial(partials, layout) && FromFile(run, layout) && run.Rows() != []
    ensures AllPartial(partials + [run], layout)
  {}

  lemma FinalRun(layout: Layout, before: seq<Row>, rows: seq<Row>,
                 finals: seq<RecordBatch>, partials: seq<RecordBatch>, kept: RecordBatch)
    requires layout.Valid() && layout.Fits(before) && layout.Fits(rows)
    requires SplitOf(layout, before, finals, partials)
    requires forall i :: 0 <= i < |rows| ==> !layout.IsPartial(rows[i])
    requires kept.Valid() && kept.schema == KeptSchema(layout) && kept.numRows > 0
    requires kept.Rows() == Kept(rows, layout.Keep(), |layout.schema|)
    ensures SplitOf(layout, before + rows, finals + [kept], partials)
  {
    layout.SplitAppend(before, rows);
    layout.FinalRunRows(rows);
    assert layout.PartialRows(before + rows) == layout.PartialRows(before);
    AllRowsSnoc(finals, kept);
  }

  lemma AllRowsOne(b: RecordBatch)
    ensures AllRows([b]) == b.Rows()
  {
    assert [b][..0] == [];
    assert AllRows([b]) == [] + b.Rows();
  }
}
