/**
 Merging batches of partial rows into batches of final rows.
 */
module MergeBatches {
  import opened Wrappers
  import opened PartialStates
  import opened MergeUdaf
  import opened RecordBatches
  import opened PartialMerger
  import opened PartialRows

  datatype MergeError = MissingColumn | NullKey | NullState | BadState

  /** The row of a record, as a scan outputs it. */
  type Renderer = Record -> Row

  function Rendered(render: Renderer, records: seq<Record>): seq<Row> {
    seq(|records|, i requires 0 <= i < |records| => render(records[i]))
  }

  /** Building the columns of some records yields the scan's own rows. */
  ghost predicate Builds(build: seq<Record> -> RecordBatch, render: Renderer) {
    forall records :: build(records).Valid() && build(records).Rows() == Rendered(render, records)
  }

  /** What merging some partial rows yields: each cell once, sorted by key. */
  ghost function MergedRows(layout: Layout, codec: Codec, rows: seq<Row>, passes: Content -> bool,
                            render: Renderer): seq<Row>
    requires layout.Valid() && layout.Fits(rows) && layout.Readable(codec, rows)
  {
    Rendered(render, Passing(SortedRecords(CellsOf(layout.Shares(codec, rows))), passes))
  }

  /** No null in a column. */
  method NoNulls(b: RecordBatch, c: nat) returns (ok: bool)
    requires b.Valid() && c < |b.schema|
    ensures ok <==> forall i :: 0 <= i < b.numRows ==> b.Rows()[i][c].Some?
  {
    var validity := b.columns[c].validity;
    ok := true;
    if validity.Some? {
      for i := 0 to b.numRows
        invariant forall j :: 0 <= j < i ==> b.Rows()[j][c].Some?
      {
        if !validity.value[i] {
          assert b.Rows()[i][c].None?;
          return false;
        }
      }
    }
  }

  /** Pushes the rows of one batch. */
  method PushBatch(merger: Merger, b: RecordBatch, layout: Layout, codec: Codec)
    returns (r: Result<(), MergeError>)
    requires layout.Valid() && FromFile(b, layout)
    modifies merger
    ensures r.Ok? <==> layout.Keyed() && layout.Readable(codec, b.Rows())
    ensures r.Ok? ==> merger.cells == PushAll(old(merger.cells), layout.Shares(codec, b.Rows()))
  {
    ghost var rows := b.Rows();
    if !layout.Keyed() {
      return Err(MissingColumn);
    }
    var resolutions := NoNulls(b, layout.resolution.value);
    var keys := NoNulls(b, layout.h3.value);
    if !resolutions || !keys {
      return Err(NullKey);
    }
    for i := 0 to b.numRows
      invariant layout.Readable(codec, rows[..i])
      invariant merger.cells == PushAll(old(merger.cells), layout.Shares(codec, rows[..i]))
    {
      assert rows[i] == b.RowAt(i);
      var pushed := PushRow(merger, b, layout, codec, i);
      if pushed.Err? {
        return pushed;
      }
      PushAllSnoc(layout, codec, rows, i, old(merger.cells));
    }
    assert rows[..b.numRows] == rows;
    r := Ok(());
  }

  method PushRow(merger: Merger, b: RecordBatch, layout: Layout, codec: Codec, i: nat)
    returns (r: Result<(), MergeError>)
    requires layout.Valid() && layout.Keyed() && FromFile(b, layout) && i < b.numRows
    requires b.RowAt(i)[layout.resolution.value].Some? && b.RowAt(i)[layout.h3.value].Some?
    modifies merger
    ensures r.Ok? <==> layout.ShareOf(codec, b.RowAt(i)).Some?
    ensures r.Ok? ==> merger.cells == Pushed(old(merger.cells), layout.ShareOf(codec, b.RowAt(i)).value)
  {
    var state := b.columns[layout.state].CellAt(i);
    var resolution, h3 := b.columns[layout.resolution.value].values[i], b.columns[layout.h3.value].values[i];
    assert layout.ShareOf(codec, b.RowAt(i)) == RowShare(codec, resolution, h3, state);
    if state.None? {
      return Err(NullState);
    }
    var pushed := merger.PushEncoded(codec, Key(resolution.b, h3.u), state.value.state);
    r := if pushed.Ok? then Ok(()) else Err(BadState);
  }

  function RowShare(codec: Codec, resolution: Value, h3: Value, state: Cell): Option<Record>
    requires resolution.UInt8Value? && h3.UInt64Value? && (state.Some? ==> state.value.BinaryValue?)
  {
    if state.None? then None
    else
      var content := Decode(codec, state.value.state);
      if content.Some? then Some(Record(Key(resolution.b, h3.u), content.value)) else None
  }

  function PushAll(m: Cells, shares: seq<Record>): Cells {
    if shares == [] then m else Pushed(PushAll(m, shares[..|shares| - 1]), shares[|shares| - 1])
  }

  lemma {:induction false} PushAllSnoc(layout: Layout, codec: Codec, rows: seq<Row>, i: nat, m: Cells)
    requires layout.Valid() && layout.Fits(rows) && i < |rows|
    requires layout.Readable(codec, rows[..i]) && layout.ShareOf(codec, rows[i]).Some?
    ensures layout.Readable(codec, rows[..i + 1])
    ensures PushAll(m, layout.Shares(codec, rows[..i + 1]))
         == Pushed(PushAll(m, layout.Shares(codec, rows[..i])), layout.ShareOf(codec, rows[i]).value)
  {
    var all := layout.Shares(codec, rows[..i + 1]);
    assert all[..i] == layout.Shares(codec, rows[..i]);
  }

  lemma {:induction false} PushAllAppend(a: seq<Record>, b: seq<Record>)
    ensures PushAll(CellsOf(a), b) == CellsOf(a + b)
  {
    if b == [] {
      assert a + b == a;
    } else {
      var n := |b| - 1;
      assert (a + b)[..|a| + n] == a + b[..n];
      PushAllAppend(a, b[..n]);
    }
  }

  /** Pushes the rows of all batches. */
  method PushBatches(merger: Merger, batches: seq<RecordBatch>, layout: Layout, codec: Codec)
    returns (r: Result<(), MergeError>)
    requires layout.Valid() && AllFromFile(batches, layout) && merger.cells == map[]
    modifies merger
    ensures layout.Fits(AllRows(batches))
    ensures r.Ok? <==> (batches == [] || layout.Keyed()) && layout.Readable(codec, AllRows(batches))
    ensures r.Ok? ==> merger.cells == CellsOf(layout.Shares(codec, AllRows(batches)))
  {
    RowsFit(batches, layout);
    for i := 0 to |batches|
      invariant layout.Fits(AllRows(batches[..i])) && layout.Readable(codec, AllRows(batches[..i]))
      invariant i > 0 ==> layout.Keyed()
      invariant merger.cells == CellsOf(layout.Shares(codec, AllRows(batches[..i])))
    {
      BatchNext(batches, layout, codec, i);
      var pushed := PushBatch(merger, batches[i], layout, codec);
      if pushed.Err? {
        AllRowsPrefix(batches, i + 1);
        ReadablePrefix(layout, codec, AllRows(batches[..i + 1]), AllRows(batches));
        return pushed;
      }
    }
    assert batches[..|batches|] == batches;
    r := Ok(());
  }

  lemma BatchNext(batches: seq<RecordBatch>, layout: Layout, codec: Codec, i: nat)
    requires layout.Valid() && AllFromFile(batches, layout) && i < |batches|
    requires layout.Fits(AllRows(batches[..i])) && layout.Readable(codec, AllRows(batches[..i]))
    ensures layout.Fits(AllRows(batches[..i + 1]))
    ensures layout.Readable(codec, AllRows(batches[..i + 1])) <==> layout.Readable(codec, batches[i].Rows())
    ensures layout.Readable(codec, batches[i].Rows()) ==>
              PushAll(CellsOf(layout.Shares(codec, AllRows(batches[..i]))), layout.Shares(codec, batches[i].Rows()))
              == CellsOf(layout.Shares(codec, AllRows(batches[..i + 1])))
  {
    assert batches[..i + 1][..i] == batches[..i];
    var a, b := AllRows(batches[..i]), batches[i].Rows();
    assert AllRows(batches[..i + 1]) == a + b;
    ReadableAppend(layout, codec, a, b);
    if layout.Readable(codec, b) {
      PushAllAppend(layout.Shares(codec, a), layout.Shares(codec, b));
    }
  }

  lemma ReadableAppend(layout: Layout, codec: Codec, a: seq<Row>, b: seq<Row>)
    requires layout.Valid() && layout.Fits(a) && layout.Fits(b)
    ensures layout.Readable(codec, a + b) <==> layout.Readable(codec, a) && layout.Readable(codec, b)
    ensures layout.Readable(codec, a + b) ==>
              layout.Shares(codec, a + b) == layout.Shares(codec, a) + layout.Shares(codec, b)
  {
    if layout.Readable(codec, a + b) {
      forall i | 0 <= i < |a|
        ensures layout.ShareOf(codec, a[i]).Some?
      {
        assert (a + b)[i] == a[i];
      }
      forall i | 0 <= i < |b|
        ensures layout.ShareOf(codec, b[i]).Some?
      {
        assert (a + b)[|a| + i] == b[i];
      }
    }
  }

  lemma {:induction false} AllRowsPrefix(batches: seq<RecordBatch>, i: nat)
    requires i <= |batches|
    ensures AllRows(batches[..i]) <= AllRows(batches)
    decreases |batches|
  {
    if i < |batches| {
      var front := batches[..|batches| - 1];
      AllRowsPrefix(front, i);
      assert front[..i] == batches[..i];
    } else {
      assert batches[..i] == batches;
    }
  }

  lemma ReadablePrefix(layout: Layout, codec: Codec, a: seq<Row>, all: seq<Row>)
    requires layout.Valid() && layout.Fits(all) && layout.Fits(a) && a <= all
    ensures layout.Readable(codec, all) ==> layout.Readable(codec, a)
  {
    assert all == a + all[|a|..];
    ReadableAppend(layout, codec, a, all[|a|..]);
  }

  /** Cuts the records into batches of at most `size` rows. */
  method BuildBatches(records: seq<Record>, size: nat, build: seq<Record> -> RecordBatch, ghost render: Renderer)
    returns (batches: seq<RecordBatch>)
    requires Builds(build, render) && size > 0
    ensures forall b :: 0 <= b < |batches| ==> batches[b].Valid() && 0 < batches[b].numRows <= size
    ensures AllRows(batches) == Rendered(render, records)
  {
    batches := [];
    var pos := 0;
    while pos < |records|
      invariant pos <= |records|
      invariant forall b :: 0 <= b < |batches| ==> batches[b].Valid() && 0 < batches[b].numRows <= size
      invariant AllRows(batches) == Rendered(render, records[..pos])
    {
      var end := if pos + size < |records| then pos + size else |records|;
      var batch := build(records[pos..end]);
      assert |batch.Rows()| == end - pos;
      AllRowsSnoc(batches, batch);
      RenderedAppend(render, records[..pos], records[pos..end]);
      assert records[..end] == records[..pos] + records[pos..end];
      batches := batches + [batch];
      pos := end;
    }
    assert records[..|records|] == records;
  }

  lemma RenderedAppend(render: Renderer, a: seq<Record>, b: seq<Record>)
    ensures Rendered(render, a + b) == Rendered(render, a) + Rendered(render, b)
  {}

  method MergePartialBatches(batches: seq<RecordBatch>, layout: Layout, codec: Codec, passes: Content -> bool,
                             batchSize: nat, build: seq<Record> -> RecordBatch, ghost render: Renderer)
    returns (r: Result<seq<RecordBatch>, MergeError>)
    requires layout.Valid() && AllFromFile(batches, layout) && Builds(build, render)
    ensures layout.Fits(AllRows(batches))
    ensures r.Ok? <==> (batches == [] || layout.Keyed()) && layout.Readable(codec, AllRows(batches))
    ensures r.Ok? ==>
              && (forall b :: 0 <= b < |r.value| ==>
                    && r.value[b].Valid() && 0 < r.value[b].numRows
                    && r.value[b].numRows <= if batchSize == 0 then 1 else batchSize)
              && AllRows(r.value) == MergedRows(layout, codec, AllRows(batches), passes, render)
  {
    var merger := new Merger();
    var pushed := PushBatches(merger, batches, layout, codec);
    if pushed.Err? {
      return Err(pushed.error);
    }
    var records := merger.Finish(passes);
    var size := if batchSize < 1 then 1 else batchSize;
    var out := BuildBatches(records, size, build, render);
    r := Ok(out);
  }
}
