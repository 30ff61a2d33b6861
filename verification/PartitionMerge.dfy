/**
 The stream over a set of partition files: every file's final rows, then the merged partial rows.
 */
module PartitionMerge {
  import opened Wrappers
  import opened MergeUdaf
  import opened RecordBatches
  import opened PartialMerger
  import opened PartialRows
  import opened MergeBatches
  import PartitionSet

  datatype Error = CannotOpen | Changed | BadStream | StateNotBinary | NotMergeable(e: MergeError)

  /** What reading on in a file yields next. */
  type Item = Result<RecordBatch, Error>

  /** A partition file as opening it finds it. */
  datatype PartitionFile =
    | Unreadable
    | PartitionFile(header: PartitionSet.Header, schema: Schema, items: seq<Item>)

  /** The batches of a stream have its schema. */
  predicate GoodItems(items: seq<Item>, layout: Layout) {
    forall i :: 0 <= i < |items| && items[i].Ok? ==> FromFile(items[i].value, layout)
  }

  /** The batches of a file have the file's schema, which is not the state column alone. */
  predicate GoodFile(f: PartitionFile) {
    f.PartitionFile? ==>
      |f.schema| != 1 && forall i :: 0 <= i < |f.items| && f.items[i].Ok? ==>
        f.items[i].value.Valid() && f.items[i].value.schema == f.schema
  }

  predicate GoodFiles(files: seq<PartitionFile>) {
    forall i :: 0 <= i < |files| ==> GoodFile(files[i])
  }

  predicate AllOk(items: seq<Item>, layout: Layout) {
    forall i :: 0 <= i < |items| ==> items[i].Ok? && layout.Typed()
  }

  /** The files can be read and have the columns of the first. */
  predicate CleanFiles(files: seq<PartitionFile>, layout: Layout) {
    forall i :: 0 <= i < |files| ==>
      files[i].PartitionFile? && files[i].schema == layout.schema && AllOk(files[i].items, layout)
  }

  /** The rows of the batches of a stream, in order. */
  function ItemRows(items: seq<Item>): seq<Row> {
    if items == [] then []
    else (if items[0].Ok? then items[0].value.Rows() else []) + ItemRows(items[1..])
  }

  /** The rows of the files, in order. */
  function FileRows(files: seq<PartitionFile>): seq<Row> {
    if files == [] then []
    else OpenRows(files[0]) + FileRows(files[1..])
  }

  function OpenRows(file: PartitionFile): seq<Row> {
    if file.PartitionFile? then ItemRows(file.items) else []
  }

  lemma {:induction false} ItemRowsFit(items: seq<Item>, layout: Layout)
    requires GoodItems(items, layout)
    ensures layout.Fits(ItemRows(items))
  {
    if items != [] {
      ItemRowsFit(items[1..], layout);
    }
  }

  lemma {:induction false} FileRowsFit(files: seq<PartitionFile>, layout: Layout)
    requires GoodFiles(files) && CleanFiles(files, layout)
    ensures layout.Fits(FileRows(files))
  {
    if files != [] {
      ItemRowsFit(files[0].items, layout);
      FileRowsFit(files[1..], layout);
    }
  }

  /** What is still to come of the stream: the rows of the merged batches that are queued, the rows
      not yet read, and the partial rows kept so far, unless they are merged already. */
  datatype Rest = Rest(queued: seq<Row>, unread: seq<Row>, kept: seq<Row>, unmerged: bool)

  /** The rest can be merged. */
  ghost predicate Sound(rest: Rest, layout: Layout, codec: Codec)
    requires layout.Valid()
  {
    && layout.Fits(rest.unread) && layout.Fits(rest.kept)
    && (rest.unmerged ==> layout.Readable(codec, rest.kept + layout.PartialRows(rest.unread)))
  }

  /** The rows that a stream has yet to yield. */
  ghost function Outstanding(rest: Rest, layout: Layout, codec: Codec, render: Renderer): seq<Row>
    requires layout.Valid() && Sound(rest, layout, codec)
  {
    rest.queued + layout.FinalRows(rest.unread)
    + if rest.unmerged then
        MergedRows(layout, codec, rest.kept + layout.PartialRows(rest.unread), _ => true, render)
      else []
  }

  lemma {:induction false} SplitOff(layout: Layout, rows: seq<Row>, unread: seq<Row>, kept: seq<Row>)
    requires layout.Valid() && layout.Fits(rows) && layout.Fits(unread) && layout.Fits(kept)
    ensures layout.FinalRows(rows + unread) == layout.FinalRows(rows) + layout.FinalRows(unread)
    ensures kept + layout.PartialRows(rows + unread)
         == (kept + layout.PartialRows(rows)) + layout.PartialRows(unread)
  {
    layout.SplitAppend(rows, unread);
    assert kept + (layout.PartialRows(rows) + layout.PartialRows(unread))
        == (kept + layout.PartialRows(rows)) + layout.PartialRows(unread);
  }

  /** Taking the first queued batch. */
  lemma QueuedHead(before: Rest, rows: seq<Row>, after: Rest, layout: Layout, codec: Codec, render: Renderer)
    requires layout.Valid() && after == before.(queued := after.queued) && before.queued == rows + after.queued
    ensures Sound(before, layout, codec) <==> Sound(after, layout, codec)
    ensures Sound(before, layout, codec) ==>
              Outstanding(before, layout, codec, render) == rows + Outstanding(after, layout, codec, render)
  {}

  /** Reading a batch: its final rows come out, its partial rows are kept. */
  lemma {:induction false} ReadBatch(before: Rest, rows: seq<Row>, after: Rest, layout: Layout, codec: Codec,
                                     render: Renderer)
    requires layout.Valid() && layout.Fits(rows) && before.queued == [] && after.queued == []
    requires before.unread == rows + after.unread && after.unmerged == before.unmerged
    requires after.kept == before.kept + layout.PartialRows(rows)
    ensures Sound(before, layout, codec) <==> Sound(after, layout, codec)
    ensures Sound(before, layout, codec) ==>
              Outstanding(before, layout, codec, render)
              == layout.FinalRows(rows) + Outstanding(after, layout, codec, render)
  {
    if Sound(after, layout, codec) {
      assert layout.Fits(before.unread);
      FitsHead(layout, before.kept, layout.PartialRows(rows));
      SplitOff(layout, rows, after.unread, before.kept);
    }
    if Sound(before, layout, codec) {
      FitsTail(layout, rows, after.unread);
      SplitOff(layout, rows, after.unread, before.kept);
      Regroup(layout.FinalRows(rows), layout.FinalRows(after.unread),
              if before.unmerged then
                MergedRows(layout, codec, before.kept + layout.PartialRows(before.unread), _ => true, render)
              else []);
    }
  }

  lemma FitsTail(layout: Layout, rows: seq<Row>, unread: seq<Row>)
    requires layout.Fits(rows + unread)
    ensures layout.Fits(unread)
  {
    forall i | 0 <= i < |unread|
      ensures |unread[i]| == |layout.schema|
    {
      assert (rows + unread)[|rows| + i] == unread[i];
    }
  }

  lemma AllOkHead(items: seq<Item>, layout: Layout)
    requires items != []
    ensures AllOk(items, layout) <==> items[0].Ok? && layout.Typed() && AllOk(items[1..], layout)
  {
    if AllOk(items, layout) {
      forall i | 0 <= i < |items| - 1
        ensures items[1..][i].Ok?
      {
        assert items[i + 1].Ok?;
      }
    }
    if items[0].Ok? && AllOk(items[1..], layout) {
      forall i | 0 <= i < |items|
        ensures items[i].Ok?
      {
        if i > 0 {
          assert items[1..][i - 1].Ok?;
        }
      }
    }
  }

  lemma CleanFilesHead(files: seq<PartitionFile>, layout: Layout)
    requires files != [] && files[0].PartitionFile? && files[0].schema == layout.schema
    ensures CleanFiles(files, layout) <==> AllOk(files[0].items, layout) && CleanFiles(files[1..], layout)
  {
    assert forall i :: 0 < i < |files| ==> files[i] == files[1..][i - 1];
  }

  lemma FitsHead(layout: Layout, kept: seq<Row>, rows: seq<Row>)
    requires layout.Fits(kept + rows)
    ensures layout.Fits(kept)
  {
    forall i | 0 <= i < |kept|
      ensures |kept[i]| == |layout.schema|
    {
      assert (kept + rows)[i] == kept[i];
    }
  }

  /** Rows can only be read when the columns of their keys are there. */
  lemma {:induction false} PartialsKeyed(batches: seq<RecordBatch>, layout: Layout, codec: Codec)
    requires layout.Valid() && AllPartial(batches, layout)
    ensures layout.Fits(AllRows(batches))
    ensures batches != [] && layout.Readable(codec, AllRows(batches)) ==> layout.Keyed()
  {
    RowsFit(batches, layout);
    if batches != [] {
      AllRowsHead(batches);
      assert AllRows(batches)[0] == batches[0].RowAt(0);
    }
  }

  lemma Regroup(a: seq<Row>, b: seq<Row>, c: seq<Row>)
    ensures [] + (a + b) + c == a + ([] + b + c)
  {}

  lemma {:induction false} HeadRows(items: seq<Item>, files: seq<PartitionFile>, b: RecordBatch)
    requires items != [] && items[0] == Ok(b)
    ensures ItemRows(items) + FileRows(files) == b.Rows() + (ItemRows(items[1..]) + FileRows(files))
  {
    assert ItemRows(items) == b.Rows() + ItemRows(items[1..]);
  }

  /** Merging: the kept rows become queued rows. */
  lemma MergedAhead(before: Rest, after: Rest, layout: Layout, codec: Codec, render: Renderer)
    requires layout.Valid() && before.queued == [] && before.unread == [] && before.unmerged
    requires layout.Fits(before.kept) && layout.Readable(codec, before.kept)
    requires after.unread == [] && after.kept == [] && !after.unmerged
    requires after.queued == MergedRows(layout, codec, before.kept, _ => true, render)
    ensures Sound(before, layout, codec) && Sound(after, layout, codec)
    ensures Outstanding(after, layout, codec, render) == Outstanding(before, layout, codec, render)
  {
    assert before.kept + layout.PartialRows(before.unread) == before.kept;
  }

  lemma RowsAssoc(a: seq<Row>, b: seq<Row>, c: seq<Row>)
    ensures (a + b) + c == a + (b + c)
  {}

  lemma {:induction false} AllRowsHead(batches: seq<RecordBatch>)
    requires batches != []
    ensures AllRows(batches) == batches[0].Rows() + AllRows(batches[1..])
  {
    var n := |batches| - 1;
    if n == 0 {
      assert batches[..0] == [];
    } else {
      AllRowsHead(batches[..n]);
      assert batches[..n][1..] == batches[1..][..n - 1];
      RowsAssoc(batches[0].Rows(), AllRows(batches[1..][..n - 1]), batches[n].Rows());
    }
  }

  lemma {:induction false} AllRowsAppend(a: seq<RecordBatch>, b: seq<RecordBatch>)
    ensures AllRows(a + b) == AllRows(a) + AllRows(b)
  {
    if b == [] {
      assert a + b == a;
    } else {
      var n := |b| - 1;
      AllRowsAppend(a, b[..n]);
      assert (a + b)[..|a| + n] == a + b[..n];
      RowsAssoc(AllRows(a), AllRows(b[..n]), b[n].Rows());
    }
  }

  /** Termination: files left, then batches left in the open file, then the merge, then queued
      batches. */
  datatype Measure = Measure(files: nat, items: nat, merges: nat, queued: nat) {
    predicate Less(than: Measure) {
      || files < than.files
      || (files == than.files && items < than.items)
      || (files == than.files && items == than.items && merges < than.merges)
      || (files == than.files && items == than.items && merges == than.merges && queued < than.queued)
    }
  }

  /** The rows owed before a batch is yielded, given those owed after. */
  function Before(batch: Option<RecordBatch>, owed: Option<seq<Row>>): Option<seq<Row>> {
    if batch.None? || owed.None? then owed else Some(batch.value.Rows() + owed.value)
  }

  /** The rows owed, if the files ahead are clean and the states among them decode. */
  ghost function OwedRows(clean: bool, rest: Rest, layout: Layout, codec: Codec, render: Renderer): Option<seq<Row>>
    requires layout.Valid()
  {
    if clean && Sound(rest, layout, codec) then Some(Outstanding(rest, layout, codec, render)) else None
  }

  lemma {:induction false} BatchOwed(before: Rest, rows: seq<Row>, after: Rest, layout: Layout, codec: Codec,
                                     render: Renderer,
                  clean: bool, finals: Option<RecordBatch>)
    requires layout.Valid() && layout.Fits(rows) && before.queued == [] && after.queued == []
    requires before.unread == rows + after.unread && after.unmerged == before.unmerged
    requires after.kept == before.kept + layout.PartialRows(rows)
    requires layout.FinalRows(rows) == if finals.Some? then finals.value.Rows() else []
    ensures OwedRows(clean, before, layout, codec, render)
         == Before(finals, OwedRows(clean, after, layout, codec, render))
  {
    ReadBatch(before, rows, after, layout, codec, render);
    if finals.None? && Sound(after, layout, codec) {
      assert [] + Outstanding(after, layout, codec, render) == Outstanding(after, layout, codec, render);
    }
  }

  /** Reading a batch: what was owed before is its final rows and what is owed after. */
  lemma {:induction false} ItemOwed(items: seq<Item>, files: seq<PartitionFile>, kept: seq<RecordBatch>,
                                    unmerged: bool, b: RecordBatch, finals: Option<RecordBatch>,
                                    partial: seq<RecordBatch>, layout: Layout, codec: Codec, render: Renderer)
    requires layout.Valid() && layout.Typed() && items != [] && items[0] == Ok(b) && FromFile(b, layout)
    requires AllRows(partial) == layout.PartialRows(b.Rows())
    requires layout.FinalRows(b.Rows()) == if finals.Some? then finals.value.Rows() else []
    ensures OwedRows(AllOk(items, layout) && CleanFiles(files, layout),
                     Rest([], ItemRows(items) + FileRows(files), AllRows(kept), unmerged), layout, codec, render)
         == Before(finals, OwedRows(AllOk(items[1..], layout) && CleanFiles(files, layout),
                                    Rest([], ItemRows(items[1..]) + FileRows(files), AllRows(kept + partial), unmerged),
                                    layout, codec, render))
  {
    AllRowsAppend(kept, partial);
    AllOkHead(items, layout);
    HeadRows(items, files, b);
    BatchOwed(Rest([], ItemRows(items) + FileRows(files), AllRows(kept), unmerged), b.Rows(),
              Rest([], ItemRows(items[1..]) + FileRows(files), AllRows(kept + partial), unmerged),
              layout, codec, render, AllOk(items[1..], layout) && CleanFiles(files, layout), finals);
  }

  class Stream {
    const layout: Layout
    const codec: Codec
    const batchSize: nat
    const build: seq<Record> -> RecordBatch
    ghost const render: Renderer
    var files: seq<PartitionFile>
    var current: Option<seq<Item>>
    var partials: seq<RecordBatch>
    var merged: seq<RecordBatch>
    /** Whether the merge of the partial rows is still to be done. */
    var unmerged: bool

    ghost predicate Valid()
      reads this
    {
      && layout.Valid() && Builds(build, render)
      && AllPartial(partials, layout)
      && (forall b :: 0 <= b < |merged| ==> merged[b].Valid())
      && (current.Some? ==> GoodItems(current.value, layout))
      && GoodFiles(files)
      && (!unmerged ==> files == [] && current.None?)
    }

    ghost function Unread(): seq<Row>
      reads this
      requires Valid()
    {
      (if current.Some? then ItemRows(current.value) else []) + FileRows(files)
    }

    ghost function Remaining(): Rest
      reads this
      requires Valid()
    {
      Rest(AllRows(merged), Unread(), AllRows(partials), unmerged)
    }

    /** The files ahead can be read and have the expected columns. */
    predicate CleanAhead()
      reads this
    {
      (current.Some? ==> AllOk(current.value, layout)) && CleanFiles(files, layout)
    }

    /** The rows that the stream has yet to yield; None when something ahead fails. */
    ghost function Owed(): Option<seq<Row>>
      reads this
      requires Valid()
    {
      OwedRows(CleanAhead(), Remaining(), layout, codec, render)
    }

    function Work(): Measure
      reads this
    {
      Measure(|files|, if current.Some? then 1 + |current.value| else 0, if unmerged then 1 else 0, |merged|)
    }

    predicate Finished()
      reads this
    {
      files == [] && current.None? && merged == [] && !unmerged
    }

    constructor (first: PartitionFile, rest: seq<PartitionFile>, layout: Layout, codec: Codec, batchSize: nat,
                 build: seq<Record> -> RecordBatch, ghost render: Renderer)
      requires first.PartitionFile? && first.schema == layout.schema && GoodFile(first) && GoodFiles(rest)
      requires layout.Valid() && Builds(build, render)
      ensures Valid() && this.layout == layout && this.codec == codec && this.render == render
      ensures files == rest && current == Some(first.items) && partials == [] && merged == [] && unmerged
    {
      this.layout, this.codec, this.batchSize, this.build, this.render := layout, codec, batchSize, build, render;
      files, current, partials, merged, unmerged := rest, Some(first.items), [], [], true;
    }

    /** The next batch to write; None when done. */
    method NextBatch() returns (r: Result<Option<RecordBatch>, Error>)
      requires Valid()
      modifies this
      ensures Valid()
      ensures r.Ok? && r.value.Some? ==> r.value.value.Valid() && Work().Less(old(Work()))
      ensures r == Ok(None) ==> Finished() && Owed() == Some([])
      ensures old(Finished()) ==> r == Ok(None)
      ensures r.Err? ==> old(Owed()) == None
      ensures r.Ok? ==> old(Owed()) == Before(r.value, Owed())
    {
      while true
        invariant Valid()
        invariant Work() == old(Work()) || Work().Less(old(Work()))
        invariant old(Finished()) ==> Finished()
        invariant Owed() == old(Owed())
        decreases Work().files, Work().items, Work().merges
      {
        if merged != [] {
          var batch := TakeQueued();
          return Ok(Some(batch));
        }
        if current.Some? {
          var finals := ReadItem();
          if finals.Err? || finals.value.Some? {
            return finals;
          }
        } else if files != [] {
          var open := OpenNext();
          if open.Err? {
            return Err(open.error);
          }
        } else if unmerged {
          var done := MergeKept();
          if done.Err? {
            return Err(done.error);
          }
        } else {
          FinishedOwed();
          return Ok(None);
        }
      }
    }

    lemma FinishedOwed()
      requires Valid() && Finished()
      ensures Owed() == Some([])
    {
      RowsFit(partials, layout);
      assert Remaining() == Rest([], [], AllRows(partials), false);
    }

    method TakeQueued() returns (batch: RecordBatch)
      requires Valid() && merged != []
      modifies `merged
      ensures Valid() && batch.Valid() && Work().Less(old(Work()))
      ensures old(Owed()) == Before(Some(batch), Owed())
    {
      AllRowsHead(merged);
      ghost var before := Remaining();
      batch := merged[0];
      merged := merged[1..];
      assert Remaining() == before.(queued := AllRows(merged));
      QueuedHead(before, batch.Rows(), Remaining(), layout, codec, render);
    }

    /** Reads one batch of the open file, or closes the file. */
    method ReadItem() returns (r: Result<Option<RecordBatch>, Error>)
      requires Valid() && current.Some? && merged == []
      modifies `current, `partials
      ensures Valid() && Work().Less(old(Work())) && Work().files == old(Work().files)
      ensures Work().items < old(Work().items)
      ensures r.Ok? && r.value.Some? ==> r.value.value.Valid()
      ensures r.Err? ==> old(Owed()) == None
      ensures r.Ok? ==> old(Owed()) == Before(r.value, Owed())
    {
      if current.value == [] {
        CloseFile();
        return Ok(None);
      }
      var item := current.value[0];
      if item.Err? {
        current := Some(current.value[1..]);
        return Err(item.error);
      }
      if !layout.Typed() {
        AllOkHead(current.value, layout);
        current := Some(current.value[1..]);
        return Err(StateNotBinary);
      }
      var finals := ReadOne(item.value);
      r := Ok(finals);
    }

    method CloseFile()
      requires Valid() && current == Some([])
      modifies `current
      ensures Valid() && current == None && Remaining() == old(Remaining())
    {
      current := None;
      assert [] + FileRows(files) == FileRows(files);
    }

    /** The final rows of the next batch come out, its partial rows are kept. */
    method ReadOne(b: RecordBatch) returns (finals: Option<RecordBatch>)
      requires Valid() && layout.Typed()
      requires merged == [] && current.Some? && current.value != [] && current.value[0] == Ok(b)
      modifies `current, `partials
      ensures Valid() && current == Some(old(current.value[1..]))
      ensures finals.Some? ==> finals.value.Valid()
      ensures old(Owed()) == Before(finals, Owed())
    {
      var partial: seq<RecordBatch>;
      finals, partial := Split(b, layout);
      ItemOwed(current.value, files, partials, unmerged, b, finals, partial, layout, codec, render);
      partials := partials + partial;
      current := Some(current.value[1..]);
    }

    method OpenNext() returns (r: Result<(), Error>)
      requires Valid() && current.None? && files != []
      modifies `current, `files
      ensures Valid() && Work().files < old(Work().files)
      ensures old(Owed()) == if r.Ok? then Owed() else None
    {
      var file := files[0];
      if file.Unreadable? || file.schema != layout.schema {
        files := files[1..];
        return Err(if file.Unreadable? then CannotOpen else Changed);
      }
      CleanFilesHead(files, layout);
      OpenFile(file);
      r := Ok(());
    }

    method OpenFile(file: PartitionFile)
      requires Valid() && current.None? && files != [] && file == files[0]
      requires file.PartitionFile? && file.schema == layout.schema
      modifies `current, `files
      ensures Valid() && Remaining() == old(Remaining())
      ensures files == old(files[1..]) && current == Some(file.items)
    {
      files := files[1..];
      current := Some(file.items);
      assert [] + (ItemRows(file.items) + FileRows(files)) == ItemRows(file.items) + FileRows(files);
    }

    /** Merges the partial rows and queues the result. */
    method MergeKept() returns (r: Result<(), Error>)
      requires Valid() && current.None? && files == [] && unmerged && merged == []
      modifies `partials, `merged, `unmerged
      ensures Valid() && Work().files == old(Work().files) && Work().items == old(Work().items)
      ensures Work().merges < old(Work().merges)
      ensures old(Owed()) == if r.Ok? then Owed() else None
    {
      ghost var before := Remaining();
      var batches := partials;
      PartialsKeyed(batches, layout, codec);
      partials, unmerged := [], false;
      var out := MergePartialBatches(batches, layout, codec, _ => true, batchSize, build, render);
      assert before.unread == [];
      assert before.kept + layout.PartialRows([]) == before.kept;
      if out.Err? {
        return Err(NotMergeable(out.error));
      }
      merged := out.value;
      MergedAhead(before, Remaining(), layout, codec, render);
      r := Ok(());
    }
  }
}
