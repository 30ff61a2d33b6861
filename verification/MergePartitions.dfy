/**
 Combining the partition files of a scan into its final rows.
 */
module MergePartitions {
  import opened Wrappers
  import opened PartialStates
  import opened RecordBatches
  import opened PartialMerger
  import opened PartialRows
  import opened MergeBatches
  import opened MergeUdaf
  import opened Names
  import opened PartitionMerge
  import opened PartitionSet

  datatype Failure =
    | NoInputs
    | NotOpened(file: nat)
    | OtherColumns(file: nat)
    | RefusedSet(why: Refusal)
    | NoStateColumn
    | NotAScanColumn(name: string, kind: Kind)
    | Reading(e: Error)

  predicate AllOpen(files: seq<PartitionFile>) {
    forall i :: 0 <= i < |files| ==> files[i].PartitionFile?
  }

  predicate OneSchema(files: seq<PartitionFile>)
    requires AllOpen(files)
  {
    forall i :: 0 <= i < |files| ==> files[i].schema == files[0].schema
  }

  function Headers(files: seq<PartitionFile>): seq<Header>
    requires AllOpen(files)
  {
    seq(|files|, i requires 0 <= i < |files| => files[i].header)
  }

  function NamesOf(schema: Schema): (names: seq<string>)
    ensures |names| == |schema| && forall i :: 0 <= i < |schema| ==> names[i] == schema[i].name
  {
    seq(|schema|, i requires 0 <= i < |schema| => schema[i].name)
  }

  /** The first column of a name. */
  predicate FirstNamed(schema: Schema, c: nat, name: string) {
    c < |schema| && SameName(schema[c].name, name) && forall j :: 0 <= j < c ==> !SameName(schema[j].name, name)
  }

  lemma {:induction false} FirstIs(schema: Schema, name: string)
    ensures forall i: nat :: FirstNamed(schema, i, name) <==> IndexOf(NamesOf(schema), name) == Some(i)
  {
    var c := IndexOf(NamesOf(schema), name);
    forall i: nat | FirstNamed(schema, i, name)
      ensures c == Some(i)
    {
      assert SameName(NamesOf(schema)[i], name);
    }
  }

  /** The first column of a name, if it has the type. */
  function TypedColumn(schema: Schema, name: string, dataType: DataType): (c: Option<nat>)
    ensures c.Some? ==> FirstNamed(schema, c.value, name) && schema[c.value].dataType == dataType
    ensures c.None? ==> forall i: nat :: FirstNamed(schema, i, name) ==> schema[i].dataType != dataType
  {
    FirstIs(schema, name);
    var c := IndexOf(NamesOf(schema), name);
    if c.Some? && schema[c.value].dataType == dataType then c else None
  }

  /** The columns of a partition file; None without a state column. */
  function LayoutOf(schema: Schema): (layout: Option<Layout>)
    ensures layout.Some? ==> layout.value.Valid() && layout.value.schema == schema
    ensures layout.None? <==> |schema| == 1 || forall i: nat :: !FirstNamed(schema, i, "partial_state")
    ensures layout.Some? ==>
              && FirstNamed(schema, layout.value.state, "partial_state")
              && (forall i: nat :: layout.value.resolution == Some(i) <==>
                                FirstNamed(schema, i, "resolution") && schema[i].dataType == UInt8)
              && (forall i: nat :: layout.value.h3 == Some(i) <==>
                                FirstNamed(schema, i, "h3_index") && schema[i].dataType == UInt64)
  {
    FirstIs(schema, "partial_state");
    FirstIs(schema, "resolution");
    FirstIs(schema, "h3_index");
    var state := IndexOf(NamesOf(schema), "partial_state");
    if state.None? || |schema| == 1 then None
    else Some(Layout(schema, state.value, TypedColumn(schema, "resolution", UInt8),
                     TypedColumn(schema, "h3_index", UInt64)))
  }

  // ----- The kind of scan -----

  function ScanColumns(kind: Kind): seq<string> {
    match kind
    case Continuous =>
      ["h3_index", "h3_hex", "mean", "stddev", "count", "min", "max", "sum", "resolution", "wkb"]
    case Categorical =>
      ["h3_index", "h3_hex", "majority_class", "majority_fraction", "majority_count", "unique_classes",
       "total_count", "histogram", "resolution", "shannon_entropy", "entropy", "distinct_classes", "wkb"]
  }

  predicate OneOf(columns: seq<string>, name: string) {
    exists c :: c in columns && SameName(c, name)
  }

  /** The two kinds of scan share the columns of the cell; each has the statistics of its own. */
  lemma {:induction false} ScanNames(name: string)
    ensures var shared := ["h3_index", "h3_hex", "resolution", "wkb"];
      && (IndexOf(ScanColumns(Continuous), name).Some? <==>
            OneOf(shared + ["count", "sum", "mean", "stddev", "min", "max"], name))
      && (IndexOf(ScanColumns(Categorical), name).Some? <==>
            OneOf(shared + ["majority_class", "majority_count", "majority_fraction", "total_count", "histogram",
                            "unique_classes", "distinct_classes", "shannon_entropy", "entropy"], name))
  {
    var shared := ["h3_index", "h3_hex", "resolution", "wkb"];
    IndexOfOne(ScanColumns(Continuous), name,
               shared + ["count", "sum", "mean", "stddev", "min", "max"]);
    IndexOfOne(ScanColumns(Categorical), name,
               shared + ["majority_class", "majority_count", "majority_fraction", "total_count", "histogram",
                         "unique_classes", "distinct_classes", "shannon_entropy", "entropy"]);
  }

  lemma {:induction false} IndexOfOne(columns: seq<string>, name: string, same: seq<string>)
    requires forall c :: c in columns <==> c in same
    ensures IndexOf(columns, name).Some? <==> OneOf(same, name)
  {
    if IndexOf(columns, name).Some? {
      assert columns[IndexOf(columns, name).value] in columns;
    }
  }

  /** The columns other than the state. */
  function KeptNames(layout: Layout): (names: seq<string>)
    requires layout.Valid()
    ensures |names| == |layout.schema| - 1
    ensures forall c :: 0 <= c < |names| ==> names[c] == layout.schema[if c < layout.state then c else c + 1].name
  {
    NamesOf(KeptSchema(layout))
  }

  predicate AllIn(columns: seq<string>, names: seq<string>) {
    forall i :: 0 <= i < |names| ==> IndexOf(columns, names[i]).Some?
  }

  /** A scan is categorical when the caller says so or a column is not one of a continuous scan. */
  function InferredKind(names: seq<string>, categorical: bool): Kind {
    if categorical || !AllIn(ScanColumns(Continuous), names) then Categorical else Continuous
  }

  /** The first name that is not among the columns, if there is one. */
  method FirstOther(columns: seq<string>, names: seq<string>) returns (other: Option<string>)
    ensures other.None? <==> AllIn(columns, names)
    ensures other.Some? ==> other.value in names && IndexOf(columns, other.value).None?
  {
    for i := 0 to |names|
      invariant AllIn(columns, names[..i])
    {
      if IndexOf(columns, names[i]).None? {
        return Some(names[i]);
      }
    }
    assert names[..|names|] == names;
    other := None;
  }

  method InferKind(names: seq<string>, categorical: bool) returns (r: Result<Kind, Failure>)
    ensures r.Ok? <==> AllIn(ScanColumns(InferredKind(names, categorical)), names)
    ensures r.Ok? ==> r.value == InferredKind(names, categorical)
    ensures r.Err? ==>
              && r.error.NotAScanColumn? && r.error.name in names
              && IndexOf(ScanColumns(r.error.kind), r.error.name).None?
  {
    var categoricalOnly := FirstOther(ScanColumns(Continuous), names);
    var kind := if categorical || categoricalOnly.Some? then Categorical else Continuous;
    var other := FirstOther(ScanColumns(kind), names);
    r := if other.Some? then Err(NotAScanColumn(other.value, kind)) else Ok(kind);
  }

  /** What the columns of a schema make of a merge: where they are and how states are read. */
  function SettingsOf(schema: Schema, categorical: bool, budget: Budget): (s: Option<(Layout, Codec)>)
    ensures s.Some? ==> s.value.0.Valid() && s.value.0.schema == schema
  {
    var layout := LayoutOf(schema);
    if layout.None? then None
    else
      var names := KeptNames(layout.value);
      var kind := InferredKind(names, categorical);
      if AllIn(ScanColumns(kind), names) then Some((layout.value, Codec(kind, budget))) else None
  }

  /** The files are every partition of one plan with the columns of a scan, can be read to the end, and
      their partial states decode. */
  ghost predicate Mergeable(files: seq<PartitionFile>, categorical: bool, budget: Budget)
    requires GoodFiles(files)
  {
    && files != [] && AllOpen(files) && OneSchema(files) && Acceptable(Headers(files))
    && var settings := SettingsOf(files[0].schema, categorical, budget);
    && settings.Some? && ReadableFiles(files, settings.value.0, settings.value.1)
  }

  ghost predicate ReadableFiles(files: seq<PartitionFile>, layout: Layout, codec: Codec)
    requires GoodFiles(files) && layout.Valid()
  {
    && CleanFiles(files, layout) && layout.Fits(FileRows(files))
    && layout.Readable(codec, layout.PartialRows(FileRows(files)))
  }

  /** The merged scan: the final rows of all files in order, then each cell of the partial rows once. */
  ghost function MergedScan(files: seq<PartitionFile>, categorical: bool, budget: Budget, render: Renderer): seq<Row>
    requires GoodFiles(files) && Mergeable(files, categorical, budget)
  {
    var (layout, codec) := SettingsOf(files[0].schema, categorical, budget).value;
    layout.FinalRows(FileRows(files))
    + MergedRows(layout, codec, layout.PartialRows(FileRows(files)), _ => true, render)
  }

  /** What the rows written so far and those owed by a stream amount to. */
  function Promise(rows: seq<Row>, owed: Option<seq<Row>>): Option<seq<Row>> {
    if owed.Some? then Some(rows + owed.value) else None
  }

  lemma PromiseKept(rows: seq<Row>, batch: Option<RecordBatch>, owed: Option<seq<Row>>)
    ensures batch.Some? ==> Promise(rows + batch.value.Rows(), owed) == Promise(rows, Before(batch, owed))
    ensures Promise(rows, Some([])) == Some(rows) && Promise([], owed) == owed
  {
    assert rows + [] == rows;
    if owed.Some? {
      assert [] + owed.value == owed.value;
      if batch.Some? {
        RowsAssoc(rows, batch.value.Rows(), owed.value);
      }
    }
  }

  /** Writes what a stream yields. */
  method WriteAll(stream: Stream) returns (r: Result<seq<Row>, Error>)
    requires stream.Valid()
    modifies stream
    ensures old(stream.Owed()) == if r.Ok? then Some(r.value) else None
    ensures r.Ok? ==> stream.Finished()
  {
    var rows: seq<Row> := [];
    ghost var promise := stream.Owed();
    PromiseKept([], None, promise);
    while true
      invariant stream.Valid() && Promise(rows, stream.Owed()) == promise
      decreases stream.Work().files, stream.Work().items, stream.Work().merges, stream.Work().queued
    {
      var next := stream.NextBatch();
      if next.Err? {
        return Err(next.error);
      }
      PromiseKept(rows, next.value, stream.Owed());
      if next.value.None? {
        return Ok(rows);
      }
      rows := rows + next.value.value.Rows();
    }
  }

  method CheckColumns(files: seq<PartitionFile>) returns (r: Result<seq<Header>, Failure>)
    ensures r.Ok? <==> AllOpen(files) && OneSchema(files)
    ensures r.Ok? ==> r.value == Headers(files)
    ensures r.Err? ==>
              match r.error
              case NotOpened(i) => i < |files| && files[i].Unreadable?
              case OtherColumns(i) =>
                i < |files| && files[0].PartitionFile? && files[i].PartitionFile? && files[i].schema != files[0].schema
              case _ => false
  {
    var headers: seq<Header> := [];
    for i := 0 to |files|
      invariant AllOpen(files[..i]) && OneSchema(files[..i]) && headers == Headers(files[..i])
    {
      if files[i].Unreadable? {
        return Err(NotOpened(i));
      }
      if files[i].schema != files[0].schema {
        return Err(OtherColumns(i));
      }
      headers := headers + [files[i].header];
      assert files[..i + 1] == files[..i] + [files[i]];
    }
    assert files[..|files|] == files;
    r := Ok(headers);
  }

  /** What is wrong with the set when the merge is refused. */
  ghost predicate Explains(files: seq<PartitionFile>, categorical: bool, budget: Budget, failure: Failure)
    requires GoodFiles(files)
  {
    match failure
    case NoInputs => files == []
    case NotOpened(i) => i < |files| && files[i].Unreadable?
    case OtherColumns(i) =>
      i < |files| && files[0].PartitionFile? && files[i].PartitionFile? && files[i].schema != files[0].schema
    case RefusedSet(why) => files != [] && AllOpen(files) && Justified(Headers(files), why)
    case NoStateColumn => files != [] && files[0].PartitionFile? && LayoutOf(files[0].schema).None?
    case NotAScanColumn(name, kind) =>
      && files != [] && files[0].PartitionFile? && LayoutOf(files[0].schema).Some?
      && name in KeptNames(LayoutOf(files[0].schema).value) && IndexOf(ScanColumns(kind), name).None?
    case Reading(_) =>
      && files != [] && files[0].PartitionFile?
      && var settings := SettingsOf(files[0].schema, categorical, budget);
      && settings.Some? && !ReadableFiles(files, settings.value.0, settings.value.1)
  }

  method CheckSettings(schema: Schema, categorical: bool, budget: Budget) returns (r: Result<(Layout, Codec), Failure>)
    ensures SettingsOf(schema, categorical, budget) == if r.Ok? then Some(r.value) else None
    ensures r.Err? ==>
              match r.error
              case NoStateColumn => LayoutOf(schema).None?
              case NotAScanColumn(name, kind) =>
                && LayoutOf(schema).Some? && name in KeptNames(LayoutOf(schema).value)
                && IndexOf(ScanColumns(kind), name).None?
              case _ => false
  {
    var layout := LayoutOf(schema);
    if layout.None? {
      return Err(NoStateColumn);
    }
    var kind := InferKind(KeptNames(layout.value), categorical);
    r := if kind.Ok? then Ok((layout.value, Codec(kind.value, budget))) else Err(kind.error);
  }

  /** Checks the files, then streams them. The merge succeeds exactly for a mergeable set, and a refusal
      says what is wrong. */
  method MergePartitionFiles(files: seq<PartitionFile>, categorical: bool, budget: Budget, batchSize: nat,
                             build: seq<Record> -> RecordBatch, ghost render: Renderer)
    returns (r: Result<seq<Row>, Failure>)
    requires GoodFiles(files) && Builds(build, render)
    ensures r.Ok? <==> Mergeable(files, categorical, budget)
    ensures r.Ok? ==> r.value == MergedScan(files, categorical, budget, render)
    ensures r.Err? ==> Explains(files, categorical, budget, r.error)
  {
    if files == [] {
      return Err(NoInputs);
    }
    var headers := CheckColumns(files);
    if headers.Err? {
      return Err(headers.error);
    }
    var accepted := CheckPartitionSet(headers.value);
    if accepted.Err? {
      return Err(RefusedSet(accepted.error));
    }
    var settings := CheckSettings(files[0].schema, categorical, budget);
    if settings.Err? {
      return Err(settings.error);
    }
    var rows := Run(files, settings.value.0, settings.value.1, batchSize, build, render);
    r := if rows.Ok? then Ok(rows.value) else Err(Reading(rows.error));
  }

  method Run(files: seq<PartitionFile>, layout: Layout, codec: Codec, batchSize: nat,
             build: seq<Record> -> RecordBatch, ghost render: Renderer)
    returns (r: Result<seq<Row>, Error>)
    requires GoodFiles(files) && Builds(build, render) && layout.Valid()
    requires files != [] && files[0].PartitionFile? && files[0].schema == layout.schema
    ensures r.Ok? <==> ReadableFiles(files, layout, codec)
    ensures r.Ok? ==>
              r.value == layout.FinalRows(FileRows(files))
                         + MergedRows(layout, codec, layout.PartialRows(FileRows(files)), _ => true, render)
  {
    var stream := new Stream(files[0], files[1..], layout, codec, batchSize, build, render);
    CleanFilesHead(files, layout);
    Start(files, layout, codec, render);
    assert stream.Remaining() == Rest([], FileRows(files), [], true);
    r := WriteAll(stream);
  }

  lemma {:induction false} Start(files: seq<PartitionFile>, layout: Layout, codec: Codec, render: Renderer)
    requires GoodFiles(files) && layout.Valid()
    ensures var rest := Rest([], FileRows(files), [], true);
      && (Sound(rest, layout, codec) <==>
            layout.Fits(FileRows(files)) && layout.Readable(codec, layout.PartialRows(FileRows(files))))
      && (Sound(rest, layout, codec) ==>
            Outstanding(rest, layout, codec, render)
            == layout.FinalRows(FileRows(files))
               + MergedRows(layout, codec, layout.PartialRows(FileRows(files)), _ => true, render))
  {
    var rows := FileRows(files);
    if layout.Fits(rows) {
      assert [] + layout.PartialRows(rows) == layout.PartialRows(rows);
      assert [] + layout.FinalRows(rows) == layout.FinalRows(rows);
    }
  }
}
