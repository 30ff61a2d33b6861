/**
 Columnar record batches, and what slicing, projecting and concatenating them means for their rows.
 */
module RecordBatches {
  import opened Wrappers
  import opened MergeUdaf

  datatype DataType = UInt64 | Int64 | UInt8 | Float64 | Boolean | Utf8 | Binary

  datatype Value =
    | UInt64Value(u: nat)
    | Int64Value(i: int)
    | UInt8Value(b: nat)
    | Float64Value(x: real)
    | BooleanValue(t: bool)
    | Utf8Value(s: string)
    | BinaryValue(state: Encoded)
  {
    function Type(): DataType {
      match this
      case UInt64Value(_) => UInt64
      case Int64Value(_) => Int64
      case UInt8Value(_) => UInt8
      case Float64Value(_) => Float64
      case BooleanValue(_) => Boolean
      case Utf8Value(_) => Utf8
      case BinaryValue(_) => Binary
    }
  }

  /** A cell of a row: None is null. */
  type Cell = Option<Value>
  type Row = seq<Cell>

  /** A column: without a validity mask every value counts. */
  datatype Column = Column(dataType: DataType, values: seq<Value>, validity: Option<seq<bool>>) {
    predicate Valid() {
      && (forall i :: 0 <= i < |values| ==> values[i].Type() == dataType)
      && (validity.Some? ==> |validity.value| == |values|)
    }

    function CellAt(i: nat): Cell {
      if i >= |values| || (validity.Some? && i < |validity.value| && !validity.value[i]) then None
      else Some(values[i])
    }

    function Slice(offset: nat, length: nat): (r: Column)
      requires Valid()
      ensures r.Valid() && r.dataType == dataType
      ensures offset + length <= |values| ==>
                |r.values| == length && forall i :: 0 <= i < length ==> r.CellAt(i) == CellAt(offset + i)
    {
      var end := if offset + length < |values| then offset + length else |values|;
      var start := if offset < end then offset else end;
      Column(dataType, values[start..end], if validity.Some? then Some(validity.value[start..end]) else None)
    }
  }

  datatype Field = Field(name: string, dataType: DataType)

  type Schema = seq<Field>

  datatype RecordBatch = RecordBatch(schema: Schema, columns: seq<Column>, numRows: nat) {
    predicate Valid() {
      && |columns| == |schema|
      && forall c :: 0 <= c < |columns| ==>
           columns[c].Valid() && |columns[c].values| == numRows && columns[c].dataType == schema[c].dataType
    }

    function RowAt(i: nat): (r: Row)
      ensures |r| == |columns|
    {
      seq(|columns|, c requires 0 <= c < |columns| => columns[c].CellAt(i))
    }

    function Rows(): (r: seq<Row>)
      ensures |r| == numRows
    {
      seq(numRows, i requires 0 <= i < numRows => RowAt(i))
    }

    function Slice(offset: nat, length: nat): RecordBatch
      requires Valid()
    {
      var end := if offset + length < numRows then offset + length else numRows;
      var start := if offset < end then offset else end;
      RecordBatch(schema,
                  seq(|columns|, c requires 0 <= c < |columns| => columns[c].Slice(start, end - start)),
                  end - start)
    }

    function Project(indices: seq<nat>): RecordBatch
      requires Valid() && forall k :: 0 <= k < |indices| ==> indices[k] < |schema|
    {
      RecordBatch(seq(|indices|, k requires 0 <= k < |indices| => schema[indices[k]]),
                  seq(|indices|, k requires 0 <= k < |indices| => columns[indices[k]]),
                  numRows)
    }

    /** A slice has the rows of the range. */
    lemma SliceRows(offset: nat, length: nat)
      requires Valid() && offset + length <= numRows
      ensures Slice(offset, length).Valid() && Slice(offset, length).schema == schema
      ensures Slice(offset, length).Rows() == Rows()[offset..offset + length]
    {
      var s := Slice(offset, length);
      forall i | 0 <= i < length
        ensures s.Rows()[i] == Rows()[offset + i]
      {
        assert s.RowAt(i) == RowAt(offset + i);
      }
    }

    lemma ProjectRows(indices: seq<nat>)
      requires Valid() && forall k :: 0 <= k < |indices| ==> indices[k] < |schema|
      ensures Project(indices).Valid()
      ensures Project(indices).Rows() == Kept(Rows(), indices, |schema|)
    {
      var p := Project(indices);
      forall i | 0 <= i < numRows
        ensures p.Rows()[i] == Kept(Rows(), indices, |schema|)[i]
      {
        assert p.RowAt(i) == KeptRow(RowAt(i), indices);
      }
    }
  }

  function KeptRow(row: Row, indices: seq<nat>): Row
    requires forall k :: 0 <= k < |indices| ==> indices[k] < |row|
  {
    seq(|indices|, k requires 0 <= k < |indices| => row[indices[k]])
  }

  /** The rows with only some of their columns. */
  function Kept(rows: seq<Row>, indices: seq<nat>, width: nat): seq<Row>
    requires forall i :: 0 <= i < |rows| ==> |rows[i]| == width
    requires forall k :: 0 <= k < |indices| ==> indices[k] < width
  {
    seq(|rows|, i requires 0 <= i < |rows| => KeptRow(rows[i], indices))
  }

  lemma KeptSnoc(rows: seq<Row>, indices: seq<nat>, width: nat)
    requires rows != [] && forall i :: 0 <= i < |rows| ==> |rows[i]| == width
    requires forall k :: 0 <= k < |indices| ==> indices[k] < width
    ensures var n := |rows| - 1;
      Kept(rows, indices, width) == Kept(rows[..n], indices, width) + [KeptRow(rows[n], indices)]
  {}

  // ----- Concatenation -----

  function AllRows(batches: seq<RecordBatch>): seq<Row> {
    if batches == [] then []
    else AllRows(batches[..|batches| - 1]) + batches[|batches| - 1].Rows()
  }

  lemma {:induction false} AllRowsSnoc(batches: seq<RecordBatch>, b: RecordBatch)
    ensures AllRows(batches + [b]) == AllRows(batches) + b.Rows()
  {
    assert (batches + [b])[..|batches|] == batches;
  }

  /** The mask of two columns together: made up where only one of them has one. */
  method JoinValidity(a: Option<seq<bool>>, b: Option<seq<bool>>, aLen: nat, bLen: nat)
    returns (r: Option<seq<bool>>)
    ensures r.None? <==> a.None? && b.None?
    ensures r.Some? ==>
              r.value == (if a.Some? then a.value else seq(aLen, _ => true))
                         + (if b.Some? then b.value else seq(bLen, _ => true))
  {
    if a.None? && b.None? {
      return None;
    }
    var v := if a.Some? then a.value else seq(aLen, _ => true);
    v := v + (if b.Some? then b.value else seq(bLen, _ => true));
    r := Some(v);
  }

  /** Appending a column appends its cells. */
  method AppendColumn(acc: Column, part: Column) returns (joined: Column)
    requires acc.Valid() && part.Valid() && acc.dataType == part.dataType
    ensures joined.Valid() && joined.dataType == acc.dataType
    ensures |joined.values| == |acc.values| + |part.values|
    ensures forall i :: 0 <= i < |acc.values| ==> joined.CellAt(i) == acc.CellAt(i)
    ensures forall i :: 0 <= i < |part.values| ==> joined.CellAt(|acc.values| + i) == part.CellAt(i)
  {
    var validity := JoinValidity(acc.validity, part.validity, |acc.values|, |part.values|);
    joined := Column(acc.dataType, acc.values + part.values, validity);
  }

  predicate SameSchema(batches: seq<RecordBatch>) {
    forall b :: 0 <= b < |batches| ==> batches[b].Valid() && batches[b].schema == batches[0].schema
  }

  /** The cells of column `c` over all batches. */
  function ColumnCells(batches: seq<RecordBatch>, c: nat): seq<Cell>
    requires SameSchema(batches) && (batches == [] || c < |batches[0].schema|)
  {
    if batches == [] then []
    else
      var n := |batches| - 1;
      ColumnCells(batches[..n], c)
      + seq(batches[n].numRows, i requires 0 <= i < batches[n].numRows => batches[n].columns[c].CellAt(i))
  }

  /** Row `i` of all rows, cell by cell. */
  lemma {:induction false} CellsAreRows(batches: seq<RecordBatch>, c: nat)
    requires SameSchema(batches) && batches != [] && c < |batches[0].schema|
    ensures |ColumnCells(batches, c)| == |AllRows(batches)|
    ensures forall i :: 0 <= i < |AllRows(batches)| ==>
              |AllRows(batches)[i]| == |batches[0].schema| && AllRows(batches)[i][c] == ColumnCells(batches, c)[i]
  {
    var n := |batches| - 1;
    if n > 0 {
      CellsAreRows(batches[..n], c);
    } else {
      assert batches[..n] == [];
    }
  }

  method ConcatColumn(batches: seq<RecordBatch>, c: nat) returns (acc: Column)
    requires SameSchema(batches) && batches != [] && c < |batches[0].schema|
    ensures acc.Valid() && acc.dataType == batches[0].schema[c].dataType
    ensures |acc.values| == |ColumnCells(batches, c)|
    ensures forall i :: 0 <= i < |acc.values| ==> acc.CellAt(i) == ColumnCells(batches, c)[i]
  {
    acc := batches[0].columns[c];
    assert batches[..1][..0] == [];
    for b := 1 to |batches|
      invariant acc.Valid() && acc.dataType == batches[0].schema[c].dataType
      invariant |acc.values| == |ColumnCells(batches[..b], c)|
      invariant forall i :: 0 <= i < |acc.values| ==> acc.CellAt(i) == ColumnCells(batches[..b], c)[i]
    {
      assert batches[..b + 1][..b] == batches[..b];
      acc := AppendColumn(acc, batches[b].columns[c]);
    }
    assert batches[..|batches|] == batches;
  }

  datatype BatchError = ColumnCount | RowCount(column: nat) | ColumnType(column: nat)

  /** Checked construction. */
  method TryNew(schema: Schema, columns: seq<Column>) returns (r: Result<RecordBatch, BatchError>)
    requires forall c :: 0 <= c < |columns| ==> columns[c].Valid()
    ensures r.Ok? ==> r.value.Valid() && r.value.schema == schema && r.value.columns == columns
    ensures r.Ok? <==>
            && |schema| == |columns|
            && forall c :: 0 <= c < |columns| ==>
                 |columns[c].values| == |columns[0].values| && columns[c].dataType == schema[c].dataType
  {
    if |schema| != |columns| {
      return Err(ColumnCount);
    }
    var numRows := if columns == [] then 0 else |columns[0].values|;
    for c := 0 to |columns|
      invariant forall d :: 0 <= d < c ==>
        |columns[d].values| == numRows && columns[d].dataType == schema[d].dataType
    {
      if |columns[c].values| != numRows {
        return Err(RowCount(c));
      }
      if columns[c].dataType != schema[c].dataType {
        return Err(ColumnType(c));
      }
    }
    r := Ok(RecordBatch(schema, columns, numRows));
  }

  /** Concatenating batches of one schema concatenates their rows. */
  method ConcatBatches(batches: seq<RecordBatch>) returns (r: Result<RecordBatch, BatchError>)
    requires SameSchema(batches) && batches != [] && batches[0].schema != []
    ensures r.Ok? && r.value.Valid() && r.value.schema == batches[0].schema
    ensures r.value.Rows() == AllRows(batches)
  {
    var schema := batches[0].schema;
    var columns: seq<Column> := [];
    for c := 0 to |schema|
      invariant |columns| == c
      invariant forall d :: 0 <= d < c ==> ColumnOf(columns[d], batches, d)
    {
      var column := ConcatColumn(batches, c);
      columns := columns + [column];
    }
    forall d | 0 <= d < |schema|
      ensures |columns[d].values| == |AllRows(batches)|
    {
      assert ColumnOf(columns[d], batches, d);
      CellsAreRows(batches, d);
    }
    r := TryNew(schema, columns);
    ConcatRows(r.value, batches);
  }

  predicate ColumnOf(column: Column, batches: seq<RecordBatch>, c: nat)
    requires SameSchema(batches) && batches != [] && c < |batches[0].schema|
  {
    && column.Valid() && column.dataType == batches[0].schema[c].dataType
    && |column.values| == |ColumnCells(batches, c)|
    && forall i :: 0 <= i < |column.values| ==> column.CellAt(i) == ColumnCells(batches, c)[i]
  }

  lemma {:induction false} ConcatRows(joined: RecordBatch, batches: seq<RecordBatch>)
    requires SameSchema(batches) && batches != [] && batches[0].schema != []
    requires joined.Valid() && joined.schema == batches[0].schema
    requires forall c :: 0 <= c < |joined.columns| ==> ColumnOf(joined.columns[c], batches, c)
    ensures joined.Rows() == AllRows(batches)
  {
    CellsAreRows(batches, 0);
    assert ColumnOf(joined.columns[0], batches, 0);
    forall i | 0 <= i < joined.numRows
      ensures joined.Rows()[i] == AllRows(batches)[i]
    {
      forall c | 0 <= c < |joined.columns|
        ensures joined.RowAt(i)[c] == AllRows(batches)[i][c]
      {
        assert ColumnOf(joined.columns[c], batches, c);
        CellsAreRows(batches, c);
      }
    }
  }
}
