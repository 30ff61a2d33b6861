/**
 SQL filters on the rows of a table, and their translation into predicates of the scan.
 */
module Filters {
  import opened Names
  import opened Wrappers
  import opened BoundingBox
  import opened Floats
  import opened ScanConfig
  import opened QueryTable
  import Wkb
  import Envelopes
  import Reals

  // ----- Expressions -----

  datatype Scalar =
    | Null
    | Int(i: int)
    | Float(x: F64)
    | Text(s: string, number: Option<F64>)
    | Bytes(bytes: Wkb.Bytes)

  /** Field metadata of a literal: whether it is tagged as WKB, with planar edges in a lon/lat CRS. */
  datatype Tag = Tag(wkb: bool, planarLngLat: bool)

  datatype NumberType = Integer | Floating | NotNumeric

  datatype Op = Eq | NotEq | Lt | LtEq | Gt | GtEq | OtherOp

  datatype Expr =
    | Column(name: string)
    | Literal(value: Scalar, tag: Option<Tag>)
    | Cast(of: Expr, to: NumberType)
    | Binary(left: Expr, op: Op, right: Expr)
    | Between(e: Expr, negated: bool, low: Expr, high: Expr)
    | Function(func: string, args: seq<Expr>)
    | OtherExpr(id: nat)

  /** How to read binary literals without metadata. */
  datatype Untagged = Reject | LngLat

  // ----- What filters mean -----

  /** What the query engine makes of everything that is not a plain numeric comparison: functions,
      other casts, and the WKB of a cell given as a literal. */
  datatype Engine = Engine(holds: (Expr, Row) -> bool, number: (Expr, Row) -> Option<F64>,
                           cellWkb: Scalar -> Option<Wkb.Bytes>)

  /** The numeric columns of a row. */
  function ColumnNumber(q: Engine, w: World, kind: TableKind, name: string, row: Row): Option<F64> {
    var column := LowerAll(name);
    if column == "resolution" then Some(Finite(row.resolution as real))
    else if kind.Continuous? && column == "count" then Some(Finite(w.count(row)))
    else if kind.Continuous? && column == "mean" then Some(Finite(w.mean(row)))
    else if kind.Categorical? && column == "total_count" then Some(Finite(w.count(row)))
    else if kind.Categorical? && column == "majority_fraction" then Some(Finite(w.fraction(row)))
    else q.number(Column(name), row)
  }

  function AsF64(v: Scalar): Option<F64> {
    match v
    case Int(i) => Some(Finite(i as real))
    case Float(x) => Some(x)
    case Text(_, number) => number
    case _ => None
  }

  /** The number that an operand stands for; a NaN is left to the engine. */
  function Number(q: Engine, w: World, kind: TableKind, e: Expr, row: Row): Option<F64> {
    match e
    case Column(name) => ColumnNumber(q, w, kind, name, row)
    case Literal(v, _) =>
      (var x := AsF64(v);
       if x == Some(NaN) then None else x)
    case Cast(Column(name), to) =>
      if LowerAll(name) == "resolution" && !to.NotNumeric? then Some(Finite(row.resolution as real))
      else q.number(e, row)
    case _ => q.number(e, row)
  }

  predicate Compares(op: Op, a: F64, b: F64)
    requires !op.OtherOp?
  {
    match op
    case Eq => a == b
    case NotEq => a != b
    case Lt => Le(a, b) && a != b
    case LtEq => Le(a, b)
    case Gt => Le(b, a) && a != b
    case GtEq => Le(b, a)
  }

  /** Whether a filter keeps a row. */
  predicate Holds(q: Engine, w: World, kind: TableKind, e: Expr, row: Row) {
    match e
    case Binary(left, op, right) => HoldsBinary(q, w, kind, left, op, right, row)
    case Between(x, false, low, high) =>
      HoldsBinary(q, w, kind, x, GtEq, low, row) && HoldsBinary(q, w, kind, x, LtEq, high, row)
    case _ => q.holds(e, row)
  }

  predicate HoldsBinary(q: Engine, w: World, kind: TableKind, left: Expr, op: Op, right: Expr, row: Row) {
    var a, b := Number(q, w, kind, left, row), Number(q, w, kind, right, row);
    if !op.OtherOp? && a.Some? && b.Some? then Compares(op, a.value, b.value)
    else q.holds(Binary(left, op, right), row)
  }

  // ----- Comparisons -----

  datatype Translated = Translated(predicates: seq<FilterPredicate>, pushdown: Status)

  function Single(p: FilterPredicate, pushdown: Status): Option<Translated> {
    Some(Translated([p], pushdown))
  }

  function Swap(op: Op): Option<Op> {
    match op
    case Eq => Some(Eq)
    case NotEq => Some(NotEq)
    case Lt => Some(Gt)
    case LtEq => Some(GtEq)
    case Gt => Some(Lt)
    case GtEq => Some(LtEq)
    case OtherOp => None
  }

  function LiteralOf(e: Expr): Option<Scalar> {
    if e.Literal? && !e.value.Null? then Some(e.value) else None
  }

  /** The column that a comparison constrains; only casts of the resolution are looked through. */
  function ColumnName(e: Expr): Option<string> {
    match e
    case Column(name) => Some(LowerAll(name))
    case Cast(Column(name), to) =>
      if LowerAll(name) == "resolution" && !to.NotNumeric? then Some("resolution") else None
    case _ => None
  }

  /** Inclusive thresholds are exact, strict ones push the inclusive bound. */
  function LowerBound(p: FilterPredicate, op: Op): Option<Translated> {
    match op
    case GtEq => Single(p, Exact)
    case Gt => Single(p, Inexact)
    case _ => None
  }

  function Comparison(column: string, op: Op, lit: Scalar, kind: TableKind): Option<Translated> {
    if column == "resolution" then
      if !op.Eq? || !lit.Int? || !(0 <= lit.i < 256) then None else Single(Resolution(lit.i), Exact)
    else
      var v := AsF64(lit);
      if v.None? || v.value.NaN? then None
      else if (kind.Continuous? && column == "count") || (kind.Categorical? && column == "total_count") then
        LowerBound(MinCount(v.value), op)
      else if kind.Categorical? && column == "majority_fraction" then LowerBound(MinMajorityFraction(v.value), op)
      else if kind.Continuous? && column == "mean" then
        match op
        case LtEq => Single(MaxMean(v.value), Exact)
        case Lt => Single(MaxMean(v.value), Inexact)
        case _ => LowerBound(MinMean(v.value), op)
      else None
  }

  function TranslateBinary(left: Expr, op: Op, right: Expr, kind: TableKind): Option<Translated> {
    if ColumnName(left).Some? && LiteralOf(right).Some? then
      Comparison(ColumnName(left).value, op, LiteralOf(right).value, kind)
    else if LiteralOf(left).Some? && ColumnName(right).Some? && Swap(op).Some? then
      Comparison(ColumnName(right).value, Swap(op).value, LiteralOf(left).value, kind)
    else None
  }

  function PredicatesOf(t: Option<Translated>): seq<FilterPredicate> {
    if t.Some? then t.value.predicates else []
  }

  function TranslateBetween(e: Expr, low: Expr, high: Expr, kind: TableKind): Option<Translated> {
    var column := ColumnName(e);
    if column.None? then None
    else
      var lower := if LiteralOf(low).Some? then Comparison(column.value, GtEq, LiteralOf(low).value, kind) else None;
      var upper := if LiteralOf(high).Some? then Comparison(column.value, LtEq, LiteralOf(high).value, kind) else None;
      var exact := lower.Some? && upper.Some? && lower.value.pushdown == Exact && upper.value.pushdown == Exact;
      var predicates := PredicatesOf(lower) + PredicatesOf(upper);
      if predicates == [] then None else Some(Translated(predicates, if exact then Exact else Inexact))
  }

  // ----- Spatial predicates -----

  /** Predicates that imply that the envelopes of their arguments meet. */
  const BBOX_PREDICATES: seq<string> := [
    "st_intersects", "st_contains", "st_within", "st_covers", "st_coveredby", "st_overlaps", "st_touches",
    "st_crosses", "st_equals"]

  const DWITHIN := "st_dwithin"
  const H3_TO_WKB: seq<string> := ["h3_to_wkb", "h3_to_geometry", "h3_cell_to_geometry"]
  const CELL_COLUMNS: seq<string> := ["h3_index", "h3_hex"]
  const WKB_COLUMN := "wkb"

  /** The geometry of the row's cell. */
  predicate IsCellGeometry(e: Expr) {
    match e
    case Column(name) => name == WKB_COLUMN
    case Function(func, args) =>
      LowerAll(func) in H3_TO_WKB && |args| == 1 && args[0].Column? && args[0].name in CELL_COLUMNS
    case _ => false
  }

  function DistanceLiteral(e: Expr): Option<real> {
    match e
    case Literal(Int(i), _) => if i >= 0 then Some(i as real) else None
    case Literal(Float(Finite(x)), _) => if x >= 0.0 then Some(x) else None
    case _ => None
  }

  /** The envelope of a constant lon/lat geometry. */
  function ConstantEnvelope(q: Engine, e: Expr, untagged: Untagged): Option<Envelopes.Envelope> {
    match e
    case Literal(Bytes(b), None) => if untagged.LngLat? then Envelopes.EnvelopeOf(b) else None
    case Literal(value, Some(tag)) =>
      if tag.wkb && tag.planarLngLat && value.Bytes? then Envelopes.EnvelopeOf(value.bytes) else None
    case Function(func, args) =>
      if LowerAll(func) in H3_TO_WKB && |args| == 1 && args[0].Literal? && (args[0].value.Text? || args[0].value.Int?)
      then
        var wkb := q.cellWkb(args[0].value);
        if wkb.Some? then Envelopes.EnvelopeOf(wkb.value) else None
      else None
    case _ => None
  }

  predicate WithinRange(lon: F64, lat: F64) {
    lon.Finite? && lat.Finite? && -180.0 <= lon.x <= 180.0 && -90.0 <= lat.x <= 90.0
  }

  /** The envelope grown by a distance and clamped to the range of longitudes and latitudes. */
  function GrowBox(env: Envelopes.Envelope, distance: real): Option<Box> {
    if WithinRange(env.minX, env.minY) && WithinRange(env.maxX, env.maxY) then
      Some(Box(Reals.Max(env.minX.x - distance, -180.0), Reals.Max(env.minY.x - distance, -90.0),
               Reals.Min(env.maxX.x + distance, 180.0), Reals.Min(env.maxY.x + distance, 90.0)))
    else None
  }

  /** The arguments of a spatial predicate, and the distance that it allows between them. */
  function SpatialArgs(func: string, args: seq<Expr>): Option<(Expr, Expr, real)> {
    if |args| == 2 && LowerAll(func) in BBOX_PREDICATES then Some((args[0], args[1], 0.0))
    else if |args| == 3 && LowerAll(func) == DWITHIN && DistanceLiteral(args[2]).Some? then
      Some((args[0], args[1], DistanceLiteral(args[2]).value))
    else None
  }

  function OtherGeometry(a: Expr, b: Expr): Option<Expr> {
    if IsCellGeometry(a) then Some(b) else if IsCellGeometry(b) then Some(a) else None
  }

  function TranslateSpatial(q: Engine, func: string, args: seq<Expr>, untagged: Untagged): Option<Box> {
    var spatial := SpatialArgs(func, args);
    if spatial.None? then None
    else
      var other := OtherGeometry(spatial.value.0, spatial.value.1);
      if other.None? then None
      else
        var env := ConstantEnvelope(q, other.value, untagged);
        if env.None? then None else GrowBox(env.value, spatial.value.2)
  }

  function Translate(q: Engine, e: Expr, kind: TableKind, untagged: Untagged): Option<Translated> {
    match e
    case Function(func, args) =>
      var b := TranslateSpatial(q, func, args, untagged);
      if b.Some? then Single(Bbox(b.value), Inexact) else None
    case Binary(left, op, right) => TranslateBinary(left, op, right, kind)
    case Between(x, false, low, high) => TranslateBetween(x, low, high, kind)
    case _ => None
  }

  // ----- Soundness -----

  /** A point of the cell's geometry lies within the distance of the other geometry's envelope. */
  ghost predicate Reaches(w: World, resolution: nat, cell: nat, env: Envelopes.Envelope, distance: real) {
    exists p: Point :: p.Valid() && w.covers(resolution, cell, p)
      && Le(env.minX, Finite(p.lon + distance)) && Le(Finite(p.lon - distance), env.maxX)
      && Le(env.minY, Finite(p.lat + distance)) && Le(Finite(p.lat - distance), env.maxY)
  }

  /** What the engine's spatial functions must satisfy: a predicate that holds between the cell's
      geometry and a constant one implies that a point of the cell lies in the envelope of the
      constant one, or within the distance of it. */
  ghost predicate SpatialSound(q: Engine, w: World, untagged: Untagged) {
    forall func, args, row, env :: q.holds(Function(func, args), row) && SpatialArgs(func, args).Some?
      && OtherGeometry(SpatialArgs(func, args).value.0, SpatialArgs(func, args).value.1).Some?
      && ConstantEnvelope(q, OtherGeometry(SpatialArgs(func, args).value.0, SpatialArgs(func, args).value.1).value,
                          untagged) == Some(env)
      ==> Reaches(w, row.resolution, row.cell, env, SpatialArgs(func, args).value.2)
  }

  lemma ConstantNonEmpty(q: Engine, e: Expr, untagged: Untagged)
    requires ConstantEnvelope(q, e, untagged).Some?
    ensures ConstantEnvelope(q, e, untagged).value.NonEmpty()
  {}

  /** Growing and clamping keeps every cell that reaches the geometry. */
  lemma GrownTouches(w: World, resolution: nat, cell: nat, env: Envelopes.Envelope, distance: real)
    requires distance >= 0.0 && env.NonEmpty() && GrowBox(env, distance).Some?
    requires Reaches(w, resolution, cell, env, distance)
    ensures Touches(w, resolution, cell, GrowBox(env, distance).value)
  {
    var b := GrowBox(env, distance).value;
    var p: Point :| p.Valid() && w.covers(resolution, cell, p)
      && Le(env.minX, Finite(p.lon + distance)) && Le(Finite(p.lon - distance), env.maxX)
      && Le(env.minY, Finite(p.lat + distance)) && Le(Finite(p.lat - distance), env.maxY);
    WrapLonRange(p.lon);
    assert InBox(p, b);
  }

  /** What a translation must satisfy for a row: the filter implies the pushed predicates, and is
      implied by them when the pushdown is exact. */
  ghost predicate Sound(w: World, row: Row, t: Option<Translated>, holds: bool) {
    t.Some? ==>
      && (holds ==> SatisfiesAll(w, row, t.value.predicates))
      && (t.value.pushdown == Exact && SatisfiesAll(w, row, t.value.predicates) ==> holds)
      && (forall i :: 0 <= i < |t.value.predicates| ==> IsNumber(t.value.predicates[i]))
      && t.value.predicates != []
  }

  lemma SatisfiesOne(w: World, row: Row, p: FilterPredicate)
    ensures SatisfiesAll(w, row, [p]) <==> Satisfies(w, row, p)
  {
    assert [p][0] == p;
  }

  lemma ComparisonSound(q: Engine, w: World, kind: TableKind, left: Expr, op: Op, right: Expr, row: Row)
    requires ColumnName(left).Some? && LiteralOf(right).Some?
    ensures Sound(w, row, Comparison(ColumnName(left).value, op, LiteralOf(right).value, kind),
                  HoldsBinary(q, w, kind, left, op, right, row))
  {
    var t := Comparison(ColumnName(left).value, op, LiteralOf(right).value, kind);
    if t.Some? {
      SatisfiesOne(w, row, t.value.predicates[0]);
    }
  }

  lemma SwapHolds(q: Engine, w: World, kind: TableKind, left: Expr, op: Op, right: Expr, row: Row)
    requires Swap(op).Some? && Number(q, w, kind, left, row).Some? && Number(q, w, kind, right, row).Some?
    ensures HoldsBinary(q, w, kind, left, op, right, row)
            <==> HoldsBinary(q, w, kind, right, Swap(op).value, left, row)
  {}

  lemma ComparedNumbers(q: Engine, w: World, kind: TableKind, left: Expr, op: Op, right: Expr, row: Row)
    requires ColumnName(left).Some? && LiteralOf(right).Some?
    requires Comparison(ColumnName(left).value, op, LiteralOf(right).value, kind).Some?
    ensures Number(q, w, kind, left, row).Some? && Number(q, w, kind, right, row).Some?
  {}

  lemma BinarySound(q: Engine, w: World, kind: TableKind, left: Expr, op: Op, right: Expr, row: Row)
    ensures Sound(w, row, TranslateBinary(left, op, right, kind), HoldsBinary(q, w, kind, left, op, right, row))
  {
    if ColumnName(left).Some? && LiteralOf(right).Some? {
      ComparisonSound(q, w, kind, left, op, right, row);
    } else if LiteralOf(left).Some? && ColumnName(right).Some? && Swap(op).Some? {
      ComparisonSound(q, w, kind, right, Swap(op).value, left, row);
      if TranslateBinary(left, op, right, kind).Some? {
        ComparedNumbers(q, w, kind, right, Swap(op).value, left, row);
        SwapHolds(q, w, kind, left, op, right, row);
      }
    }
  }

  lemma SatisfiesAppend(w: World, row: Row, a: seq<FilterPredicate>, b: seq<FilterPredicate>)
    ensures SatisfiesAll(w, row, a + b) <==> SatisfiesAll(w, row, a) && SatisfiesAll(w, row, b)
  {
    if SatisfiesAll(w, row, a + b) {
      assert forall i :: 0 <= i < |a| ==> (a + b)[i] == a[i];
      assert forall i :: 0 <= i < |b| ==> (a + b)[|a| + i] == b[i];
    }
  }

  lemma BetweenSound(q: Engine, w: World, kind: TableKind, e: Expr, low: Expr, high: Expr, row: Row)
    ensures Sound(w, row, TranslateBetween(e, low, high, kind),
                  HoldsBinary(q, w, kind, e, GtEq, low, row) && HoldsBinary(q, w, kind, e, LtEq, high, row))
  {
    var column := ColumnName(e);
    if column.Some? {
      var lower := if LiteralOf(low).Some? then Comparison(column.value, GtEq, LiteralOf(low).value, kind) else None;
      var upper := if LiteralOf(high).Some? then Comparison(column.value, LtEq, LiteralOf(high).value, kind) else None;
      if LiteralOf(low).Some? {
        ComparisonSound(q, w, kind, e, GtEq, low, row);
      }
      if LiteralOf(high).Some? {
        ComparisonSound(q, w, kind, e, LtEq, high, row);
      }
      SatisfiesAppend(w, row, PredicatesOf(lower), PredicatesOf(upper));
    }
  }

  lemma SpatialIsSound(q: Engine, w: World, untagged: Untagged, func: string, args: seq<Expr>, row: Row)
    requires SpatialSound(q, w, untagged)
    ensures var b := TranslateSpatial(q, func, args, untagged);
      b.Some? && q.holds(Function(func, args), row) ==> Touches(w, row.resolution, row.cell, b.value)
  {
    if TranslateSpatial(q, func, args, untagged).Some? && q.holds(Function(func, args), row) {
      var spatial := SpatialArgs(func, args).value;
      var other := OtherGeometry(spatial.0, spatial.1).value;
      var env := ConstantEnvelope(q, other, untagged).value;
      ConstantNonEmpty(q, other, untagged);
      assert Reaches(w, row.resolution, row.cell, env, spatial.2);
      GrownTouches(w, row.resolution, row.cell, env, spatial.2);
    }
  }

  /** Every translated filter implies the predicates it pushes; an exact one is equivalent to them. */
  lemma TranslationSound(q: Engine, w: World, kind: TableKind, untagged: Untagged, e: Expr, row: Row)
    requires SpatialSound(q, w, untagged)
    ensures Sound(w, row, Translate(q, e, kind, untagged), Holds(q, w, kind, e, row))
  {
    match e
    case Function(func, args) =>
      SpatialIsSound(q, w, untagged, func, args, row);
      var b := TranslateSpatial(q, func, args, untagged);
      if b.Some? {
        SatisfiesOne(w, row, Bbox(b.value));
      }
    case Binary(left, op, right) => BinarySound(q, w, kind, left, op, right, row);
    case Between(x, negated, low, high) =>
      if !negated {
        BetweenSound(q, w, kind, x, low, high, row);
      }
    case _ =>
  }

  // ----- Engines -----

  /** An engine whose spatial predicates hold exactly when a cell reaches the constant geometry. */
  ghost function ReachingEngine(w: World, cellWkb: Scalar -> Option<Wkb.Bytes>, untagged: Untagged): Engine {
    var other := Engine((e, row) => false, (e, row) => None, cellWkb);
    Engine((e: Expr, row: Row) => e.Function? && ReachesConstant(other, w, untagged, e.func, e.args, row),
           (e, row) => None, cellWkb)
  }

  ghost predicate ReachesConstant(q: Engine, w: World, untagged: Untagged, func: string, args: seq<Expr>, row: Row) {
    var spatial := SpatialArgs(func, args);
    && spatial.Some?
    && var other := OtherGeometry(spatial.value.0, spatial.value.1);
    && other.Some?
    && var env := ConstantEnvelope(q, other.value, untagged);
    && env.Some? && Reaches(w, row.resolution, row.cell, env.value, spatial.value.2)
  }

  /** For every raster there is an engine that meets the hypothesis, and as generously as it allows. */
  lemma ReachingEngineSound(w: World, cellWkb: Scalar -> Option<Wkb.Bytes>, untagged: Untagged)
    ensures var q := ReachingEngine(w, cellWkb, untagged);
      && SpatialSound(q, w, untagged)
      && forall func, args, row ::
           q.holds(Function(func, args), row) <==> ReachesConstant(q, w, untagged, func, args, row)
  {
    var q := ReachingEngine(w, cellWkb, untagged);
    forall func, args, row
      ensures q.holds(Function(func, args), row) <==> ReachesConstant(q, w, untagged, func, args, row)
    {}
  }
}
