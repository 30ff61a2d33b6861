/**
 Which filters a scan can be asked to apply, told by their form: bounds on the numeric columns of the
 table, ranges over them, a resolution, and spatial predicates with a constant geometry.
 */
module FilterCases {
  import opened BoundingBox
  import opened Filters
  import opened Floats
  import opened Names
  import opened QueryTable
  import opened ScanConfig
  import opened Wrappers
  import Envelopes
  import Wkb

  // ----- Bounds -----

  /** A literal that is a number. */
  predicate IsNumberLiteral(e: Expr, v: F64) {
    && e.Literal? && !v.NaN?
    && match e.value
       case Int(i) => v == Finite(i as real)
       case Float(x) => v == x
       case Text(_, number) => number == Some(v)
       case _ => false
  }

  /** `a op b` says the same as `b other a`. */
  predicate Mirrored(op: Op, other: Op) {
    || (op.Lt? && other.Gt?) || (op.LtEq? && other.GtEq?)
    || (op.Gt? && other.Lt?) || (op.GtEq? && other.LtEq?)
  }

  /** The filter compares a column with a number, on whichever side that is. */
  predicate Compared(e: Expr, column: string, op: Op, v: F64) {
    && e.Binary?
    && (|| (e.left.Column? && LowerAll(e.left.name) == column && e.op == op && IsNumberLiteral(e.right, v))
        || (e.right.Column? && LowerAll(e.right.name) == column && Mirrored(e.op, op) && IsNumberLiteral(e.left, v)))
  }

  /** The resolution, also behind a cast to a number. */
  predicate IsResolution(e: Expr) {
    || (e.Column? && LowerAll(e.name) == "resolution")
    || (e.Cast? && !e.to.NotNumeric? && e.of.Column? && LowerAll(e.of.name) == "resolution")
  }

  /** The filter sets the resolution equal to an integer of eight bits. */
  predicate SetsResolution(e: Expr, r: nat) {
    && e.Binary? && e.op.Eq? && r <= 255
    && (|| (IsResolution(e.left) && e.right.Literal? && e.right.value == Int(r))
        || (IsResolution(e.right) && e.left.Literal? && e.left.value == Int(r)))
  }

  /** The filter states a bound that the scan knows, up to equality when it is strict. */
  predicate Bounds(kind: TableKind, e: Expr, strict: bool, p: FilterPredicate) {
    var least, most := if strict then Gt else GtEq, if strict then Lt else LtEq;
    match p
    case MinCount(v) => Compared(e, if kind.Continuous? then "count" else "total_count", least, v)
    case MinMean(v) => kind.Continuous? && Compared(e, "mean", least, v)
    case MaxMean(v) => kind.Continuous? && Compared(e, "mean", most, v)
    case MinMajorityFraction(v) => kind.Categorical? && Compared(e, "majority_fraction", least, v)
    case Resolution(r) => !strict && SetsResolution(e, r)
    case _ => false
  }

  /** One end of a range over a column. */
  predicate LowEnd(kind: TableKind, e: Expr, p: FilterPredicate) {
    e.Between? && !e.negated && e.e.Column? && Bounds(kind, Binary(e.e, GtEq, e.low), false, p)
  }

  predicate HighEnd(kind: TableKind, e: Expr, p: FilterPredicate) {
    e.Between? && !e.negated && e.e.Column? && Bounds(kind, Binary(e.e, LtEq, e.high), false, p)
  }

  ghost predicate IsBound(kind: TableKind, e: Expr, strict: bool) {
    exists p :: Bounds(kind, e, strict, p)
  }

  ghost predicate HasLowEnd(kind: TableKind, e: Expr) {
    exists p :: LowEnd(kind, e, p)
  }

  ghost predicate HasHighEnd(kind: TableKind, e: Expr) {
    exists p :: HighEnd(kind, e, p)
  }

  // ----- Spatial predicates -----

  predicate IsCell(e: Expr) {
    || e == Column("wkb")
    || (&& e.Function? && LowerAll(e.func) in {"h3_cell_to_geometry", "h3_to_geometry", "h3_to_wkb"}
        && (e.args == [Column("h3_hex")] || e.args == [Column("h3_index")]))
  }

  /** A literal that is a distance. */
  predicate IsDistance(e: Expr, d: real) {
    && e.Literal? && d >= 0.0
    && match e.value
       case Int(i) => d == i as real
       case Float(x) => x == Finite(d)
       case _ => false
  }

  /** The filter relates the cell's geometry to `g`, and fails when they are further apart than `d`. */
  predicate Relates(e: Expr, g: Expr, d: real) {
    && e.Function? && |e.args| >= 2
    && ((IsCell(e.args[0]) && g == e.args[1]) || (!IsCell(e.args[0]) && IsCell(e.args[1]) && g == e.args[0]))
    && (|| (&& |e.args| == 2 && d == 0.0
            && LowerAll(e.func) in {"st_contains", "st_coveredby", "st_covers", "st_crosses", "st_equals",
                                    "st_intersects", "st_overlaps", "st_touches", "st_within"})
        || (|e.args| == 3 && LowerAll(e.func) == "st_dwithin" && IsDistance(e.args[2], d)))
  }

  /** The WKB of a constant geometry in longitudes and latitudes: tagged as such, taken as such, or the
      geometry of a constant cell. */
  predicate IsConstant(q: Engine, g: Expr, untagged: Untagged, bytes: Wkb.Bytes) {
    || (g == Literal(Bytes(bytes), None) && untagged == LngLat)
    || g == Literal(Bytes(bytes), Some(Tag(true, true)))
    || (&& g.Function? && LowerAll(g.func) in {"h3_cell_to_geometry", "h3_to_geometry", "h3_to_wkb"}
        && |g.args| == 1 && g.args[0].Literal? && (g.args[0].value.Text? || g.args[0].value.Int?)
        && q.cellWkb(g.args[0].value) == Some(bytes))
  }

  predicate LngLatRange(env: Envelopes.Envelope) {
    && env.minX.Finite? && env.minY.Finite? && env.maxX.Finite? && env.maxY.Finite?
    && -180.0 <= env.minX.x <= 180.0 && -180.0 <= env.maxX.x <= 180.0
    && -90.0 <= env.minY.x <= 90.0 && -90.0 <= env.maxY.x <= 90.0
  }

  /** The filter relates cells to a constant geometry of this envelope, which a box can express. */
  ghost predicate Boxed(q: Engine, e: Expr, untagged: Untagged, env: Envelopes.Envelope, d: real) {
    && LngLatRange(env)
    && exists g, bytes ::
         Relates(e, g, d) && IsConstant(q, g, untagged, bytes) && Envelopes.EnvelopeOf(bytes) == Some(env)
  }

  ghost predicate IsSpatial(q: Engine, e: Expr, untagged: Untagged) {
    exists env, d :: Boxed(q, e, untagged, env, d)
  }

  predicate Inside(x: real, low: real, high: real) {
    low <= x <= high
  }

  /** Of the longitudes and latitudes, the box has those within the distance of the envelope, along
      either axis. */
  ghost predicate GrownTo(env: Envelopes.Envelope, d: real, b: Box)
    requires LngLatRange(env)
  {
    && -180.0 <= b.minLon <= b.maxLon <= 180.0 && -90.0 <= b.minLat <= b.maxLat <= 90.0
    && (forall x: real :: Inside(x, -180.0, 180.0) ==>
          (Inside(x, b.minLon, b.maxLon) <==> Inside(x, env.minX.x - d, env.maxX.x + d)))
    && (forall y: real :: Inside(y, -90.0, 90.0) ==>
          (Inside(y, b.minLat, b.maxLat) <==> Inside(y, env.minY.x - d, env.maxY.x + d)))
  }

  // ----- What is translated, and to what -----

  /** A bound is translated to its threshold, exactly when it is not strict. */
  lemma BoundTranslated(q: Engine, kind: TableKind, untagged: Untagged, e: Expr, strict: bool, p: FilterPredicate)
    requires Bounds(kind, e, strict, p)
    ensures Translate(q, e, kind, untagged) == Some(Translated([p], if strict then Inexact else Exact))
  {}

  /** What a comparison is translated to is a bound. */
  lemma TranslatedBinary(kind: TableKind, left: Expr, op: Op, right: Expr)
    ensures var t := TranslateBinary(left, op, right, kind);
      t.Some? ==>
        && |t.value.predicates| == 1 && !t.value.pushdown.Unsupported?
        && Bounds(kind, Binary(left, op, right), t.value.pushdown.Inexact?, t.value.predicates[0])
  {
    if ColumnName(left).Some? && LiteralOf(right).Some? {
      TranslatedColumn(kind, left, op, right);
    } else if LiteralOf(left).Some? && ColumnName(right).Some? && Swap(op).Some? {
      TranslatedColumn(kind, right, Swap(op).value, left);
      MirroredBounds(kind, left, op, right);
    }
  }

  lemma TranslatedColumn(kind: TableKind, column: Expr, op: Op, number: Expr)
    requires ColumnName(column).Some? && LiteralOf(number).Some?
    ensures var t := Comparison(ColumnName(column).value, op, LiteralOf(number).value, kind);
      t.Some? ==>
        && |t.value.predicates| == 1 && !t.value.pushdown.Unsupported?
        && Bounds(kind, Binary(column, op, number), t.value.pushdown.Inexact?, t.value.predicates[0])
  {}

  /** A bound may be written either way round. */
  lemma MirroredBounds(kind: TableKind, left: Expr, op: Op, right: Expr)
    requires Swap(op).Some?
    ensures forall strict, p ::
              Bounds(kind, Binary(right, Swap(op).value, left), strict, p) ==>
                Bounds(kind, Binary(left, op, right), strict, p)
  {}

  /** A bound that is not strict says of a row what its threshold says. */
  lemma BoundMeans(q: Engine, w: World, kind: TableKind, e: Expr, p: FilterPredicate, row: Row)
    requires Bounds(kind, e, false, p)
    ensures Holds(q, w, kind, e, row) <==> Satisfies(w, row, p)
  {
    BoundTranslated(q, kind, Reject, e, false, p);
    BinarySound(q, w, kind, e.left, e.op, e.right, row);
    SatisfiesOne(w, row, p);
  }

  lemma EndTranslated(kind: TableKind, column: Expr, op: Op, number: Expr)
    requires column.Column? && (op.GtEq? || op.LtEq?)
    ensures var t := TranslateBinary(column, op, number, kind);
      && (t.Some? ==> t.value.pushdown == Exact && |t.value.predicates| == 1)
      && (forall p :: Bounds(kind, Binary(column, op, number), false, p) <==>
                        t.Some? && t.value.predicates == [p])
  {}

  /** What is pushed of two ends of a range. */
  predicate Ends(t: Option<Translated>, low: Option<Translated>, high: Option<Translated>) {
    if low.Some? && high.Some? then
      t.Some? && t.value == Translated(low.value.predicates + high.value.predicates, Exact)
    else if low.Some? then t.Some? && t.value == Translated(low.value.predicates, Inexact)
    else if high.Some? then t.Some? && t.value == Translated(high.value.predicates, Inexact)
    else t.None?
  }

  lemma RangeEnds(kind: TableKind, x: Expr, low: Expr, high: Expr)
    ensures x.Column? ==>
              Ends(TranslateBetween(x, low, high, kind),
                   TranslateBinary(x, GtEq, low, kind), TranslateBinary(x, LtEq, high, kind))
    ensures !x.Column? ==> TranslateBetween(x, low, high, kind).None?
  {
    if x.Column? {
      EndTranslated(kind, x, GtEq, low);
      EndTranslated(kind, x, LtEq, high);
      var lower, upper := TranslateBinary(x, GtEq, low, kind), TranslateBinary(x, LtEq, high, kind);
      assert PredicatesOf(lower) + [] == PredicatesOf(lower) && [] + PredicatesOf(upper) == PredicatesOf(upper);
    }
  }

  /** A range is translated to its ends that are bounds, exactly when both are. */
  lemma RangeTranslated(q: Engine, kind: TableKind, untagged: Untagged, e: Expr)
    requires e.Between?
    ensures var t := Translate(q, e, kind, untagged);
      && (t.Some? <==> HasLowEnd(kind, e) || HasHighEnd(kind, e))
      && (forall p, r :: LowEnd(kind, e, p) && HighEnd(kind, e, r) ==> t == Some(Translated([p, r], Exact)))
      && (forall p :: LowEnd(kind, e, p) && !HasHighEnd(kind, e) ==> t == Some(Translated([p], Inexact)))
      && (forall p :: HighEnd(kind, e, p) && !HasLowEnd(kind, e) ==> t == Some(Translated([p], Inexact)))
  {
    RangeEnds(kind, e.e, e.low, e.high);
    if !e.negated && e.e.Column? {
      EndTranslated(kind, e.e, GtEq, e.low);
      EndTranslated(kind, e.e, LtEq, e.high);
      EndExists(kind, e);
      forall p, r | LowEnd(kind, e, p) && HighEnd(kind, e, r)
        ensures Translate(q, e, kind, untagged) == Some(Translated([p, r], Exact))
      {
        assert [p] + [r] == [p, r];
      }
    }
  }

  lemma EndExists(kind: TableKind, e: Expr)
    requires e.Between? && !e.negated && e.e.Column?
    ensures HasLowEnd(kind, e) <==> TranslateBinary(e.e, GtEq, e.low, kind).Some?
    ensures HasHighEnd(kind, e) <==> TranslateBinary(e.e, LtEq, e.high, kind).Some?
  {
    EndTranslated(kind, e.e, GtEq, e.low);
    EndTranslated(kind, e.e, LtEq, e.high);
    var low, high := TranslateBinary(e.e, GtEq, e.low, kind), TranslateBinary(e.e, LtEq, e.high, kind);
    if low.Some? {
      assert low.value.predicates == [low.value.predicates[0]];
      assert LowEnd(kind, e, low.value.predicates[0]);
    }
    if high.Some? {
      assert high.value.predicates == [high.value.predicates[0]];
      assert HighEnd(kind, e, high.value.predicates[0]);
    }
  }

  /** One spatial predicate, of at most one geometry and distance. */
  lemma SpatialTranslated(q: Engine, kind: TableKind, untagged: Untagged, e: Expr, env: Envelopes.Envelope, d: real)
    requires Boxed(q, e, untagged, env, d)
    ensures var t := Translate(q, e, kind, untagged);
      && t.Some? && t.value.pushdown == Inexact && |t.value.predicates| == 1
      && t.value.predicates[0].Bbox? && GrownTo(env, d, t.value.predicates[0].b)
  {
    var g, bytes :|
      Relates(e, g, d) && IsConstant(q, g, untagged, bytes) && Envelopes.EnvelopeOf(bytes) == Some(env);
    RelatesIs(e, g, d);
    ConstantIs(q, g, untagged, bytes);
    ConstantNonEmpty(q, g, untagged);
    GrowBoxIs(env, d);
  }

  lemma RelatesIs(e: Expr, g: Expr, d: real)
    requires Relates(e, g, d)
    ensures SpatialArgs(e.func, e.args).Some?
    ensures var spatial := SpatialArgs(e.func, e.args).value;
      spatial.2 == d && OtherGeometry(spatial.0, spatial.1) == Some(g)
  {}

  lemma ConstantIs(q: Engine, g: Expr, untagged: Untagged, bytes: Wkb.Bytes)
    requires IsConstant(q, g, untagged, bytes)
    ensures ConstantEnvelope(q, g, untagged) == Envelopes.EnvelopeOf(bytes)
  {}

  lemma GrowBoxIs(env: Envelopes.Envelope, d: real)
    requires env.NonEmpty() && d >= 0.0
    ensures GrowBox(env, d).Some? <==> LngLatRange(env)
    ensures LngLatRange(env) ==> GrownTo(env, d, GrowBox(env, d).value)
  {}

  /** No other function is translated. */
  lemma TranslatedFunction(q: Engine, kind: TableKind, untagged: Untagged, e: Expr)
    requires e.Function?
    ensures Translate(q, e, kind, untagged).Some? ==> IsSpatial(q, e, untagged)
  {
    if Translate(q, e, kind, untagged).Some? {
      var spatial := SpatialArgs(e.func, e.args).value;
      var g := OtherGeometry(spatial.0, spatial.1).value;
      var env := ConstantEnvelope(q, g, untagged).value;
      assert Relates(e, g, spatial.2);
      ConstantNonEmpty(q, g, untagged);
      GrowBoxIs(env, spatial.2);
      var bytes := ConstantBytes(q, g, untagged);
      assert Boxed(q, e, untagged, env, spatial.2);
    }
  }

  lemma ConstantBytes(q: Engine, g: Expr, untagged: Untagged) returns (bytes: Wkb.Bytes)
    requires ConstantEnvelope(q, g, untagged).Some?
    ensures IsConstant(q, g, untagged, bytes)
    ensures Envelopes.EnvelopeOf(bytes) == ConstantEnvelope(q, g, untagged)
  {
    match g
    case Literal(Bytes(b), _) => bytes := b;
    case Function(_, args) => bytes := q.cellWkb(args[0].value).value;
    case _ => assert false;
  }
}
