/**
 Query pushdown: scanning with pushed filters and limit, then applying the residual filters and the
 limit, answers "filter the whole table, then limit".
 */
module Pushdown {
  import opened Wrappers
  import opened Floats
  import opened Names
  import opened ScanConfig
  import opened QueryTable
  import opened Filters
  import opened FilterCases
  import BoundingBox
  import Envelopes
  import Wkb

  /** A table over a provider. */
  datatype Table = Table(kind: TableKind, config: Config, untagged: Untagged)

  /** A filter's translation, refused when the provider would not apply one of its predicates, and
      inexact when the provider only narrows by one. */
  function TranslateFor(q: Engine, t: Table, e: Expr): Option<Translated> {
    var translated := Translate(q, e, t.kind, t.untagged);
    if translated.None? then None
    else
      var ps := translated.value.predicates;
      if exists i :: 0 <= i < |ps| && StatusOf(t.kind, t.config, ps[i]) == Unsupported then None
      else if exists i :: 0 <= i < |ps| && StatusOf(t.kind, t.config, ps[i]) == Inexact then
        Some(translated.value.(pushdown := Inexact))
      else translated
  }

  /** The answer to the query planner for one filter. */
  function PushdownOf(q: Engine, t: Table, e: Expr): Status {
    var translated := TranslateFor(q, t, e);
    if translated.Some? then translated.value.pushdown else Unsupported
  }

  /** The predicates that the filters push. */
  function Pushed(q: Engine, t: Table, filters: seq<Expr>): seq<FilterPredicate> {
    if filters == [] then []
    else
      var n := |filters| - 1;
      Pushed(q, t, filters[..n]) + PredicatesOf(TranslateFor(q, t, filters[n]))
  }

  /** The limit is pushed only when no filter is left to evaluate. */
  function PushedLimit(q: Engine, t: Table, filters: seq<Expr>, limit: Option<nat>): Option<nat> {
    if forall i :: 0 <= i < |filters| ==> PushdownOf(q, t, filters[i]) == Exact then limit else None
  }

  // ----- Which filters are pushed -----

  ghost predicate IsResolutionFilter(e: Expr) {
    exists r :: SetsResolution(e, r)
  }

  /** The scan applies the filter itself. */
  ghost predicate AppliedByScan(t: Table, e: Expr) {
    && !t.config.compact && !t.config.compactChildren
    && (|| IsResolutionFilter(e)
        || (!t.config.partitioned
            && (IsBound(t.kind, e, false) || (HasLowEnd(t.kind, e) && HasHighEnd(t.kind, e)))))
  }

  /** The scan narrows by the filter, which is still to be evaluated. */
  ghost predicate NarrowedByScan(q: Engine, t: Table, e: Expr) {
    && !t.config.compact && !t.config.compactChildren && !t.config.partitioned
    && (IsBound(t.kind, e, true) || HasLowEnd(t.kind, e) != HasHighEnd(t.kind, e) || IsSpatial(q, e, t.untagged))
  }

  /** A threshold of this kind of table, a resolution or a box. */
  predicate Known(kind: TableKind, p: FilterPredicate) {
    match p
    case MinMean(_) => kind.Continuous?
    case MaxMean(_) => kind.Continuous?
    case MinMajorityFraction(_) => kind.Categorical?
    case OtherPredicate(_) => false
    case _ => true
  }

  /** What a table makes of one known predicate. */
  lemma OneAnswer(q: Engine, t: Table, e: Expr, p: FilterPredicate, pushdown: Status)
    requires Translate(q, e, t.kind, t.untagged) == Some(Translated([p], pushdown)) && Known(t.kind, p)
    requires !pushdown.Unsupported? && (p.Bbox? ==> pushdown.Inexact?)
    ensures TranslateFor(q, t, e)
            == if t.config.compact || t.config.compactChildren || (t.config.partitioned && !p.Resolution?) then None
               else Some(Translated([p], pushdown))
  {
    assert [p][0] == p;
  }

  /** What it makes of both ends of a range. */
  lemma TwoAnswer(q: Engine, t: Table, e: Expr, p: FilterPredicate, r: FilterPredicate)
    requires Translate(q, e, t.kind, t.untagged) == Some(Translated([p, r], Exact))
    requires Known(t.kind, p) && Known(t.kind, r) && !p.Bbox? && !p.Resolution? && !r.Bbox?
    ensures TranslateFor(q, t, e)
            == if t.config.compact || t.config.compactChildren || t.config.partitioned then None
               else Some(Translated([p, r], Exact))
  {
    assert [p, r][0] == p && [p, r][1] == r;
  }

  /** A bound is pushed as its threshold. */
  lemma BoundPushed(q: Engine, t: Table, e: Expr, strict: bool, p: FilterPredicate)
    requires Bounds(t.kind, e, strict, p)
    ensures TranslateFor(q, t, e)
            == if t.config.compact || t.config.compactChildren || (t.config.partitioned && !p.Resolution?) then None
               else Some(Translated([p], if strict then Inexact else Exact))
  {
    BoundTranslated(q, t.kind, t.untagged, e, strict, p);
    OneAnswer(q, t, e, p, if strict then Inexact else Exact);
  }

  /** A range is pushed as the thresholds at its ends. */
  lemma RangePushed(q: Engine, t: Table, e: Expr)
    requires e.Between? && !t.config.compact && !t.config.compactChildren && !t.config.partitioned
    ensures forall p, r :: LowEnd(t.kind, e, p) && HighEnd(t.kind, e, r) ==>
              TranslateFor(q, t, e) == Some(Translated([p, r], Exact))
    ensures forall p :: LowEnd(t.kind, e, p) && !HasHighEnd(t.kind, e) ==>
              TranslateFor(q, t, e) == Some(Translated([p], Inexact))
    ensures forall p :: HighEnd(t.kind, e, p) && !HasLowEnd(t.kind, e) ==>
              TranslateFor(q, t, e) == Some(Translated([p], Inexact))
  {
    RangeTranslated(q, t.kind, t.untagged, e);
    forall p, r | LowEnd(t.kind, e, p) && HighEnd(t.kind, e, r)
      ensures TranslateFor(q, t, e) == Some(Translated([p, r], Exact))
    {
      TwoAnswer(q, t, e, p, r);
    }
    forall p | LowEnd(t.kind, e, p) && !HasHighEnd(t.kind, e)
      ensures TranslateFor(q, t, e) == Some(Translated([p], Inexact))
    {
      OneAnswer(q, t, e, p, Inexact);
    }
    forall p | HighEnd(t.kind, e, p) && !HasLowEnd(t.kind, e)
      ensures TranslateFor(q, t, e) == Some(Translated([p], Inexact))
    {
      OneAnswer(q, t, e, p, Inexact);
    }
  }

  /** A spatial predicate is pushed as the box of its constant geometry, grown by its distance. */
  lemma SpatialPushed(q: Engine, t: Table, e: Expr, env: Envelopes.Envelope, d: real)
    requires Boxed(q, e, t.untagged, env, d)
    requires !t.config.compact && !t.config.compactChildren && !t.config.partitioned
    ensures var translated := TranslateFor(q, t, e);
      && translated.Some? && translated.value.pushdown == Inexact && |translated.value.predicates| == 1
      && translated.value.predicates[0].Bbox? && GrownTo(env, d, translated.value.predicates[0].b)
  {
    SpatialTranslated(q, t.kind, t.untagged, e, env, d);
    var p := Translate(q, e, t.kind, t.untagged).value.predicates[0];
    assert Translate(q, e, t.kind, t.untagged).value.predicates == [p];
    OneAnswer(q, t, e, p, Inexact);
  }

  /** The answer for every filter and table: bounds that are not strict, ranges over two of them and
      resolutions are exact, strict bounds, ranges with one bound and spatial predicates are not, all
      else is left alone; a partitioned scan takes only resolutions and a compacted one nothing. */
  lemma PushdownCases(q: Engine, t: Table, e: Expr)
    ensures PushdownOf(q, t, e) == Exact <==> AppliedByScan(t, e)
    ensures PushdownOf(q, t, e) == Inexact <==> NarrowedByScan(q, t, e)
  {
    match e
    case Binary(_, _, _) => BoundCases(q, t, e);
    case Between(_, _, _, _) => RangeCases(q, t, e);
    case Function(_, _) => SpatialCases(q, t, e);
    case _ =>
  }

  lemma BoundCases(q: Engine, t: Table, e: Expr)
    requires e.Binary?
    ensures PushdownOf(q, t, e) == Exact <==> AppliedByScan(t, e)
    ensures PushdownOf(q, t, e) == Inexact <==> NarrowedByScan(q, t, e)
  {
    if strict, p :| Bounds(t.kind, e, strict, p) {
      BoundPushed(q, t, e, strict, p);
      OneBound(t.kind, e, strict, p);
    } else {
      TranslatedBinary(t.kind, e.left, e.op, e.right);
      assert forall r :: SetsResolution(e, r) ==> Bounds(t.kind, e, false, Resolution(r));
    }
  }

  /** A filter states one bound at most. */
  lemma OneBound(kind: TableKind, e: Expr, strict: bool, p: FilterPredicate)
    requires Bounds(kind, e, strict, p)
    ensures IsBound(kind, e, strict) && !IsBound(kind, e, !strict)
    ensures IsResolutionFilter(e) <==> p.Resolution?
  {
    if other, r :| Bounds(kind, e, other, r) && other != strict {
      BoundTranslated(NoEngine(), kind, Reject, e, strict, p);
      BoundTranslated(NoEngine(), kind, Reject, e, other, r);
    }
    if r :| SetsResolution(e, r) {
      assert Bounds(kind, e, false, Resolution(r));
      BoundTranslated(NoEngine(), kind, Reject, e, strict, p);
      BoundTranslated(NoEngine(), kind, Reject, e, false, Resolution(r));
      assert [p][0] == [Resolution(r)][0];
    }
  }

  function NoEngine(): Engine {
    Engine((e, row) => false, (e, row) => None, scalar => None)
  }

  lemma RangeCases(q: Engine, t: Table, e: Expr)
    requires e.Between?
    ensures PushdownOf(q, t, e) == Exact <==> AppliedByScan(t, e)
    ensures PushdownOf(q, t, e) == Inexact <==> NarrowedByScan(q, t, e)
  {
    RangeTranslated(q, t.kind, t.untagged, e);
    if p, r :| LowEnd(t.kind, e, p) && HighEnd(t.kind, e, r) {
      TwoAnswer(q, t, e, p, r);
    } else if p :| LowEnd(t.kind, e, p) {
      OneAnswer(q, t, e, p, Inexact);
    } else if p :| HighEnd(t.kind, e, p) {
      OneAnswer(q, t, e, p, Inexact);
    }
  }

  lemma SpatialCases(q: Engine, t: Table, e: Expr)
    requires e.Function?
    ensures PushdownOf(q, t, e) == Exact <==> AppliedByScan(t, e)
    ensures PushdownOf(q, t, e) == Inexact <==> NarrowedByScan(q, t, e)
  {
    if env, d :| Boxed(q, e, t.untagged, env, d) {
      SpatialTranslated(q, t.kind, t.untagged, e, env, d);
      var p := Translate(q, e, t.kind, t.untagged).value.predicates[0];
      assert Translate(q, e, t.kind, t.untagged).value.predicates == [p];
      OneAnswer(q, t, e, p, Inexact);
    } else {
      TranslatedFunction(q, t.kind, t.untagged, e);
    }
  }

  // ----- What the engine makes of a scan -----

  function Take(rows: seq<Row>, limit: Option<nat>): seq<Row> {
    if limit.Some? && limit.value < |rows| then rows[..limit.value] else rows
  }

  predicate Keeps(q: Engine, w: World, kind: TableKind, filters: seq<Expr>, row: Row) {
    forall i :: 0 <= i < |filters| ==> Holds(q, w, kind, filters[i], row)
  }

  function Filtered(q: Engine, w: World, kind: TableKind, filters: seq<Expr>, rows: seq<Row>): seq<Row> {
    if rows == [] then []
    else
      var n := |rows| - 1;
      Filtered(q, w, kind, filters, rows[..n]) + (if Keeps(q, w, kind, filters, rows[n]) then [rows[n]] else [])
  }

  /** The filters that are evaluated again on the scan's rows. */
  function Residual(q: Engine, t: Table, filters: seq<Expr>): seq<Expr> {
    if filters == [] then []
    else
      var n := |filters| - 1;
      Residual(q, t, filters[..n]) + (if PushdownOf(q, t, filters[n]) == Exact then [] else [filters[n]])
  }

  predicate DistinctRows(rows: seq<Row>) {
    forall i, j :: 0 <= i < j < |rows| ==> rows[i] != rows[j]
  }

  /** Some listing of the rows of a table. */
  ghost predicate Lists(w: World, kind: TableKind, c: Config, rows: seq<Row>) {
    DistinctRows(rows) && forall row :: row in rows <==> InTable(w, kind, c, row)
  }

  /** The rows that a planned scan emits, in some order: none when the predicates exclude every row,
      else the narrowed table up to the reader's limit. */
  ghost predicate Emits(w: World, kind: TableKind, c: Config, keep: bool, limit: Option<nat>, rows: seq<Row>) {
    if !keep then rows == []
    else exists all :: Lists(w, kind, c, all) && rows == Take(all, limit)
  }

  /** A row of the whole table that all filters keep. */
  predicate Matches(q: Engine, w: World, t: Table, filters: seq<Expr>, row: Row) {
    InTable(w, t.kind, t.config, row) && Keeps(q, w, t.kind, filters, row)
  }

  /** A valid answer of "filter the whole table, then limit": matching rows only, none twice, no more
      than the limit, and all of them unless the limit is reached. */
  ghost predicate IsAnswer(q: Engine, w: World, t: Table, filters: seq<Expr>, limit: Option<nat>, out: seq<Row>) {
    && DistinctRows(out)
    && (forall row :: row in out ==> Matches(q, w, t, filters, row))
    && (limit.Some? ==> |out| <= limit.value)
    && (limit.None? || |out| < limit.value ==> forall row :: Matches(q, w, t, filters, row) ==> row in out)
  }

  // ----- The filters together -----

  lemma TranslateForSound(q: Engine, w: World, t: Table, e: Expr, row: Row)
    requires SpatialSound(q, w, t.untagged)
    ensures var translated := TranslateFor(q, t, e);
      && Sound(w, row, translated, Holds(q, w, t.kind, e, row))
      && AllSupported(t.kind, t.config, PredicatesOf(translated))
      && (PushdownOf(q, t, e) == Exact ==>
            forall i :: 0 <= i < |PredicatesOf(translated)| ==> !PredicatesOf(translated)[i].Bbox?)
  {
    TranslationSound(q, w, t.kind, t.untagged, e, row);
    Refused(q, t, e);
  }

  /** What is left of a translation has its predicates, all of them supported, and is exact only when
      it was and has no box. */
  lemma Refused(q: Engine, t: Table, e: Expr)
    ensures var before, after := Translate(q, e, t.kind, t.untagged), TranslateFor(q, t, e);
      after.Some? ==>
        && before.Some? && after.value.predicates == before.value.predicates
        && (after.value.pushdown == Exact ==> before.value.pushdown == Exact)
        && (forall i :: 0 <= i < |after.value.predicates| ==>
              && StatusOf(t.kind, t.config, after.value.predicates[i]) != Unsupported
              && (after.value.pushdown == Exact ==> !after.value.predicates[i].Bbox?))
  {}

  lemma SupportedAppend(kind: TableKind, c: Config, a: seq<FilterPredicate>, b: seq<FilterPredicate>)
    requires AllSupported(kind, c, a) && AllSupported(kind, c, b)
    ensures AllSupported(kind, c, a + b)
  {}

  lemma BoxesAppend(w: World, row: Row, a: seq<FilterPredicate>, b: seq<FilterPredicate>)
    ensures SatisfiesBoxes(w, row, a + b) <==> SatisfiesBoxes(w, row, a) && SatisfiesBoxes(w, row, b)
  {
    if SatisfiesBoxes(w, row, a + b) {
      assert forall i :: 0 <= i < |a| ==> (a + b)[i] == a[i];
      assert forall i :: 0 <= i < |b| ==> (a + b)[|a| + i] == b[i];
    }
  }

  lemma KeepsSnoc(q: Engine, w: World, kind: TableKind, filters: seq<Expr>, e: Expr, row: Row)
    ensures Keeps(q, w, kind, filters + [e], row)
            <==> Keeps(q, w, kind, filters, row) && Holds(q, w, kind, e, row)
  {
    if Keeps(q, w, kind, filters + [e], row) {
      assert forall i :: 0 <= i < |filters| ==> (filters + [e])[i] == filters[i];
      assert (filters + [e])[|filters|] == e;
    }
  }

  /** What pushing some filters must satisfy for a row. */
  ghost predicate PushIsSound(q: Engine, w: World, t: Table, filters: seq<Expr>, row: Row) {
    var ps, residual := Pushed(q, t, filters), Residual(q, t, filters);
    && AllSupported(t.kind, t.config, ps)
    && (Keeps(q, w, t.kind, residual, row) ==> SatisfiesBoxes(w, row, ps))
    && (Keeps(q, w, t.kind, filters, row) <==> Keeps(q, w, t.kind, residual, row) && SatisfiesAll(w, row, ps))
  }

  /** For a row, all pushed predicates: rows that the filters keep satisfy them; rows that satisfy
      them and pass the residual filters are kept; boxes follow from the residual filters alone. */
  lemma {:induction false} PushedSound(q: Engine, w: World, t: Table, filters: seq<Expr>, row: Row)
    requires SpatialSound(q, w, t.untagged)
    ensures AllSupported(t.kind, t.config, Pushed(q, t, filters))
    ensures Keeps(q, w, t.kind, Residual(q, t, filters), row) ==> SatisfiesBoxes(w, row, Pushed(q, t, filters))
    ensures Keeps(q, w, t.kind, filters, row)
            <==> Keeps(q, w, t.kind, Residual(q, t, filters), row) && SatisfiesAll(w, row, Pushed(q, t, filters))
  {
    if filters != [] {
      var n := |filters| - 1;
      PushedSound(q, w, t, filters[..n], row);
      PushedNext(q, w, t, filters[..n], filters[n], row);
      assert filters == filters[..n] + [filters[n]];
    }
  }

  lemma {:induction false} PushedNext(q: Engine, w: World, t: Table, front: seq<Expr>, e: Expr, row: Row)
    requires SpatialSound(q, w, t.untagged) && PushIsSound(q, w, t, front, row)
    ensures PushIsSound(q, w, t, front + [e], row)
  {
    TranslateForSound(q, w, t, e, row);
    var ps := PredicatesOf(TranslateFor(q, t, e));
    PushedSnoc(q, t, front, e);
    SupportedAppend(t.kind, t.config, Pushed(q, t, front), ps);
    BoxesAppend(w, row, Pushed(q, t, front), ps);
    SatisfiesAppend(w, row, Pushed(q, t, front), ps);
    KeepsSnoc(q, w, t.kind, front, e, row);
    KeepsSnoc(q, w, t.kind, Residual(q, t, front), e, row);
    ResidualSnoc(q, t, front, e);
  }

  lemma {:induction false} ResidualSnoc(q: Engine, t: Table, filters: seq<Expr>, e: Expr)
    ensures Residual(q, t, filters + [e])
         == if PushdownOf(q, t, e) == Exact then Residual(q, t, filters) else Residual(q, t, filters) + [e]
  {
    assert (filters + [e])[..|filters|] == filters;
  }

  /** The narrowed scan and the residual filters give the matching rows. */
  lemma {:induction false} ScannedRow(q: Engine, w: World, t: Table, filters: seq<Expr>, row: Row)
    requires SpatialSound(q, w, t.untagged) && ValidWorld(w) && QueryTable.Numbers(t.config)
    ensures var (d, keep) := NarrowedAll(w.margins, t.kind, t.config, Pushed(q, t, filters));
      keep && InTable(w, t.kind, d, row) && Keeps(q, w, t.kind, Residual(q, t, filters), row)
      <==> Matches(q, w, t, filters, row)
  {
    PushedSound(q, w, t, filters, row);
    NarrowedRows(w, t.kind, t.config, Pushed(q, t, filters), row);
  }

  // ----- The query -----

  lemma {:induction false} FilteredRows(q: Engine, w: World, kind: TableKind, filters: seq<Expr>, rows: seq<Row>)
    requires DistinctRows(rows)
    ensures DistinctRows(Filtered(q, w, kind, filters, rows))
    ensures forall row :: row in Filtered(q, w, kind, filters, rows)
                          <==> row in rows && Keeps(q, w, kind, filters, row)
  {
    if rows != [] {
      FilteredRows(q, w, kind, filters, rows[..|rows| - 1]);
      assert rows == rows[..|rows| - 1] + [rows[|rows| - 1]];
      assert rows[|rows| - 1] !in rows[..|rows| - 1];
    }
  }

  lemma {:induction false} NothingResidual(q: Engine, t: Table, filters: seq<Expr>)
    requires forall i :: 0 <= i < |filters| ==> PushdownOf(q, t, filters[i]) == Exact
    ensures Residual(q, t, filters) == []
  {
    if filters != [] {
      NothingResidual(q, t, filters[..|filters| - 1]);
    }
  }

  lemma {:induction false} FilteredByNothing(q: Engine, w: World, kind: TableKind, rows: seq<Row>)
    ensures Filtered(q, w, kind, [], rows) == rows
  {
    if rows != [] {
      FilteredByNothing(q, w, kind, rows[..|rows| - 1]);
    }
  }

  /** The rows that remain of the narrowed table, and a prefix of them. */
  lemma TakeAnswers(q: Engine, w: World, t: Table, filters: seq<Expr>, limit: Option<nat>, all: seq<Row>)
    requires DistinctRows(all) && forall row :: row in all <==> Matches(q, w, t, filters, row)
    ensures IsAnswer(q, w, t, filters, limit, Take(all, limit))
  {
    var out := Take(all, limit);
    forall row | row in out
      ensures row in all
    {
    }
  }

  /** The query planner's rows for a scan: residual filters, then the limit. */
  function Finished(q: Engine, w: World, t: Table, filters: seq<Expr>, limit: Option<nat>, rows: seq<Row>): seq<Row> {
    Take(Filtered(q, w, t.kind, Residual(q, t, filters), rows), limit)
  }

  /** The limit that reaches the reader. */
  function LimitOf(q: Engine, t: Table, filters: seq<Expr>, limit: Option<nat>): Option<nat> {
    if t.config.partitioned then None
    else ReaderLimit(t.config, Pushed(q, t, filters), PushedLimit(q, t, filters, limit))
  }

  /** Pushdown preserves meaning: for every table, also compacted or partitioned, every list of
      filters and every limit, whatever order the scan emits its rows in, the outcome is a valid
      answer over the table without pushdown. */
  lemma {:induction false} PushdownAnswers(q: Engine, w: World, t: Table, filters: seq<Expr>, limit: Option<nat>,
                                           rows: seq<Row>)
    requires SpatialSound(q, w, t.untagged) && ValidWorld(w) && QueryTable.Numbers(t.config)
    requires var (d, keep) := NarrowedAll(w.margins, t.kind, t.config, Pushed(q, t, filters));
      Emits(w, t.kind, d, keep, LimitOf(q, t, filters, limit), rows)
    ensures IsAnswer(q, w, t, filters, limit, Finished(q, w, t, filters, limit, rows))
  {
    var (d, keep) := NarrowedAll(w.margins, t.kind, t.config, Pushed(q, t, filters));
    var residual := Residual(q, t, filters);
    var all: seq<Row> := [];
    if keep {
      all :| Lists(w, t.kind, d, all) && rows == Take(all, LimitOf(q, t, filters, limit));
    }
    FilteredRows(q, w, t.kind, residual, all);
    var left := Filtered(q, w, t.kind, residual, all);
    forall row
      ensures row in left <==> Matches(q, w, t, filters, row)
    {
      ScannedRow(q, w, t, filters, row);
    }
    TakeAnswers(q, w, t, filters, limit, left);
    var pushed := LimitOf(q, t, filters, limit);
    if pushed.Some? {
      assert pushed == limit;
      NothingResidual(q, t, filters);
      FilteredByNothing(q, w, t.kind, all);
      FilteredByNothing(q, w, t.kind, rows);
      assert Take(rows, limit) == Take(all, limit);
    } else {
      assert rows == all;
    }
  }

  /** One more filter pushes what it is translated to, after the others. */
  lemma {:induction false} PushedSnoc(q: Engine, t: Table, filters: seq<Expr>, e: Expr)
    ensures Pushed(q, t, filters + [e]) == Pushed(q, t, filters) + PredicatesOf(TranslateFor(q, t, e))
  {
    assert (filters + [e])[..|filters|] == filters;
  }

  lemma {:induction false} ExactWithoutBox(q: Engine, t: Table, filters: seq<Expr>)
    requires forall i :: 0 <= i < |filters| ==> PushdownOf(q, t, filters[i]) == Exact
    ensures forall k :: 0 <= k < |Pushed(q, t, filters)| ==> !Pushed(q, t, filters)[k].Bbox?
  {
    if filters != [] {
      ExactWithoutBox(q, t, filters[..|filters| - 1]);
    }
  }

  /** The reader gets the limit exactly when the scan applies every filter itself and is not
      partitioned. */
  lemma LimitPassed(q: Engine, t: Table, filters: seq<Expr>, limit: Option<nat>)
    ensures LimitOf(q, t, filters, limit)
            == if !t.config.partitioned && forall i :: 0 <= i < |filters| ==> AppliedByScan(t, filters[i]) then limit
               else None
  {
    forall i | 0 <= i < |filters|
      ensures PushdownOf(q, t, filters[i]) == Exact <==> AppliedByScan(t, filters[i])
    {
      PushdownCases(q, t, filters[i]);
    }
    if forall i :: 0 <= i < |filters| ==> AppliedByScan(t, filters[i]) {
      ExactWithoutBox(q, t, filters);
    }
  }

  function PointEnvelope(lon: real): Envelopes.Envelope {
    Envelopes.Envelope(Finite(lon), Finite(0.0), Finite(lon), Finite(0.0))
  }

  /** Cells across the antimeridian are in the scope of the theorem: its hypotheses hold of a raster with
      samples on both sides in one such cell, whose row is in the table, and of an engine for which the
      cell intersects the constant geometries at a point on either side. */
  lemma SplitCellInScope(cellWkb: Scalar -> Option<Wkb.Bytes>, untagged: Untagged, func: string, g: Expr)
    requires LowerAll(func) in BBOX_PREDICATES
    ensures var w := SplitWorld();
      var q, row := ReachingEngine(w, cellWkb, untagged), Row(0, 0, w.pixels);
      && ValidWorld(w) && SpatialSound(q, w, untagged)
      && InTable(w, Continuous, Config([0], None, None, None, None, None, false, false, false), row)
      && (ConstantEnvelope(q, g, untagged) in [Some(PointEnvelope(179.5)), Some(PointEnvelope(-179.5))] ==>
            q.holds(Function(func, [Column(WKB_COLUMN), g]), row))
  {
    var w := SplitWorld();
    var q, row := ReachingEngine(w, cellWkb, untagged), Row(0, 0, w.pixels);
    SplitWorldValid(0);
    ReachingEngineSound(w, cellWkb, untagged);
    SplitMembers(w);
    if ConstantEnvelope(q, g, untagged) in [Some(PointEnvelope(179.5)), Some(PointEnvelope(-179.5))] {
      SplitReached(q, w, untagged, func, g, row);
    }
  }

  lemma {:induction false} SplitMembers(w: World)
    requires w == SplitWorld()
    ensures Members(w, w.pixels, None, 0, 0) == w.pixels
  {
    var front := w.pixels[..1];
    assert front[..0] == [] && Members(w, front, None, 0, 0) == front;
    assert w.pixels == front + [w.pixels[1]];
  }

  lemma SplitReached(q: Engine, w: World, untagged: Untagged, func: string, g: Expr, row: Row)
    requires w == SplitWorld() && row.resolution == row.cell == 0 && LowerAll(func) in BBOX_PREDICATES
    requires ConstantEnvelope(q, g, untagged) in [Some(PointEnvelope(179.5)), Some(PointEnvelope(-179.5))]
    ensures ReachesConstant(q, w, untagged, func, [Column(WKB_COLUMN), g], row)
  {
    var env := ConstantEnvelope(q, g, untagged).value;
    var args := [Column(WKB_COLUMN), g];
    assert SpatialArgs(func, args) == Some((Column(WKB_COLUMN), g, 0.0));
    assert w.covers(0, 0, BoundingBox.Point(env.minX.x, 0.0));
    assert Reaches(w, 0, 0, env, 0.0);
  }

  /** The plan of a scan on the provider, as the adapter asks for it. */
  method PlanScan(q: Engine, margins: Margins, t: Table, filters: seq<Expr>, limit: Option<nat>)
    returns (c: Config, empty: bool, readerLimit: Option<nat>)
    ensures (c, !empty) == NarrowedAll(margins, t.kind, t.config, Pushed(q, t, filters))
    ensures readerLimit == LimitOf(q, t, filters, limit)
    ensures readerLimit
            == if !t.config.partitioned && forall i :: 0 <= i < |filters| ==> AppliedByScan(t, filters[i]) then limit
               else None
  {
    LimitPassed(q, t, filters, limit);
    var planner := new Planner(margins, t.kind, t.config);
    empty, readerLimit := planner.Plan(Pushed(q, t, filters), PushedLimit(q, t, filters, limit));
    c := planner.Value();
  }
}
