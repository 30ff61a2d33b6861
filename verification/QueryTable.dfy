/**
 The table that a scan stands for, and why narrowing the scan's configuration by a predicate keeps
 the rows that satisfy the predicate.
 */
module QueryTable {
  import opened Wrappers
  import opened BoundingBox
  import opened Floats
  import opened ScanConfig

  /** A pixel sample. */
  datatype Pixel = Pixel(at: Point, value: real, category: int, weight: real)

  /** A row: a cell with the samples that it aggregates. */
  datatype Row = Row(resolution: nat, cell: nat, members: seq<Pixel>)

  /** The raster and the geometry of the cells, as far as a query can tell: the samples, the cell
      of a sample, the points of a cell's planar geometry (which is split in two where the cell crosses
      the antimeridian), the statistics of a row, the cells that a partition
      cannot finish on its own, and the rows of a compacted table. */
  datatype World = World(pixels: seq<Pixel>, cellOf: (Pixel, nat) -> nat, covers: (nat, nat, Point) -> bool,
                         count: Row -> real, mean: Row -> real, fraction: Row -> real,
                         partial: (nat, nat) -> bool, compacted: (Config, Row) -> bool, margins: Margins)

  /** The samples of a cell that a box lets through. */
  function Members(w: World, pixels: seq<Pixel>, bbox: Option<Box>, resolution: nat, cell: nat): seq<Pixel> {
    if pixels == [] then []
    else
      var n := |pixels| - 1;
      Members(w, pixels[..n], bbox, resolution, cell)
      + (if w.cellOf(pixels[n], resolution) == cell && InBbox(pixels[n].at, bbox) then [pixels[n]] else [])
  }

  predicate AtLeast(x: real, bound: Option<F64>) {
    bound.Some? ==> Le(bound.value, Finite(x))
  }

  predicate AtMost(x: real, bound: Option<F64>) {
    bound.Some? ==> Le(Finite(x), bound.value)
  }

  /** The value thresholds. */
  predicate Passes(w: World, kind: TableKind, c: Config, row: Row) {
    && AtLeast(w.count(row), c.minCount)
    && match kind
       case Continuous => AtLeast(w.mean(row), c.minMean) && AtMost(w.mean(row), c.maxMean)
       case Categorical => AtLeast(w.fraction(row), c.minFraction)
  }

  /** The rows of the table that a configuration describes. A partitioned scan does not filter the
      cells it cannot finish. */
  predicate InTable(w: World, kind: TableKind, c: Config, row: Row) {
    if Compacts(c) then w.compacted(c, row)
    else
      && row.resolution in c.resolutions
      && row.members == Members(w, w.pixels, c.bbox, row.resolution, row.cell) && row.members != []
      && ((c.partitioned && w.partial(row.resolution, row.cell)) || Passes(w, kind, c, row))
  }

  /** A point of the cell's geometry lies in the box. */
  ghost predicate Touches(w: World, resolution: nat, cell: nat, b: Box) {
    exists p: Point :: p.Valid() && w.covers(resolution, cell, p) && InBox(p, b)
  }

  /** What a predicate says of a row. */
  ghost predicate Satisfies(w: World, row: Row, p: FilterPredicate) {
    match p
    case MinCount(v) => Le(v, Finite(w.count(row)))
    case MinMean(v) => Le(v, Finite(w.mean(row)))
    case MaxMean(v) => Le(Finite(w.mean(row)), v)
    case MinMajorityFraction(v) => Le(v, Finite(w.fraction(row)))
    case Resolution(r) => row.resolution == r
    case Bbox(b) => Touches(w, row.resolution, row.cell, b)
    case OtherPredicate(_) => true
  }

  /** Margins cover every cell: when the geometry of a cell touches a box, each of its samples is
      strictly within the margins, taken at any coarser or equal resolution, of a point of the box. */
  ghost predicate MarginsCover(w: World) {
    forall r, resolution, cell, b, i ::
      0 <= i < |w.pixels| && r <= resolution && w.margins.latMargin(r).Some? && InRange(b)
      && w.cellOf(w.pixels[i], resolution) == cell && Touches(w, resolution, cell, b)
      ==> CloseTo(w, r, w.pixels[i].at, b)
  }

  ghost predicate CloseTo(w: World, r: nat, q: Point, b: Box)
    requires w.margins.latMargin(r).Some?
  {
    exists p: Point :: p.Valid() && InBox(p, b)
      && StrictlyNear(q, p, b, w.margins.latMargin(r).value, widest => w.margins.lonMargin(r, widest))
  }

  /** Samples have valid coordinates, margins are not negative, thresholds are numbers. */
  ghost predicate ValidWorld(w: World) {
    && (forall i :: 0 <= i < |w.pixels| ==> w.pixels[i].at.Valid())
    && (forall r :: w.margins.latMargin(r).Some? ==> w.margins.latMargin(r).value >= 0.0)
    && (forall r, x :: w.margins.lonMargin(r, x) >= 0.0)
    && MarginsCover(w)
  }

  predicate Numbers(c: Config) {
    && c.minCount != Some(NaN) && c.minMean != Some(NaN) && c.maxMean != Some(NaN) && c.minFraction != Some(NaN)
    && (c.bbox.Some? ==> c.bbox.value.minLon <= 180.0)
  }

  predicate IsNumber(p: FilterPredicate) {
    p.MinCount? || p.MinMean? || p.MaxMean? || p.MinMajorityFraction? ==> !p.v.NaN?
  }

  // ----- One predicate -----

  lemma {:induction false} MembersSame(w: World, pixels: seq<Pixel>, a: Option<Box>, b: Option<Box>,
                                       resolution: nat, cell: nat)
    requires forall i :: 0 <= i < |pixels| && w.cellOf(pixels[i], resolution) == cell ==>
               (InBbox(pixels[i].at, a) <==> InBbox(pixels[i].at, b))
    ensures Members(w, pixels, a, resolution, cell) == Members(w, pixels, b, resolution, cell)
  {
    if pixels != [] {
      MembersSame(w, pixels[..|pixels| - 1], a, b, resolution, cell);
    }
  }

  lemma {:induction false} MemberOf(w: World, pixels: seq<Pixel>, bbox: Option<Box>, resolution: nat, cell: nat)
    ensures Members(w, pixels, bbox, resolution, cell) != [] <==>
            exists i :: 0 <= i < |pixels| && w.cellOf(pixels[i], resolution) == cell && InBbox(pixels[i].at, bbox)
  {
    if pixels != [] {
      var n := |pixels| - 1;
      MemberOf(w, pixels[..n], bbox, resolution, cell);
      if i :| 0 <= i < n && w.cellOf(pixels[..n][i], resolution) == cell && InBbox(pixels[..n][i].at, bbox) {
        assert w.cellOf(pixels[i], resolution) == cell;
      }
    }
  }

  /** Every sample of a cell that touches the requested box lies in the widened box, and stays in
      the scan's box when that is narrowed. */
  lemma SampleKept(w: World, c: Config, b: Box, resolution: nat, cell: nat, i: nat)
    requires ValidWorld(w) && Numbers(c) && Touches(w, resolution, cell, b) && resolution in c.resolutions
    requires i < |w.pixels| && w.cellOf(w.pixels[i], resolution) == cell
    requires Widened(w.margins, c.resolutions, b).Some?
    ensures var widened := Widened(w.margins, c.resolutions, b).value;
      && InBox(w.pixels[i].at, widened)
      && (c.bbox.Some? && InBox(w.pixels[i].at, c.bbox.value) ==>
            && Intersect(c.bbox.value, widened).Some?
            && InBox(w.pixels[i].at, Intersect(c.bbox.value, widened).value))
  {
    var r := Coarsest(c.resolutions);
    var lat := w.margins.latMargin(r).value;
    var lonAt := widest => w.margins.lonMargin(r, widest);
    ExpandNone(b, lat, lonAt);
    assert CloseTo(w, r, w.pixels[i].at, b);
    var p: Point :| p.Valid() && InBox(p, b) && StrictlyNear(w.pixels[i].at, p, b, lat, lonAt);
    ExpandContains(b, lat, lonAt, p, w.pixels[i].at);
    if c.bbox.Some? && InBox(w.pixels[i].at, c.bbox.value) {
      NarrowingKeeps(c.bbox.value, b, lat, lonAt, p, w.pixels[i].at);
    }
  }

  /** Narrowing the box leaves the members of the cells that touch the requested box alone. */
  lemma {:induction false} BoxMembers(w: World, c: Config, b: Box, resolution: nat, cell: nat)
    requires ValidWorld(w) && Numbers(c) && Touches(w, resolution, cell, b) && resolution in c.resolutions
    ensures var (d, keep) := NarrowedBox(w.margins, c, b);
      && (keep ==> Members(w, w.pixels, d.bbox, resolution, cell) == Members(w, w.pixels, c.bbox, resolution, cell))
      && (!keep ==> Members(w, w.pixels, c.bbox, resolution, cell) == [])
  {
    var widened := Widened(w.margins, c.resolutions, b);
    var (d, keep) := NarrowedBox(w.margins, c, b);
    if !Compacts(c) && widened.Some? {
      forall i | 0 <= i < |w.pixels| && w.cellOf(w.pixels[i], resolution) == cell
        ensures keep ==> (InBbox(w.pixels[i].at, c.bbox) <==> InBbox(w.pixels[i].at, d.bbox))
        ensures !keep ==> !InBbox(w.pixels[i].at, c.bbox)
      {
        SampleKept(w, c, b, resolution, cell, i);
        if c.bbox.Some? {
          IntersectNarrows(c.bbox.value, widened.value, w.pixels[i].at);
        }
      }
      if keep {
        MembersSame(w, w.pixels, d.bbox, c.bbox, resolution, cell);
      } else {
        MemberOf(w, w.pixels, c.bbox, resolution, cell);
      }
    }
  }

  /** A threshold raised to a second one lets through what both let through. */
  lemma RaisedBound(x: real, bound: Option<F64>, v: F64)
    requires bound != Some(NaN) && !v.NaN?
    ensures AtLeast(x, MaxOf(bound, v)) <==> AtLeast(x, bound) && Le(v, Finite(x))
    ensures AtMost(x, MinOf(bound, v)) <==> AtMost(x, bound) && Le(Finite(x), v)
    ensures MaxOf(bound, v) != Some(NaN) && MinOf(bound, v) != Some(NaN)
  {
    if bound.Some? {
      BoundBoth(Finite(x), bound.value, v);
    }
  }

  /** Narrowing by a threshold or a resolution keeps exactly the rows that satisfy it. */
  lemma NarrowedValue(w: World, kind: TableKind, c: Config, p: FilterPredicate, row: Row)
    requires Numbers(c) && IsNumber(p) && StatusOf(kind, c, p) == Exact
    ensures var (d, keep) := Narrowed(w.margins, kind, c, p);
      && Numbers(d)
      && (keep && InTable(w, kind, d, row) <==> InTable(w, kind, c, row) && Satisfies(w, row, p))
  {
    match p
    case MinCount(v) => RaisedBound(w.count(row), c.minCount, v);
    case MinMean(v) => RaisedBound(w.mean(row), c.minMean, v);
    case MaxMean(v) => RaisedBound(w.mean(row), c.maxMean, v);
    case MinMajorityFraction(v) => RaisedBound(w.fraction(row), c.minFraction, v);
    case _ =>
  }

  lemma ExpandInRange(b: Box, lat: real, lonAt: real -> real)
    requires InRange(b) && lonAt(WidestLat(b, lat)) >= 0.0
    ensures Expand(b, lat, lonAt).value.minLon <= 180.0
  {}

  lemma NarrowedBoxNumbers(w: World, c: Config, b: Box)
    requires ValidWorld(w) && Numbers(c)
    ensures Numbers(NarrowedBox(w.margins, c, b).0)
  {
    var widened := Widened(w.margins, c.resolutions, b);
    if widened.Some? {
      var r := Coarsest(c.resolutions);
      var lat := w.margins.latMargin(r).value;
      var lonAt := widest => w.margins.lonMargin(r, widest);
      ExpandNone(b, lat, lonAt);
      ExpandInRange(b, lat, lonAt);
    }
  }

  /** Narrowing the box keeps the rows whose cells touch the requested box, with all their samples. */
  lemma NarrowedByBox(w: World, kind: TableKind, c: Config, b: Box, row: Row)
    requires ValidWorld(w) && Numbers(c) && StatusOf(kind, c, Bbox(b)) == Inexact
    requires Touches(w, row.resolution, row.cell, b)
    ensures var (d, keep) := Narrowed(w.margins, kind, c, Bbox(b));
      keep && InTable(w, kind, d, row) <==> InTable(w, kind, c, row)
  {
    if row.resolution in c.resolutions {
      BoxMembers(w, c, b, row.resolution, row.cell);
    }
  }

  /** One pushed predicate: among the rows that satisfy it, narrowing changes nothing. Unless it is
      a box, the rows that remain satisfy it. */
  lemma NarrowedRow(w: World, kind: TableKind, c: Config, p: FilterPredicate, row: Row)
    requires ValidWorld(w) && Numbers(c) && IsNumber(p) && StatusOf(kind, c, p) != Unsupported
    ensures var (d, keep) := Narrowed(w.margins, kind, c, p);
      && Numbers(d)
      && (Satisfies(w, row, p) ==> (keep && InTable(w, kind, d, row) <==> InTable(w, kind, c, row)))
      && (!p.Bbox? && keep && InTable(w, kind, d, row) ==> Satisfies(w, row, p))
  {
    if p.Bbox? {
      NarrowedBoxNumbers(w, c, p.b);
      if Satisfies(w, row, p) {
        NarrowedByBox(w, kind, c, p.b, row);
      }
    } else {
      NarrowedValue(w, kind, c, p, row);
    }
  }

  predicate AllSupported(kind: TableKind, c: Config, ps: seq<FilterPredicate>) {
    forall i :: 0 <= i < |ps| ==> StatusOf(kind, c, ps[i]) != Unsupported && IsNumber(ps[i])
  }

  ghost predicate SatisfiesAll(w: World, row: Row, ps: seq<FilterPredicate>) {
    forall i :: 0 <= i < |ps| ==> Satisfies(w, row, ps[i])
  }

  ghost predicate SatisfiesBoxes(w: World, row: Row, ps: seq<FilterPredicate>) {
    forall i :: 0 <= i < |ps| && ps[i].Bbox? ==> Satisfies(w, row, ps[i])
  }

  lemma {:induction false} NarrowedAllSame(m: Margins, kind: TableKind, c: Config, ps: seq<FilterPredicate>)
    ensures var d := NarrowedAll(m, kind, c, ps).0;
      d.compact == c.compact && d.compactChildren == c.compactChildren && d.partitioned == c.partitioned
  {
    if ps != [] {
      var n := |ps| - 1;
      NarrowedAllSame(m, kind, c, ps[..n]);
      NarrowedSame(m, kind, NarrowedAll(m, kind, c, ps[..n]).0, ps[n]);
    }
  }

  /** All pushed predicates together: the narrowed scan has the rows of the table that satisfy them,
      with the same members, as long as the boxes are checked again. */
  lemma {:induction false} NarrowedRows(w: World, kind: TableKind, c: Config, ps: seq<FilterPredicate>, row: Row)
    requires ValidWorld(w) && Numbers(c) && AllSupported(kind, c, ps)
    ensures var (d, keep) := NarrowedAll(w.margins, kind, c, ps);
      && Numbers(d)
      && (SatisfiesBoxes(w, row, ps) ==>
            (keep && InTable(w, kind, d, row) <==> InTable(w, kind, c, row) && SatisfiesAll(w, row, ps)))
  {
    if ps != [] {
      var n := |ps| - 1;
      var front, p := ps[..n], ps[n];
      NarrowedRows(w, kind, c, front, row);
      NarrowedAllSame(w.margins, kind, c, front);
      var (before, kept) := NarrowedAll(w.margins, kind, c, front);
      assert StatusOf(kind, c, p) != Unsupported;
      assert !Ignores(c, p);
      assert StatusOf(kind, before, p) == StatusOf(kind, c, p);
      NarrowedRow(w, kind, before, p, row);
      SatisfiesSnoc(w, row, ps);
    }
  }

  lemma SatisfiesSnoc(w: World, row: Row, ps: seq<FilterPredicate>)
    requires ps != []
    ensures var n := |ps| - 1;
      && (SatisfiesAll(w, row, ps) <==> SatisfiesAll(w, row, ps[..n]) && Satisfies(w, row, ps[n]))
      && (SatisfiesBoxes(w, row, ps) <==>
            SatisfiesBoxes(w, row, ps[..n]) && (ps[n].Bbox? ==> Satisfies(w, row, ps[n])))
  {
    var n := |ps| - 1;
    assert forall i :: 0 <= i < n ==> ps[..n][i] == ps[i];
  }

  // ----- A cell across the antimeridian -----

  /** Two samples in one cell that crosses the antimeridian, whose geometry has a part on each side. */
  function SplitWorld(): World {
    World([Pixel(Point(179.5, 0.0), 1.0, 1, 1.0), Pixel(Point(-179.5, 0.0), 3.0, 1, 1.0)],
          (pixel, resolution) => 0,
          (resolution, cell, p: Point) => -1.0 <= p.lat <= 1.0 && (p.lon >= 179.0 || p.lon <= -179.0),
          row => 2.0, row => 2.0, row => 1.0, (resolution, cell) => false, (c, row) => false,
          Margins(resolution => Some(2.0), (resolution, lat) => 2.0))
  }

  /** Such a raster meets the hypotheses, and its cell touches boxes on both sides, but none far from
      the antimeridian. */
  lemma SplitWorldValid(resolution: nat)
    ensures ValidWorld(SplitWorld())
    ensures Touches(SplitWorld(), resolution, 0, Box(179.0, -1.0, 180.0, 1.0))
    ensures Touches(SplitWorld(), resolution, 0, Box(-180.0, -1.0, -179.0, 1.0))
    ensures !Touches(SplitWorld(), resolution, 0, Box(-170.0, -1.0, 170.0, 1.0))
  {
    var w := SplitWorld();
    forall r: nat, finer, cell, b, i | 0 <= i < |w.pixels| && InRange(b) && Touches(w, finer, cell, b)
      ensures CloseTo(w, r, w.pixels[i].at, b)
    {
      var p: Point :| p.Valid() && w.covers(finer, cell, p) && InBox(p, b);
      assert StrictlyNear(w.pixels[i].at, p, b, 2.0, widest => w.margins.lonMargin(r, widest));
    }
    WrapLonRange(179.5);
    WrapLonRange(-179.5);
    assert InBox(Point(179.5, 0.0), Box(179.0, -1.0, 180.0, 1.0));
    assert InBox(Point(-179.5, 0.0), Box(-180.0, -1.0, -179.0, 1.0));
    forall p: Point | p.Valid() && w.covers(resolution, 0, p)
      ensures !InBox(p, Box(-170.0, -1.0, 170.0, 1.0))
    {
      WrapLonRange(p.lon);
    }
  }
}
