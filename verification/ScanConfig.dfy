/**
 The configuration of a scan and how pushed predicates narrow it.
 */
module ScanConfig {
  import opened Wrappers
  import opened BoundingBox
  import opened Floats

  datatype TableKind = Continuous | Categorical

  datatype FilterPredicate =
    | MinCount(v: F64)
    | MinMean(v: F64)
    | MaxMean(v: F64)
    | MinMajorityFraction(v: F64)
    | Bbox(b: Box)
    | Resolution(r: nat)
    | OtherPredicate(text: string)

  datatype Status = Exact | Inexact | Unsupported

  datatype Config = Config(resolutions: seq<nat>, bbox: Option<Box>, minCount: Option<F64>, minMean: Option<F64>,
                           maxMean: Option<F64>, minFraction: Option<F64>, compact: bool, compactChildren: bool,
                           partitioned: bool)

  /** How far a box is widened for a coarsest resolution; None for an invalid one. The margin of
      longitude depends on the widest latitude. */
  datatype Margins = Margins(latMargin: nat -> Option<real>, lonMargin: (nat, real) -> real)

  predicate Compacts(c: Config) {
    c.compact || c.compactChildren
  }

  /** The provider's answer for one predicate. */
  function StatusOf(kind: TableKind, c: Config, p: FilterPredicate): Status {
    if Compacts(c) then Unsupported
    else if c.partitioned then if p.Resolution? then Exact else Unsupported
    else
      match p
      case MinCount(_) => Exact
      case MinMean(_) => if kind.Continuous? then Exact else Unsupported
      case MaxMean(_) => if kind.Continuous? then Exact else Unsupported
      case MinMajorityFraction(_) => if kind.Categorical? then Exact else Unsupported
      case Resolution(_) => Exact
      case Bbox(_) => Inexact
      case OtherPredicate(_) => Unsupported
  }

  function MaxOf(bound: Option<F64>, v: F64): Option<F64> {
    if bound.None? then Some(v) else Some(Floats.Max(bound.value, v))
  }

  function MinOf(bound: Option<F64>, v: F64): Option<F64> {
    if bound.None? then Some(v) else Some(Floats.Min(bound.value, v))
  }

  function Coarsest(resolutions: seq<nat>): (r: nat)
    requires resolutions != []
    ensures r in resolutions && forall i :: 0 <= i < |resolutions| ==> r <= resolutions[i]
  {
    var last := resolutions[|resolutions| - 1];
    if |resolutions| == 1 then last
    else
      var r := Coarsest(resolutions[..|resolutions| - 1]);
      if last < r then last else r
  }

  /** The requested box, widened past the largest cell of the configured resolutions. */
  function Widened(m: Margins, resolutions: seq<nat>, b: Box): Option<Box> {
    if resolutions == [] then None
    else
      var r := Coarsest(resolutions);
      var lat := m.latMargin(r);
      if lat.None? then None else Expand(b, lat.value, widest => m.lonMargin(r, widest))
  }

  /** What one pushed predicate makes of the configuration, and whether any row can remain. */
  function Narrowed(m: Margins, kind: TableKind, c: Config, p: FilterPredicate): (Config, bool) {
    match p
    case MinCount(v) => (c.(minCount := MaxOf(c.minCount, v)), true)
    case MinMean(v) => if kind.Continuous? then (c.(minMean := MaxOf(c.minMean, v)), true) else (c, true)
    case MaxMean(v) => if kind.Continuous? then (c.(maxMean := MinOf(c.maxMean, v)), true) else (c, true)
    case MinMajorityFraction(v) =>
      if kind.Categorical? then (c.(minFraction := MaxOf(c.minFraction, v)), true) else (c, true)
    case Resolution(r) => if r in c.resolutions then (c.(resolutions := [r]), true) else (c, false)
    case Bbox(b) => NarrowedBox(m, c, b)
    case OtherPredicate(_) => (c, true)
  }

  function NarrowedBox(m: Margins, c: Config, b: Box): (Config, bool) {
    if Compacts(c) then (c, true)
    else
      var widened := Widened(m, c.resolutions, b);
      if widened.None? then (c, true)
      else if c.bbox.None? then (c.(bbox := widened), true)
      else
        var narrowed := Intersect(c.bbox.value, widened.value);
        if narrowed.Some? then (c.(bbox := narrowed), true) else (c, false)
  }

  /** A box in range does narrow a scan that aggregates anything: to the points within the margins of the
      coarsest resolution, and within the scan's own box. */
  lemma BoxNarrows(m: Margins, c: Config, b: Box, r: nat, lat: real, q: Point)
    requires !c.compact && !c.compactChildren && InRange(b) && q.Valid()
    requires r in c.resolutions && (forall i :: 0 <= i < |c.resolutions| ==> r <= c.resolutions[i])
    requires m.latMargin(r) == Some(lat) && lat >= 0.0 && m.lonMargin(r, WidestLat(b, lat)) >= 0.0
    ensures var (d, keep) := NarrowedBox(m, c, b);
            var near := exists p: Point ::
              p.Valid() && InBox(p, b) && Near(q, p, b, lat, widest => m.lonMargin(r, widest));
      if c.bbox.None? then
        keep && d.bbox.Some? && (InBox(q, d.bbox.value) <==> near)
      else
        && (!keep ==> d == c)
        && (keep ==> d.bbox.Some? && (InBox(q, d.bbox.value) ==> InBox(q, c.bbox.value)))
        && (keep && d.bbox != c.bbox && InBox(q, d.bbox.value) ==> near)
  {
    var lonAt := widest => m.lonMargin(r, widest);
    assert Coarsest(c.resolutions) == r;
    ExpandNone(b, lat, lonAt);
    var box := Expand(b, lat, lonAt).value;
    if InBox(q, box) {
      var p := ExpandOnly(b, lat, lonAt, q);
    }
    if p: Point :| p.Valid() && InBox(p, b) && Near(q, p, b, lat, lonAt) {
      ExpandContains(b, lat, lonAt, p, q);
    }
    if c.bbox.Some? {
      IntersectNarrows(c.bbox.value, box, q);
    }
  }

  /** A partitioned scan takes only resolutions, a compacted one takes nothing. */
  predicate Ignores(c: Config, p: FilterPredicate) {
    if c.partitioned then !p.Resolution? else Compacts(c)
  }

  /** All pushed predicates in order. */
  function NarrowedAll(m: Margins, kind: TableKind, c: Config, ps: seq<FilterPredicate>): (Config, bool) {
    if ps == [] then (c, true)
    else
      var n := |ps| - 1;
      var (before, keep) := NarrowedAll(m, kind, c, ps[..n]);
      if Ignores(c, ps[n]) then (before, keep)
      else
        var (after, more) := Narrowed(m, kind, before, ps[n]);
        (after, keep && more)
  }

  /** The row limit that the reader of an unpartitioned scan gets. */
  function ReaderLimit(c: Config, ps: seq<FilterPredicate>, limit: Option<nat>): Option<nat> {
    if (Compacts(c) && ps != []) || (exists i :: 0 <= i < |ps| && ps[i].Bbox?) then None else limit
  }

  lemma NarrowedSame(m: Margins, kind: TableKind, c: Config, p: FilterPredicate)
    ensures var d := Narrowed(m, kind, c, p).0;
      d.compact == c.compact && d.compactChildren == c.compactChildren && d.partitioned == c.partitioned
  {}

  /** A provider's copy of its configuration while a scan is planned. */
  class Planner {
    const margins: Margins
    const kind: TableKind
    var resolutions: seq<nat>
    var bbox: Option<Box>
    var minCount: Option<F64>
    var minMean: Option<F64>
    var maxMean: Option<F64>
    var minFraction: Option<F64>
    const compact: bool
    const compactChildren: bool
    const partitioned: bool

    function Value(): Config
      reads this
    {
      Config(resolutions, bbox, minCount, minMean, maxMean, minFraction, compact, compactChildren, partitioned)
    }

    constructor (margins: Margins, kind: TableKind, c: Config)
      ensures Value() == c && this.margins == margins && this.kind == kind
    {
      this.margins, this.kind := margins, kind;
      resolutions, bbox := c.resolutions, c.bbox;
      minCount, minMean, maxMean, minFraction := c.minCount, c.minMean, c.maxMean, c.minFraction;
      compact, compactChildren, partitioned := c.compact, c.compactChildren, c.partitioned;
    }

    /** Narrows by a predicate that both kinds of tables share. */
    method ApplySharedFilter(p: FilterPredicate) returns (keep: bool)
      requires p.MinCount? || p.Resolution? || p.Bbox? || Narrowed(margins, kind, Value(), p) == (Value(), true)
      modifies this
      ensures (Value(), keep) == Narrowed(margins, kind, old(Value()), p)
    {
      match p
      case MinCount(v) =>
        minCount := Some(if minCount.None? then v else Floats.Max(minCount.value, v));
        keep := true;
      case Resolution(r) =>
        keep := r in resolutions;
        if keep {
          resolutions := [r];
        }
      case Bbox(b) =>
        if compact || compactChildren {
          return true;
        }
        var widened := Widened(margins, resolutions, b);
        if widened.None? {
          return true;
        }
        if bbox.None? {
          bbox := widened;
          return true;
        }
        var narrowed := Intersect(bbox.value, widened.value);
        keep := narrowed.Some?;
        if keep {
          bbox := narrowed;
        }
      case _ =>
        keep := true;
    }

    /** Narrows by one predicate, own to the kind of table or shared. */
    method Apply(p: FilterPredicate) returns (keep: bool)
      modifies this
      ensures (Value(), keep) == Narrowed(margins, kind, old(Value()), p)
    {
      if kind.Continuous? && p.MinMean? {
        minMean := Some(if minMean.None? then p.v else Floats.Max(minMean.value, p.v));
        keep := true;
      } else if kind.Continuous? && p.MaxMean? {
        maxMean := Some(if maxMean.None? then p.v else Floats.Min(maxMean.value, p.v));
        keep := true;
      } else if kind.Categorical? && p.MinMajorityFraction? {
        minFraction := Some(if minFraction.None? then p.v else Floats.Max(minFraction.value, p.v));
        keep := true;
      } else {
        keep := ApplySharedFilter(p);
      }
    }

    /** Plans a scan: narrows the configuration by the pushed predicates and settles the reader's
        limit. */
    method Plan(ps: seq<FilterPredicate>, limit: Option<nat>) returns (empty: bool, readerLimit: Option<nat>)
      modifies this
      ensures (Value(), !empty) == NarrowedAll(margins, kind, old(Value()), ps)
      ensures readerLimit == if partitioned then None else ReaderLimit(old(Value()), ps, limit)
      ensures readerLimit
              == if || partitioned || ((compact || compactChildren) && ps != [])
                    || exists i :: 0 <= i < |ps| && ps[i].Bbox? then None
                 else limit
    {
      empty := false;
      readerLimit := if partitioned then None else ReaderLimit(Value(), ps, limit);
      for i := 0 to |ps|
        invariant (Value(), !empty) == NarrowedAll(margins, kind, old(Value()), ps[..i])
      {
        assert ps[..i + 1][..i] == ps[..i];
        if if partitioned then ps[i].Resolution? else !(compact || compactChildren) {
          var keep := Apply(ps[i]);
          empty := empty || !keep;
        }
      }
      assert ps[..|ps|] == ps;
    }
  }
}
