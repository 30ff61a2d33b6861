/**
 Classifying the cells of a partitioned scan: a cell is interior when its box misses the bounds of
 every chunk outside the partition. Chunk bounds are looked up in a grid of buckets, and verdicts
 over ancestors are cached.
 */
module BoundaryCells {
  import opened BoundingBox
  import opened Reals
  import opened Wrappers
  import opened PartitionPlan
  import opened PartitionSet
  import opened PartialMerger
  import opened Observations
  import PartitionedScan

  datatype Rect = Rect(w: real, s: real, e: real, n: real) {
    predicate Contains(p: Point) {
      w <= p.lon <= e && s <= p.lat <= n
    }

    predicate Intersects(b: Rect) {
      w <= b.e && e >= b.w && s <= b.n && n >= b.s
    }

    predicate NonEmpty() {
      w <= e && s <= n
    }
  }

  // ----- Bounds of outside chunks -----

  const GLOBE := Rect(-180.0, -90.0, 180.0, 90.0)

  /** Certified bounds of a chunk; None when a bound is not finite. A western bound above the eastern
      one means that the bounds cross the antimeridian. */
  function NormalizedBounds(b: Option<Rect>): Rect {
    if b.None? || b.value.s > b.value.n then GLOBE
    else
      var r := b.value;
      if r.w > r.e || r.w < -180.0 || r.e > 180.0 then
        Rect(-180.0, Max(r.s, -90.0), 180.0, Min(r.n, 90.0))
      else Rect(r.w, Max(r.s, -90.0), r.e, Min(r.n, 90.0))
  }

  predicate OnGlobe(p: Point) {
    -180.0 <= p.lon <= 180.0 && -90.0 <= p.lat <= 90.0
  }

  /** A sample lies within the bounds: across the antimeridian for bounds that cross it, up to full
      turns for bounds that leave the range of longitudes. */
  predicate WithinBounds(r: Rect, p: Point) {
    && r.s <= p.lat <= r.n
    && if r.w > r.e then p.lon >= r.w || p.lon <= r.e
       else if r.w < -180.0 || r.e > 180.0 then
         r.w <= p.lon <= r.e || r.w <= p.lon + 360.0 <= r.e || r.w <= p.lon - 360.0 <= r.e
       else r.w <= p.lon <= r.e
  }

  /** No sample within the certified bounds is lost by normalizing them. */
  lemma NormalizedKeeps(b: Option<Rect>, p: Point)
    requires OnGlobe(p)
    requires b.Some? && b.value.s <= b.value.n ==> WithinBounds(b.value, p)
    ensures NormalizedBounds(b).Contains(p)
  {}

  /** Nothing more is widened than has to be: bounds that cannot be read become the globe, those that
      cross the antimeridian or leave the range of longitudes all longitudes, and others stay. */
  lemma NormalizedExactly(b: Option<Rect>, p: Point)
    requires OnGlobe(p)
    ensures NormalizedBounds(b).Contains(p)
            <==> (b.Some? && b.value.s <= b.value.n ==>
                    && b.value.s <= p.lat <= b.value.n
                    && (-180.0 <= b.value.w <= b.value.e <= 180.0 ==> b.value.w <= p.lon <= b.value.e))
  {}

  // ----- The grid of buckets -----

  /** The bucket of a coordinate between `low` and `high`. */
  function Bucket(x: real, low: real, high: real, n: nat): (b: nat)
    requires n > 0
    ensures b < n
  {
    var t := if high > low then (x - low) / (high - low) else 0.0;
    var f := (t * n as real).Floor;
    var clamped := if f < 0 then 0 else f;
    if clamped < n then clamped else n - 1
  }

  lemma BucketMonotone(x: real, y: real, low: real, high: real, n: nat)
    requires n > 0 && x <= y
    ensures Bucket(x, low, high, n) <= Bucket(y, low, high, n)
  {
    if high > low {
      QuotientMonotone(x - low, y - low, high - low);
      ProductMonotone((x - low) / (high - low), (y - low) / (high - low), n as real);
      FloorMonotone((x - low) / (high - low) * n as real, (y - low) / (high - low) * n as real);
    }
  }

  lemma QuotientMonotone(a: real, b: real, d: real)
    requires a <= b && d > 0.0
    ensures a / d <= b / d
  {
    assert (b - a) / d >= 0.0;
  }

  lemma ProductMonotone(a: real, b: real, n: real)
    requires a <= b && n > 0.0
    ensures a * n <= b * n
  {
    assert (b - a) * n >= 0.0;
  }

  lemma FloorMonotone(a: real, b: real)
    requires a <= b
    ensures a.Floor <= b.Floor
  {}

  predicate Within(r: Rect, extent: Rect) {
    extent.w <= r.w && r.e <= extent.e && extent.s <= r.s && r.n <= extent.n
  }

  method Extent(rects: seq<Rect>) returns (extent: Rect)
    ensures forall i :: 0 <= i < |rects| ==> Within(rects[i], extent)
  {
    extent := if rects == [] then GLOBE else rects[0];
    for i := 0 to |rects|
      invariant forall j :: 0 <= j < i ==> Within(rects[j], extent)
    {
      var r := rects[i];
      extent := Rect(Min(extent.w, r.w), Min(extent.s, r.s), Max(extent.e, r.e), Max(extent.n, r.n));
    }
  }

  class ForeignChunks {
    const rects: seq<Rect>
    const extent: Rect
    const nx: nat
    const ny: nat
    const buckets: array<seq<nat>>

    function X(lon: real): (b: nat)
      requires nx > 0
      ensures b < nx
    {
      Bucket(lon, extent.w, extent.e, nx)
    }

    function Y(lat: real): (b: nat)
      requires ny > 0
      ensures b < ny
    {
      Bucket(lat, extent.s, extent.n, ny)
    }

    /** The bucket is one of those that a rectangle covers. */
    predicate Covers(r: Rect, x: nat, y: nat)
      requires nx > 0 && ny > 0
    {
      X(r.w) <= x <= X(r.e) && Y(r.s) <= y <= Y(r.n)
    }

    predicate Entered(buckets: seq<seq<nat>>, i: nat, x: nat, y: nat)
      requires nx > 0 && ny > 0 && |buckets| == ny * nx && x < nx && y < ny
    {
      SlotInside(y, x, ny, nx);
      i in buckets[Slot(y, x, nx)]
    }

    /** Each rectangle is entered in the buckets it covers. */
    ghost predicate Valid()
      reads buckets
    {
      && nx > 0 && ny > 0 && buckets.Length == ny * nx
      && (forall i :: 0 <= i < |rects| ==> Within(rects[i], extent))
      && Named(buckets[..])
      && forall i :: 0 <= i < |rects| ==> EnteredAll(buckets[..], i)
    }

    ghost predicate EnteredAll(buckets: seq<seq<nat>>, i: nat)
      requires nx > 0 && ny > 0 && |buckets| == ny * nx && i < |rects|
    {
      forall x, y :: 0 <= x < nx && 0 <= y < ny && Covers(rects[i], x, y) ==> Entered(buckets, i, x, y)
    }

    /** No bucket has lost an entry, and entries name rectangles. */
    predicate Grown(before: seq<seq<nat>>, after: seq<seq<nat>>) {
      && |before| == |after|
      && (forall b :: 0 <= b < |before| ==> before[b] <= after[b])
    }

    predicate Named(buckets: seq<seq<nat>>) {
      forall b, k :: 0 <= b < |buckets| && 0 <= k < |buckets[b]| ==> buckets[b][k] < |rects|
    }

    lemma GrownEntered(before: seq<seq<nat>>, after: seq<seq<nat>>)
      requires nx > 0 && ny > 0 && |before| == ny * nx && Grown(before, after)
      ensures forall i, x, y :: 0 <= x < nx && 0 <= y < ny && Entered(before, i, x, y) ==> Entered(after, i, x, y)
      ensures forall i :: 0 <= i < |rects| && EnteredAll(before, i) ==> EnteredAll(after, i)
    {
      forall i, x, y | 0 <= x < nx && 0 <= y < ny && Entered(before, i, x, y)
        ensures Entered(after, i, x, y)
      {
        SlotInside(y, x, ny, nx);
        assert before[Slot(y, x, nx)] <= after[Slot(y, x, nx)];
      }
    }

    /** `side` is the root of the number of rectangles, rounded up and clamped to 1 to 512. */
    constructor (rects: seq<Rect>, side: nat)
      requires side > 0
      ensures Valid() && this.rects == rects && fresh(buckets)
    {
      var n := if rects == [] then 1 else side;
      var extent := Extent(rects);
      this.rects := rects;
      this.extent := extent;
      this.nx, this.ny := n, n;
      this.buckets := new seq<nat>[n * n](_ => []);
      new;
      for i := 0 to |rects|
        invariant Named(buckets[..]) && forall j :: 0 <= j < i ==> EnteredAll(buckets[..], j)
      {
        Enter(i);
      }
    }

    /** Enters a rectangle in the buckets it covers. */
    method Enter(i: nat)
      requires nx > 0 && ny > 0 && buckets.Length == ny * nx && i < |rects| && Named(buckets[..])
      modifies buckets
      ensures Named(buckets[..]) && EnteredAll(buckets[..], i)
      ensures forall j :: 0 <= j < |rects| && old(EnteredAll(buckets[..], j)) ==> EnteredAll(buckets[..], j)
    {
      var r := rects[i];
      EnterRange(i, X(r.w), Y(r.s), X(r.e), Y(r.n));
      GrownEntered(old(buckets[..]), buckets[..]);
    }

    method EnterRange(i: nat, x0: nat, y0: nat, x1: nat, y1: nat)
      requires nx > 0 && ny > 0 && buckets.Length == ny * nx && i < |rects| && Named(buckets[..])
      requires x1 < nx && y1 < ny
      modifies buckets
      ensures Named(buckets[..]) && Grown(old(buckets[..]), buckets[..])
      ensures forall u, v :: x0 <= u <= x1 && y0 <= v <= y1 ==> Entered(buckets[..], i, u, v)
    {
      var y := y0;
      while y <= y1
        invariant y0 <= y && Grown(old(buckets[..]), buckets[..]) && Named(buckets[..])
        invariant forall u, v :: x0 <= u <= x1 && y0 <= v < y && v <= y1 ==> Entered(buckets[..], i, u, v)
      {
        EnterRow(i, x0, x1, y);
        y := y + 1;
      }
    }

    method EnterRow(i: nat, x0: nat, x1: nat, y: nat)
      requires nx > 0 && ny > 0 && buckets.Length == ny * nx && i < |rects| && x1 < nx && y < ny
      requires Named(buckets[..])
      modifies buckets
      ensures Named(buckets[..]) && Grown(old(buckets[..]), buckets[..])
      ensures forall u :: x0 <= u <= x1 ==> Entered(buckets[..], i, u, y)
      ensures forall j, u, v :: 0 <= u < nx && 0 <= v < ny && old(Entered(buckets[..], j, u, v)) ==>
                Entered(buckets[..], j, u, v)
    {
      var x := x0;
      while x <= x1
        invariant x0 <= x && Grown(old(buckets[..]), buckets[..]) && Named(buckets[..])
        invariant forall u :: x0 <= u < x && u <= x1 ==> Entered(buckets[..], i, u, y)
      {
        EnterOne(i, x, y);
        x := x + 1;
      }
      GrownEntered(old(buckets[..]), buckets[..]);
    }

    method EnterOne(i: nat, x: nat, y: nat)
      requires nx > 0 && ny > 0 && buckets.Length == ny * nx && i < |rects| && x < nx && y < ny
      requires Named(buckets[..])
      modifies buckets
      ensures Named(buckets[..]) && Grown(old(buckets[..]), buckets[..]) && Entered(buckets[..], i, x, y)
      ensures forall j, u, v :: 0 <= u < nx && 0 <= v < ny && old(Entered(buckets[..], j, u, v)) ==>
                Entered(buckets[..], j, u, v)
    {
      SlotInside(y, x, ny, nx);
      var slot := Slot(y, x, nx);
      buckets[slot] := buckets[slot] + [i];
      GrownEntered(old(buckets[..]), buckets[..]);
    }

    /** No bounds entered in the bucket meet the rectangle. */
    ghost predicate Missed(r: Rect, x: nat, y: nat)
      reads buckets
      requires Valid() && x < nx && y < ny
    {
      forall i :: 0 <= i < |rects| && Entered(buckets[..], i, x, y) ==> !r.Intersects(rects[i])
    }

    /** Whether a rectangle meets one of the bounds, as found through the buckets. */
    method Meets(r: Rect) returns (found: bool)
      requires Valid()
      ensures found ==> exists i :: 0 <= i < |rects| && r.Intersects(rects[i])
      ensures !found ==> forall i, p :: 0 <= i < |rects| ==> !(r.Contains(p) && rects[i].Contains(p))
    {
      if rects == [] || !r.Intersects(extent) {
        return false;
      }
      var x0, y0, x1, y1 := X(r.w), Y(r.s), X(r.e), Y(r.n);
      var y := y0;
      while y <= y1
        invariant y0 <= y
        invariant forall u, v :: x0 <= u <= x1 && y0 <= v < y && v <= y1 ==> Missed(r, u, v)
      {
        var x := x0;
        while x <= x1
          invariant x0 <= x
          invariant forall u :: x0 <= u < x && u <= x1 ==> Missed(r, u, y)
        {
          var hit := AnyIntersects(r, x, y);
          if hit {
            return true;
          }
          x := x + 1;
        }
        y := y + 1;
      }
      AllMissed(r, x0, y0, x1, y1);
      return false;
    }

    lemma AllMissed(r: Rect, x0: nat, y0: nat, x1: nat, y1: nat)
      requires Valid() && x0 == X(r.w) && y0 == Y(r.s) && x1 == X(r.e) && y1 == Y(r.n)
      requires forall x, y :: x0 <= x <= x1 && y0 <= y <= y1 ==> Missed(r, x, y)
      ensures forall i, p :: 0 <= i < |rects| ==> !(r.Contains(p) && rects[i].Contains(p))
    {
      forall i, p | 0 <= i < |rects|
        ensures !(r.Contains(p) && rects[i].Contains(p))
      {
        if r.Contains(p) && rects[i].Contains(p) {
          var x, y := CommonPoint(r, i, p);
        }
      }
    }

    method AnyIntersects(r: Rect, x: nat, y: nat) returns (found: bool)
      requires Valid() && x < nx && y < ny
      ensures found ==> exists i :: 0 <= i < |rects| && r.Intersects(rects[i])
      ensures !found ==> Missed(r, x, y)
    {
      SlotInside(y, x, ny, nx);
      var bucket := buckets[Slot(y, x, nx)];
      for k := 0 to |bucket|
        invariant forall j :: 0 <= j < k ==> !r.Intersects(rects[bucket[j]])
      {
        if r.Intersects(rects[bucket[k]]) {
          return true;
        }
      }
      return false;
    }

    /** The bucket of a point is covered by every rectangle that holds the point. */
    lemma CoversPoint(r: Rect, p: Point)
      requires nx > 0 && ny > 0 && r.Contains(p)
      ensures Covers(r, X(p.lon), Y(p.lat))
    {
      BucketMonotone(r.w, p.lon, extent.w, extent.e, nx);
      BucketMonotone(p.lon, r.e, extent.w, extent.e, nx);
      BucketMonotone(r.s, p.lat, extent.s, extent.n, ny);
      BucketMonotone(p.lat, r.n, extent.s, extent.n, ny);
    }

    /** A point in both rectangles lies in a bucket of both. */
    lemma CommonPoint(r: Rect, i: nat, p: Point) returns (x: nat, y: nat)
      requires Valid() && i < |rects| && r.Contains(p) && rects[i].Contains(p)
      ensures x < nx && y < ny && Covers(r, x, y) && Entered(buckets[..], i, x, y) && !Missed(r, x, y)
    {
      CoversPoint(r, p);
      CoversPoint(rects[i], p);
      x, y := X(p.lon), Y(p.lat);
      assert EnteredAll(buckets[..], i);
    }
  }

  // ----- The classifier -----

  /** Cell geometry, as the cell library provides it: whether an index is a cell, its ancestor so
      many resolutions up, and the padded box of a cell or of all its descendants. */
  datatype Geometry = Geometry(isCell: nat -> bool, ancestor: (nat, nat) -> Option<nat>,
                               box: (nat, bool) -> Option<Rect>)

  /** How many resolutions up the cached ancestors are. */
  const ANCESTOR_LEVELS: seq<nat> := [3, 1]

  const ANCESTOR_CACHE_LIMIT := 262144

  /** The box exists and holds no point of the bounds. */
  ghost predicate Clear(rects: seq<Rect>, box: Option<Rect>) {
    box.Some? && forall i, p :: 0 <= i < |rects| ==> !(box.value.Contains(p) && rects[i].Contains(p))
  }

  /** There is no box, or it meets some of the bounds. */
  predicate Touches(rects: seq<Rect>, box: Option<Rect>) {
    box.None? || exists i :: 0 <= i < |rects| && box.value.Intersects(rects[i])
  }

  /** Boxes that intersect share a point. */
  lemma ClearOrTouches(rects: seq<Rect>, box: Option<Rect>)
    requires forall i :: 0 <= i < |rects| ==> rects[i].NonEmpty()
    requires box.Some? ==> box.value.NonEmpty()
    ensures Clear(rects, box) <==> !Touches(rects, box)
  {
    if i :| 0 <= i < |rects| && box.Some? && box.value.Intersects(rects[i]) {
      var p := Point(Max(box.value.w, rects[i].w), Max(box.value.s, rects[i].s));
      assert box.value.Contains(p) && rects[i].Contains(p);
    }
  }

  class BoundaryClassifier {
    const foreign: ForeignChunks
    const geometry: Geometry
    var caches: seq<map<nat, bool>>
    var interior: nat
    var boundary: nat

    /** The cached verdicts over ancestors are right. */
    ghost predicate Valid()
      reads this, foreign.buckets
    {
      && foreign.Valid() && |caches| == |ANCESTOR_LEVELS|
      && forall level, a :: 0 <= level < |caches| && a in caches[level] ==>
           if caches[level][a] then Clear(foreign.rects, geometry.box(a, true))
           else Touches(foreign.rects, geometry.box(a, true))
    }

    constructor (foreign: ForeignChunks, geometry: Geometry)
      requires foreign.Valid()
      ensures Valid() && this.foreign == foreign && this.geometry == geometry && interior == 0 && boundary == 0
    {
      this.foreign, this.geometry := foreign, geometry;
      caches := [map[], map[]];
      interior, boundary := 0, 0;
    }

    /** The box of the descendants of an ancestor is clear of the bounds. */
    ghost predicate AncestorClear(cell: nat, up: nat) {
      var ancestor := geometry.ancestor(cell, up);
      ancestor.Some? && Clear(foreign.rects, geometry.box(ancestor.value, true))
    }

    /** An interior verdict has a reason: there are no outside chunks, or the box of the cell or of
        the descendants of its third or first ancestor is clear of them. */
    ghost predicate Reason(cell: nat) {
      || foreign.rects == []
      || (geometry.isCell(cell)
          && (Clear(foreign.rects, geometry.box(cell, false)) || AncestorClear(cell, 3) || AncestorClear(cell, 1)))
    }

    /** A boundary verdict has a reason: the index is not a cell, or neither its box nor that of an
        ancestor's descendants misses all bounds. */
    ghost predicate Doubt(cell: nat) {
      && foreign.rects != []
      && (geometry.isCell(cell) ==>
            && Touches(foreign.rects, geometry.box(cell, false))
            && AncestorTouches(cell, 3) && AncestorTouches(cell, 1))
    }

    /** Exactly one of the two is the case, as long as no bounds and no box are empty. */
    lemma ReasonOrDoubt(cell: nat)
      requires forall i :: 0 <= i < |foreign.rects| ==> foreign.rects[i].NonEmpty()
      requires forall c, all :: geometry.box(c, all).Some? ==> geometry.box(c, all).value.NonEmpty()
      ensures Reason(cell) <==> !Doubt(cell)
    {
      ClearOrTouches(foreign.rects, geometry.box(cell, false));
      if geometry.ancestor(cell, 3).Some? {
        ClearOrTouches(foreign.rects, geometry.box(geometry.ancestor(cell, 3).value, true));
      }
      if geometry.ancestor(cell, 1).Some? {
        ClearOrTouches(foreign.rects, geometry.box(geometry.ancestor(cell, 1).value, true));
      }
    }

    predicate AncestorTouches(cell: nat, up: nat) {
      var ancestor := geometry.ancestor(cell, up);
      ancestor.Some? ==> Touches(foreign.rects, geometry.box(ancestor.value, true))
    }

    method IsInterior(cell: nat) returns (verdict: bool)
      requires Valid()
      modifies this
      ensures Valid() && if verdict then Reason(cell) else Doubt(cell)
      ensures interior == old(interior) + (if verdict then 1 else 0)
      ensures boundary == old(boundary) + (if verdict then 0 else 1)
    {
      verdict := Classify(cell);
      if verdict {
        interior := interior + 1;
      } else {
        boundary := boundary + 1;
      }
    }

    method Classify(cell: nat) returns (verdict: bool)
      requires Valid()
      modifies `caches
      ensures Valid() && if verdict then Reason(cell) else Doubt(cell)
    {
      if foreign.rects == [] {
        return true;
      }
      if !geometry.isCell(cell) {
        return false;
      }
      for level := 0 to |ANCESTOR_LEVELS|
        invariant Valid() && forall l :: 0 <= l < level ==> AncestorTouches(cell, ANCESTOR_LEVELS[l])
      {
        var ancestor := geometry.ancestor(cell, ANCESTOR_LEVELS[level]);
        if ancestor.Some? {
          var clear := Lookup(level, ancestor.value);
          if clear {
            return true;
          }
        }
      }
      assert AncestorTouches(cell, ANCESTOR_LEVELS[0]) && AncestorTouches(cell, ANCESTOR_LEVELS[1]);
      verdict := BoxClear(geometry.box(cell, false));
    }

    /** The verdict over an ancestor's descendants, from the cache or computed and cached. */
    method Lookup(level: nat, ancestor: nat) returns (clear: bool)
      requires Valid() && level < |caches|
      modifies `caches
      ensures Valid()
      ensures if clear then Clear(foreign.rects, geometry.box(ancestor, true))
              else Touches(foreign.rects, geometry.box(ancestor, true))
    {
      if |caches[level]| >= ANCESTOR_CACHE_LIMIT {
        caches := caches[level := map[]];
      }
      if ancestor in caches[level] {
        return caches[level][ancestor];
      }
      clear := BoxClear(geometry.box(ancestor, true));
      var cache: map<nat, bool> := caches[level][ancestor := clear];
      caches := caches[level := cache];
    }

    method BoxClear(box: Option<Rect>) returns (clear: bool)
      requires foreign.Valid()
      ensures if clear then Clear(foreign.rects, box) else Touches(foreign.rects, box)
    {
      if box.None? {
        return false;
      }
      var met := foreign.Meets(box.value);
      clear := !met;
    }
  }

  /** Boxes hold the samples of their cells: of the cell itself, and of an ancestor's descendants. */
  ghost predicate BoxesHold(geometry: Geometry, cell: nat, p: Point) {
    && (geometry.box(cell, false).Some? ==> geometry.box(cell, false).value.Contains(p))
    && forall up :: (up == 3 || up == 1) && geometry.ancestor(cell, up).Some? ==>
         var box := geometry.box(geometry.ancestor(cell, up).value, true);
         box.Some? ==> box.value.Contains(p)
  }

  /** Bounds hold the samples of the chunks outside the partition. */
  predicate BoundsHold(rects: seq<Rect>, p: ScanPartition, obs: seq<Observation>, at: Observation -> Point) {
    forall i :: 0 <= i < |obs| && !p.Contains(obs[i].chunk) ==> InSome(rects, at(obs[i]))
  }

  predicate InSome(rects: seq<Rect>, p: Point) {
    exists j :: 0 <= j < |rects| && rects[j].Contains(p)
  }

  /** A cell that the classifier calls interior is interior: no other partition has an observation
      in it. */
  lemma ClassifierSound(c: BoundaryClassifier, p: ScanPartition, key: Key, obs: seq<Observation>,
                        at: Observation -> Point)
    requires c.Reason(key.h3) && BoundsHold(c.foreign.rects, p, obs, at)
    requires forall i :: 0 <= i < |obs| && obs[i].key == key ==> BoxesHold(c.geometry, key.h3, at(obs[i]))
    ensures PartitionedScan.Interior(p, key, obs)
  {
    forall i | 0 <= i < |obs| && obs[i].key == key
      ensures p.Contains(obs[i].chunk)
    {
      assert BoxesHold(c.geometry, key.h3, at(obs[i]));
      assert p.Contains(obs[i].chunk) || InSome(c.foreign.rects, at(obs[i]));
    }
  }

  // ----- From the plan to sound workers -----

  /** The bounds that the classifier of a partition is given: those of the streamed chunks outside it. */
  function OutsideBounds(chunks: seq<Chunk>, p: ScanPartition, certified: Chunk -> Option<Rect>): seq<Rect> {
    if chunks == [] then []
    else
      var n := |chunks| - 1;
      OutsideBounds(chunks[..n], p, certified)
      + (if p.Contains(chunks[n]) then [] else [NormalizedBounds(certified(chunks[n]))])
  }

  lemma {:induction false} OutsideIn(chunks: seq<Chunk>, p: ScanPartition, certified: Chunk -> Option<Rect>, i: nat)
    requires i < |chunks| && !p.Contains(chunks[i])
    ensures NormalizedBounds(certified(chunks[i])) in OutsideBounds(chunks, p, certified)
  {
    if i < |chunks| - 1 {
      OutsideIn(chunks[..|chunks| - 1], p, certified, i);
    }
  }

  /** The classifier of a partition over the chunks of its mosaic. */
  method ClassifierOf(m: Mosaic, p: ScanPartition, certified: Chunk -> Option<Rect>, geometry: Geometry, side: nat)
    returns (c: BoundaryClassifier)
    requires m.Valid() && side > 0
    ensures fresh(c) && c.Valid() && c.geometry == geometry
    ensures c.foreign.rects == OutsideBounds(m.Streamed(), p, certified)
  {
    var chunks, rects: seq<Rect> := m.Streamed(), [];
    for i := 0 to |chunks|
      invariant rects == OutsideBounds(chunks[..i], p, certified)
    {
      assert chunks[..i + 1][..i] == chunks[..i];
      if !p.Contains(chunks[i]) {
        rects := rects + [NormalizedBounds(certified(chunks[i]))];
      }
    }
    assert chunks[..|chunks|] == chunks;
    var foreign := new ForeignChunks(rects, side);
    c := new BoundaryClassifier(foreign, geometry);
  }

  /** Certified bounds of a chunk hold its samples, which lie on the globe. */
  ghost predicate CertifiedHold(certified: Chunk -> Option<Rect>, obs: seq<Observation>, at: Observation -> Point) {
    forall i :: 0 <= i < |obs| ==>
      var b := certified(obs[i].chunk);
      OnGlobe(at(obs[i])) && (b.Some? && b.value.s <= b.value.n ==> WithinBounds(b.value, at(obs[i])))
  }

  /** Bounds that were certified for the chunks outside a partition hold their samples once normalized. */
  lemma {:induction false} CertifiedBounds(chunks: seq<Chunk>, p: ScanPartition, certified: Chunk -> Option<Rect>,
                                           obs: seq<Observation>, at: Observation -> Point)
    requires CertifiedHold(certified, obs, at) && forall i :: 0 <= i < |obs| ==> obs[i].chunk in chunks
    ensures BoundsHold(OutsideBounds(chunks, p, certified), p, obs, at)
  {
    var rects := OutsideBounds(chunks, p, certified);
    forall i | 0 <= i < |obs| && !p.Contains(obs[i].chunk)
      ensures InSome(rects, at(obs[i]))
    {
      var k :| 0 <= k < |chunks| && chunks[k] == obs[i].chunk;
      OutsideIn(chunks, p, certified, k);
      NormalizedKeeps(certified(obs[i].chunk), at(obs[i]));
      var j :| 0 <= j < |rects| && rects[j] == NormalizedBounds(certified(obs[i].chunk));
    }
  }

  /** What a worker writes: each cell it reaches once with its share of the observations, and as final only
      the cells that its classifier calls interior. */
  ghost predicate Classified(e: PartitionedScan.Emitted, c: BoundaryClassifier, p: ScanPartition, mode: Mode,
                             obs: seq<Observation>)
  {
    && PartitionedScan.DistinctKeys(e.finals + e.shares)
    && (forall key :: HasKey(e.finals, key) || HasKey(e.shares, key) <==> Observed(obs, SeenBy(p, key)))
    && (forall i :: 0 <= i < |e.finals| ==>
          && e.finals[i].content == PartitionedScan.Share(mode, p, e.finals[i].key, obs)
          && c.Reason(e.finals[i].key.h3))
    && (forall i :: 0 <= i < |e.shares| ==>
          e.shares[i].content == PartitionedScan.Share(mode, p, e.shares[i].key, obs))
  }

  /** Cell boxes hold the samples of all cells. */
  ghost predicate AllBoxesHold(geometry: Geometry, obs: seq<Observation>, at: Observation -> Point) {
    forall i :: 0 <= i < |obs| ==> BoxesHold(geometry, obs[i].key.h3, at(obs[i]))
  }

  lemma ClassifiedIsSound(e: PartitionedScan.Emitted, c: BoundaryClassifier, p: ScanPartition, mode: Mode,
                          obs: seq<Observation>, at: Observation -> Point)
    requires Classified(e, c, p, mode, obs) && BoundsHold(c.foreign.rects, p, obs, at)
    requires AllBoxesHold(c.geometry, obs, at)
    ensures PartitionedScan.Sound(e, p, mode, obs)
  {
    forall i | 0 <= i < |e.finals|
      ensures PartitionedScan.Interior(p, e.finals[i].key, obs)
    {
      ClassifierSound(c, p, e.finals[i].key, obs, at);
    }
  }

  /** Plan, classifier and merge form one chain: workers of a plan that write as final what their classifiers
      call interior meet all hypotheses of the merge theorem. */
  lemma ClassifiedWorkers(m: Mosaic, plan: seq<ScanPartition>, target: nat, options: string,
                          certified: Chunk -> Option<Rect>, geometry: Geometry, cs: seq<BoundaryClassifier>,
                          es: seq<PartitionedScan.Emitted>, mode: Mode, obs: seq<Observation>,
                          at: Observation -> Point)
    requires m.Valid() && GoodPlan(m, plan, target) && plan != [] && |es| == |plan| == |cs|
    requires PositiveWeights(obs) && forall i :: 0 <= i < |obs| ==> obs[i].chunk in m.Streamed()
    requires CertifiedHold(certified, obs, at) && AllBoxesHold(geometry, obs, at)
    requires forall k :: 0 <= k < |cs| ==>
               && cs[k].foreign.rects == OutsideBounds(m.Streamed(), plan[k], certified)
               && cs[k].geometry == geometry && Classified(es[k], cs[k], plan[k], mode, obs)
    ensures PartitionedScan.Workers(es, HeadersOf(plan, options), mode, obs)
  {
    forall k | 0 <= k < |es|
      ensures PartitionedScan.Sound(es[k], plan[k], mode, obs)
    {
      CertifiedBounds(m.Streamed(), plan[k], certified, obs, at);
      ClassifiedIsSound(es[k], cs[k], plan[k], mode, obs, at);
    }
    PartitionedScan.PlannedWorkers(m, plan, target, options, es, mode, obs);
  }
}
