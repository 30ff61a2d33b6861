/**
 Longitude/latitude boxes on the wrapped globe: membership, widening by a margin and intersection.
 */
module BoundingBox {
  import opened Reals
  import opened Wrappers

  /** A box; it crosses the antimeridian when its western bound exceeds its eastern one. */
  datatype Box = Box(minLon: real, minLat: real, maxLon: real, maxLat: real) {
    predicate Crossing() {
      minLon > maxLon
    }
  }

  datatype Point = Point(lon: real, lat: real) {
    predicate Valid() {
      -180.0 <= lon <= 180.0 && -90.0 <= lat <= 90.0
    }
  }

  /** The longitude in [-180, 180). */
  function WrapLon(lon: real): real {
    var x := lon + 180.0;
    x - 360.0 * (x / 360.0).Floor as real - 180.0
  }

  lemma WrapLonRange(lon: real)
    ensures -180.0 <= WrapLon(lon) < 180.0
    ensures -180.0 <= lon < 180.0 ==> WrapLon(lon) == lon
    ensures lon == 180.0 ==> WrapLon(lon) == -180.0
  {
    var x := lon + 180.0;
    var turns := (x / 360.0).Floor;
    assert turns as real <= x / 360.0 < turns as real + 1.0;
  }

  predicate InBox(p: Point, b: Box) {
    && b.minLat <= p.lat <= b.maxLat
    && var lon := WrapLon(p.lon);
       if b.minLon <= b.maxLon then b.minLon <= lon <= b.maxLon || (lon == -180.0 && b.maxLon >= 180.0)
       else lon >= b.minLon || lon <= b.maxLon
  }

  /** The sample filter of a scan. */
  predicate InBbox(p: Point, bbox: Option<Box>) {
    bbox.None? || InBox(p, bbox.value)
  }

  // ----- Widening -----

  /** From this latitude on, a margin may reach all the way around a pole. */
  const POLAR_LAT := 89.0

  predicate InRange(b: Box) {
    && -180.0 <= b.minLon <= 180.0 && -180.0 <= b.maxLon <= 180.0
    && -90.0 <= b.minLat <= 90.0 && -90.0 <= b.maxLat <= 90.0 && b.minLat <= b.maxLat
  }

  /** The latitudes of the widened box. */
  function LowLat(b: Box, latMargin: real): real { Max(b.minLat - latMargin, -90.0) }
  function HighLat(b: Box, latMargin: real): real { Min(b.maxLat + latMargin, 90.0) }

  function WidestLat(b: Box, latMargin: real): real {
    Max(Abs(LowLat(b, latMargin)), Abs(HighLat(b, latMargin)))
  }

  function Span(b: Box): real {
    if b.Crossing() then b.maxLon + 360.0 - b.minLon else b.maxLon - b.minLon
  }

  /** Widens a box by a margin of latitude, and by the margin of longitude that the same distance
      spans at its widest latitude. */
  function Expand(b: Box, latMargin: real, lonMarginAt: real -> real): Option<Box> {
    if !InRange(b) then None
    else
      var low, high := LowLat(b, latMargin), HighLat(b, latMargin);
      var widest := WidestLat(b, latMargin);
      if widest >= POLAR_LAT then Some(Box(-180.0, low, 180.0, high))
      else
        var lonMargin := lonMarginAt(widest);
        if Span(b) + 2.0 * lonMargin >= 360.0 then Some(Box(-180.0, low, 180.0, high))
        else
          var west := if b.minLon - lonMargin < -180.0 then b.minLon - lonMargin + 360.0 else b.minLon - lonMargin;
          var east := if b.maxLon + lonMargin > 180.0 then b.maxLon + lonMargin - 360.0 else b.maxLon + lonMargin;
          Some(Box(west, low, east, high))
  }

  /** Longitudes at most a margin apart around the globe. */
  predicate LonWithin(a: real, b: real, margin: real) {
    -margin <= a - b <= margin || -margin <= a - b + 360.0 <= margin || -margin <= a - b - 360.0 <= margin
  }

  /** A point within the margins of another one; near a pole its longitude does not matter. */
  predicate Near(q: Point, p: Point, b: Box, latMargin: real, lonMarginAt: real -> real) {
    && -latMargin <= q.lat - p.lat <= latMargin
    && (WidestLat(b, latMargin) < 89.0 ==> LonWithin(q.lon, p.lon, lonMarginAt(WidestLat(b, latMargin))))
  }

  predicate StrictlyNear(q: Point, p: Point, b: Box, latMargin: real, lonMarginAt: real -> real) {
    && -latMargin < q.lat - p.lat < latMargin
    && (WidestLat(b, latMargin) < 89.0 ==>
          var m := lonMarginAt(WidestLat(b, latMargin));
          -m < q.lon - p.lon < m || -m < q.lon - p.lon + 360.0 < m || -m < q.lon - p.lon - 360.0 < m)
  }

  /** A box is left as it is exactly when it is out of range. */
  lemma ExpandNone(b: Box, latMargin: real, lonMarginAt: real -> real)
    ensures Expand(b, latMargin, lonMarginAt).None? <==> !InRange(b)
    ensures Expand(b, latMargin, lonMarginAt).Some? <==>
              && -180.0 <= b.minLon <= 180.0 && -180.0 <= b.maxLon <= 180.0
              && -90.0 <= b.minLat <= b.maxLat <= 90.0
  {}

  /** The widened box holds every point within the margins of a point of the box, across the
      antimeridian, for boxes that cross it already, near a pole and around the whole globe. */
  lemma ExpandContains(b: Box, latMargin: real, lonMarginAt: real -> real, p: Point, q: Point)
    requires InRange(b) && InBox(p, b) && p.Valid() && q.Valid()
    requires latMargin >= 0.0 && lonMarginAt(WidestLat(b, latMargin)) >= 0.0
    requires Near(q, p, b, latMargin, lonMarginAt)
    ensures InBox(q, Expand(b, latMargin, lonMarginAt).value)
  {
    WrapLonRange(p.lon);
    WrapLonRange(q.lon);
    var m := lonMarginAt(WidestLat(b, latMargin));
    if WidestLat(b, latMargin) < POLAR_LAT && Span(b) + 2.0 * m < 360.0 {
      ExpandedLon(b.minLon, b.maxLon, m, WrapLon(p.lon), WrapLon(q.lon));
    }
  }

  /** The widest latitude is the one of largest absolute value among those within the margin. */
  lemma WidestIs(b: Box, latMargin: real, lat: real)
    requires InRange(b) && latMargin >= 0.0 && -90.0 <= lat <= 90.0
    ensures b.minLat - latMargin <= lat <= b.maxLat + latMargin ==> Abs(lat) <= WidestLat(b, latMargin)
    ensures var low, high := Max(b.minLat - latMargin, -90.0), Min(b.maxLat + latMargin, 90.0);
      WidestLat(b, latMargin) == Abs(low) || WidestLat(b, latMargin) == Abs(high)
  {}

  /** The widened box holds nothing else: each of its points is within the margins of one of the box. */
  lemma ExpandOnly(b: Box, latMargin: real, lonMarginAt: real -> real, q: Point) returns (p: Point)
    requires InRange(b) && q.Valid() && latMargin >= 0.0 && lonMarginAt(WidestLat(b, latMargin)) >= 0.0
    requires InBox(q, Expand(b, latMargin, lonMarginAt).value)
    ensures p.Valid() && InBox(p, b) && Near(q, p, b, latMargin, lonMarginAt)
  {
    WrapLonRange(q.lon);
    WrapLonRange(b.minLon);
    WrapLonRange(b.maxLon);
    var m := lonMarginAt(WidestLat(b, latMargin));
    var y := WrapLon(q.lon);
    var lat := Max(b.minLat, Min(q.lat, b.maxLat));
    if WidestLat(b, latMargin) >= 89.0 {
      return Point(b.minLon, lat);
    }
    ExpandedHolds(b, latMargin, lonMarginAt, q);
    var lon := NearestLon(b.minLon, b.maxLon, m, y);
    WrapLonRange(lon);
    p := Point(lon, lat);
  }

  lemma ExpandedHolds(b: Box, latMargin: real, lonMarginAt: real -> real, q: Point)
    requires InRange(b) && InBox(q, Expand(b, latMargin, lonMarginAt).value) && WidestLat(b, latMargin) < 89.0
    ensures var m := lonMarginAt(WidestLat(b, latMargin));
      Span(b) + 2.0 * m >= 360.0 || LonIn(WrapLon(q.lon), West(b.minLon, m), East(b.maxLon, m))
  {}

  /** A longitude of the widened box lies in the box or within the margin of one of its ends. */
  lemma NearestLon(minLon: real, maxLon: real, m: real, y: real) returns (lon: real)
    requires -180.0 <= minLon <= 180.0 && -180.0 <= maxLon <= 180.0 && m >= 0.0 && -180.0 <= y < 180.0
    requires (if minLon > maxLon then maxLon + 360.0 - minLon else maxLon - minLon) + 2.0 * m >= 360.0
             || LonIn(y, West(minLon, m), East(maxLon, m))
    ensures -180.0 <= lon <= 180.0 && LonWithin(y, lon, m)
    ensures LonIn(if lon == 180.0 then -180.0 else lon, minLon, maxLon)
  {
    lon := if LonIn(y, minLon, maxLon) then y else if LonWithin(y, minLon, m) then minLon else maxLon;
  }

  /** The eastern and western bounds of a widened box. */
  function West(minLon: real, m: real): real {
    if minLon - m < -180.0 then minLon - m + 360.0 else minLon - m
  }

  function East(maxLon: real, m: real): real {
    if maxLon + m > 180.0 then maxLon + m - 360.0 else maxLon + m
  }

  predicate LonIn(lon: real, minLon: real, maxLon: real) {
    if minLon <= maxLon then minLon <= lon <= maxLon || (lon == -180.0 && maxLon >= 180.0)
    else lon >= minLon || lon <= maxLon
  }

  lemma ExpandedLon(minLon: real, maxLon: real, m: real, x: real, y: real)
    requires -180.0 <= minLon <= 180.0 && -180.0 <= maxLon <= 180.0 && m >= 0.0
    requires -180.0 <= x < 180.0 && -180.0 <= y < 180.0
    requires (if minLon > maxLon then maxLon + 360.0 - minLon else maxLon - minLon) + 2.0 * m < 360.0
    requires LonIn(x, minLon, maxLon)
    requires -m <= y - x <= m || -m <= y - x + 360.0 <= m || -m <= y - x - 360.0 <= m
    ensures LonIn(y, West(minLon, m), East(maxLon, m))
  {}

  // ----- Intersection -----

  /** The intersection of two boxes; a box that crosses the antimeridian keeps `current`. */
  function Intersect(current: Box, other: Box): Option<Box> {
    if current.Crossing() || other.Crossing() then Some(current)
    else
      var out := Box(Max(current.minLon, other.minLon), Max(current.minLat, other.minLat),
                     Min(current.maxLon, other.maxLon), Min(current.maxLat, other.maxLat));
      if out.minLon <= out.maxLon && out.minLat <= out.maxLat then Some(out) else None
  }

  /** The intersection only narrows, to points of both boxes unless one of them crosses the
      antimeridian, which leaves the current one as it is. */
  lemma IntersectNarrows(current: Box, other: Box, p: Point)
    ensures Intersect(current, other).Some? && InBox(p, Intersect(current, other).value) ==> InBox(p, current)
    ensures if current.minLon > current.maxLon || other.minLon > other.maxLon then
              Intersect(current, other) == Some(current)
            else
              Intersect(current, other).Some? && InBox(p, Intersect(current, other).value) ==> InBox(p, other)
  {}

  /** The antimeridian, when only one box starts on it and only the other ends on it (or the boxes
      lie beyond it and do not meet). */
  predicate OnSeam(current: Box, other: Box, lon: real) {
    && lon == -180.0 && !current.Crossing() && !other.Crossing()
    && (current.minLon > -180.0 || other.minLon > -180.0)
    && (|| current.maxLon < 180.0 || other.maxLon < 180.0
        || Max(current.minLon, other.minLon) > Min(current.maxLon, other.maxLon))
  }

  /** A common point is kept exactly when it does not lie on the seam between the boxes. */
  lemma IntersectKeeps(current: Box, other: Box, p: Point)
    requires InBox(p, current) && InBox(p, other)
    ensures (Intersect(current, other).Some? && InBox(p, Intersect(current, other).value))
            <==> !OnSeam(current, other, WrapLon(p.lon))
  {
    WrapLonRange(p.lon);
  }

  /** Two boxes that share the antimeridian but are taken for disjoint. */
  lemma SeamLost(lat: real)
    ensures var west, east := Box(-180.0, lat, -170.0, lat), Box(170.0, lat, 180.0, lat);
      && InBox(Point(180.0, lat), west) && InBox(Point(180.0, lat), east) && Intersect(west, east) == None
  {
    WrapLonRange(180.0);
  }

  /** A point strictly within the margins is never lost: narrowing the scan's box by a widened one
      keeps every sample of the scan near the requested box. */
  lemma NarrowingKeeps(current: Box, b: Box, latMargin: real, lonMarginAt: real -> real, p: Point, q: Point)
    requires InRange(b) && InBox(p, b) && p.Valid() && q.Valid()
    requires InBox(q, current) && current.minLon <= 180.0
    requires latMargin >= 0.0 && lonMarginAt(WidestLat(b, latMargin)) >= 0.0
    requires StrictlyNear(q, p, b, latMargin, lonMarginAt)
    ensures var widened := Expand(b, latMargin, lonMarginAt).value;
      && InBox(q, widened)
      && Intersect(current, widened).Some? && InBox(q, Intersect(current, widened).value)
  {
    var widened := Expand(b, latMargin, lonMarginAt).value;
    ExpandContains(b, latMargin, lonMarginAt, p, q);
    IntersectKeeps(current, widened, q);
    WrapLonRange(p.lon);
    WrapLonRange(q.lon);
    var m := lonMarginAt(WidestLat(b, latMargin));
    if WidestLat(b, latMargin) < POLAR_LAT && Span(b) + 2.0 * m < 360.0 && WrapLon(q.lon) == -180.0 {
      NotOnSeam(b.minLon, b.maxLon, m, WrapLon(p.lon));
    }
  }

  /** A box whose margin strictly passes the antimeridian crosses it. */
  lemma NotOnSeam(minLon: real, maxLon: real, m: real, x: real)
    requires -180.0 <= minLon <= 180.0 && -180.0 <= maxLon <= 180.0 && m >= 0.0
    requires -180.0 <= x < 180.0 && LonIn(x, minLon, maxLon)
    requires (if minLon > maxLon then maxLon + 360.0 - minLon else maxLon - minLon) + 2.0 * m < 360.0
    requires -m < -180.0 - x < m || -m < 180.0 - x < m
    ensures West(minLon, m) > East(maxLon, m) || (West(minLon, m) <= -180.0 && East(maxLon, m) >= 180.0)
  {}
}
