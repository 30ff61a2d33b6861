/**
 The envelope of a geometry tree, and what reading an encoded one does to an envelope.
 */
module Envelopes {
  import opened Wrappers
  import opened Floats
  import opened Wkb
  import opened WkbRoundTrip

  // ----- What the envelope is -----

  datatype Position = Position(x: F64, y: F64)

  datatype Envelope = Envelope(minX: F64, minY: F64, maxX: F64, maxY: F64) {
    /** It holds at least one point. */
    predicate NonEmpty() {
      Le(minX, maxX) && Le(minY, maxY)
    }
  }

  const NO_POINTS := Envelope(PosInf, PosInf, NegInf, NegInf)

  /** The position of a point, which has at least two coordinates. */
  function PositionOf(p: RawPoint): Position {
    if |p| < 2 then Position(NaN, NaN) else Position(ToF64(p[0]), ToF64(p[1]))
  }

  /** The positions of some points that are not NaN; an empty point is written as NaN. */
  function PointPositions(points: seq<RawPoint>): seq<Position> {
    if points == [] then []
    else
      var p := PositionOf(points[0]);
      (if p.x.NaN? || p.y.NaN? then [] else [p]) + PointPositions(points[1..])
  }

  function RingPositions(rings: seq<seq<RawPoint>>): seq<Position> {
    if rings == [] then [] else PointPositions(rings[0]) + RingPositions(rings[1..])
  }

  /** All positions of a geometry. */
  function Positions(g: Geometry): seq<Position>
    decreases g, 1
  {
    match g.body
    case Single(point) => PointPositions([point])
    case Line(points) => PointPositions(points)
    case Polygon(rings) => RingPositions(rings)
    case Multi(children) => ChildPositions(children)
  }

  function ChildPositions(children: seq<Geometry>): seq<Position>
    decreases children, 0
  {
    if children == [] then [] else Positions(children[0]) + ChildPositions(children[1..])
  }

  function Grow(env: Envelope, p: Position): Envelope {
    if p.x.NaN? || p.y.NaN? then env
    else Envelope(Min(env.minX, p.x), Min(env.minY, p.y), Max(env.maxX, p.x), Max(env.maxY, p.y))
  }

  function GrowAll(env: Envelope, ps: seq<Position>): Envelope
    decreases |ps|
  {
    if ps == [] then env else GrowAll(Grow(env, ps[0]), ps[1..])
  }

  /** The smallest box around some positions: it bounds all of them and touches one on each side. */
  predicate Bounds(env: Envelope, ps: seq<Position>) {
    && (forall i :: 0 <= i < |ps| ==>
          Le(env.minX, ps[i].x) && Le(ps[i].x, env.maxX) && Le(env.minY, ps[i].y) && Le(ps[i].y, env.maxY))
    && (exists i :: 0 <= i < |ps| && ps[i].x == env.minX)
    && (exists i :: 0 <= i < |ps| && ps[i].x == env.maxX)
    && (exists i :: 0 <= i < |ps| && ps[i].y == env.minY)
    && (exists i :: 0 <= i < |ps| && ps[i].y == env.maxY)
  }

  predicate Numbers(ps: seq<Position>) {
    forall i :: 0 <= i < |ps| ==> !ps[i].x.NaN? && !ps[i].y.NaN?
  }

  lemma {:induction false} GrowSnoc(env: Envelope, ps: seq<Position>, p: Position)
    ensures GrowAll(env, ps + [p]) == Grow(GrowAll(env, ps), p)
    decreases |ps|
  {
    if ps == [] {
      assert [] + [p] == [p];
    } else {
      assert (ps + [p])[1..] == ps[1..] + [p];
      GrowSnoc(Grow(env, ps[0]), ps[1..], p);
    }
  }

  lemma BoundsOne(p: Position)
    requires !p.x.NaN? && !p.y.NaN?
    ensures Bounds(Grow(NO_POINTS, p), [p])
  {
    assert [p][0] == p;
  }

  lemma BoundsNext(env: Envelope, ps: seq<Position>, p: Position)
    requires Bounds(env, ps) && !p.x.NaN? && !p.y.NaN? && Numbers(ps)
    ensures Bounds(Grow(env, p), ps + [p])
  {
    var next, all := Grow(env, p), ps + [p];
    LeTotal(env.minX, p.x);
    LeTotal(env.minY, p.y);
    LeTotal(env.maxX, p.x);
    LeTotal(env.maxY, p.y);
    forall i | 0 <= i < |all|
      ensures Le(next.minX, all[i].x) && Le(all[i].x, next.maxX) && Le(next.minY, all[i].y) && Le(all[i].y, next.maxY)
    {
      if i < |ps| {
        assert all[i] == ps[i];
        LeTransitive(next.minX, env.minX, all[i].x);
        LeTransitive(all[i].x, env.maxX, next.maxX);
        LeTransitive(next.minY, env.minY, all[i].y);
        LeTransitive(all[i].y, env.maxY, next.maxY);
      }
    }
    var a :| 0 <= a < |ps| && ps[a].x == env.minX;
    var b :| 0 <= b < |ps| && ps[b].x == env.maxX;
    var c :| 0 <= c < |ps| && ps[c].y == env.minY;
    var d :| 0 <= d < |ps| && ps[d].y == env.maxY;
    assert all[a] == ps[a] && all[b] == ps[b] && all[c] == ps[c] && all[d] == ps[d] && all[|ps|] == p;
  }

  /** The grown envelope is the exact bounds, and without positions it is empty. */
  lemma {:induction false} GrownBounds(ps: seq<Position>)
    requires Numbers(ps)
    ensures ps == [] ==> GrowAll(NO_POINTS, ps) == NO_POINTS && !NO_POINTS.NonEmpty()
    ensures ps != [] ==> Bounds(GrowAll(NO_POINTS, ps), ps) && GrowAll(NO_POINTS, ps).NonEmpty()
  {
    if ps != [] {
      var n := |ps| - 1;
      assert ps == ps[..n] + [ps[n]];
      GrownBounds(ps[..n]);
      GrowSnoc(NO_POINTS, ps[..n], ps[n]);
      if n == 0 {
        BoundsOne(ps[0]);
      } else {
        BoundsNext(GrowAll(NO_POINTS, ps[..n]), ps[..n], ps[n]);
      }
      BoundsNonEmpty(GrowAll(NO_POINTS, ps), ps);
    }
  }

  lemma BoundsNonEmpty(env: Envelope, ps: seq<Position>)
    requires Bounds(env, ps) && ps != []
    ensures env.NonEmpty()
  {
    LeTransitive(env.minX, ps[0].x, env.maxX);
    LeTransitive(env.minY, ps[0].y, env.maxY);
  }

  lemma {:induction false} GrowAppend(env: Envelope, a: seq<Position>, b: seq<Position>)
    ensures GrowAll(env, a + b) == GrowAll(GrowAll(env, a), b)
    decreases |a|
  {
    if a == [] {
      assert a + b == b;
    } else {
      assert (a + b)[1..] == a[1..] + b;
      GrowAppend(Grow(env, a[0]), a[1..], b);
    }
  }

  lemma {:induction false} PointNumbers(points: seq<RawPoint>)
    ensures Numbers(PointPositions(points))
  {
    if points != [] {
      PointNumbers(points[1..]);
    }
  }

  lemma {:induction false} RingNumbers(rings: seq<seq<RawPoint>>)
    ensures Numbers(RingPositions(rings))
  {
    if rings != [] {
      PointNumbers(rings[0]);
      RingNumbers(rings[1..]);
    }
  }

  lemma {:induction false} PositionNumbers(g: Geometry)
    ensures Numbers(Positions(g))
    decreases g, 1
  {
    match g.body
    case Single(point) => PointNumbers([point]);
    case Line(points) => PointNumbers(points);
    case Polygon(rings) => RingNumbers(rings);
    case Multi(children) => ChildNumbers(children);
  }

  lemma {:induction false} ChildNumbers(children: seq<Geometry>)
    ensures Numbers(ChildPositions(children))
    decreases children, 0
  {
    if children != [] {
      PositionNumbers(children[0]);
      ChildNumbers(children[1..]);
    }
  }

  /** The envelope of some bytes. */
  function EnvelopeOf(b: Bytes): Option<Envelope> {
    var g := ParseGeometry(b, 0);
    if g.Malformed? || g.rest != [] then None
    else
      var env := GrowAll(NO_POINTS, Positions(g.value));
      if env.NonEmpty() then Some(env) else None
  }

  /** There is an envelope exactly for the encodings of well-formed geometries with a point, and it
      is the exact minimum and maximum of the points' coordinates. */
  lemma EnvelopeIsExact(b: Bytes, env: Envelope)
    ensures EnvelopeOf(b) == Some(env) ==>
              exists g :: WellFormed(g, 0) && b == Encode(g, 0) && Bounds(env, Positions(g))
  {
    if EnvelopeOf(b) == Some(env) {
      GeometrySound(b, 0);
      var g := ParseGeometry(b, 0).value;
      assert Encode(g, 0) + [] == Encode(g, 0);
      PositionNumbers(g);
      GrownBounds(Positions(g));
    }
  }

  /** The envelope of an encoded geometry: nothing for one without points, else its bounds. */
  lemma {:induction false} EnvelopeOfEncoding(g: Geometry)
    requires WellFormed(g, 0)
    ensures Positions(g) == [] ==> EnvelopeOf(Encode(g, 0)) == None
    ensures Positions(g) != [] ==>
              EnvelopeOf(Encode(g, 0)).Some? && Bounds(EnvelopeOf(Encode(g, 0)).value, Positions(g))
  {
    assert Encode(g, 0) + [] == Encode(g, 0);
    GeometryComplete(g, 0, []);
    PositionNumbers(g);
    GrownBounds(Positions(g));
  }

  /** Bytes that encode no well-formed geometry have no envelope. */
  lemma NoEnvelope(b: Bytes)
    requires forall g :: WellFormed(g, 0) ==> b != Encode(g, 0)
    ensures EnvelopeOf(b) == None
  {
    if EnvelopeOf(b).Some? {
      EnvelopeIsExact(b, EnvelopeOf(b).value);
    }
  }

  // ----- What reading does -----

  /** Reading fails, or ends before the rest with a grown envelope. */
  datatype Outcome = Fails | Ends(rest: Bytes, env: Envelope)

  function ReadPoint(b: Bytes, dims: nat, little: bool, env: Envelope): Outcome
    requires dims >= 2
  {
    if |b| < 8 * dims then Fails
    else Ends(b[8 * dims..], Grow(env, Position(ToF64(DecodeWord(b, little)), ToF64(DecodeWord(b[8..], little)))))
  }

  function ReadPoints(b: Bytes, n: nat, dims: nat, little: bool, env: Envelope): (r: Outcome)
    requires dims >= 2
    ensures r.Ends? ==> |r.rest| <= |b|
    decreases n
  {
    if n == 0 then Ends(b, env)
    else
      var p := ReadPoint(b, dims, little, env);
      if p.Fails? then Fails else ReadPoints(p.rest, n - 1, dims, little, p.env)
  }

  function ReadLine(b: Bytes, dims: nat, little: bool, env: Envelope): (r: Outcome)
    requires dims >= 2
    ensures r.Ends? ==> |r.rest| <= |b|
  {
    var n := ParseCount(b, little, 8 * dims);
    if n.Malformed? then Fails else ReadPoints(n.rest, n.value, dims, little, env)
  }

  function ReadRings(b: Bytes, n: nat, dims: nat, little: bool, env: Envelope): (r: Outcome)
    requires dims >= 2
    ensures r.Ends? ==> |r.rest| <= |b|
    decreases n
  {
    if n == 0 then Ends(b, env)
    else
      var ring := ReadLine(b, dims, little, env);
      if ring.Fails? then Fails else ReadRings(ring.rest, n - 1, dims, little, ring.env)
  }

  function ReadGeometry(b: Bytes, depth: nat, env: Envelope): (r: Outcome)
    ensures r.Ends? ==> |r.rest| < |b|
    decreases |b|, 0, 0
  {
    if depth > MAX_DEPTH || |b| < 5 || b[0] > 1 then Fails
    else
      var little := b[0] == 1;
      var shape := ShapeOf(DecodeU32(b[1..], little));
      if shape.None? then Fails
      else
        var skip := if shape.value.srid then 4 else 0;
        if |b| < 5 + skip then Fails else ReadBody(b[5 + skip..], shape.value, little, depth, env)
  }

  function ReadBody(b: Bytes, shape: Shape, little: bool, depth: nat, env: Envelope): (r: Outcome)
    requires shape.dims >= 2
    ensures r.Ends? ==> |r.rest| <= |b|
    decreases |b|, 2, 0
  {
    if shape.base == 1 then ReadPoint(b, shape.dims, little, env)
    else if shape.base == 2 then ReadLine(b, shape.dims, little, env)
    else if shape.base == 3 then
      var n := ParseCount(b, little, 4);
      if n.Malformed? then Fails else ReadRings(n.rest, n.value, shape.dims, little, env)
    else if 4 <= shape.base <= 7 then
      var n := ParseCount(b, little, 5);
      if n.Malformed? then Fails else ReadChildren(n.rest, n.value, depth + 1, env)
    else Fails
  }

  function ReadChildren(b: Bytes, n: nat, depth: nat, env: Envelope): (r: Outcome)
    ensures r.Ends? ==> |r.rest| <= |b|
    decreases |b|, 1, n
  {
    if n == 0 then Ends(b, env)
    else
      var g := ReadGeometry(b, depth, env);
      if g.Fails? then Fails else ReadChildren(g.rest, n - 1, depth, g.env)
  }

  // ----- Reading is parsing -----

  lemma {:induction false} ParsePointIs(b: Bytes, dims: nat, little: bool)
    requires 2 <= dims <= 4
    ensures ParsePoint(b, dims, little).Read? <==> |b| >= 8 * dims
    ensures |b| >= 8 * dims ==>
              var p := ParsePoint(b, dims, little);
              && |p.value| == dims && p.rest == b[8 * dims..]
              && p.value[0] == DecodeWord(b, little) && p.value[1] == DecodeWord(b[8..], little)
  {
    if |b| >= 8 * dims {
      assert b[8..][8..] == b[16..];
      if dims >= 3 { assert b[16..][8..] == b[24..]; }
      if dims >= 4 { assert b[24..][8..] == b[32..]; }
      var q0 := ParsePoint(b[8..], dims - 1, little);
      var q1 := ParsePoint(b[8..][8..], dims - 2, little);
      assert ParsePoint(b[8 * dims..], 0, little) == Read([], b[8 * dims..]);
      if dims >= 3 {
        var q2 := ParsePoint(b[24..], dims - 3, little);
        if dims >= 4 {
          var q3 := ParsePoint(b[32..], dims - 4, little);
        }
      }
      assert ParsePoint(b, dims, little).value[1..] == q0.value;
    }
  }

  /** The outcome of reading, from what is parsed. */
  function PointsOutcome(r: Parsed<seq<RawPoint>>, env: Envelope): Outcome {
    if r.Malformed? then Fails else Ends(r.rest, GrowAll(env, PointPositions(r.value)))
  }

  lemma {:induction false} PositionsNext(p: RawPoint, points: seq<RawPoint>, env: Envelope)
    ensures GrowAll(env, PointPositions(Cons(p, points)))
         == GrowAll(Grow(env, PositionOf(p)), PointPositions(points))
  {
    var q := PositionOf(p);
    if q.x.NaN? || q.y.NaN? {
      assert [] + PointPositions(points) == PointPositions(points);
    } else {
      assert ([q] + PointPositions(points))[1..] == PointPositions(points);
    }
  }

  lemma {:induction false} PointIsParsed(b: Bytes, dims: nat, little: bool, env: Envelope)
    requires 2 <= dims <= 4
    ensures var p := ParsePoint(b, dims, little);
      ReadPoint(b, dims, little, env)
      == if p.Malformed? then Fails else Ends(p.rest, Grow(env, PositionOf(p.value)))
  {
    ParsePointIs(b, dims, little);
  }

  lemma {:induction false} PointsAreParsed(b: Bytes, n: nat, dims: nat, little: bool, env: Envelope)
    requires 2 <= dims <= 4
    ensures ReadPoints(b, n, dims, little, env) == PointsOutcome(ParsePoints(b, n, dims, little), env)
    decreases n
  {
    if n > 0 {
      PointIsParsed(b, dims, little, env);
      var p := ParsePoint(b, dims, little);
      if p.Read? {
        PointsAreParsed(p.rest, n - 1, dims, little, Grow(env, PositionOf(p.value)));
        var r := ParsePoints(p.rest, n - 1, dims, little);
        if r.Read? {
          PositionsNext(p.value, r.value, env);
        }
      }
    }
  }

  lemma LineIsParsed(b: Bytes, dims: nat, little: bool, env: Envelope)
    requires 2 <= dims <= 4
    ensures ReadLine(b, dims, little, env) == PointsOutcome(ParseLine(b, dims, little), env)
  {
    var n := ParseCount(b, little, 8 * dims);
    if n.Read? {
      PointsAreParsed(n.rest, n.value, dims, little, env);
    }
  }

  function RingsOutcome(r: Parsed<seq<seq<RawPoint>>>, env: Envelope): Outcome {
    if r.Malformed? then Fails else Ends(r.rest, GrowAll(env, RingPositions(r.value)))
  }

  lemma {:induction false} RingNext(ring: seq<RawPoint>, rest: seq<seq<RawPoint>>, env: Envelope)
    ensures GrowAll(env, RingPositions(Cons(ring, rest)))
         == GrowAll(GrowAll(env, PointPositions(ring)), RingPositions(rest))
  {
    GrowAppend(env, PointPositions(ring), RingPositions(rest));
  }

  lemma {:induction false} RingsAreParsed(b: Bytes, n: nat, dims: nat, little: bool, env: Envelope)
    requires 2 <= dims <= 4
    ensures ReadRings(b, n, dims, little, env) == RingsOutcome(ParseRings(b, n, dims, little), env)
    decreases n
  {
    if n > 0 {
      LineIsParsed(b, dims, little, env);
      var ring := ParseLine(b, dims, little);
      if ring.Read? {
        RingsAreParsed(ring.rest, n - 1, dims, little, GrowAll(env, PointPositions(ring.value)));
      }
      RingsNext(b, n, dims, little, env, ring, ReadLine(b, dims, little, env));
    }
  }

  /** One ring more. */
  lemma {:induction false} RingsNext(b: Bytes, n: nat, dims: nat, little: bool, env: Envelope,
                                     ring: Parsed<seq<RawPoint>>, read: Outcome)
    requires 2 <= dims <= 4 && n > 0
    requires ring == ParseLine(b, dims, little) && read == ReadLine(b, dims, little, env)
    requires read == PointsOutcome(ring, env)
    requires ring.Read? ==>
               ReadRings(ring.rest, n - 1, dims, little, GrowAll(env, PointPositions(ring.value)))
               == RingsOutcome(ParseRings(ring.rest, n - 1, dims, little), GrowAll(env, PointPositions(ring.value)))
    ensures ReadRings(b, n, dims, little, env) == RingsOutcome(ParseRings(b, n, dims, little), env)
  {
    hide ParseLine, ReadLine, GrowAll, PointPositions, RingPositions;
    if ring.Read? {
      var r := ParseRings(ring.rest, n - 1, dims, little);
      if r.Read? {
        RingNext(ring.value, r.value, env);
      }
    }
  }

  /** What a parsed geometry does to the envelope. */
  function GeometryOutcome(r: Parsed<Geometry>, env: Envelope): Outcome {
    if r.Malformed? then Fails else Ends(r.rest, GrowAll(env, Positions(r.value)))
  }

  function ChildrenOutcome(r: Parsed<seq<Geometry>>, env: Envelope): Outcome {
    if r.Malformed? then Fails else Ends(r.rest, GrowAll(env, ChildPositions(r.value)))
  }

  function BodyOutcome(r: Parsed<Body>, little: bool, code: U32, srid: Bytes, env: Envelope): Outcome {
    if r.Malformed? then Fails else Ends(r.rest, GrowAll(env, Positions(Geometry(little, code, srid, r.value))))
  }

  /** Reading finds what parsing finds. */
  lemma {:induction false} GeometryIsParsed(b: Bytes, depth: nat, env: Envelope)
    ensures ReadGeometry(b, depth, env) == GeometryOutcome(ParseGeometry(b, depth), env)
    decreases |b|, 0, 0
  {
    if depth <= MAX_DEPTH && |b| >= 5 && b[0] <= 1 {
      var little := b[0] == 1;
      var code := DecodeU32(b[1..], little);
      var shape := ShapeOf(code);
      if shape.Some? {
        var skip := if shape.value.srid then 4 else 0;
        if |b| >= 5 + skip {
          BodyIsParsed(b[5 + skip..], shape.value, little, depth, env, code, b[5..5 + skip]);
        }
      }
    }
  }

  lemma {:induction false} BodyIsParsed(b: Bytes, shape: Shape, little: bool, depth: nat, env: Envelope,
                                        code: U32, srid: Bytes)
    requires 2 <= shape.dims <= 4
    ensures ReadBody(b, shape, little, depth, env)
         == BodyOutcome(ParseBody(b, shape, little, depth), little, code, srid, env)
    decreases |b|, 2, 0
  {
    if shape.base == 1 {
      SingleIsParsed(b, shape.dims, little, env);
    } else if shape.base == 2 {
      LineIsParsed(b, shape.dims, little, env);
    } else if shape.base == 3 {
      var n := ParseCount(b, little, 4);
      if n.Read? {
        RingsAreParsed(n.rest, n.value, shape.dims, little, env);
      }
    } else if 4 <= shape.base <= 7 {
      var n := ParseCount(b, little, 5);
      if n.Read? {
        ChildrenAreParsed(n.rest, n.value, depth + 1, env);
      }
    }
  }

  lemma {:induction false} SingleIsParsed(b: Bytes, dims: nat, little: bool, env: Envelope)
    requires 2 <= dims <= 4
    ensures var p := ParsePoint(b, dims, little);
      ReadPoint(b, dims, little, env)
      == if p.Malformed? then Fails else Ends(p.rest, GrowAll(env, PointPositions([p.value])))
  {
    PointIsParsed(b, dims, little, env);
    var p := ParsePoint(b, dims, little);
    if p.Read? {
      PositionsNext(p.value, [], env);
      assert Cons(p.value, []) == [p.value];
    }
  }

  lemma {:induction false} ChildrenAreParsed(b: Bytes, n: nat, depth: nat, env: Envelope)
    ensures ReadChildren(b, n, depth, env) == ChildrenOutcome(ParseChildren(b, n, depth), env)
    decreases |b|, 1, n
  {
    if n > 0 {
      GeometryIsParsed(b, depth, env);
      var g := ParseGeometry(b, depth);
      if g.Read? {
        ChildrenAreParsed(g.rest, n - 1, depth, GrowAll(env, Positions(g.value)));
        var r := ParseChildren(g.rest, n - 1, depth);
        if r.Read? {
          GrowAppend(env, Positions(g.value), ChildPositions(r.value));
        }
      }
    }
  }
}
