/**
 The parser inverts the encoding of geometry trees, and accepts nothing else.
 */
module WkbRoundTrip {
  import opened Wrappers
  import opened Wkb

  lemma Assoc(a: Bytes, b: Bytes, c: Bytes)
    ensures (a + b) + c == a + (b + c)
  {}

  lemma ConsParts<T>(xs: seq<T>)
    requires xs != []
    ensures Cons(xs[0], xs[1..]) == xs
  {}

  lemma NothingFirst(b: Bytes)
    ensures [] + b == b
  {}

  // ----- What is parsed was encoded -----

  lemma {:induction false} PointSound(b: Bytes, dims: nat, little: bool)
    requires ParsePoint(b, dims, little).Read?
    ensures var r := ParsePoint(b, dims, little);
      |r.value| == dims && b == EncodePoint(r.value, little) + r.rest
  {
    if dims > 0 {
      PointSound(b[8..], dims - 1, little);
      WordUnique(b, little);
      var r := ParsePoint(b[8..], dims - 1, little);
      assert b == b[..8] + b[8..];
      Assoc(b[..8], EncodePoint(r.value, little), r.rest);
    } else {
      NothingFirst(b);
    }
  }

  lemma {:induction false} PointsNext(p: RawPoint, points: seq<RawPoint>, little: bool, rest: Bytes)
    ensures EncodePoints(Cons(p, points), little) + rest
         == EncodePoint(p, little) + (EncodePoints(points, little) + rest)
  {
    Assoc(EncodePoint(p, little), EncodePoints(points, little), rest);
  }

  lemma {:induction false} PointsSound(b: Bytes, n: nat, dims: nat, little: bool)
    requires ParsePoints(b, n, dims, little).Read?
    ensures var r := ParsePoints(b, n, dims, little);
      && |r.value| == n && (forall i :: 0 <= i < n ==> |r.value[i]| == dims)
      && b == EncodePoints(r.value, little) + r.rest
    decreases n
  {
    if n > 0 {
      PointSound(b, dims, little);
      var p := ParsePoint(b, dims, little);
      PointsSound(p.rest, n - 1, dims, little);
      var r := ParsePoints(p.rest, n - 1, dims, little);
      PointsNext(p.value, r.value, little, r.rest);
    } else {
      NothingFirst(b);
    }
  }

  lemma CountSound(b: Bytes, little: bool, minSize: nat)
    requires ParseCount(b, little, minSize).Read?
    ensures var r := ParseCount(b, little, minSize);
      b == EncodeU32(r.value, little) + r.rest
  {
    U32Unique(b, little);
    assert b == b[..4] + b[4..];
  }

  function EncodeLine(points: seq<RawPoint>, little: bool): Bytes
    requires |points| < TWO_32
  {
    EncodeU32(|points|, little) + EncodePoints(points, little)
  }

  lemma LineSound(b: Bytes, dims: nat, little: bool)
    requires ParseLine(b, dims, little).Read?
    ensures var r := ParseLine(b, dims, little);
      WellFormedPoints(r.value, dims) && b == EncodeLine(r.value, little) + r.rest
  {
    CountSound(b, little, 8 * dims);
    var n := ParseCount(b, little, 8 * dims);
    PointsSound(n.rest, n.value, dims, little);
    var r := ParseLine(b, dims, little);
    Assoc(EncodeU32(n.value, little), EncodePoints(r.value, little), r.rest);
  }

  lemma {:induction false} RingsNext(ring: seq<RawPoint>, rings: seq<seq<RawPoint>>, little: bool, rest: Bytes)
    requires |ring| < TWO_32 && forall i :: 0 <= i < |rings| ==> |rings[i]| < TWO_32
    ensures forall i :: 0 <= i < |Cons(ring, rings)| ==> |Cons(ring, rings)[i]| < TWO_32
    ensures EncodeRings(Cons(ring, rings), little) + rest
         == EncodeLine(ring, little) + (EncodeRings(rings, little) + rest)
  {
    Assoc(EncodeLine(ring, little), EncodeRings(rings, little), rest);
  }

  predicate WellFormedRings(rings: seq<seq<RawPoint>>, dims: nat) {
    forall i :: 0 <= i < |rings| ==> WellFormedPoints(rings[i], dims)
  }

  lemma {:induction false} RingsSound(b: Bytes, n: nat, dims: nat, little: bool)
    requires ParseRings(b, n, dims, little).Read?
    ensures var r := ParseRings(b, n, dims, little);
      |r.value| == n && WellFormedRings(r.value, dims) && b == EncodeRings(r.value, little) + r.rest
    decreases n
  {
    if n > 0 {
      LineSound(b, dims, little);
      var ring := ParseLine(b, dims, little);
      RingsSound(ring.rest, n - 1, dims, little);
      var r := ParseRings(ring.rest, n - 1, dims, little);
      RingsNext(ring.value, r.value, little, r.rest);
    } else {
      NothingFirst(b);
    }
  }

  function Header(little: bool, code: U32, srid: Bytes): Bytes {
    [if little then 1 else 0] + EncodeU32(code, little) + srid
  }

  function EncodeBody(g: Geometry, depth: nat): Bytes
    requires WellFormed(g, depth)
  {
    match g.body
    case Single(point) => EncodePoint(point, g.little)
    case Line(points) => EncodeLine(points, g.little)
    case Polygon(rings) => EncodeU32(|rings|, g.little) + EncodeRings(rings, g.little)
    case Multi(children) => EncodeU32(|children|, g.little) + EncodeChildren(children, depth + 1)
  }

  lemma {:induction false} EncodeParts(g: Geometry, depth: nat, rest: Bytes)
    requires WellFormed(g, depth)
    ensures Encode(g, depth) + rest == Header(g.little, g.code, g.srid) + (EncodeBody(g, depth) + rest)
  {
    Assoc(Header(g.little, g.code, g.srid), EncodeBody(g, depth), rest);
  }

  lemma HeaderSound(b: Bytes, little: bool, skip: nat)
    requires |b| >= 5 + skip && b[0] == (if little then 1 else 0)
    ensures b == Header(little, DecodeU32(b[1..], little), b[5..5 + skip]) + b[5 + skip..]
  {
    U32Unique(b[1..], little);
    assert b[1..][..4] == b[1..5];
    assert b == b[..1] + b[1..5] + b[5..5 + skip] + b[5 + skip..];
  }

  /** Everything the parser accepts is the encoding of the tree it finds, followed by the rest. */
  lemma {:induction false} GeometrySound(b: Bytes, depth: nat)
    requires ParseGeometry(b, depth).Read?
    ensures var r := ParseGeometry(b, depth);
      WellFormed(r.value, depth) && b == Encode(r.value, depth) + r.rest
    decreases |b|, 0, 0
  {
    var little := b[0] == 1;
    var shape := ShapeOf(DecodeU32(b[1..], little)).value;
    var skip := if shape.srid then 4 else 0;
    var r := ParseGeometry(b, depth);
    HeaderSound(b, little, skip);
    BodySound(b[5 + skip..], shape, little, depth, r.value, r.rest);
    EncodeParts(r.value, depth, r.rest);
  }

  lemma {:induction false} BodySound(b: Bytes, shape: Shape, little: bool, depth: nat, g: Geometry, rest: Bytes)
    requires depth <= MAX_DEPTH && ParseBody(b, shape, little, depth) == Read(g.body, rest)
    requires g.little == little && ShapeOf(g.code) == Some(shape) && |g.srid| == (if shape.srid then 4 else 0)
    ensures WellFormed(g, depth) && b == EncodeBody(g, depth) + rest
    decreases |b|, 2, 0
  {
    if shape.base == 1 {
      PointSound(b, shape.dims, little);
    } else if shape.base == 2 {
      LineSound(b, shape.dims, little);
    } else if shape.base == 3 {
      PolygonSound(b, shape.dims, little);
      assert WellFormedRings(g.body.rings, shape.dims);
    } else {
      CountSound(b, little, 5);
      var n := ParseCount(b, little, 5);
      ChildrenSound(n.rest, n.value, depth + 1);
      Assoc(EncodeU32(n.value, little), EncodeChildren(g.body.children, depth + 1), rest);
    }
  }

  lemma {:induction false} PolygonSound(b: Bytes, dims: nat, little: bool)
    requires ParseCount(b, little, 4).Read?
    requires var n := ParseCount(b, little, 4); ParseRings(n.rest, n.value, dims, little).Read?
    ensures var n := ParseCount(b, little, 4);
      var r := ParseRings(n.rest, n.value, dims, little);
      && |r.value| == n.value && WellFormedRings(r.value, dims)
      && b == (EncodeU32(|r.value|, little) + EncodeRings(r.value, little)) + r.rest
  {
    CountSound(b, little, 4);
    var n := ParseCount(b, little, 4);
    RingsSound(n.rest, n.value, dims, little);
    var r := ParseRings(n.rest, n.value, dims, little);
    Assoc(EncodeU32(n.value, little), EncodeRings(r.value, little), r.rest);
  }

  lemma {:induction false} ChildrenNext(g: Geometry, children: seq<Geometry>, depth: nat, rest: Bytes)
    requires WellFormed(g, depth) && WellFormedChildren(children, depth)
    ensures WellFormedChildren(Cons(g, children), depth)
    ensures EncodeChildren(Cons(g, children), depth) + rest
         == Encode(g, depth) + (EncodeChildren(children, depth) + rest)
  {
    forall i | 0 <= i < |Cons(g, children)|
      ensures WellFormed(Cons(g, children)[i], depth)
    {
      if i > 0 {
        assert Cons(g, children)[i] == Cons(g, children)[1..][i - 1];
      }
    }
    Assoc(Encode(g, depth), EncodeChildren(children, depth), rest);
  }

  lemma {:induction false} ChildrenSound(b: Bytes, n: nat, depth: nat)
    requires ParseChildren(b, n, depth).Read?
    ensures var r := ParseChildren(b, n, depth);
      |r.value| == n && WellFormedChildren(r.value, depth) && b == EncodeChildren(r.value, depth) + r.rest
    decreases |b|, 1, n
  {
    if n > 0 {
      GeometrySound(b, depth);
      var g := ParseGeometry(b, depth);
      ChildrenSound(g.rest, n - 1, depth);
      var r := ParseChildren(g.rest, n - 1, depth);
      ChildrenNext(g.value, r.value, depth, r.rest);
    } else {
      NothingFirst(b);
    }
  }

  // ----- What is encoded is parsed -----

  lemma {:induction false} PointComplete(p: RawPoint, little: bool, rest: Bytes)
    ensures ParsePoint(EncodePoint(p, little) + rest, |p|, little) == Read(p, rest)
  {
    if p == [] {
      NothingFirst(rest);
    } else {
      var tail := EncodePoint(p[1..], little) + rest;
      Assoc(EncodeWord(p[0], little), EncodePoint(p[1..], little), rest);
      assert (EncodeWord(p[0], little) + tail)[8..] == tail;
      WordRoundTrip(p[0], little, tail);
      PointComplete(p[1..], little, rest);
      ConsParts(p);
    }
  }

  lemma {:induction false} PointsComplete(points: seq<RawPoint>, dims: nat, little: bool, rest: Bytes)
    requires forall i :: 0 <= i < |points| ==> |points[i]| == dims
    ensures ParsePoints(EncodePoints(points, little) + rest, |points|, dims, little) == Read(points, rest)
  {
    if points == [] {
      NothingFirst(rest);
    } else {
      ConsParts(points);
      PointsNext(points[0], points[1..], little, rest);
      PointComplete(points[0], little, EncodePoints(points[1..], little) + rest);
      PointsComplete(points[1..], dims, little, rest);
    }
  }

  lemma OneMore(n: nat, size: nat)
    requires n > 0
    ensures n * size == size + (n - 1) * size
  {}

  lemma {:induction false} PointsLength(points: seq<RawPoint>, dims: nat, little: bool)
    requires forall i :: 0 <= i < |points| ==> |points[i]| == dims
    ensures |EncodePoints(points, little)| == |points| * (8 * dims)
  {
    if points != [] {
      PointsLength(points[1..], dims, little);
      OneMore(|points|, 8 * dims);
    }
  }

  lemma CountComplete(n: U32, little: bool, minSize: nat, rest: Bytes)
    requires n * minSize <= |rest|
    ensures ParseCount(EncodeU32(n, little) + rest, little, minSize) == Read(n, rest)
  {
    U32RoundTrip(n, little, rest);
    assert (EncodeU32(n, little) + rest)[4..] == rest;
  }

  lemma LineComplete(points: seq<RawPoint>, dims: nat, little: bool, rest: Bytes)
    requires WellFormedPoints(points, dims)
    ensures ParseLine(EncodeLine(points, little) + rest, dims, little) == Read(points, rest)
  {
    Assoc(EncodeU32(|points|, little), EncodePoints(points, little), rest);
    PointsLength(points, dims, little);
    CountComplete(|points|, little, 8 * dims, EncodePoints(points, little) + rest);
    PointsComplete(points, dims, little, rest);
  }

  lemma {:induction false} RingsComplete(rings: seq<seq<RawPoint>>, dims: nat, little: bool, rest: Bytes)
    requires WellFormedRings(rings, dims)
    ensures forall i :: 0 <= i < |rings| ==> |rings[i]| < TWO_32
    ensures ParseRings(EncodeRings(rings, little) + rest, |rings|, dims, little) == Read(rings, rest)
    decreases |rings|
  {
    if rings == [] {
      NothingFirst(rest);
    } else {
      assert WellFormedPoints(rings[0], dims) && WellFormedRings(rings[1..], dims);
      RingsComplete(rings[1..], dims, little, rest);
      var tail := EncodeRings(rings[1..], little) + rest;
      LineComplete(rings[0], dims, little, tail);
      RingsStep(EncodeLine(rings[0], little) + tail, tail, rings[0], rings[1..], dims, little, rest);
      RingsNext(rings[0], rings[1..], little, rest);
      ConsParts(rings);
    }
  }

  lemma {:induction false} RingsStep(b: Bytes, tail: Bytes, ring: seq<RawPoint>, rings: seq<seq<RawPoint>>,
                                     dims: nat, little: bool,
                  rest: Bytes)
    requires ParseLine(b, dims, little) == Read(ring, tail)
    requires ParseRings(tail, |rings|, dims, little) == Read(rings, rest)
    ensures ParseRings(b, |rings| + 1, dims, little) == Read(Cons(ring, rings), rest)
  {}

  lemma {:induction false} RingsLength(rings: seq<seq<RawPoint>>, dims: nat, little: bool)
    requires WellFormedRings(rings, dims)
    ensures forall i :: 0 <= i < |rings| ==> |rings[i]| < TWO_32
    ensures |EncodeRings(rings, little)| >= 4 * |rings|
    decreases |rings|
  {
    assert forall i :: 0 <= i < |rings| ==> WellFormedPoints(rings[i], dims);
    if rings != [] {
      RingsLength(rings[1..], dims, little);
    }
  }

  lemma HeaderComplete(little: bool, code: U32, srid: Bytes, rest: Bytes)
    ensures var b := Header(little, code, srid) + rest;
      && |b| >= 5 + |srid| && b[0] == (if little then 1 else 0)
      && DecodeU32(b[1..], little) == code && b[5..5 + |srid|] == srid && b[5 + |srid|..] == rest
  {
    var b := Header(little, code, srid) + rest;
    assert b[1..] == EncodeU32(code, little) + (srid + rest);
    U32RoundTrip(code, little, srid + rest);
  }

  /** The encoding of a well-formed tree is parsed to that tree, whatever follows. */
  lemma {:induction false} GeometryComplete(g: Geometry, depth: nat, rest: Bytes)
    requires WellFormed(g, depth)
    ensures ParseGeometry(Encode(g, depth) + rest, depth) == Read(g, rest)
    decreases g, 1
  {
    EncodeParts(g, depth, rest);
    HeaderComplete(g.little, g.code, g.srid, EncodeBody(g, depth) + rest);
    BodyComplete(g, depth, rest);
  }

  lemma {:induction false} BodyComplete(g: Geometry, depth: nat, rest: Bytes)
    requires WellFormed(g, depth)
    ensures ParseBody(EncodeBody(g, depth) + rest, ShapeOf(g.code).value, g.little, depth) == Read(g.body, rest)
    decreases g, 0
  {
    var dims := ShapeOf(g.code).value.dims;
    match g.body
    case Single(point) => PointComplete(point, g.little, rest);
    case Line(points) => LineComplete(points, dims, g.little, rest);
    case Polygon(rings) =>
      assert WellFormedRings(rings, dims);
      RingsLength(rings, dims, g.little);
      RingsComplete(rings, dims, g.little, rest);
      CountComplete(|rings|, g.little, 4, EncodeRings(rings, g.little) + rest);
      Assoc(EncodeU32(|rings|, g.little), EncodeRings(rings, g.little), rest);
    case Multi(children) =>
      ChildrenComplete(children, depth + 1, rest);
      CountComplete(|children|, g.little, 5, EncodeChildren(children, depth + 1) + rest);
      Assoc(EncodeU32(|children|, g.little), EncodeChildren(children, depth + 1), rest);
  }

  lemma {:induction false} ChildrenComplete(children: seq<Geometry>, depth: nat, rest: Bytes)
    requires WellFormedChildren(children, depth)
    ensures ParseChildren(EncodeChildren(children, depth) + rest, |children|, depth) == Read(children, rest)
    ensures |EncodeChildren(children, depth)| >= 5 * |children|
    decreases children, 0
  {
    if children == [] {
      NothingFirst(rest);
    } else {
      GeometryComplete(children[0], depth, EncodeChildren(children[1..], depth) + rest);
      ChildrenComplete(children[1..], depth, rest);
      ChildrenNext(children[0], children[1..], depth, rest);
      ConsParts(children);
    }
  }
}
