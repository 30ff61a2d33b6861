/**
 Well-known binary: geometry trees, their encoding (section 8.2 of OGC 06-103r4, with the dimension
 and SRID flags of EWKB), and a parser that is proven to invert the encoding.
 */
module Wkb {
  import opened Wrappers
  import opened Floats

  type Byte = b: int | 0 <= b < 256
  type Bytes = seq<Byte>

  const TWO_32 := 4294967296

  type U32 = n: int | 0 <= n < TWO_32

  /** A coordinate as it is stored: the two halves of an IEEE 754 double. */
  datatype Word64 = Word64(high: U32, low: U32)

  // ----- Numbers -----

  function EncodeU32(n: U32, little: bool): (b: Bytes)
    ensures |b| == 4
  {
    var q1 := n / 256;
    var q2 := q1 / 256;
    var q3 := q2 / 256;
    if little then [n % 256, q1 % 256, q2 % 256, q3] else [q3, q2 % 256, q1 % 256, n % 256]
  }

  function Combine(b0: int, b1: int, b2: int, b3: int): (n: U32)
    requires 0 <= b0 < 256 && 0 <= b1 < 256 && 0 <= b2 < 256 && 0 <= b3 < 256
  {
    b0 + 256 * (b1 + 256 * (b2 + 256 * b3))
  }

  function DecodeU32(b: Bytes, little: bool): (n: U32)
    requires |b| >= 4
  {
    if little then Combine(b[0], b[1], b[2], b[3]) else Combine(b[3], b[2], b[1], b[0])
  }

  function EncodeWord(w: Word64, little: bool): (b: Bytes)
    ensures |b| == 8
  {
    if little then EncodeU32(w.low, true) + EncodeU32(w.high, true)
    else EncodeU32(w.high, false) + EncodeU32(w.low, false)
  }

  function DecodeWord(b: Bytes, little: bool): Word64
    requires |b| >= 8
  {
    if little then Word64(DecodeU32(b[4..], true), DecodeU32(b, true))
    else Word64(DecodeU32(b, false), DecodeU32(b[4..], false))
  }

  lemma U32RoundTrip(n: U32, little: bool, rest: Bytes)
    ensures DecodeU32(EncodeU32(n, little) + rest, little) == n
  {
    var b := EncodeU32(n, little);
    assert (b + rest)[0] == b[0] && (b + rest)[1] == b[1] && (b + rest)[2] == b[2] && (b + rest)[3] == b[3];
  }

  lemma U32Unique(b: Bytes, little: bool)
    requires |b| >= 4
    ensures EncodeU32(DecodeU32(b, little), little) == b[..4]
  {
    if little {
      Digits(b[0], b[1], b[2], b[3]);
    } else {
      Digits(b[3], b[2], b[1], b[0]);
    }
  }

  lemma Digits(b0: int, b1: int, b2: int, b3: int)
    requires 0 <= b0 < 256 && 0 <= b1 < 256 && 0 <= b2 < 256 && 0 <= b3 < 256
    ensures var n := Combine(b0, b1, b2, b3);
      n % 256 == b0 && n / 256 % 256 == b1 && n / 256 / 256 % 256 == b2 && n / 256 / 256 / 256 == b3
  {
    var q2 := b2 + 256 * b3;
    var q1 := b1 + 256 * q2;
    assert (b0 + 256 * q1) / 256 == q1;
    assert q1 / 256 == q2;
    assert q2 / 256 == b3;
  }

  lemma WordRoundTrip(w: Word64, little: bool, rest: Bytes)
    ensures DecodeWord(EncodeWord(w, little) + rest, little) == w
  {
    var b := EncodeWord(w, little) + rest;
    var first, second := if little then w.low else w.high, if little then w.high else w.low;
    assert b == EncodeU32(first, little) + (EncodeU32(second, little) + rest);
    assert b[4..] == EncodeU32(second, little) + rest;
    U32RoundTrip(first, little, EncodeU32(second, little) + rest);
    U32RoundTrip(second, little, rest);
  }

  lemma WordUnique(b: Bytes, little: bool)
    requires |b| >= 8
    ensures EncodeWord(DecodeWord(b, little), little) == b[..8]
  {
    U32Unique(b, little);
    U32Unique(b[4..], little);
    assert b[..8] == b[..4] + b[4..][..4];
  }

  /** `x` times 2 to the power `e`. */
  function Scale(x: real, e: int): real
    decreases if e < 0 then -e else e
  {
    if e == 0 then x else if e > 0 then Scale(2.0 * x, e - 1) else Scale(x / 2.0, e + 1)
  }

  /** The number of an exponent and a fraction, the smallest exponent being that of the subnormal numbers. */
  function Magnitude(exponent: nat, fraction: nat): real {
    if exponent == 0 then Scale(fraction as real, -1074)
    else Scale((fraction + 4503599627370496) as real, exponent - 1075)
  }

  /** The number that a double stands for; the sign of zero is not kept. */
  function ToF64(w: Word64): F64 {
    var negative := w.high >= 2147483648;
    var exponent := w.high / 1048576 % 2048;
    var fraction := w.high % 1048576 * TWO_32 + w.low;
    if exponent == 2047 then
      if fraction != 0 then NaN else if negative then NegInf else PosInf
    else
      Finite(if negative then -Magnitude(exponent, fraction) else Magnitude(exponent, fraction))
  }

  // ----- Geometries -----

  /** A point with two to four coordinates. */
  type RawPoint = seq<Word64>

  datatype Body =
    | Single(point: RawPoint)
    | Line(points: seq<RawPoint>)
    | Polygon(rings: seq<seq<RawPoint>>)
    | Multi(children: seq<Geometry>)

  /** Each geometry has its own byte order, type code and, if the code says so, SRID bytes. */
  datatype Geometry = Geometry(little: bool, code: U32, srid: Bytes, body: Body)

  /** What a type code says. */
  datatype Shape = Shape(base: nat, dims: nat, srid: bool)

  predicate Flag(code: U32, bit: nat)
    requires bit > 0
  {
    code / bit % 2 == 1
  }

  /** EWKB flag bits, then the ISO offsets 1000, 2000 and 3000. */
  function ShapeOf(code: U32): Option<Shape> {
    var iso := code % 268435456;
    var offset := iso / 1000;
    if offset > 3 then None
    else
      var z := Flag(code, 2147483648) || offset == 1 || offset == 3;
      var m := Flag(code, 1073741824) || offset == 2 || offset == 3;
      var dims := 2 + (if z then 1 else 0) + (if m then 1 else 0);
      Some(Shape(iso % 1000, dims, Flag(code, 536870912)))
  }

  /** The codes of ISO: a base type with 1000 for Z and 2000 for M. */
  lemma IsoCodes(base: nat, z: bool, m: bool)
    requires 1 <= base <= 7
    ensures ShapeOf(base + (if z then 1000 else 0) + (if m then 2000 else 0))
         == Some(Shape(base, 2 + (if z then 1 else 0) + (if m then 1 else 0), false))
  {}

  /** The codes of EWKB: a base type with flag bits for Z, M and an SRID. */
  lemma EwkbCodes(base: nat, z: bool, m: bool, srid: bool)
    requires 1 <= base <= 7
    ensures ShapeOf(base + (if z then 2147483648 else 0) + (if m then 1073741824 else 0)
                    + (if srid then 536870912 else 0))
         == Some(Shape(base, 2 + (if z then 1 else 0) + (if m then 1 else 0), srid))
  {
    var flags := (if z then 4 else 0) + (if m then 2 else 0) + (if srid then 1 else 0);
    var code := base + 536870912 * flags;
    assert code / 536870912 == flags;
    assert code / 1073741824 == flags / 2;
    assert code / 2147483648 == flags / 4;
    assert code % 268435456 == base;
  }

  /** Every code: three flag bits, a bit without meaning, and an ISO code below 4000. */
  lemma TypeCodes(iso: nat, spare: bool, srid: bool, m: bool, z: bool)
    requires iso < 268435456
    ensures ShapeOf(iso + (if spare then 268435456 else 0) + (if srid then 536870912 else 0)
                    + (if m then 1073741824 else 0) + (if z then 2147483648 else 0))
         == if iso >= 4000 then None
            else Some(Shape(iso % 1000,
                            2 + (if z || 1000 <= iso < 2000 || 3000 <= iso then 1 else 0)
                              + (if m || 2000 <= iso then 1 else 0),
                            srid))
  {
    FlagBits(iso, (if spare then 1 else 0) + (if srid then 2 else 0) + (if m then 4 else 0) + (if z then 8 else 0));
  }

  lemma FlagBits(iso: nat, flags: nat)
    requires iso < 268435456 && flags < 16
    ensures var code := iso + 268435456 * flags;
      && code % 268435456 == iso
      && Flag(code, 536870912) == (flags / 2 % 2 == 1)
      && Flag(code, 1073741824) == (flags / 4 % 2 == 1)
      && Flag(code, 2147483648) == (flags / 8 == 1)
  {
    var code := iso + 268435456 * flags;
    assert code / 268435456 == flags;
    assert code / 536870912 == flags / 2;
    assert code / 1073741824 == flags / 4;
    assert code / 2147483648 == flags / 8;
  }

  const MAX_DEPTH := 32

  predicate WellFormedPoints(points: seq<RawPoint>, dims: nat) {
    |points| < TWO_32 && forall i :: 0 <= i < |points| ==> |points[i]| == dims
  }

  predicate WellFormed(g: Geometry, depth: nat)
    decreases g, 1
  {
    && depth <= MAX_DEPTH
    && var shape := ShapeOf(g.code);
       && shape.Some? && |g.srid| == (if shape.value.srid then 4 else 0)
       && match g.body
          case Single(point) => shape.value.base == 1 && |point| == shape.value.dims
          case Line(points) => shape.value.base == 2 && WellFormedPoints(points, shape.value.dims)
          case Polygon(rings) =>
            && shape.value.base == 3 && |rings| < TWO_32
            && forall i :: 0 <= i < |rings| ==> WellFormedPoints(rings[i], shape.value.dims)
          case Multi(children) =>
            && 4 <= shape.value.base <= 7 && |children| < TWO_32
            && WellFormedChildren(children, depth + 1)
  }

  predicate WellFormedChildren(children: seq<Geometry>, depth: nat)
    decreases children, 0
  {
    forall i :: 0 <= i < |children| ==> WellFormed(children[i], depth)
  }

  /** A point in a number of collections, one in the other. */
  function Nested(point: RawPoint, collections: nat): Geometry {
    if collections == 0 then Geometry(true, 1, [], Single(point))
    else Geometry(true, 7, [], Multi([Nested(point, collections - 1)]))
  }

  /** At most thirty-two collections may be nested. */
  lemma {:induction false} NestingLimit(point: RawPoint, collections: nat, depth: nat)
    requires |point| == 2
    ensures WellFormed(Nested(point, collections), depth) <==> depth + collections <= 32
    decreases collections
  {
    if collections > 0 {
      NestingLimit(point, collections - 1, depth + 1);
      var inner := [Nested(point, collections - 1)];
      assert WellFormedChildren(inner, depth + 1) <==> WellFormed(inner[0], depth + 1);
    }
  }

  // ----- Encoding -----

  function EncodePoint(p: RawPoint, little: bool): (b: Bytes)
    ensures |b| == 8 * |p|
  {
    if p == [] then [] else EncodeWord(p[0], little) + EncodePoint(p[1..], little)
  }

  function EncodePoints(points: seq<RawPoint>, little: bool): Bytes {
    if points == [] then [] else EncodePoint(points[0], little) + EncodePoints(points[1..], little)
  }

  function EncodeRings(rings: seq<seq<RawPoint>>, little: bool): Bytes
    requires forall i :: 0 <= i < |rings| ==> |rings[i]| < TWO_32
  {
    if rings == [] then []
    else EncodeU32(|rings[0]|, little) + EncodePoints(rings[0], little) + EncodeRings(rings[1..], little)
  }

  function Encode(g: Geometry, depth: nat): Bytes
    requires WellFormed(g, depth)
    decreases g, 1
  {
    [if g.little then 1 else 0] + EncodeU32(g.code, g.little) + g.srid
    + match g.body
      case Single(point) => EncodePoint(point, g.little)
      case Line(points) => EncodeU32(|points|, g.little) + EncodePoints(points, g.little)
      case Polygon(rings) => EncodeU32(|rings|, g.little) + EncodeRings(rings, g.little)
      case Multi(children) => EncodeU32(|children|, g.little) + EncodeChildren(children, depth + 1)
  }

  function EncodeChildren(children: seq<Geometry>, depth: nat): Bytes
    requires WellFormedChildren(children, depth)
    decreases children, 0
  {
    if children == [] then [] else Encode(children[0], depth) + EncodeChildren(children[1..], depth)
  }

  // ----- Parsing -----

  /** What was read, and the bytes after it. */
  datatype Parsed<+T> = Malformed | Read(value: T, rest: Bytes)

  function Cons<T>(x: T, xs: seq<T>): (r: seq<T>)
    ensures |r| == 1 + |xs| && r[0] == x && r[1..] == xs
  {
    [x] + xs
  }

  function ParsePoint(b: Bytes, dims: nat, little: bool): (r: Parsed<RawPoint>)
    ensures r.Read? ==> |b| == |r.rest| + 8 * dims
  {
    if dims == 0 then Read([], b)
    else if |b| < 8 then Malformed
    else
      var rest := ParsePoint(b[8..], dims - 1, little);
      if rest.Malformed? then Malformed else Read(Cons(DecodeWord(b, little), rest.value), rest.rest)
  }

  function ParsePoints(b: Bytes, n: nat, dims: nat, little: bool): (r: Parsed<seq<RawPoint>>)
    ensures r.Read? ==> |r.rest| <= |b|
    decreases n
  {
    if n == 0 then Read([], b)
    else
      var p := ParsePoint(b, dims, little);
      if p.Malformed? then Malformed
      else
        var rest := ParsePoints(p.rest, n - 1, dims, little);
        if rest.Malformed? then Malformed else Read(Cons(p.value, rest.value), rest.rest)
  }

  /** A count, refused when its items of at least `minSize` bytes cannot fit in what is left. */
  function ParseCount(b: Bytes, little: bool, minSize: nat): (r: Parsed<U32>)
    ensures r.Read? ==> |r.rest| + 4 == |b|
  {
    if |b| < 4 then Malformed
    else
      var n := DecodeU32(b, little);
      if n * minSize <= |b| - 4 then Read(n, b[4..]) else Malformed
  }

  function ParseLine(b: Bytes, dims: nat, little: bool): (r: Parsed<seq<RawPoint>>)
    ensures r.Read? ==> |r.rest| < |b|
  {
    var n := ParseCount(b, little, 8 * dims);
    if n.Malformed? then Malformed else ParsePoints(n.rest, n.value, dims, little)
  }

  function ParseRings(b: Bytes, n: nat, dims: nat, little: bool): (r: Parsed<seq<seq<RawPoint>>>)
    ensures r.Read? ==> |r.rest| <= |b|
    decreases n
  {
    if n == 0 then Read([], b)
    else
      var ring := ParseLine(b, dims, little);
      if ring.Malformed? then Malformed
      else
        var rest := ParseRings(ring.rest, n - 1, dims, little);
        if rest.Malformed? then Malformed else Read(Cons(ring.value, rest.value), rest.rest)
  }

  function ParseGeometry(b: Bytes, depth: nat): (r: Parsed<Geometry>)
    ensures r.Read? ==> |r.rest| < |b|
    decreases |b|, 0, 0
  {
    if depth > MAX_DEPTH || |b| < 5 || b[0] > 1 then Malformed
    else
      var little := b[0] == 1;
      var code := DecodeU32(b[1..], little);
      var shape := ShapeOf(code);
      if shape.None? then Malformed
      else
        var skip := if shape.value.srid then 4 else 0;
        if |b| < 5 + skip then Malformed
        else
          var body := ParseBody(b[5 + skip..], shape.value, little, depth);
          if body.Malformed? then Malformed
          else Read(Geometry(little, code, b[5..5 + skip], body.value), body.rest)
  }

  function ParseBody(b: Bytes, shape: Shape, little: bool, depth: nat): (r: Parsed<Body>)
    ensures r.Read? ==> |r.rest| <= |b|
    decreases |b|, 2, 0
  {
    if shape.base == 1 then
      var p := ParsePoint(b, shape.dims, little);
      if p.Malformed? then Malformed else Read(Single(p.value), p.rest)
    else if shape.base == 2 then
      var line := ParseLine(b, shape.dims, little);
      if line.Malformed? then Malformed else Read(Line(line.value), line.rest)
    else if shape.base == 3 then
      var n := ParseCount(b, little, 4);
      if n.Malformed? then Malformed
      else
        var rings := ParseRings(n.rest, n.value, shape.dims, little);
        if rings.Malformed? then Malformed else Read(Polygon(rings.value), rings.rest)
    else if 4 <= shape.base <= 7 then
      var n := ParseCount(b, little, 5);
      if n.Malformed? then Malformed
      else
        var children := ParseChildren(n.rest, n.value, depth + 1);
        if children.Malformed? then Malformed else Read(Multi(children.value), children.rest)
    else Malformed
  }

  function ParseChildren(b: Bytes, n: nat, depth: nat): (r: Parsed<seq<Geometry>>)
    ensures r.Read? ==> |r.rest| <= |b|
    decreases |b|, 1, n
  {
    if n == 0 then Read([], b)
    else
      var g := ParseGeometry(b, depth);
      if g.Malformed? then Malformed
      else
        var rest := ParseChildren(g.rest, n - 1, depth);
        if rest.Malformed? then Malformed else Read(Cons(g.value, rest.value), rest.rest)
  }
}
