/**
 The envelope of a WKB or EWKB geometry: a recursive-descent reader with a cursor.
 */
module WkbReader {
  import opened Wrappers
  import opened Floats
  import opened Wkb
  import opened Envelopes

  /** The envelope in a buffer of four numbers: the lower bounds, then the upper ones. */
  function EnvelopeIn(env: seq<F64>): Envelope
    requires |env| == 4
  {
    Envelope(env[0], env[1], env[2], env[3])
  }

  lemma {:induction false} NoPoints(b: Bytes, dims: nat, little: bool, env: Envelope)
    requires dims >= 2
    ensures ReadPoints(b, 0, dims, little, env) == Ends(b, env)
  {}

  class Reader {
    const bytes: Bytes
    var pos: nat
    /** Loop iterations so far. */
    ghost var work: nat

    ghost predicate Valid()
      reads this
    {
      pos <= |bytes|
    }

    function Rest(): Bytes
      reads this
      requires pos <= |bytes|
    {
      bytes[pos..]
    }

    constructor (bytes: Bytes)
      ensures Valid() && this.bytes == bytes && Rest() == bytes && work == 0
    {
      this.bytes, pos, work := bytes, 0, 0;
    }

    /** The bytes read since an earlier position bound the loop work, up to `slack`. */
    ghost predicate Worked(pos': nat, work': nat, slack: nat)
      reads this
    {
      pos' <= pos && work' <= work <= work' + (pos - pos') + slack
    }

    /** The next `n` bytes, if there are so many. */
    method Take(n: nat) returns (r: Option<Bytes>)
      requires Valid()
      modifies `pos
      ensures Valid()
      ensures r.Some? <==> |old(Rest())| >= n
      ensures r.Some? ==> r.value == old(Rest())[..n] && Rest() == old(Rest())[n..] && pos == old(pos) + n
      ensures r.None? ==> pos == old(pos)
    {
      if pos + n > |bytes| {
        return None;
      }
      r := Some(bytes[pos..pos + n]);
      pos := pos + n;
    }

    method TakeU32(little: bool) returns (r: Option<U32>)
      requires Valid()
      modifies `pos
      ensures Valid()
      ensures r.Some? <==> |old(Rest())| >= 4
      ensures r.Some? ==>
                r.value == DecodeU32(old(Rest()), little) && Rest() == old(Rest())[4..] && pos == old(pos) + 4
      ensures r.None? ==> pos == old(pos)
    {
      var b := Take(4);
      if b.None? {
        return None;
      }
      r := Some(DecodeU32(b.value, little));
    }

    method TakeF64(little: bool) returns (r: Option<F64>)
      requires Valid()
      modifies `pos
      ensures Valid()
      ensures r.Some? <==> |old(Rest())| >= 8
      ensures r.Some? ==>
                && r.value == ToF64(DecodeWord(old(Rest()), little))
                && Rest() == old(Rest())[8..] && pos == old(pos) + 8
      ensures r.None? ==> pos == old(pos)
    {
      ghost var rest := Rest();
      var b := Take(8);
      if b.None? {
        return None;
      }
      SamePrefix(rest, little);
      r := Some(ToF64(DecodeWord(b.value, little)));
    }

    /** A count whose items can fit in what is left. */
    method Count(little: bool, minSize: nat) returns (r: Option<U32>)
      requires Valid()
      modifies `pos
      ensures Valid() && old(pos) <= pos
      ensures var n := ParseCount(old(Rest()), little, minSize);
        && (r.Some? <==> n.Read?)
        && (r.Some? ==> r.value == n.value && Rest() == n.rest && pos == old(pos) + 4)
    {
      var n := TakeU32(little);
      if n.None? || n.value * minSize > |bytes| - pos {
        return None;
      }
      r := n;
    }

    /** The coordinates of a point beyond the first two. */
    method SkipExtra(dims: nat, little: bool) returns (ok: bool)
      requires Valid() && 2 <= dims <= 4
      modifies `pos, `work
      ensures Valid() && Worked(old(pos), old(work), if ok then 0 else 1)
      ensures ok <==> |old(Rest())| >= 8 * (dims - 2)
      ensures ok ==> Rest() == old(Rest())[8 * (dims - 2)..] && pos == old(pos) + 8 * (dims - 2)
      ensures ok ==> work == old(work) + dims - 2
    {
      ghost var rest := Rest();
      for d := 2 to dims
        invariant Valid() && pos == old(pos) + 8 * (d - 2) && work == old(work) + d - 2
        invariant |rest| >= 8 * (d - 2) && Rest() == rest[8 * (d - 2)..]
      {
        work := work + 1;
        var skipped := TakeF64(little);
        if skipped.None? {
          return false;
        }
      }
      ok := true;
    }

    /** One point: its position, then the coordinates that do not matter. */
    method ReadOne(dims: nat, little: bool, env: array<F64>) returns (ok: bool)
      requires Valid() && 2 <= dims <= 4 && env.Length == 4
      modifies `pos, `work, env
      ensures Valid() && Worked(old(pos), old(work), if ok then 0 else 1)
      ensures ok ==> pos == old(pos) + 8 * dims && work == old(work) + dims - 2
      ensures Reached(ReadPoint(old(Rest()), dims, little, old(EnvelopeIn(env[..]))), ok, env)
    {
      ghost var rest := Rest();
      var x := TakeF64(little);
      if x.None? {
        return false;
      }
      var y := TakeF64(little);
      if y.None? {
        return false;
      }
      ok := SkipExtra(dims, little);
      if ok {
        Extend(env, x.value, y.value);
        assert rest[8..][8..][8 * (dims - 2)..] == rest[8 * dims..];
      }
    }

    /** Grows the envelope by a position; an empty point is written as NaN. */
    static method Extend(env: array<F64>, x: F64, y: F64)
      requires env.Length == 4
      modifies env
      ensures EnvelopeIn(env[..]) == Grow(old(EnvelopeIn(env[..])), Position(x, y))
    {
      if !x.NaN? && !y.NaN? {
        env[0] := Min(env[0], x);
        env[1] := Min(env[1], y);
        env[2] := Max(env[2], x);
        env[3] := Max(env[3], y);
      }
    }

    method Points(n: nat, dims: nat, little: bool, env: array<F64>) returns (ok: bool)
      requires Valid() && 2 <= dims <= 4 && env.Length == 4
      modifies `pos, `work, env
      ensures Valid() && Worked(old(pos), old(work), if ok then 0 else 2)
      ensures Reached(ReadPoints(old(Rest()), n, dims, little, old(EnvelopeIn(env[..]))), ok, env)
    {
      ok := PointsTo(n, dims, little, env, ReadPoints(Rest(), n, dims, little, EnvelopeIn(env[..])));
    }

    /** Reads the points one after the other; `out` is what reading them comes to. */
    method PointsTo(n: nat, dims: nat, little: bool, env: array<F64>, ghost out: Outcome) returns (ok: bool)
      requires Valid() && 2 <= dims <= 4 && env.Length == 4
      requires ReadPoints(Rest(), n, dims, little, EnvelopeIn(env[..])) == out
      modifies `pos, `work, env
      ensures Valid() && Worked(old(pos), old(work), if ok then 0 else 2)
      ensures Reached(out, ok, env)
    {
      hide ReadPoints, ReadPoint;
      for i := 0 to n
        invariant Valid() && Worked(old(pos), old(work), 0)
        invariant ReadPoints(Rest(), n - i, dims, little, EnvelopeIn(env[..])) == out
      {
        var more := PointTurn(n - i, dims, little, env, out);
        if !more {
          return false;
        }
      }
      NoPoints(Rest(), dims, little, EnvelopeIn(env[..]));
      ok := true;
    }

    /** One turn of the loop over `k` points. */
    method PointTurn(k: nat, dims: nat, little: bool, env: array<F64>, ghost out: Outcome) returns (ok: bool)
      requires Valid() && 2 <= dims <= 4 && env.Length == 4 && k > 0
      requires ReadPoints(Rest(), k, dims, little, EnvelopeIn(env[..])) == out
      modifies `pos, `work, env
      ensures Valid() && Worked(old(pos), old(work), if ok then 0 else 2)
      ensures if ok then ReadPoints(Rest(), k - 1, dims, little, EnvelopeIn(env[..])) == out else out.Fails?
    {
      work := work + 1;
      ok := ReadOne(dims, little, env);
    }

    /** Reading ended as it was to end. */
    predicate Reached(out: Outcome, ok: bool, env: array<F64>)
      reads this, env
      requires pos <= |bytes| && env.Length == 4
    {
      (ok <==> out.Ends?) && (ok ==> Ends(Rest(), EnvelopeIn(env[..])) == out)
    }

    /** The points of a line or a ring, with their count. */
    method LinePoints(dims: nat, little: bool, env: array<F64>) returns (ok: bool)
      requires Valid() && 2 <= dims <= 4 && env.Length == 4
      modifies `pos, `work, env
      ensures Valid() && Worked(old(pos), old(work), if ok then 0 else 2) && (ok ==> pos >= old(pos) + 4)
      ensures ok ==> work - old(work) <= pos - old(pos) - 4
      ensures Reached(ReadLine(old(Rest()), dims, little, old(EnvelopeIn(env[..]))), ok, env)
    {
      var n := Count(little, 8 * dims);
      if n.None? {
        return false;
      }
      ok := Points(n.value, dims, little, env);
    }

    method Rings(n: nat, dims: nat, little: bool, env: array<F64>) returns (ok: bool)
      requires Valid() && 2 <= dims <= 4 && env.Length == 4
      modifies `pos, `work, env
      ensures Valid() && Worked(old(pos), old(work), if ok then 0 else 3)
      ensures Reached(ReadRings(old(Rest()), n, dims, little, old(EnvelopeIn(env[..]))), ok, env)
    {
      ghost var out := ReadRings(Rest(), n, dims, little, EnvelopeIn(env[..]));
      for i := 0 to n
        invariant Valid() && Worked(old(pos), old(work), 0)
        invariant ReadRings(Rest(), n - i, dims, little, EnvelopeIn(env[..])) == out
      {
        var more := RingTurn(n - i, dims, little, env);
        if !more {
          return false;
        }
      }
      ok := true;
    }

    /** One turn of the loop over `k` rings. */
    method RingTurn(k: nat, dims: nat, little: bool, env: array<F64>) returns (ok: bool)
      requires Valid() && 2 <= dims <= 4 && env.Length == 4 && k > 0
      modifies `pos, `work, env
      ensures Valid() && Worked(old(pos), old(work), if ok then 0 else 3)
      ensures var out := ReadRings(old(Rest()), k, dims, little, old(EnvelopeIn(env[..])));
        if ok then ReadRings(Rest(), k - 1, dims, little, EnvelopeIn(env[..])) == out else out.Fails?
    {
      work := work + 1;
      ok := LinePoints(dims, little, env);
    }

    /** Slack of a reader that fails below `depth`. */
    static function Slack(depth: nat): nat {
      if depth > MAX_DEPTH then 0 else 4 + (MAX_DEPTH - depth)
    }

    method Geometry(env: array<F64>, depth: nat) returns (ok: bool)
      requires Valid() && env.Length == 4
      modifies `pos, `work, env
      ensures Valid() && Worked(old(pos), old(work), if ok then 0 else Slack(depth))
      ensures ok ==> work - old(work) < pos - old(pos)
      ensures Reached(ReadGeometry(old(Rest()), depth, old(EnvelopeIn(env[..]))), ok, env)
      decreases if depth > MAX_DEPTH then 0 else 1 + MAX_DEPTH - depth, 1
    {
      if depth > MAX_DEPTH {
        return false;
      }
      ghost var rest := Rest();
      var first := Take(1);
      if first.None? || first.value[0] > 1 {
        return false;
      }
      var little := first.value[0] == 1;
      var code := TakeU32(little);
      if code.None? {
        return false;
      }
      assert Rest() == rest[5..];
      var shape := ShapeOf(code.value);
      if shape.None? {
        return false;
      }
      if shape.value.srid {
        var srid := Take(4);
        if srid.None? {
          return false;
        }
        assert Rest() == rest[9..];
      }
      ok := Body(shape.value, little, env, depth);
    }

    method Body(shape: Shape, little: bool, env: array<F64>, depth: nat) returns (ok: bool)
      requires Valid() && env.Length == 4 && 2 <= shape.dims <= 4 && depth <= MAX_DEPTH
      modifies `pos, `work, env
      ensures Valid() && Worked(old(pos), old(work), if ok then 0 else Slack(depth))
      ensures Reached(ReadBody(old(Rest()), shape, little, depth, old(EnvelopeIn(env[..]))), ok, env)
      decreases 1 + MAX_DEPTH - depth, 0
    {
      if shape.base == 1 {
        ok := ReadOne(shape.dims, little, env);
      } else if shape.base == 2 {
        ok := LinePoints(shape.dims, little, env);
      } else if shape.base == 3 {
        var n := Count(little, 4);
        if n.None? {
          return false;
        }
        ok := Rings(n.value, shape.dims, little, env);
      } else if 4 <= shape.base <= 7 {
        var n := Count(little, 5);
        if n.None? {
          return false;
        }
        ok := Children(n.value, env, depth + 1);
      } else {
        ok := false;
      }
    }

    method Children(n: nat, env: array<F64>, depth: nat) returns (ok: bool)
      requires Valid() && env.Length == 4 && 0 < depth <= MAX_DEPTH + 1
      modifies `pos, `work, env
      ensures Valid() && Worked(old(pos), old(work), if ok then 0 else 1 + Slack(depth))
      ensures Reached(ReadChildren(old(Rest()), n, depth, old(EnvelopeIn(env[..]))), ok, env)
      decreases 1 + MAX_DEPTH - depth, 3
    {
      ghost var out := ReadChildren(Rest(), n, depth, EnvelopeIn(env[..]));
      for i := 0 to n
        invariant Valid() && Worked(old(pos), old(work), 0)
        invariant ReadChildren(Rest(), n - i, depth, EnvelopeIn(env[..])) == out
      {
        var more := ChildTurn(n - i, env, depth);
        if !more {
          return false;
        }
      }
      ok := true;
    }

    /** One turn of the loop over `k` child geometries. */
    method ChildTurn(k: nat, env: array<F64>, depth: nat) returns (ok: bool)
      requires Valid() && env.Length == 4 && 0 < depth <= MAX_DEPTH + 1 && k > 0
      modifies `pos, `work, env
      ensures Valid() && Worked(old(pos), old(work), if ok then 0 else 1 + Slack(depth))
      ensures var out := ReadChildren(old(Rest()), k, depth, old(EnvelopeIn(env[..])));
        if ok then ReadChildren(Rest(), k - 1, depth, EnvelopeIn(env[..])) == out else out.Fails?
      decreases 1 + MAX_DEPTH - depth, 2
    {
      work := work + 1;
      ok := Geometry(env, depth);
    }
  }

  lemma SamePrefix(b: Bytes, little: bool)
    requires |b| >= 8
    ensures DecodeWord(b[..8], little) == DecodeWord(b, little)
  {
    assert b[..8][4..] == b[4..8];
  }

  /** The envelope of some bytes, with loop work bounded by their number. */
  method WkbEnvelope(bytes: Bytes) returns (r: Option<Envelope>, ghost work: nat)
    ensures r == EnvelopeOf(bytes)
    ensures work <= |bytes| + 4 + MAX_DEPTH
  {
    var reader := new Reader(bytes);
    var env := new F64[4](i => if i < 2 then PosInf else NegInf);
    assert EnvelopeIn(env[..]) == NO_POINTS;
    GeometryIsParsed(bytes, 0, NO_POINTS);
    var ok := reader.Geometry(env, 0);
    work := reader.work;
    if ok && reader.pos == |bytes| && Le(env[0], env[2]) && Le(env[1], env[3]) {
      r := Some(EnvelopeIn(env[..]));
    } else {
      r := None;
    }
  }
}
