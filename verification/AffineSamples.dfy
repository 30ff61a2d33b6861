/**
 Mapping every sample affinely and scaling every weight: what happens to the statistics.
 */
module AffineSamples {
  import opened Wrappers
  import opened Samples
  import opened RunningMoments

  function Mapped(s: seq<Sample>, move: Sample -> Sample): (r: seq<Sample>)
    ensures |r| == |s|
  {
    seq(|s|, i requires 0 <= i < |s| => move(s[i]))
  }

  function Move(x: Sample, scale: real, offset: real): Sample {
    Sample(x.value * scale + offset, x.weight)
  }

  function Affine(s: seq<Sample>, scale: real, offset: real): (r: seq<Sample>)
    ensures |r| == |s|
  {
    Mapped(s, x => Move(x, scale, offset))
  }

  lemma MappedAppend(s: seq<Sample>, t: seq<Sample>, move: Sample -> Sample)
    ensures Mapped(s + t, move) == Mapped(s, move) + Mapped(t, move)
  {}

  /** Mapping before or after samples are put together makes no difference. */
  lemma AffineAppend(s: seq<Sample>, t: seq<Sample>, scale: real, offset: real)
    ensures Affine(s + t, scale, offset) == Affine(s, scale, offset) + Affine(t, scale, offset)
  {
    MappedAppend(s, t, x => Move(x, scale, offset));
  }

  lemma AffineOne(x: Sample, scale: real, offset: real)
    ensures Affine([x], scale, offset) == [Move(x, scale, offset)]
  {}

  lemma MoveIs(v: real, w: real, scale: real, offset: real)
    ensures Move(Sample(v, w), scale, offset) == Sample(v * scale + offset, w)
  {}

  lemma AffineLast(s: seq<Sample>, scale: real, offset: real, v: real, w: real)
    ensures Affine(s + [Sample(v, w)], scale, offset)
         == Affine(s, scale, offset) + [Sample(v * scale + offset, w)]
  {
    AffineAppend(s, [Sample(v, w)], scale, offset);
    AffineOne(Sample(v, w), scale, offset);
    MoveIs(v, w, scale, offset);
  }

  lemma {:induction false} AffineWeights(s: seq<Sample>, scale: real, offset: real)
    ensures Weight(Affine(s, scale, offset)) == Weight(s)
    ensures WeightSquares(Affine(s, scale, offset)) == WeightSquares(s)
  {
    if s != [] {
      var front, v, w := s[..|s| - 1], s[|s| - 1].value, s[|s| - 1].weight;
      assert s == front + [Sample(v, w)];
      AffineWeights(front, scale, offset);
      AffineLast(front, scale, offset, v, w);
      AppendOne(front, v, w);
      AppendOne(Affine(front, scale, offset), v * scale + offset, w);
    }
  }

  lemma {:induction false} AffineSum(s: seq<Sample>, scale: real, offset: real)
    ensures Sum(Affine(s, scale, offset)) == scale * Sum(s) + offset * Weight(s)
  {
    if s != [] {
      var front, v, w := s[..|s| - 1], s[|s| - 1].value, s[|s| - 1].weight;
      assert s == front + [Sample(v, w)];
      AffineSum(front, scale, offset);
      AffineSumNext(front, s, scale, offset, v, w, v * scale + offset);
    }
  }

  lemma AffineSumNext(s: seq<Sample>, t: seq<Sample>, scale: real, offset: real,
                      v: real, w: real, v': real)
    requires t == s + [Sample(v, w)] && v' == v * scale + offset
    requires Sum(Affine(s, scale, offset)) == scale * Sum(s) + offset * Weight(s)
    ensures Sum(Affine(t, scale, offset)) == scale * Sum(t) + offset * Weight(t)
  {
    AffineLast(s, scale, offset, v, w);
    AppendOne(s, v, w);
    AppendOne(Affine(s, scale, offset), v', w);
    AffineValue(Sum(s), Weight(s), Sum(t), Weight(t), v, w, v', scale, offset);
  }

  lemma AffineValue(sum: real, weight: real, sum': real, weight': real,
                    v: real, w: real, v': real, scale: real, offset: real)
    requires sum' == sum + v * w && weight' == weight + w && v' == v * scale + offset
    ensures scale * sum' + offset * weight' == scale * sum + offset * weight + v' * w
  {
    assert scale * sum' == scale * sum + scale * (v * w);
    assert v' * w == scale * (v * w) + offset * w;
  }

  lemma {:induction false} AffineDeviation(s: seq<Sample>, scale: real, offset: real,
                                           c: real, c': real)
    requires c' == c * scale + offset
    ensures Deviation(Affine(s, scale, offset), c') == (scale * scale) * Deviation(s, c)
  {
    if s != [] {
      var front, v, w := s[..|s| - 1], s[|s| - 1].value, s[|s| - 1].weight;
      assert s == front + [Sample(v, w)];
      AffineDeviation(front, scale, offset, c, c');
      AffineDeviationNext(front, s, v, w, v * scale + offset, scale, offset, c, c', scale * scale);
    } else {
      assert Affine(s, scale, offset) == [];
    }
  }

  lemma {:induction false} AffineDeviationNext(s: seq<Sample>, t: seq<Sample>, v: real, w: real, v': real, scale: real,
                                               offset: real, c: real, c': real, q: real)
    requires t == s + [Sample(v, w)] && v' == v * scale + offset && c' == c * scale + offset && q == scale * scale
    requires Deviation(Affine(s, scale, offset), c') == q * Deviation(s, c)
    ensures Deviation(Affine(t, scale, offset), c') == q * Deviation(t, c)
  {
    AffineLast(s, scale, offset, v, w);
    DeviationAppend(s, v, w, c);
    DeviationAppend(Affine(s, scale, offset), v', w, c');
    assert DistanceOf(Sample(v', w), c') == q * DistanceOf(Sample(v, w), c) by {
      AffineDistance(v, w, scale, offset, c, c');
    }
    Scaled(q, Deviation(s, c), DistanceOf(Sample(v, w), c), Deviation(t, c),
           Deviation(Affine(s, scale, offset), c'), DistanceOf(Sample(v', w), c'));
  }

  lemma Scaled(q: real, x: real, y: real, sum: real, qx: real, qy: real)
    requires qx == q * x && qy == q * y && sum == x + y
    ensures qx + qy == q * sum
  {}

  lemma AffineDistance(v: real, w: real, scale: real, offset: real, c: real, c': real)
    requires c' == c * scale + offset
    ensures DistanceOf(Sample(v * scale + offset, w), c')
         == (scale * scale) * DistanceOf(Sample(v, w), c)
  {
    var d, d' := v - c, v * scale + offset - c';
    assert d' == d * scale;
    Square(w, d, d', scale);
  }

  lemma Square(w: real, d: real, d': real, scale: real)
    requires d' == d * scale
    ensures w * (d' * d') == (scale * scale) * (w * (d * d))
  {}

  lemma AffineMean(s: seq<Sample>, scale: real, offset: real)
    requires Positive(s) && s != []
    ensures Mean(Affine(s, scale, offset)) == Mean(s) * scale + offset
  {
    AffineSum(s, scale, offset);
    AffineWeights(s, scale, offset);
    WeightPositive(s);
    MeanIs(s);
    Ratio(Sum(s), Mean(s), Weight(s), scale, offset);
  }

  lemma Ratio(sum: real, m: real, w: real, scale: real, offset: real)
    requires w > 0.0 && sum == m * w
    ensures (scale * sum + offset * w) / w == m * scale + offset
  {
    assert scale * sum + offset * w == (m * scale + offset) * w;
  }

  function Moved(b: Option<real>, scale: real, offset: real): Option<real> {
    if b.None? then None else Some(b.value * scale + offset)
  }

  /** An increasing map takes each bound to the same bound, a decreasing one swaps them. */
  lemma {:induction false} AffineBounds(s: seq<Sample>, scale: real, offset: real)
    ensures scale >= 0.0 ==> Lowest(Affine(s, scale, offset)) == Moved(Lowest(s), scale, offset)
    ensures scale >= 0.0 ==> Highest(Affine(s, scale, offset)) == Moved(Highest(s), scale, offset)
    ensures scale < 0.0 ==> Lowest(Affine(s, scale, offset)) == Moved(Highest(s), scale, offset)
    ensures scale < 0.0 ==> Highest(Affine(s, scale, offset)) == Moved(Lowest(s), scale, offset)
  {
    var map_, reversed := (v: real) => v * scale + offset, scale < 0.0;
    forall a: real, b: real
      ensures OrderedBy(map_, reversed, a, b)
    {
      OrderMoved(a, b, scale, offset);
    }
    BoundsMapped(s, map_, reversed, x => Move(x, scale, offset));
  }

  /** A map of values that keeps the order (or reverses it) of `a` and `b`, or merges them. */
  predicate OrderedBy(map_: real -> real, reversed: bool, a: real, b: real) {
    a < b ==> if reversed then map_(b) <= map_(a) else map_(a) <= map_(b)
  }

  lemma {:induction false} BoundsMapped(s: seq<Sample>, map_: real -> real, reversed: bool,
                                        move: Sample -> Sample)
    requires forall a: real, b: real :: OrderedBy(map_, reversed, a, b)
    requires forall x: Sample :: move(x).value == map_(x.value)
    ensures Lowest(Mapped(s, move)) == Image(if reversed then Highest(s) else Lowest(s), map_)
    ensures Highest(Mapped(s, move)) == Image(if reversed then Lowest(s) else Highest(s), map_)
  {
    if s != [] {
      var n := |s| - 1;
      assert Mapped(s, move)[..n] == Mapped(s[..n], move);
      BoundsMapped(s[..n], map_, reversed, move);
      if n > 0 {
        BoundsAreExact(s[..n]);
        var lo, hi, v := Lowest(s[..n]).value, Highest(s[..n]).value, s[n].value;
        assert OrderedBy(map_, reversed, lo, v) && OrderedBy(map_, reversed, v, lo);
        assert OrderedBy(map_, reversed, hi, v) && OrderedBy(map_, reversed, v, hi);
      }
    }
  }

  function Image(b: Option<real>, map_: real -> real): Option<real> {
    if b.None? then None else Some(map_(b.value))
  }

  lemma OrderMoved(a: real, b: real, scale: real, offset: real)
    ensures a < b ==> if scale < 0.0 then b * scale + offset <= a * scale + offset
                                     else a * scale + offset <= b * scale + offset
  {
    if a < b {
      assert b * scale - a * scale == (b - a) * scale;
      SignOfProduct(b - a, scale);
    }
  }

  lemma SignOfProduct(x: real, k: real)
    requires x > 0.0
    ensures if k < 0.0 then x * k <= 0.0 else x * k >= 0.0
  {}

  /** The statistics of mapped samples, from those of the samples. */
  function AffineStats(st: Stats, scale: real, offset: real): Stats {
    var lo, hi := Moved(st.min, scale, offset), Moved(st.max, scale, offset);
    Stats(st.sum * scale + offset * st.count, st.count, st.sumW2,
          if scale < 0.0 then hi else lo, if scale < 0.0 then lo else hi,
          st.m2 * (scale * scale))
  }

  lemma AffineMoment(s: seq<Sample>, scale: real, offset: real)
    requires Positive(s) && s != []
    ensures Deviation(Affine(s, scale, offset), Mean(Affine(s, scale, offset)))
         == (scale * scale) * Deviation(s, Mean(s))
  {
    AffineMean(s, scale, offset);
    AffineDeviation(s, scale, offset, Mean(s), Mean(Affine(s, scale, offset)));
  }

  lemma AffinePositive(s: seq<Sample>, scale: real, offset: real)
    requires Positive(s)
    ensures Positive(Affine(s, scale, offset))
  {
    forall i | 0 <= i < |s|
      ensures Affine(s, scale, offset)[i].weight > 0.0
    {
      assert Affine(s, scale, offset)[i] == Move(s[i], scale, offset);
    }
  }

  lemma SumOfAffine(st: Stats, scale: real, offset: real, sum: real)
    requires sum == scale * st.sum + offset * st.count
    ensures AffineStats(st, scale, offset).sum == sum
  {}

  lemma MomentOfAffine(st: Stats, scale: real, offset: real, m2: real)
    requires m2 == (scale * scale) * st.m2
    ensures AffineStats(st, scale, offset).m2 == m2
  {}

  lemma AffineSums(s: seq<Sample>, scale: real, offset: real)
    requires Positive(s) && s != []
    ensures Summary(Affine(s, scale, offset)).sum == AffineStats(Summary(s), scale, offset).sum
  {
    AffineSum(s, scale, offset);
    SumOfAffine(Summary(s), scale, offset, Sum(Affine(s, scale, offset)));
  }

  lemma AffineMoments(s: seq<Sample>, scale: real, offset: real)
    requires Positive(s) && s != []
    ensures Summary(Affine(s, scale, offset)).m2 == AffineStats(Summary(s), scale, offset).m2
  {
    var t := Affine(s, scale, offset);
    AffineMoment(s, scale, offset);
    MomentOfAffine(Summary(s), scale, offset, Deviation(t, Mean(t)));
  }

  lemma AffineOthers(s: seq<Sample>, scale: real, offset: real)
    ensures Summary(Affine(s, scale, offset)).count == AffineStats(Summary(s), scale, offset).count
    ensures Summary(Affine(s, scale, offset)).sumW2 == AffineStats(Summary(s), scale, offset).sumW2
    ensures Summary(Affine(s, scale, offset)).min == AffineStats(Summary(s), scale, offset).min
    ensures Summary(Affine(s, scale, offset)).max == AffineStats(Summary(s), scale, offset).max
  {
    AffineWeights(s, scale, offset);
    AffineBounds(s, scale, offset);
  }

  lemma AffineSummary(s: seq<Sample>, scale: real, offset: real)
    requires Positive(s) && s != []
    ensures Summary(Affine(s, scale, offset)) == AffineStats(Summary(s), scale, offset)
  {
    AffineSums(s, scale, offset);
    AffineMoments(s, scale, offset);
    AffineOthers(s, scale, offset);
  }
}
