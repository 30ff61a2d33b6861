/**
 What the statistics of a cell mean: totals over the list of its weighted samples.
 Arithmetic is exact.
 */
module Samples {
  import opened Wrappers

  datatype Sample = Sample(value: real, weight: real)

  /** Statistics as an accumulator keeps them; the bounds of no samples are None. */
  datatype Stats = Stats(sum: real, count: real, sumW2: real, min: Option<real>, max: Option<real>,
                         m2: real)

  predicate Positive(s: seq<Sample>) {
    forall i :: 0 <= i < |s| ==> s[i].weight > 0.0
  }

  /** The total of a quantity over samples. */
  function Total(s: seq<Sample>, f: Sample -> real): real {
    if s == [] then 0.0 else Total(s[..|s| - 1], f) + f(s[|s| - 1])
  }

  function WeightOf(x: Sample): real { x.weight }

  function WeightSquareOf(x: Sample): real { x.weight * x.weight }

  function ValueOf(x: Sample): real { x.value * x.weight }

  function SquareOf(x: Sample): real { x.value * x.value * x.weight }

  /** Weighted squared distance of a sample to `c`. */
  function DistanceOf(x: Sample, c: real): real {
    x.weight * ((x.value - c) * (x.value - c))
  }

  function Weight(s: seq<Sample>): real { Total(s, WeightOf) }

  function WeightSquares(s: seq<Sample>): real { Total(s, WeightSquareOf) }

  function Sum(s: seq<Sample>): real { Total(s, ValueOf) }

  function SquareSum(s: seq<Sample>): real { Total(s, SquareOf) }

  function Deviation(s: seq<Sample>, c: real): real { Total(s, x => DistanceOf(x, c)) }

  function Mean(s: seq<Sample>): real {
    if Weight(s) == 0.0 then 0.0 else Sum(s) / Weight(s)
  }

  function Min(a: Option<real>, b: Option<real>): Option<real> {
    if a.None? then b else if b.None? then a else if b.value < a.value then b else a
  }

  function Max(a: Option<real>, b: Option<real>): Option<real> {
    if a.None? then b else if b.None? then a else if b.value > a.value then b else a
  }

  function Lowest(s: seq<Sample>): Option<real> {
    if s == [] then None else Min(Lowest(s[..|s| - 1]), Some(s[|s| - 1].value))
  }

  function Highest(s: seq<Sample>): Option<real> {
    if s == [] then None else Max(Highest(s[..|s| - 1]), Some(s[|s| - 1].value))
  }

  /** The statistics of a list of samples, by their definitions: `m2` is the weighted squared
      distance to the mean. */
  function Summary(s: seq<Sample>): Stats {
    Stats(Sum(s), Weight(s), WeightSquares(s), Lowest(s), Highest(s), Deviation(s, Mean(s)))
  }

  /** The bounds are attained and bound every sample. */
  lemma {:induction false} BoundsAreExact(s: seq<Sample>)
    ensures s == [] <==> Lowest(s).None?
    ensures s == [] <==> Highest(s).None?
    ensures forall i :: 0 <= i < |s| ==> Lowest(s).value <= s[i].value <= Highest(s).value
    ensures s != [] ==> exists i :: 0 <= i < |s| && s[i].value == Lowest(s).value
    ensures s != [] ==> exists i :: 0 <= i < |s| && s[i].value == Highest(s).value
  {
    if s != [] {
      var n := |s| - 1;
      BoundsAreExact(s[..n]);
      if Lowest(s) == Some(s[n].value) {
      } else {
        var i :| 0 <= i < n && s[..n][i].value == Lowest(s[..n]).value;
        assert s[i].value == Lowest(s).value;
      }
      if Highest(s) == Some(s[n].value) {
      } else {
        var i :| 0 <= i < n && s[..n][i].value == Highest(s[..n]).value;
        assert s[i].value == Highest(s).value;
      }
    }
  }

  lemma {:induction false} WeightPositive(s: seq<Sample>)
    requires Positive(s)
    ensures if s == [] then Weight(s) == 0.0 else Weight(s) > 0.0
  {
    if |s| > 0 {
      WeightPositive(s[..|s| - 1]);
    }
  }

  lemma {:induction false} TotalAppend(s: seq<Sample>, t: seq<Sample>, f: Sample -> real)
    ensures Total(s + t, f) == Total(s, f) + Total(t, f)
  {
    if t == [] {
      assert s + t == s;
    } else {
      var n := |t| - 1;
      assert (s + t)[..|s| + n] == s + t[..n];
      TotalAppend(s, t[..n], f);
    }
  }

  /** A linear combination of quantities totals to the combination of their totals. */
  lemma {:induction false} TotalLinear(s: seq<Sample>, f: Sample -> real, g: Sample -> real,
                                       h: Sample -> real, p: real, k: Sample -> real, q: real)
    requires forall x :: f(x) == g(x) + p * h(x) + q * k(x)
    ensures Total(s, f) == Total(s, g) + p * Total(s, h) + q * Total(s, k)
  {
    if s != [] {
      var front, last := s[..|s| - 1], s[|s| - 1];
      TotalLinear(front, f, g, h, p, k, q);
      Distribute(p, Total(front, h), h(last));
      Distribute(q, Total(front, k), k(last));
    }
  }

  lemma Distribute(p: real, a: real, b: real)
    ensures p * (a + b) == p * a + p * b
  {}

  lemma {:induction false} BoundsAppend(s: seq<Sample>, t: seq<Sample>)
    ensures Lowest(s + t) == Min(Lowest(s), Lowest(t))
    ensures Highest(s + t) == Max(Highest(s), Highest(t))
  {
    if t == [] {
      assert s + t == s;
    } else {
      var n := |t| - 1;
      assert (s + t)[..|s| + n] == s + t[..n];
      BoundsAppend(s, t[..n]);
    }
  }

  /** The squared distance to any centre, from the plain totals. */
  lemma DeviationIs(s: seq<Sample>, c: real)
    ensures Deviation(s, c) == SquareSum(s) + (-2.0 * c) * Sum(s) + (c * c) * Weight(s)
  {
    forall x
      ensures DistanceOf(x, c) == SquareOf(x) + (-2.0 * c) * ValueOf(x) + (c * c) * WeightOf(x)
    {
      Expand(x.value, x.weight, c);
    }
    TotalLinear(s, x => DistanceOf(x, c), SquareOf, ValueOf, -2.0 * c, WeightOf, c * c);
  }

  lemma Expand(v: real, w: real, c: real)
    ensures w * ((v - c) * (v - c)) == v * v * w + (-2.0 * c) * (v * w) + (c * c) * w
  {}

  lemma MeanIs(s: seq<Sample>)
    requires Positive(s)
    ensures Sum(s) == Mean(s) * Weight(s)
  {
    WeightPositive(s);
    if s != [] {
      Centre(Mean(s), Sum(s), Weight(s));
    }
  }

  /** The squared distance to the mean, from the plain totals. */
  function Spread(s: seq<Sample>): real {
    SquareSum(s) - Mean(s) * Sum(s)
  }

  lemma SpreadIs(s: seq<Sample>)
    requires Positive(s)
    ensures Deviation(s, Mean(s)) == Spread(s)
  {
    WeightPositive(s);
    DeviationIs(s, Mean(s));
    if s != [] {
      Centre(Mean(s), Sum(s), Weight(s));
    }
  }

  lemma Centre(m: real, sum: real, w: real)
    requires w > 0.0 && m == sum / w
    ensures sum == m * w
    ensures (-2.0 * m) * sum + (m * m) * w == -(m * sum)
  {
    assert m * w == sum;
    assert (m * m) * w == m * (m * w);
  }

  lemma {:induction false} TotalNonNegative(s: seq<Sample>, f: Sample -> real)
    requires forall i :: 0 <= i < |s| ==> f(s[i]) >= 0.0
    ensures Total(s, f) >= 0.0
  {
    if s != [] {
      TotalNonNegative(s[..|s| - 1], f);
    }
  }

  lemma DeviationNonNegative(s: seq<Sample>, c: real)
    requires Positive(s)
    ensures Deviation(s, c) >= 0.0
  {
    forall i | 0 <= i < |s|
      ensures DistanceOf(s[i], c) >= 0.0
    {
      SquareNonNegative(s[i].value - c);
      ProductNonNegative(s[i].weight, (s[i].value - c) * (s[i].value - c));
    }
    TotalNonNegative(s, x => DistanceOf(x, c));
  }

  lemma SquareNonNegative(x: real)
    ensures x * x >= 0.0
  {}

  lemma ProductNonNegative(x: real, y: real)
    requires x >= 0.0 && y >= 0.0
    ensures x * y >= 0.0
  {}
}
