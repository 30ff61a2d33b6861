/**
 Algebra behind the running statistics: Welford's step and the combination of Chan, Golub and
 LeVeque both compute the list-defined statistics of the concatenated samples.
 */
module RunningMoments {
  import opened Wrappers
  import opened Samples

  lemma WelfordIdentity(a: real, b: real, sum: real, weight: real, v: real, w: real)
    requires sum == a * weight
    requires sum + v * w == b * (weight + w)
    ensures w * (v - a) * (v - b) == a * sum + v * v * w - b * (sum + v * w)
  {
    var s' := sum + v * w;
    assert w * (v - a) * (v - b) == v * v * w - b * (v * w) - a * (v * w) + a * b * w;
    assert a * s' == a * sum + a * (v * w);
    assert b * s' == b * sum + b * (v * w);
    Cross(a, b, sum, weight, s', w);
  }

  lemma Cross(a: real, b: real, sum: real, weight: real, sum': real, w: real)
    requires sum == a * weight && sum' == b * (weight + w)
    ensures b * sum + a * b * w == a * sum'
  {
    assert b * (a * weight) == (a * b) * weight;
    assert a * (b * (weight + w)) == (a * b) * weight + (a * b) * w;
  }

  lemma ChanIdentity(a: real, b: real, w1: real, w2: real, m: real, r: real)
    requires w1 + w2 > 0.0
    requires m * (w1 + w2) == a * w1 + b * w2
    requires r * (w1 + w2) == w1 * w2
    ensures a * (a * w1) + b * (b * w2) - m * (a * w1 + b * w2) == (b - a) * (b - a) * r
  {
    var n, t := w1 + w2, a * w1 + b * w2;
    var x, y := a * (a * w1) + b * (b * w2), (b - a) * (b - a);
    Expanded(a, b, w1, w2);
    assert (m * t) * n == (m * n) * t;
    assert (y * r) * n == y * (r * n);
    assert (x - m * t) * n == x * n - (m * t) * n;
    CancelFactor(x - m * t, y * r, n);
  }

  lemma Expanded(a: real, b: real, w1: real, w2: real)
    ensures (a * (a * w1) + b * (b * w2)) * (w1 + w2) - (a * w1 + b * w2) * (a * w1 + b * w2)
         == (b - a) * (b - a) * (w1 * w2)
  {}

  lemma CancelFactor(x: real, y: real, n: real)
    requires n != 0.0 && x * n == y * n
    ensures x == y
  {
    assert (x - y) * n == 0.0;
  }

  /** What a sample adds to the spread, given the means before and after it. */
  function Welford(v: real, w: real, before: real, after: real): real {
    w * (v - before) * (v - after)
  }

  lemma WelfordSpread(q: real, q': real, sum: real, sum': real, weight: real, weight': real,
                      a: real, b: real, v: real, w: real)
    requires q' == q + v * v * w && sum' == sum + v * w && weight' == weight + w
    requires sum == a * weight && sum' == b * weight'
    ensures q' - b * sum' == q - a * sum + Welford(v, w, a, b)
  {
    WelfordIdentity(a, b, sum, weight, v, w);
  }

  /** The share of the spread that lies between two groups of samples. */
  function Between(mean1: real, mean2: real, n1: real, n2: real): real
    requires n1 > 0.0 && n2 > 0.0
  {
    (mean2 - mean1) * (mean2 - mean1) * (n1 * n2 / (n1 + n2))
  }

  lemma BetweenIs(mean1: real, mean2: real, n1: real, n2: real, delta: real, between: real)
    requires n1 > 0.0 && n2 > 0.0 && delta == mean2 - mean1
    requires between == delta * delta * (n1 * n2 / (n1 + n2))
    ensures between == Between(mean1, mean2, n1, n2)
  {}

  lemma ChanSpread(q: real, a: real, b: real, w1: real, w2: real, m: real, s1: real, s2: real,
                   sum: real, weight: real)
    requires w1 > 0.0 && w2 > 0.0 && weight == w1 + w2 && sum == s1 + s2
    requires s1 == a * w1 && s2 == b * w2 && sum == m * weight
    ensures q - m * sum == q - a * s1 - b * s2 + Between(a, b, w1, w2)
  {
    var r := w1 * w2 / (w1 + w2);
    assert r * (w1 + w2) == w1 * w2;
    ChanIdentity(a, b, w1, w2, m, r);
  }

  lemma {:induction false} AppendOne(s: seq<Sample>, v: real, w: real)
    ensures var t := s + [Sample(v, w)];
            && Sum(t) == Sum(s) + v * w && Weight(t) == Weight(s) + w
            && WeightSquares(t) == WeightSquares(s) + w * w
            && SquareSum(t) == SquareSum(s) + v * v * w
            && Lowest(t) == Min(Lowest(s), Some(v)) && Highest(t) == Max(Highest(s), Some(v))
  {
    assert (s + [Sample(v, w)])[..|s|] == s;
  }

  lemma DeviationAppend(s: seq<Sample>, v: real, w: real, c: real)
    ensures Deviation(s + [Sample(v, w)], c) == Deviation(s, c) + DistanceOf(Sample(v, w), c)
  {
    assert (s + [Sample(v, w)])[..|s|] == s;
  }

  /** One more sample: Welford's step. */
  lemma WelfordStep(s: seq<Sample>, t: seq<Sample>, v: real, w: real, a: real, b: real)
    requires Positive(s) && w > 0.0 && t == s + [Sample(v, w)] && a == Mean(s) && b == Mean(t)
    ensures Deviation(t, b) == Deviation(s, a) + Welford(v, w, a, b)
  {
    hide Deviation, SquareSum, Sum, Mean, Welford;
    var d1 := SpreadOf(s);
    var d := SpreadOf(t);
    WelfordSums(s, t, v, w, a, b);
    assert d == d1 + Welford(v, w, a, b);
  }

  lemma WelfordSums(s: seq<Sample>, t: seq<Sample>, v: real, w: real, a: real, b: real)
    requires Positive(s) && w > 0.0 && t == s + [Sample(v, w)] && a == Mean(s) && b == Mean(t)
    ensures SquareSum(t) - b * Sum(t) == SquareSum(s) - a * Sum(s) + Welford(v, w, a, b)
  {
    AppendOne(s, v, w);
    MeanIs(s);
    MeanIs(t);
    WelfordSpread(SquareSum(s), SquareSum(t), Sum(s), Sum(t), Weight(s), Weight(t), a, b, v, w);
  }

  /** What the combination of two lists needs to know of the sums. */
  lemma MergedMeans(s: seq<Sample>, t: seq<Sample>)
    requires Positive(s) && Positive(t) && s != [] && t != []
    ensures Weight(s) > 0.0 && Weight(t) > 0.0
    ensures Sum(s) == Mean(s) * Weight(s) && Sum(t) == Mean(t) * Weight(t)
    ensures Sum(s + t) == Mean(s + t) * Weight(s + t)
  {
    WeightPositive(s);
    WeightPositive(t);
    MeanIs(s);
    MeanIs(t);
    MeanIs(s + t);
  }

  /** Two non-empty lists: the combination of Chan, Golub and LeVeque. */
  lemma ChanStep(s: seq<Sample>, t: seq<Sample>, a: real, b: real, w1: real, w2: real)
    requires Positive(s) && Positive(t) && s != [] && t != []
    requires a == Mean(s) && b == Mean(t) && w1 == Weight(s) && w2 == Weight(t)
    ensures w1 > 0.0 && w2 > 0.0
    ensures Deviation(s + t, Mean(s + t))
         == Deviation(s, a) + Deviation(t, b) + Between(a, b, w1, w2)
  {
    var d1 := SpreadOf(s);
    var d2 := SpreadOf(t);
    var d := SpreadOf(s + t);
    ChanSums(s, t, a, b, w1, w2);
    assert d == d1 + d2 + Between(a, b, w1, w2);
  }

  lemma SpreadOf(s: seq<Sample>) returns (d: real)
    requires Positive(s)
    ensures d == Deviation(s, Mean(s)) && d == SquareSum(s) - Mean(s) * Sum(s)
  {
    SpreadIs(s);
    d := Deviation(s, Mean(s));
  }

  lemma ChanSums(s: seq<Sample>, t: seq<Sample>, a: real, b: real, w1: real, w2: real)
    requires Positive(s) && Positive(t) && s != [] && t != []
    requires a == Mean(s) && b == Mean(t) && w1 == Weight(s) && w2 == Weight(t)
    ensures w1 > 0.0 && w2 > 0.0
    ensures SquareSum(s + t) - Mean(s + t) * Sum(s + t)
         == SquareSum(s) - a * Sum(s) + (SquareSum(t) - b * Sum(t)) + Between(a, b, w1, w2)
  {
    SumsAppend(s, t);
    MergedMeans(s, t);
    ChanSpread(SquareSum(s + t), a, b, w1, w2, Mean(s + t), Sum(s), Sum(t),
               Sum(s + t), Weight(s + t));
  }

  lemma SumsAppend(s: seq<Sample>, t: seq<Sample>)
    ensures Sum(s + t) == Sum(s) + Sum(t)
    ensures Weight(s + t) == Weight(s) + Weight(t)
    ensures WeightSquares(s + t) == WeightSquares(s) + WeightSquares(t)
    ensures SquareSum(s + t) == SquareSum(s) + SquareSum(t)
  {
    TotalAppend(s, t, ValueOf);
    TotalAppend(s, t, WeightOf);
    TotalAppend(s, t, WeightSquareOf);
    TotalAppend(s, t, SquareOf);
  }

  // ----- Samples of weight one -----

  predicate Unit(s: seq<Sample>) {
    forall i :: 0 <= i < |s| ==> s[i].weight == 1.0
  }

  lemma {:induction false} UnitTotals(s: seq<Sample>)
    requires Unit(s)
    ensures Positive(s) && Weight(s) == |s| as real && WeightSquares(s) == |s| as real
  {
    if s != [] {
      UnitTotals(s[..|s| - 1]);
    }
  }

  lemma UnitDistance(v: real, c: real, d: real)
    requires d == v - c
    ensures DistanceOf(Sample(v, 1.0), c) == d * d
  {}

  /** With unit weights the sum of squares gives the spread: it is never negative, so clamping
      it at zero changes nothing. */
  lemma SumOfSquares(s: seq<Sample>)
    requires Unit(s) && s != []
    ensures Weight(s) > 0.0
    ensures Deviation(s, Mean(s)) == SquareSum(s) - Sum(s) * Sum(s) / Weight(s)
    ensures SquareSum(s) - Sum(s) * Sum(s) / Weight(s) >= 0.0
    ensures |s| == 1 ==> Deviation(s, Mean(s)) == 0.0
  {
    UnitTotals(s);
    WeightPositive(s);
    SpreadIs(s);
    MeanTimesSum(Sum(s), Weight(s));
    DeviationNonNegative(s, Mean(s));
    if |s| == 1 {
      OneSample(s, s[0].value);
    }
  }

  lemma MeanTimesSum(sum: real, w: real)
    requires w > 0.0
    ensures sum / w * sum == sum * sum / w
  {
    var x := sum / w;
    assert x * w == sum;
    assert (x * sum) * w == sum * sum;
  }

  lemma OneSample(s: seq<Sample>, v: real)
    requires s == [Sample(v, 1.0)]
    ensures Deviation(s, Mean(s)) == 0.0
  {
    assert s == [] + s;
    AppendOne([], v, 1.0);
    DeviationAppend([], v, 1.0, Mean(s));
    assert Mean(s) == v;
  }
}
