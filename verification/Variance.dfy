/**
 Properties of the statistics: they do not depend on the order of the samples, and what the
 reliability-weighted variance computes.
 */
module Variance {
  import opened Wrappers
  import opened Samples
  import opened RunningMoments
  import opened Accumulator

  // ----- Order -----

  lemma {:induction false} TotalAround(a: seq<Sample>, x: Sample, b: seq<Sample>, f: Sample -> real)
    ensures Total(a + [x] + b, f) == Total(a + b, f) + f(x)
  {
    TotalAppend(a + [x], b, f);
    TotalAppend(a, b, f);
    assert (a + [x])[..|a|] == a;
  }

  lemma {:induction false} TotalPermuted(s: seq<Sample>, t: seq<Sample>, f: Sample -> real)
    requires multiset(s) == multiset(t)
    ensures Total(s, f) == Total(t, f)
    decreases |s|
  {
    if s == [] {
      assert |multiset(t)| == 0;
    } else {
      var last := s[|s| - 1];
      assert last in multiset(s);
      var i :| 0 <= i < |t| && t[i] == last;
      var front, rest := s[..|s| - 1], t[..i] + t[i + 1..];
      assert s == front + [last];
      assert t == t[..i] + [last] + t[i + 1..];
      assert multiset(front) == multiset(s) - multiset{last};
      assert multiset(rest) == multiset(t) - multiset{last};
      TotalPermuted(front, rest, f);
      TotalAround(t[..i], last, t[i + 1..], f);
    }
  }

  lemma {:induction false} BoundsPermuted(s: seq<Sample>, t: seq<Sample>)
    requires multiset(s) == multiset(t)
    ensures Lowest(s) == Lowest(t) && Highest(s) == Highest(t)
  {
    BoundsAreExact(s);
    BoundsAreExact(t);
    if s == [] {
      assert |multiset(t)| == 0;
    } else {
      assert s[0] in multiset(s);
      BoundsReach(s, t);
      BoundsReach(t, s);
    }
  }

  lemma {:induction false} BoundsReach(s: seq<Sample>, t: seq<Sample>)
    requires multiset(s) == multiset(t) && s != [] && t != []
    ensures Lowest(s).Some? && Lowest(t).Some? && Lowest(t).value <= Lowest(s).value
    ensures Highest(s).Some? && Highest(t).Some? && Highest(t).value >= Highest(s).value
  {
    BoundsAreExact(s);
    BoundsAreExact(t);
    var i :| 0 <= i < |s| && s[i].value == Lowest(s).value;
    assert s[i] in multiset(s);
    var j :| 0 <= j < |s| && s[j].value == Highest(s).value;
    assert s[j] in multiset(s);
    var k :| 0 <= k < |t| && t[k] == s[i];
    var l :| 0 <= l < |t| && t[l] == s[j];
  }

  /** The statistics depend only on which samples there are, not on their order. */
  lemma SummaryPermuted(s: seq<Sample>, t: seq<Sample>)
    requires multiset(s) == multiset(t)
    ensures Summary(s) == Summary(t)
  {
    TotalPermuted(s, t, WeightOf);
    TotalPermuted(s, t, WeightSquareOf);
    TotalPermuted(s, t, ValueOf);
    TotalPermuted(s, t, x => DistanceOf(x, Mean(t)));
    BoundsPermuted(s, t);
  }

  // ----- Variance -----

  /** The estimator of the documentation: M2 / (W - sum(w^2) / W), zero for a vanishing
      denominator. */
  function Estimator(st: Stats): real
    requires st.count > 0.0
  {
    var denom := st.count - st.sumW2 / st.count;
    if denom > 0.0 then st.m2 / denom else 0.0
  }

  /** The squares of the weights never exceed the square of their sum, and reach it only for
      one sample. */
  lemma {:induction false} SquaresBelow(s: seq<Sample>)
    requires Positive(s) && s != []
    ensures Weight(s) > 0.0
    ensures WeightSquares(s) <= Weight(s) * Weight(s)
    ensures |s| > 1 <==> WeightSquares(s) < Weight(s) * Weight(s)
  {
    var front, v, w := s[..|s| - 1], s[|s| - 1].value, s[|s| - 1].weight;
    assert s == front + [Sample(v, w)];
    AppendOne(front, v, w);
    WeightPositive(s);
    if front != [] {
      SquaresBelow(front);
    }
    SquareStep(Weight(front), WeightSquares(front), w, Weight(s), WeightSquares(s));
  }

  lemma SquareStep(a: real, squares: real, w: real, sum: real, squares': real)
    requires w > 0.0 && sum == a + w && squares' == squares + w * w
    requires (a == 0.0 && squares == 0.0) || (a > 0.0 && squares <= a * a)
    ensures sum > 0.0 && squares' <= sum * sum && (a > 0.0 <==> squares' < sum * sum)
  {
    assert sum * sum == a * a + w * w + 2.0 * (a * w);
  }

  lemma DenominatorSign(count: real, w2: real)
    requires count > 0.0
    ensures w2 <= count * count ==> count - w2 / count >= 0.0
    ensures w2 < count * count <==> count - w2 / count > 0.0
  {
    var q := w2 / count;
    assert q * count == w2;
    assert (count - q) * count == count * count - w2;
    if count - q > 0.0 {
      PositiveProduct(count - q, count);
    } else if count - q < 0.0 {
      PositiveProduct(q - count, count);
      assert (q - count) * count == w2 - count * count;
    }
  }

  lemma PositiveProduct(x: real, y: real)
    requires x > 0.0 && y > 0.0
    ensures x * y > 0.0
  {}

  lemma QuotientNonNegative(x: real, y: real)
    requires x >= 0.0 && y > 0.0
    ensures x / y >= 0.0
  {}

  /** The variance of some samples is never negative. */
  lemma VarianceNonNegative(s: seq<Sample>)
    requires Positive(s)
    ensures s == [] ==> VarianceOf(Summary(s)) == None
    ensures s != [] ==> VarianceOf(Summary(s)).Some? && VarianceOf(Summary(s)).value >= 0.0
  {
    WeightPositive(s);
    DeviationNonNegative(s, Mean(s));
    var st := Summary(s);
    if s != [] && st.count - st.sumW2 / st.count > st.count * TOLERANCE {
      QuotientNonNegative(st.m2, st.count - st.sumW2 / st.count);
    }
  }

  predicate OneValue(s: seq<Sample>) {
    forall i, j :: 0 <= i < j < |s| ==> s[i].value == s[j].value
  }

  lemma {:induction false} SameValue(s: seq<Sample>, v: real)
    requires forall i :: 0 <= i < |s| ==> s[i].value == v
    ensures Sum(s) == v * Weight(s) && Deviation(s, v) == 0.0
  {
    if s != [] {
      var front, w := s[..|s| - 1], s[|s| - 1].weight;
      assert s == front + [Sample(v, w)];
      SameValue(front, v);
      AppendOne(front, v, w);
      DeviationAppend(front, v, w, v);
      Distribute(v, Weight(front), w);
    }
  }

  lemma {:induction false} NoDeviation(s: seq<Sample>, c: real)
    requires Positive(s) && Deviation(s, c) == 0.0
    ensures forall i :: 0 <= i < |s| ==> s[i].value == c
  {
    if s != [] {
      var front, v, w := s[..|s| - 1], s[|s| - 1].value, s[|s| - 1].weight;
      assert s == front + [Sample(v, w)];
      DeviationAppend(front, v, w, c);
      DeviationNonNegative(front, c);
      NoDistance(v, w, c);
      NoDeviation(front, c);
    }
  }

  lemma NoDistance(v: real, w: real, c: real)
    requires w > 0.0
    ensures DistanceOf(Sample(v, w), c) >= 0.0
    ensures DistanceOf(Sample(v, w), c) == 0.0 ==> v == c
  {
    var d := v - c;
    var square := d * d;
    Squared(d, square);
    WeightedSquare(w, square);
    assert DistanceOf(Sample(v, w), c) == w * square;
  }

  lemma Squared(d: real, square: real)
    requires square == d * d
    ensures square >= 0.0 && (d != 0.0 ==> square > 0.0)
  {
    if d < 0.0 {
      ProductIs(-d, -d, square);
    } else if d > 0.0 {
      ProductIs(d, d, square);
    }
  }

  lemma ProductIs(x: real, y: real, p: real)
    requires x > 0.0 && y > 0.0 && p == x * y
    ensures p > 0.0
  {
    PositiveProduct(x, y);
  }

  lemma WeightedSquare(w: real, square: real)
    requires w > 0.0 && square >= 0.0
    ensures w * square >= 0.0 && (square > 0.0 ==> w * square > 0.0)
  {}

  /** There is no spread exactly when all samples have one value. */
  lemma NoSpread(s: seq<Sample>)
    requires Positive(s) && s != []
    ensures Deviation(s, Mean(s)) >= 0.0
    ensures Deviation(s, Mean(s)) == 0.0 <==> OneValue(s)
  {
    WeightPositive(s);
    DeviationNonNegative(s, Mean(s));
    if OneValue(s) {
      var v := s[0].value;
      SameValue(s, v);
      MeanOf(Sum(s), Weight(s), v);
    } else if Deviation(s, Mean(s)) == 0.0 {
      NoDeviation(s, Mean(s));
    }
  }

  lemma MeanOf(sum: real, weight: real, v: real)
    requires weight > 0.0 && sum == v * weight
    ensures sum / weight == v
  {}

  /** The guard of the code, without the quotient. */
  lemma GuardIs(count: real, w2: real)
    requires count > 0.0
    ensures count - w2 / count > count * TOLERANCE
            <==> count * count - w2 > 0.000000000001 * (count * count)
  {
    var q := w2 / count;
    assert q * count == w2;
    SameSign(count, count - q - count * TOLERANCE, count * count - w2 - 0.000000000001 * (count * count));
  }

  /** Exactly when the code computes the documented estimator: except for samples that differ in value
      of which all but a sliver of the weight is on one. */
  lemma VarianceIsEstimator(s: seq<Sample>)
    requires Positive(s) && s != []
    ensures Summary(s).count > 0.0
    ensures var whole := Weight(s) * Weight(s);
            VarianceOf(Summary(s)) == Some(Estimator(Summary(s)))
            <==> (OneValue(s) || whole - WeightSquares(s) > 0.000000000001 * whole)
  {
    var st := Summary(s);
    WeightPositive(s);
    SquaresBelow(s);
    DenominatorSign(st.count, st.sumW2);
    GuardIs(st.count, st.sumW2);
    NoSpread(s);
    EstimatorIs(st);
  }

  lemma EstimatorIs(st: Stats)
    requires st.count > 0.0 && st.m2 >= 0.0
    requires st.m2 > 0.0 ==> st.count - st.sumW2 / st.count > 0.0
    ensures VarianceOf(st) == Some(Estimator(st))
            <==> (st.m2 == 0.0 || st.count - st.sumW2 / st.count > st.count * TOLERANCE)
  {
    var denom := st.count - st.sumW2 / st.count;
    if denom > 0.0 && st.m2 > 0.0 {
      PositiveQuotient(st.m2, denom);
    }
    if st.m2 == 0.0 && denom > 0.0 {
      assert st.m2 / denom == 0.0;
    }
  }

  predicate NoneAbove(s: seq<Sample>, cap: real) {
    forall i :: 0 <= i < |s| ==> s[i].weight <= cap
  }

  lemma {:induction false} SquaresCapped(s: seq<Sample>, cap: real)
    requires Positive(s) && NoneAbove(s, cap)
    ensures WeightSquares(s) <= cap * Weight(s)
  {
    if s == [] {
      assert Weight(s) == 0.0 && WeightSquares(s) == 0.0;
    } else {
      var front, v, w := s[..|s| - 1], s[|s| - 1].value, s[|s| - 1].weight;
      SquaresCapped(front, cap);
      CappedNext(s, front, v, w, cap);
    }
  }

  lemma {:induction false} CappedNext(s: seq<Sample>, front: seq<Sample>, v: real, w: real, cap: real)
    requires s == front + [Sample(v, w)] && 0.0 < w <= cap && WeightSquares(front) <= cap * Weight(front)
    ensures WeightSquares(s) <= cap * Weight(s)
  {
    AppendOne(front, v, w);
    CapStep(cap, Weight(front), WeightSquares(front), w);
  }

  lemma CapStep(cap: real, total: real, squares: real, w: real)
    requires 0.0 < w <= cap && squares <= cap * total
    ensures squares + w * w <= cap * (total + w)
  {
    ProductNonNegative(cap - w, w);
    assert (cap - w) * w == cap * w - w * w;
    assert cap * (total + w) == cap * total + cap * w;
  }

  /** When no sample carries more than the share 1 - 2e-12 of the weight, the code computes the
      estimator. */
  lemma VarianceSpread(s: seq<Sample>)
    requires Positive(s) && s != []
    requires NoneAbove(s, 0.999999999998 * Weight(s))
    ensures Summary(s).count > 0.0
    ensures VarianceOf(Summary(s)) == Some(Estimator(Summary(s)))
  {
    WeightPositive(s);
    var whole := Weight(s) * Weight(s);
    SquaresCapped(s, 0.999999999998 * Weight(s));
    PositiveProduct(Weight(s), Weight(s));
    ShareLeft(Weight(s), WeightSquares(s), 0.999999999998 * Weight(s));
    VarianceIsEstimator(s);
  }

  lemma ShareLeft(weight: real, squares: real, cap: real)
    requires weight > 0.0 && cap == 0.999999999998 * weight && squares <= cap * weight
    ensures weight * weight - squares > 0.000000000001 * (weight * weight)
  {
    Shares(weight * weight, cap * weight, squares);
  }

  lemma Shares(whole: real, part: real, squares: real)
    requires whole > 0.0 && part == 0.999999999998 * whole && squares <= part
    ensures whole - squares > 0.000000000001 * whole
  {}

  /** Two samples of different values: exactly when twice the product of their weights exceeds the
      part 1e-12 of the square of the whole weight. */
  lemma VariancePair(v1: real, w1: real, v2: real, w2: real)
    requires w1 > 0.0 && w2 > 0.0 && v1 != v2
    ensures var st := Summary([Sample(v1, w1), Sample(v2, w2)]);
      && st.count > 0.0
      && (VarianceOf(st) == Some(Estimator(st))
          <==> 2.0 * (w1 * w2) > 0.000000000001 * ((w1 + w2) * (w1 + w2)))
  {
    var s := [Sample(v1, w1), Sample(v2, w2)];
    PairSums(v1, w1, v2, w2);
    assert !OneValue(s) by {
      assert s[0].value != s[1].value;
    }
    assert (w1 + w2) * (w1 + w2) - (w1 * w1 + w2 * w2) == 2.0 * (w1 * w2);
    VarianceIsEstimator(s);
  }

  lemma PositiveQuotient(x: real, y: real)
    requires x > 0.0 && y > 0.0
    ensures x / y > 0.0
  {}

  /** A sliver of weight: two pixels of values 0 and 1, the second of weight at most 10 to the
      -13. Their documented estimator is positive, the code returns zero. */
  lemma VarianceSliver(w: real)
    requires 0.0 < w <= 0.0000000000001
    ensures var s := [Sample(0.0, 1.0), Sample(1.0, w)];
      && Positive(s) && Summary(s).count > 0.0
      && VarianceOf(Summary(s)) == Some(0.0) && Estimator(Summary(s)) > 0.0
  {
    var s := [Sample(0.0, 1.0), Sample(1.0, w)];
    SliverTotals(s, w);
    SquaresBelow(s);
    DenominatorSign(Weight(s), WeightSquares(s));
    SliverDenominator(w, WeightSquares(s), Weight(s));
    PositiveQuotient(Deviation(s, Mean(s)), Weight(s) - WeightSquares(s) / Weight(s));
  }

  lemma SliverTotals(s: seq<Sample>, w: real)
    requires 0.0 < w && s == [Sample(0.0, 1.0), Sample(1.0, w)]
    ensures Weight(s) == 1.0 + w && WeightSquares(s) == 1.0 + w * w
    ensures Deviation(s, Mean(s)) > 0.0
  {
    var a := [Sample(0.0, 1.0)];
    SliverSums(a, s, w);
    SliverMoment(w, Sum(s), Weight(s), Mean(s));
    SliverSpread(a, s, w, Mean(s));
  }

  lemma SliverSums(a: seq<Sample>, s: seq<Sample>, w: real)
    requires a == [Sample(0.0, 1.0)] && s == [Sample(0.0, 1.0), Sample(1.0, w)]
    ensures s == a + [Sample(1.0, w)]
    ensures Weight(s) == 1.0 + w && WeightSquares(s) == 1.0 + w * w && Sum(s) == w
  {
    PairSums(0.0, 1.0, 1.0, w);
  }

  lemma PairSums(v1: real, w1: real, v2: real, w2: real)
    ensures var s := [Sample(v1, w1), Sample(v2, w2)];
      && Weight(s) == w1 + w2 && WeightSquares(s) == w1 * w1 + w2 * w2 && Sum(s) == v1 * w1 + v2 * w2
  {
    var a := [Sample(v1, w1)];
    assert a == [] + a;
    AppendOne([], v1, w1);
    AppendOne(a, v2, w2);
    assert a + [Sample(v2, w2)] == [Sample(v1, w1), Sample(v2, w2)];
  }

  lemma SliverSpread(a: seq<Sample>, s: seq<Sample>, w: real, c: real)
    requires Positive(a) && s == a + [Sample(1.0, w)] && DistanceOf(Sample(1.0, w), c) > 0.0
    ensures Deviation(s, c) > 0.0
  {
    DeviationAppend(a, 1.0, w, c);
    DeviationNonNegative(a, c);
  }

  lemma SliverMoment(w: real, sum: real, count: real, mean: real)
    requires w > 0.0 && sum == w && count == 1.0 + w && mean == sum / count
    ensures DistanceOf(Sample(1.0, w), mean) > 0.0
  {
    assert mean * count == sum;
    assert mean < 1.0;
    PositiveProduct(1.0 - mean, 1.0 - mean);
    PositiveProduct(w, (1.0 - mean) * (1.0 - mean));
  }

  lemma SliverDenominator(w: real, w2: real, count: real)
    requires 0.0 < w <= 0.0000000000001 && count == 1.0 + w && w2 == 1.0 + w * w
    ensures count - w2 / count <= count * TOLERANCE
  {
    var q := w2 / count;
    assert q * count == w2;
    assert (count - q) * count == 2.0 * w;
    LargerQuotient(count - q, count, 2.0 * w);
  }

  lemma LargerQuotient(d: real, count: real, p: real)
    requires count >= 1.0 && d * count == p && p <= TOLERANCE
    ensures d <= count * TOLERANCE
  {
    if d > p {
      PositiveProduct(d - p, count);
    }
  }

  // ----- Pixels of weight one, and weights in other units -----

  /** Pixels of weight one: the sample variance with Bessel's correction. */
  lemma UnitVariance(s: seq<Sample>)
    requires Unit(s) && |s| >= 2
    ensures VarianceOf(Summary(s)) == Some(Deviation(s, Mean(s)) / (|s| as real - 1.0))
  {
    UnitTotals(s);
    DeviationNonNegative(s, Mean(s));
    UnitStats(Summary(s), |s| as real);
  }

  lemma UnitStats(st: Stats, n: real)
    requires n >= 2.0 && st.count == n && st.sumW2 == n && st.m2 >= 0.0
    ensures VarianceOf(st) == Some(st.m2 / (n - 1.0))
  {
    UnitDenominator(n);
    var denom := st.count - st.sumW2 / st.count;
    if st.m2 == 0.0 {
      assert st.m2 / denom == 0.0;
    }
  }

  lemma UnitDenominator(n: real)
    requires n >= 2.0
    ensures n - n / n == n - 1.0 > n * TOLERANCE
  {
    assert n / n == 1.0;
  }

  function Rescale(x: Sample, k: real): Sample {
    Sample(x.value, k * x.weight)
  }

  /** The samples with every weight multiplied by `k`. */
  function Reweighted(s: seq<Sample>, k: real): seq<Sample> {
    if s == [] then [] else Reweighted(s[..|s| - 1], k) + [Rescale(s[|s| - 1], k)]
  }

  /** Multiplying the weights multiplies the total of a quantity that they multiply. */
  lemma {:induction false} TotalReweighted(s: seq<Sample>, k: real, f: Sample -> real, g: real)
    requires forall i :: 0 <= i < |s| ==> f(Rescale(s[i], k)) == g * f(s[i])
    ensures Total(Reweighted(s, k), f) == g * Total(s, f)
  {
    if s != [] {
      var front, x := s[..|s| - 1], s[|s| - 1];
      TotalReweighted(front, k, f, g);
      var t, y := Reweighted(front, k), Rescale(x, k);
      assert (t + [y])[..|t|] == t;
      Distribute(g, Total(front, f), f(x));
    }
  }

  function Times(k: real, x: real): real { k * x }

  lemma {:induction false} ReweightedPositive(s: seq<Sample>, k: real)
    requires Positive(s) && k > 0.0
    ensures Positive(Reweighted(s, k)) && (s == [] <==> Reweighted(s, k) == [])
  {
    if s != [] {
      ReweightedPositive(s[..|s| - 1], k);
      PositiveProduct(k, s[|s| - 1].weight);
    }
  }

  lemma {:induction false} ReweightedSums(s: seq<Sample>, k: real)
    ensures Weight(Reweighted(s, k)) == Times(k, Weight(s))
    ensures Sum(Reweighted(s, k)) == Times(k, Sum(s))
  {
    forall i | 0 <= i < |s|
      ensures ValueOf(Rescale(s[i], k)) == k * ValueOf(s[i])
    {
      RescaledValue(s[i].value, s[i].weight, k);
    }
    TotalReweighted(s, k, WeightOf, k);
    TotalReweighted(s, k, ValueOf, k);
  }

  lemma {:induction false} ReweightedSquares(s: seq<Sample>, k: real, square: real)
    requires square == k * k
    ensures WeightSquares(Reweighted(s, k)) == Times(square, WeightSquares(s))
  {
    forall i | 0 <= i < |s|
      ensures WeightSquareOf(Rescale(s[i], k)) == square * WeightSquareOf(s[i])
    {
      RescaledSquare(s[i].value, s[i].weight, k, square);
    }
    TotalReweighted(s, k, WeightSquareOf, square);
  }

  lemma {:induction false} ReweightedDeviation(s: seq<Sample>, k: real, c: real)
    ensures Deviation(Reweighted(s, k), c) == Times(k, Deviation(s, c))
  {
    var f := (x: Sample) => DistanceOf(x, c);
    forall i | 0 <= i < |s|
      ensures f(Rescale(s[i], k)) == k * f(s[i])
    {
      RescaledQuantity(s[i], k, c, f);
    }
    TotalReweighted(s, k, f, k);
  }

  lemma RescaledQuantity(x: Sample, k: real, c: real, f: Sample -> real)
    requires forall y :: f(y) == DistanceOf(y, c)
    ensures f(Rescale(x, k)) == k * f(x)
  {
    RescaledDistance(x.value, x.weight, k, c);
  }

  lemma RescaledValue(v: real, w: real, k: real)
    ensures ValueOf(Rescale(Sample(v, w), k)) == k * ValueOf(Sample(v, w))
  {}

  lemma RescaledSquare(v: real, w: real, k: real, square: real)
    requires square == k * k
    ensures WeightSquareOf(Rescale(Sample(v, w), k)) == square * WeightSquareOf(Sample(v, w))
  {
    assert (k * w) * (k * w) == (k * k) * (w * w);
  }

  lemma RescaledDistance(v: real, w: real, k: real, c: real)
    ensures DistanceOf(Rescale(Sample(v, w), k), c) == k * DistanceOf(Sample(v, w), c)
  {
    Regroup(k, w, (v - c) * (v - c));
  }

  lemma Regroup(k: real, w: real, d: real)
    ensures (k * w) * d == k * (w * d)
  {}

  /** The unit in which weights are given does not matter to the variance. */
  lemma {:induction false} VarianceReweighted(s: seq<Sample>, k: real)
    requires Positive(s) && k > 0.0
    ensures VarianceOf(Summary(Reweighted(s, k))) == VarianceOf(Summary(s))
  {
    WeightPositive(s);
    ReweightedPositive(s, k);
    if s != [] {
      MeanReweighted(s, k);
      ReweightedSums(s, k);
      ReweightedSquares(s, k, k * k);
      ReweightedDeviation(s, k, Mean(s));
      var t := Reweighted(s, k);
      StatsReweighted(Summary(s), Summary(t), k, k * k, Weight(s), WeightSquares(s), Deviation(s, Mean(s)),
                      Weight(t), WeightSquares(t), Deviation(t, Mean(s)));
    }
  }

  lemma {:induction false} MeanReweighted(s: seq<Sample>, k: real)
    requires Positive(s) && k > 0.0 && s != []
    ensures Weight(s) > 0.0 && Weight(Reweighted(s, k)) > 0.0
    ensures Mean(Reweighted(s, k)) == Mean(s)
  {
    WeightPositive(s);
    ReweightedPositive(s, k);
    WeightPositive(Reweighted(s, k));
    ReweightedSums(s, k);
    SameQuotient(k, Sum(s), Weight(s), Sum(Reweighted(s, k)), Weight(Reweighted(s, k)));
  }

  lemma StatsReweighted(a: Stats, b: Stats, k: real, square: real,
                        n: real, w2: real, m2: real, n': real, w2': real, m2': real)
    requires a.count == n && a.sumW2 == w2 && a.m2 == m2
    requires b.count == n' && b.sumW2 == w2' && b.m2 == m2'
    requires k > 0.0 && n > 0.0 && n' > 0.0
    requires square == k * k
    requires n' == Times(k, n) && w2' == Times(square, w2) && m2' == Times(k, m2)
    ensures VarianceOf(b) == VarianceOf(a)
  {
    ReweightedVariance(k, n, w2, m2, n', w2', m2');
  }

  lemma SameQuotient(k: real, x: real, y: real, x': real, y': real)
    requires k > 0.0 && y > 0.0 && x' == k * x && y' == k * y && y' > 0.0
    ensures x' / y' == x / y
  {
    var q := x / y;
    assert q * y == x;
    assert q * y' == k * (q * y);
  }

  lemma ReweightedVariance(k: real, n: real, w2: real, m2: real, n': real, w2': real, m2': real)
    requires k > 0.0 && n > 0.0 && n' > 0.0
    requires n' == k * n && w2' == k * k * w2 && m2' == k * m2
    ensures n - w2 / n > n * TOLERANCE <==> n' - w2' / n' > n' * TOLERANCE
    ensures m2 > 0.0 <==> m2' > 0.0
    ensures n - w2 / n > n * TOLERANCE ==>
              n' - w2' / n' > 0.0 && m2' / (n' - w2' / n') == m2 / (n - w2 / n)
  {
    var d, d' := n - w2 / n, n' - w2' / n';
    ReweightedDenominator(k, n, w2, n', w2');
    SameSign(k, m2, m2');
    SameSign(k, d - n * TOLERANCE, d' - n' * TOLERANCE);
    if d > n * TOLERANCE {
      PositiveProduct(k, d);
      SameQuotient(k, m2, d, m2', d');
    }
  }

  lemma ReweightedDenominator(k: real, n: real, w2: real, n': real, w2': real)
    requires k > 0.0 && n > 0.0 && n' > 0.0
    requires n' == k * n && w2' == k * k * w2
    ensures n' - w2' / n' == k * (n - w2 / n)
  {
    var q := w2 / n;
    assert q * n == w2;
    assert (k * q) * n' == k * k * (q * n);
    assert w2' / n' == k * q;
  }

  lemma SameSign(k: real, x: real, y: real)
    requires k > 0.0 && y == k * x
    ensures x > 0.0 <==> y > 0.0
  {}
}
