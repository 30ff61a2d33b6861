/**
 The accumulator of a cell's continuous statistics. It keeps a ghost list of the samples it has
 taken in; its invariant is that every field has its list-defined value.
 */
module Accumulator {
  import opened Wrappers
  import opened Samples
  import opened RunningMoments
  import opened AffineSamples

  /** A sample value or weight as it arrives: NaN and the infinities are NotFinite. */
  datatype Float = NotFinite | Finite(value: real)

  /** The quantile sketch, as the weighted samples it holds. */
  type Sketch = multiset<Sample>

  function FiniteSamples(vals: seq<Float>): seq<Sample> {
    if vals == [] then []
    else FiniteSamples(vals[..|vals| - 1]) + Taken(vals[|vals| - 1], Finite(1.0))
  }

  /** The samples an update takes in: one, or none for a value that is not finite or a weight
      that is not positive and finite. */
  function Taken(val: Float, weight: Float): seq<Sample> {
    if val.Finite? && weight.Finite? && weight.value > 0.0 then [Sample(val.value, weight.value)]
    else []
  }

  function AddToSketch(sketch: Option<Sketch>, s: seq<Sample>): Option<Sketch> {
    if sketch.Some? then Some(sketch.value + multiset(s)) else None
  }

  /** The sketch after a merge: an empty accumulator adopts the other's sketch, a non-empty one
      without a sketch stays without. */
  function MergedSketch(mine: Option<Sketch>, empty: bool, other: Option<Sketch>, otherEmpty: bool)
    : Option<Sketch>
  {
    if otherEmpty || other.None? then mine
    else if mine.Some? then Some(mine.value + other.value)
    else if empty then other
    else None
  }

  lemma EmptyByCount(s: seq<Sample>)
    requires Positive(s)
    ensures Summary(s).count == 0.0 <==> s == []
    ensures Summary(s).count >= 0.0
  {
    WeightPositive(s);
  }

  lemma SummaryEmpty()
    ensures Summary([]) == Stats(0.0, 0.0, 0.0, None, None, 0.0)
  {}

  lemma SummaryOne(v: real, w: real)
    requires w > 0.0
    ensures Summary([Sample(v, w)]) == Stats(v * w, w, w * w, Some(v), Some(v), 0.0)
  {
    var t := [Sample(v, w)];
    assert t == [] + t;
    AppendOne([], v, w);
    WelfordStep([], t, v, w, 0.0, Mean(t));
    MeanOne(v * w, v, w);
    assert Mean(t) == v;
  }

  lemma MeanOne(sum: real, v: real, w: real)
    requires w > 0.0 && sum == v * w
    ensures sum / w == v
  {}

  /** The statistics after one more sample, as the code computes them. */
  function AddOne(st: Stats, v: real, w: real): Stats
    requires w > 0.0 && st.count >= 0.0
  {
    if st.count == 0.0 then Stats(v * w, w, w * w, Some(v), Some(v), 0.0)
    else
      var sum, count := st.sum + v * w, st.count + w;
      Stats(sum, count, st.sumW2 + w * w, Min(st.min, Some(v)), Max(st.max, Some(v)),
            st.m2 + Welford(v, w, st.sum / st.count, sum / count))
  }

  lemma AddOneIs(s: seq<Sample>, v: real, w: real)
    requires Positive(s) && w > 0.0
    ensures Summary(s).count >= 0.0
    ensures AddOne(Summary(s), v, w) == Summary(s + [Sample(v, w)])
  {
    EmptyByCount(s);
    var t := s + [Sample(v, w)];
    if s == [] {
      assert t == [Sample(v, w)];
      SummaryOne(v, w);
    } else {
      AppendOne(s, v, w);
      AddNext(s, t, v, w);
    }
  }

  lemma AddNext(s: seq<Sample>, t: seq<Sample>, v: real, w: real)
    requires Positive(s) && w > 0.0 && s != [] && t == s + [Sample(v, w)]
    ensures Weight(s) > 0.0 && Weight(t) > 0.0
    ensures Deviation(t, Mean(t))
         == Deviation(s, Mean(s)) + Welford(v, w, Sum(s) / Weight(s), Sum(t) / Weight(t))
  {
    WeightPositive(s);
    WeightPositive(t);
    WelfordStep(s, t, v, w, Mean(s), Mean(t));
  }

  /** The statistics of two accumulators together, as the code computes them. */
  function Combine(a: Stats, b: Stats): Stats
    requires a.count >= 0.0 && b.count >= 0.0
  {
    if b.count == 0.0 then a
    else if a.count == 0.0 then b
    else
      Stats(a.sum + b.sum, a.count + b.count, a.sumW2 + b.sumW2, Min(a.min, b.min), Max(a.max, b.max),
            a.m2 + (b.m2 + Between(a.sum / a.count, b.sum / b.count, a.count, b.count)))
  }

  /** Merging is a homomorphism from lists of samples. */
  lemma CombineIs(s: seq<Sample>, t: seq<Sample>)
    requires Positive(s) && Positive(t)
    ensures Summary(s).count >= 0.0 && Summary(t).count >= 0.0
    ensures Combine(Summary(s), Summary(t)) == Summary(s + t)
  {
    EmptyByCount(s);
    EmptyByCount(t);
    if t == [] {
      assert s + t == s;
    } else if s == [] {
      assert s + t == t;
    } else {
      SumsAppend(s, t);
      BoundsAppend(s, t);
      ChanStep(s, t, Mean(s), Mean(t), Weight(s), Weight(t));
    }
  }

  lemma {:induction false} UnitFinite(vals: seq<Float>)
    ensures Unit(FiniteSamples(vals))
  {
    if vals != [] {
      UnitFinite(vals[..|vals| - 1]);
    }
  }

  lemma FiniteNext(vals: seq<Float>, i: nat)
    requires i < |vals|
    ensures FiniteSamples(vals[..i + 1])
         == if vals[i].Finite? then FiniteSamples(vals[..i]) + [Sample(vals[i].value, 1.0)]
            else FiniteSamples(vals[..i])
  {
    assert vals[..i + 1][..i] == vals[..i];
  }

  lemma SketchNext(sketch: Option<Sketch>, s: seq<Sample>, x: Sample)
    ensures AddToSketch(sketch, []) == sketch
    ensures AddToSketch(sketch, s + [x])
         == if sketch.Some? then Some(AddToSketch(sketch, s).value + multiset{x}) else None
  {
    if sketch.Some? {
      assert sketch.value + multiset([]) == sketch.value;
      assert sketch.value + multiset(s + [x]) == sketch.value + multiset(s) + multiset{x};
    }
  }

  class H3Accumulator {
    var sum: real
    var count: real
    var min: Option<real>
    var max: Option<real>
    var m2: real
    var sumW2: real
    var quantiles: Option<Sketch>
    ghost var samples: seq<Sample>

    function State(): Stats
      reads this
    {
      Stats(sum, count, sumW2, min, max, m2)
    }

    ghost predicate Valid()
      reads this
    {
      Positive(samples) && State() == Summary(samples)
    }

    constructor ()
      ensures Valid() && samples == [] && quantiles == None
    {
      sum, count, min, max, m2, sumW2, quantiles := 0.0, 0.0, None, None, 0.0, 0.0, None;
      samples := [];
      new;
      SummaryEmpty();
    }

    constructor WithQuantiles()
      ensures Valid() && samples == [] && quantiles == Some(multiset{})
    {
      sum, count, min, max, m2, sumW2 := 0.0, 0.0, None, None, 0.0, 0.0;
      quantiles := Some(multiset{});
      samples := [];
      new;
      SummaryEmpty();
    }

    /** A single pixel. */
    constructor Single(val: real)
      ensures Valid() && samples == [Sample(val, 1.0)] && quantiles == None
    {
      sum, count, min, max, m2, sumW2 := val, 1.0, Some(val), Some(val), 0.0, 1.0;
      quantiles := None;
      samples := [Sample(val, 1.0)];
      new;
      SummaryOne(val, 1.0);
    }

    /** Raw statistics, as decoded from a partial state; valid when they are those of `s`. */
    constructor FromWeightedStats(stats: Stats, sketch: Option<Sketch>, ghost s: seq<Sample>)
      ensures State() == stats && quantiles == sketch && samples == s
    {
      sum, count, min, max := stats.sum, stats.count, stats.min, stats.max;
      m2, sumW2 := stats.m2, stats.sumW2;
      quantiles := sketch;
      samples := s;
    }

    method Clear()
      modifies this
      ensures Valid() && samples == []
      ensures quantiles == if old(quantiles).Some? then Some(multiset{}) else None
    {
      sum, count, min, max, m2, sumW2 := 0.0, 0.0, None, None, 0.0, 0.0;
      if quantiles.Some? {
        quantiles := Some(multiset{});
      }
      samples := [];
      SummaryEmpty();
    }

    method Update(val: Float)
      requires Valid()
      modifies this
      ensures Valid() && samples == old(samples) + Taken(val, Finite(1.0))
      ensures quantiles == AddToSketch(old(quantiles), Taken(val, Finite(1.0)))
    {
      if val.NotFinite? {
        assert quantiles.Some? ==> quantiles.value + multiset([]) == quantiles.value;
        return;
      }
      if quantiles.Some? {
        quantiles := Some(quantiles.value + multiset{Sample(val.value, 1.0)});
      }
      AddOneIs(samples, val.value, 1.0);
      AddPixel(val.value);
      samples := samples + [Sample(val.value, 1.0)];
    }

    /** The statistics' part of an update with a full pixel. */
    method AddPixel(v: real)
      requires count >= 0.0
      modifies `sum, `count, `min, `max, `m2, `sumW2
      ensures State() == AddOne(old(State()), v, 1.0)
    {
      if count == 0.0 {
        sum, count, min, max, m2, sumW2 := v, 1.0, Some(v), Some(v), 0.0, 1.0;
        return;
      }
      var delta := v - sum / count;
      sum := sum + v;
      count := count + 1.0;
      sumW2 := sumW2 + 1.0;
      var delta2 := v - sum / count;
      m2 := m2 + delta * delta2;
      min := Min(min, Some(v));
      max := Max(max, Some(v));
    }

    method UpdateWeighted(val: Float, weight: Float)
      requires Valid()
      modifies this
      ensures Valid() && samples == old(samples) + Taken(val, weight)
      ensures quantiles == AddToSketch(old(quantiles), Taken(val, weight))
    {
      if !(weight.Finite? && weight.value > 0.0) || val.NotFinite? {
        assert quantiles.Some? ==> quantiles.value + multiset([]) == quantiles.value;
        return;
      }
      var v, w := val.value, weight.value;
      if quantiles.Some? {
        quantiles := Some(quantiles.value + multiset{Sample(v, w)});
      }
      AddOneIs(samples, v, w);
      AddWeighted(v, w);
      samples := samples + [Sample(v, w)];
    }

    /** The statistics' part of a weighted update. */
    method AddWeighted(v: real, w: real)
      requires count >= 0.0 && w > 0.0
      modifies `sum, `count, `min, `max, `m2, `sumW2
      ensures State() == AddOne(old(State()), v, w)
    {
      if count == 0.0 {
        sum, count, min, max, m2, sumW2 := v * w, w, Some(v), Some(v), 0.0, w * w;
        return;
      }
      var oldMean := sum / count;
      sum := sum + v * w;
      count := count + w;
      sumW2 := sumW2 + w * w;
      var newMean := sum / count;
      m2 := m2 + w * (v - oldMean) * (v - newMean);
      min := Min(min, Some(v));
      max := Max(max, Some(v));
    }

    method Merge(other: H3Accumulator)
      requires Valid() && other.Valid() && other != this
      modifies this
      ensures Valid() && samples == old(samples) + other.samples
      ensures quantiles == MergedSketch(old(quantiles), old(samples) == [],
                                        other.quantiles, other.samples == [])
    {
      CombineIs(samples, other.samples);
      EmptyByCount(samples);
      EmptyByCount(other.samples);
      MergeState(other);
      samples := samples + other.samples;
    }

    method MergeState(other: H3Accumulator)
      requires count >= 0.0 && other.count >= 0.0 && other != this
      modifies `sum, `count, `min, `max, `m2, `sumW2, `quantiles
      ensures State() == Combine(old(State()), other.State())
      ensures quantiles == MergedSketch(old(quantiles), old(count) == 0.0,
                                        other.quantiles, other.count == 0.0)
    {
      if other.count == 0.0 {
        return;
      }
      if count == 0.0 {
        sum, count, min, max := other.sum, other.count, other.min, other.max;
        m2, sumW2 := other.m2, other.sumW2;
        if other.quantiles.Some? {
          if quantiles.Some? {
            quantiles := Some(quantiles.value + other.quantiles.value);
          } else {
            quantiles := other.quantiles;
          }
        }
        return;
      }
      var n1, n2 := count, other.count;
      var mean1, mean2 := sum / n1, other.sum / n2;
      var delta := mean2 - mean1;
      sum := sum + other.sum;
      count := count + other.count;
      sumW2 := sumW2 + other.sumW2;
      var between := delta * delta * (n1 * n2 / (n1 + n2));
      BetweenIs(mean1, mean2, n1, n2, delta, between);
      m2 := m2 + (other.m2 + between);
      min := Min(min, other.min);
      max := Max(max, other.max);
      if quantiles.Some? && other.quantiles.Some? {
        quantiles := Some(quantiles.value + other.quantiles.value);
      }
    }

    /** Two passes over a block of values, then one merge. */
    method UpdateSlice(vals: seq<Float>)
      requires Valid()
      modifies this
      ensures Valid() && samples == old(samples) + FiniteSamples(vals)
      ensures quantiles == AddToSketch(old(quantiles), FiniteSamples(vals))
    {
      SketchSlice(vals);
      var sum, count, min, max := SliceTotals(vals);
      ghost var taken := FiniteSamples(vals);
      UnitFinite(vals);
      UnitTotals(taken);
      if count == 0.0 {
        assert samples + taken == samples;
        return;
      }
      WeightPositive(taken);
      var mean := sum / count;
      var m2 := SliceDeviation(vals, mean);
      var chunk := new H3Accumulator.FromWeightedStats(Stats(sum, count, count, min, max, m2), None, taken);
      Merge(chunk);
    }

    /** Feeds the finite values of a block to the sketch, if there is one. */
    method SketchSlice(vals: seq<Float>)
      modifies `quantiles
      ensures quantiles == AddToSketch(old(quantiles), FiniteSamples(vals))
    {
      SketchNext(quantiles, [], Sample(0.0, 1.0));
      for i := 0 to |vals|
        invariant quantiles == AddToSketch(old(quantiles), FiniteSamples(vals[..i]))
      {
        FiniteNext(vals, i);
        if quantiles.Some? && vals[i].Finite? {
          SketchNext(old(quantiles), FiniteSamples(vals[..i]), Sample(vals[i].value, 1.0));
          quantiles := Some(quantiles.value + multiset{Sample(vals[i].value, 1.0)});
        }
      }
      assert vals[..|vals|] == vals;
    }

    static method SliceTotals(vals: seq<Float>)
      returns (sum: real, count: real, min: Option<real>, max: Option<real>)
      ensures var s := FiniteSamples(vals);
              && sum == Sum(s) && count == Weight(s) && min == Lowest(s) && max == Highest(s)
              && (count == 0.0 <==> s == [])
    {
      sum, count, min, max := 0.0, 0.0, None, None;
      for i := 0 to |vals|
        invariant sum == Sum(FiniteSamples(vals[..i])) && count == Weight(FiniteSamples(vals[..i]))
        invariant min == Lowest(FiniteSamples(vals[..i])) && max == Highest(FiniteSamples(vals[..i]))
      {
        FiniteNext(vals, i);
        if vals[i].Finite? {
          var v := vals[i].value;
          AppendOne(FiniteSamples(vals[..i]), v, 1.0);
          sum := sum + v;
          min := Min(min, Some(v));
          max := Max(max, Some(v));
          count := count + 1.0;
        }
      }
      assert vals[..|vals|] == vals;
      UnitFinite(vals);
      UnitTotals(FiniteSamples(vals));
    }

    static method SliceDeviation(vals: seq<Float>, mean: real) returns (m2: real)
      ensures m2 == Deviation(FiniteSamples(vals), mean)
    {
      m2 := 0.0;
      for i := 0 to |vals|
        invariant m2 == Deviation(FiniteSamples(vals[..i]), mean)
      {
        FiniteNext(vals, i);
        if vals[i].Finite? {
          var d := vals[i].value - mean;
          DeviationAppend(FiniteSamples(vals[..i]), vals[i].value, 1.0, mean);
          UnitDistance(vals[i].value, mean, d);
          m2 := m2 + d * d;
        }
      }
      assert vals[..|vals|] == vals;
    }

    /** Maps every observation; the original asserts that there is no sketch to leave behind. */
    method ApplyAffine(scale: real, offset: real)
      requires Valid() && quantiles.None?
      modifies `sum, `m2, `min, `max, `samples
      ensures Valid() && samples == Affine(old(samples), scale, offset)
    {
      EmptyByCount(samples);
      AffinePositive(samples, scale, offset);
      if count == 0.0 {
        return;
      }
      AffineSummary(samples, scale, offset);
      MoveFields(scale, offset);
      samples := Affine(samples, scale, offset);
    }

    method MoveFields(scale: real, offset: real)
      modifies `sum, `m2, `min, `max
      ensures State() == AffineStats(old(State()), scale, offset)
    {
      sum := sum * scale + offset * count;
      m2 := m2 * (scale * scale);
      var lo, hi := Moved(min, scale, offset), Moved(max, scale, offset);
      if scale < 0.0 {
        min, max := hi, lo;
      } else {
        min, max := lo, hi;
      }
    }

    /** The mean, or None (NaN) of no samples. */
    method GetMean() returns (mean: Option<real>)
      requires Valid()
      ensures mean == if samples == [] then None else Some(Mean(samples))
    {
      EmptyByCount(samples);
      if count > 0.0 {
        mean := Some(sum / count);
      } else {
        mean := None;
      }
    }

    method Variance() returns (variance: Option<real>)
      ensures variance == VarianceOf(State())
    {
      if count <= 0.0 {
        return None;
      }
      var denom := count - sumW2 / count;
      if denom > count * TOLERANCE && m2 > 0.0 {
        variance := Some(m2 / denom);
      } else {
        variance := Some(0.0);
      }
    }
  }

  /** Denominators below this share of the total weight are taken for zero. */
  const TOLERANCE := 0.000000000001

  /** The reliability-weighted sample variance as the code computes it. */
  function VarianceOf(st: Stats): Option<real> {
    if st.count <= 0.0 then None
    else
      var denom := st.count - st.sumW2 / st.count;
      if denom > st.count * TOLERANCE && st.m2 > 0.0 then Some(st.m2 / denom) else Some(0.0)
  }

  /** Plain sums over a short run of pixels. */
  datatype FastRun = FastRun(sum: real, sumSq: real, count: real, min: Option<real>, max: Option<real>)

  function RunOf(s: seq<Sample>): FastRun {
    FastRun(Sum(s), SquareSum(s), Weight(s), Lowest(s), Highest(s))
  }

  /** A run of pixels becomes the accumulator that took them in one by one. */
  method IntoH3(run: FastRun, ghost s: seq<Sample>) returns (acc: H3Accumulator)
    requires Unit(s) && run == RunOf(s)
    ensures fresh(acc) && acc.Valid() && acc.samples == s && acc.quantiles == None
  {
    UnitTotals(s);
    if s != [] {
      SumOfSquares(s);
    }
    var m2 := 0.0;
    if run.count > 1.0 {
      m2 := run.sumSq - run.sum * run.sum / run.count;
    }
    m2 := if m2 > 0.0 then m2 else 0.0;
    acc := new H3Accumulator.FromWeightedStats(
      Stats(run.sum, run.count, run.count, run.min, run.max, m2), None, s);
  }
}
