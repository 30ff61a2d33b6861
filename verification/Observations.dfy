/**
 The observations of a scan, divided among partitions: what each partition sees of a cell, and that
 all of them together see each observation once.
 */
module Observations {
  import opened Accumulator
  import opened Samples
  import opened ClassCounts
  import opened PartialStates
  import opened PartialMerger
  import opened PartitionSet
  import opened Variance
  import opened Wrappers

  /** A pixel sample that falls in a cell: the chunk it is read from, its value for a continuous
      scan and its class for a categorical one. */
  datatype Observation = Observation(chunk: Chunk, key: Key, sample: Sample, entry: Entry)

  /** What some observations give for one cell, in order. */
  function Picked<T>(f: Observation -> T, pick: Observation -> bool, obs: seq<Observation>): seq<T> {
    if obs == [] then []
    else
      var n := |obs| - 1;
      Picked(f, pick, obs[..n]) + (if pick(obs[n]) then [f(obs[n])] else [])
  }

  function InCell(key: Key): Observation -> bool {
    (o: Observation) => o.key == key
  }

  /** The observations of a cell that a partition sees. */
  function SeenBy(p: ScanPartition, key: Key): Observation -> bool {
    (o: Observation) => o.key == key && p.Contains(o.chunk)
  }

  function SampleOf(o: Observation): Sample { o.sample }

  function EntryOf(o: Observation): Entry { o.entry }

  function SourceOf(kind: Kind, pick: Observation -> bool, obs: seq<Observation>): Source {
    match kind
    case Continuous => Source(Picked(SampleOf, pick, obs), [])
    case Categorical => Source([], Picked(EntryOf, pick, obs))
  }

  /** What a scan keeps of a cell: statistics with or without a sketch, or class weights. */
  datatype Mode = Mode(kind: Kind, sketched: bool) {
    /** The sketch over some samples; it holds all of them. */
    function SketchOver(samples: seq<Sample>): Option<Sketch> {
      if sketched then Some(multiset(samples)) else None
    }
  }

  /** The state of a cell over some observations. */
  function ContentOf(mode: Mode, src: Source): Content {
    match mode.kind
    case Continuous => ContinuousContent(Summary(src.samples), mode.SketchOver(src.samples))
    case Categorical => CategoricalContent(CountsOf(src.observations))
  }

  predicate Observed(obs: seq<Observation>, pick: Observation -> bool) {
    exists i :: 0 <= i < |obs| && pick(obs[i])
  }

  /** Weights are positive, as the accumulators only take in such samples. */
  predicate PositiveWeights(obs: seq<Observation>) {
    forall i :: 0 <= i < |obs| ==> obs[i].sample.weight > 0.0
  }

  lemma {:induction false} PickedNone<T>(f: Observation -> T, pick: Observation -> bool, obs: seq<Observation>)
    ensures Picked(f, pick, obs) == [] <==> !Observed(obs, pick)
  {
    if obs != [] {
      var n := |obs| - 1;
      PickedNone(f, pick, obs[..n]);
      if Observed(obs[..n], pick) {
        var i :| 0 <= i < n && pick(obs[..n][i]);
        assert pick(obs[i]);
      }
    }
  }

  lemma {:induction false} PickedSame<T>(f: Observation -> T, a: Observation -> bool, b: Observation -> bool,
                                         obs: seq<Observation>)
    requires forall i :: 0 <= i < |obs| ==> a(obs[i]) == b(obs[i])
    ensures Picked(f, a, obs) == Picked(f, b, obs)
  {
    if obs != [] {
      PickedSame(f, a, b, obs[..|obs| - 1]);
    }
  }

  lemma {:induction false} PickedPositive(pick: Observation -> bool, obs: seq<Observation>)
    requires PositiveWeights(obs)
    ensures Samples.Positive(Picked(SampleOf, pick, obs))
  {
    if obs != [] {
      PickedPositive(pick, obs[..|obs| - 1]);
    }
  }

  lemma SourceRepresents(mode: Mode, pick: Observation -> bool, obs: seq<Observation>)
    requires PositiveWeights(obs)
    ensures var src := SourceOf(mode.kind, pick, obs);
      Represents(mode.kind, Some(ContentOf(mode, src)), src)
  {
    PickedPositive(pick, obs);
  }

  /** What the partitions see of a cell, one after the other. */
  function SeenTogether<T>(f: Observation -> T, headers: seq<Header>, key: Key, obs: seq<Observation>): seq<T> {
    if headers == [] then []
    else
      var n := |headers| - 1;
      SeenTogether(f, headers[..n], key, obs) + Picked(f, SeenBy(headers[n].partition, key), obs)
  }

  function Times<T>(x: T, n: nat): multiset<T> {
    multiset{}[x := n]
  }

  lemma {:induction false} SeenSnoc<T>(f: Observation -> T, headers: seq<Header>, key: Key,
                                       obs: seq<Observation>, o: Observation)
    ensures multiset(SeenTogether(f, headers, key, obs + [o]))
         == multiset(SeenTogether(f, headers, key, obs))
            + Times(f(o), if o.key == key then Holders(headers, o.chunk) else 0)
  {
    if headers != [] {
      var n := |headers| - 1;
      SeenSnoc(f, headers[..n], key, obs, o);
      var pick := SeenBy(headers[n].partition, key);
      assert (obs + [o])[..|obs|] == obs;
      AddParts(SeenTogether(f, headers[..n], key, obs + [o]), SeenTogether(f, headers[..n], key, obs),
               Picked(f, pick, obs), f(o), if o.key == key then Holders(headers[..n], o.chunk) else 0, pick(o));
    }
  }

  lemma AddParts<T>(a: seq<T>, c: seq<T>, d: seq<T>, x: T, n: nat, more: bool)
    requires multiset(a) == multiset(c) + Times(x, n)
    ensures multiset(a + (d + if more then [x] else []))
         == multiset(c + d) + Times(x, n + if more then 1 else 0)
  {
    var e := if more then [x] else [];
    assert multiset(a + (d + e)) == multiset(a) + (multiset(d) + multiset(e));
    assert multiset(c + d) == multiset(c) + multiset(d);
    assert Times(x, n) + multiset(e) == Times(x, n + if more then 1 else 0);
  }

  lemma {:induction false} SeenNothing<T>(f: Observation -> T, headers: seq<Header>, key: Key)
    ensures SeenTogether(f, headers, key, []) == []
  {
    if headers != [] {
      SeenNothing(f, headers[..|headers| - 1], key);
    }
  }

  /** Each observation is read by one partition. */
  predicate ReadOnce(headers: seq<Header>, obs: seq<Observation>) {
    forall i :: 0 <= i < |obs| ==> Holders(headers, obs[i].chunk) == 1
  }

  /** The partitions together see each observation of a cell once, in some order. */
  lemma {:induction false} SeenIsAll<T>(f: Observation -> T, headers: seq<Header>, key: Key, obs: seq<Observation>)
    requires ReadOnce(headers, obs)
    ensures multiset(SeenTogether(f, headers, key, obs)) == multiset(Picked(f, InCell(key), obs))
  {
    if obs == [] {
      SeenNothing(f, headers, key);
    } else {
      var n := |obs| - 1;
      var o := obs[n];
      SeenIsAll(f, headers, key, obs[..n]);
      assert obs == obs[..n] + [o];
      SeenSnoc(f, headers, key, obs[..n], o);
      if o.key == key {
        assert Times(f(o), 1) == multiset{f(o)};
      }
    }
  }

  /** The state over everything the partitions see is the state over all observations. */
  lemma WholeState(mode: Mode, headers: seq<Header>, key: Key, obs: seq<Observation>)
    requires ReadOnce(headers, obs)
    ensures ContentOf(mode, Together(mode.kind, headers, key, obs))
         == ContentOf(mode, SourceOf(mode.kind, InCell(key), obs))
  {
    match mode.kind
    case Continuous =>
      SeenIsAll(SampleOf, headers, key, obs);
      SummaryPermuted(SeenTogether(SampleOf, headers, key, obs), Picked(SampleOf, InCell(key), obs));
    case Categorical =>
      SeenIsAll(EntryOf, headers, key, obs);
      CountsPermuted(SeenTogether(EntryOf, headers, key, obs), Picked(EntryOf, InCell(key), obs));
  }

  function Together(kind: Kind, headers: seq<Header>, key: Key, obs: seq<Observation>): Source {
    match kind
    case Continuous => Source(SeenTogether(SampleOf, headers, key, obs), [])
    case Categorical => Source([], SeenTogether(EntryOf, headers, key, obs))
  }
}
