/**
 The aggregate that merges partial states: one accumulator object per group and phase.
 */
module MergeUdaf {
  import opened Wrappers
  import opened Samples
  import opened Accumulator
  import opened ClassCounts
  import opened Categorical
  import opened PartialStates

  /** A partial state as it travels. A categorical one lists its classes in the order of iteration
      of the accumulator that wrote it. */
  datatype Encoded =
    | EncodedContinuous(stats: Stats, sketch: Option<Sketch>)
    | EncodedCategorical(total: real, entries: seq<Entry>)
    | Corrupt

  datatype StateError = InvalidState

  /** How many bytes a decoded state may take. What a state takes is up to the representation of its
      accumulator. */
  datatype Budget = Budget(limit: nat, size: Encoded -> nat) {
    predicate Fits(e: Encoded) {
      size(e) <= limit
    }
  }

  /** How states are read: as states of one kind, within a budget. */
  datatype Codec = Codec(kind: Kind, budget: Budget)

  /** What a state of a kind holds. */
  function Held(kind: Kind, e: Encoded): Option<Content> {
    match (kind, e)
    case (Continuous, EncodedContinuous(stats, sketch)) => Some(ContinuousContent(stats, sketch))
    case (Categorical, EncodedCategorical(total, entries)) => Some(CategoricalContent(CountsOf(entries)))
    case _ => None
  }

  function Decode(codec: Codec, e: Encoded): Option<Content> {
    if codec.budget.Fits(e) then Held(codec.kind, e) else None
  }

  /** A null state, or one that decodes. */
  predicate Readable(codec: Codec, e: Option<Encoded>) {
    e.None? || Decode(codec, e.value).Some?
  }

  /** The content of a readable state. */
  function ContentOf(codec: Codec, e: Option<Encoded>): Option<Content> {
    if e.None? then None else Decode(codec, e.value)
  }

  /** The state was written by an accumulator: its total weight is not negative, and a categorical
      one carries the total of its classes. */
  ghost predicate WellFormed(kind: Kind, e: Option<Encoded>) {
    e.Some? && Held(kind, e.value).Some? ==>
      match e.value
      case EncodedContinuous(stats, _) => stats.count >= 0.0
      case EncodedCategorical(total, entries) => total == TotalOf(CountsOf(entries))
      case Corrupt => false
  }

  /** The states of a column merged one after the other. */
  function FoldColumn(codec: Codec, a: Option<Content>, column: seq<Option<Encoded>>): Option<Content> {
    if column == [] then a
    else Step(FoldColumn(codec, a, column[..|column| - 1]), ContentOf(codec, column[|column| - 1]))
  }

  /** `leaves` says what the states of the column stand for. */
  ghost predicate Column(codec: Codec, column: seq<Option<Encoded>>, leaves: seq<Leaf>) {
    && |leaves| == |column|
    && forall i :: 0 <= i < |column| ==>
         Readable(codec, column[i]) && leaves[i].content == ContentOf(codec, column[i])
  }

  lemma {:induction false} FoldColumnIsFold(codec: Codec, a: Option<Content>,
                                            column: seq<Option<Encoded>>, leaves: seq<Leaf>)
    requires Column(codec, column, leaves)
    ensures FoldColumn(codec, a, column) == Fold(a, leaves)
  {
    if column != [] {
      FoldColumnIsFold(codec, a, column[..|column| - 1], leaves[..|leaves| - 1]);
    }
  }

  /** Taking in a column of genuine states on top of a genuine state: the result stands for the
      observations of both. */
  lemma {:induction false} ColumnSums(codec: Codec, a: Option<Content>, before: seq<Leaf>,
                   column: seq<Option<Encoded>>, leaves: seq<Leaf>)
    requires Sums(codec.kind, a, before) && Column(codec, column, leaves) && AllRepresent(codec.kind, leaves)
    ensures Sums(codec.kind, FoldColumn(codec, a, column), before + leaves)
  {
    FoldColumnIsFold(codec, a, column, leaves);
    SumsFold(codec.kind, a, before, leaves);
  }

  datatype State =
    | Empty
    | OfContinuous(continuous: H3Accumulator)
    | OfCategorical(categorical: CategoricalAccumulator)

  class MergeAccumulator {
    const codec: Codec
    var state: State

    function Repr(): set<object>
      reads this
    {
      match state
      case Empty => {}
      case OfContinuous(acc) => {acc}
      case OfCategorical(acc) => {acc, acc.inlineEntries}
    }

    function Value(): Option<Content>
      reads this, Repr()
    {
      match state
      case Empty => None
      case OfContinuous(acc) => Some(ContinuousContent(acc.State(), acc.quantiles))
      case OfCategorical(acc) => Some(CategoricalContent(acc.Value()))
    }

    ghost predicate Valid()
      reads this, Repr()
    {
      match state
      case Empty => true
      case OfContinuous(acc) => codec.kind.Continuous? && acc.count >= 0.0
      case OfCategorical(acc) => codec.kind.Categorical? && acc.Valid()
    }

    constructor (codec: Codec)
      ensures Valid() && this.codec == codec && Value() == None && Repr() == {}
    {
      this.codec := codec;
      state := Empty;
    }

    /** One row: a null is skipped, the first state is adopted, any other is merged. */
    method MergeRow(row: Option<Encoded>) returns (r: Result<(), StateError>)
      requires Valid() && WellFormed(codec.kind, row)
      modifies this, Repr()
      ensures Valid() && fresh(Repr() - old(Repr()))
      ensures r.Ok? <==> Readable(codec, row)
      ensures Value() == if r.Ok? then Step(old(Value()), ContentOf(codec, row)) else old(Value())
    {
      if row.None? {
        return Ok(());
      }
      if !Readable(codec, row) {
        return Err(InvalidState);
      }
      if codec.kind.Continuous? {
        var other := new H3Accumulator.FromWeightedStats(row.value.stats, row.value.sketch, []);
        match state
        case OfContinuous(acc) => acc.MergeState(other);
        case Empty => state := OfContinuous(other);
      } else {
        var other := DecodeCategorical(row.value);
        match state
        case OfCategorical(acc) => acc.Merge(other);
        case Empty => state := OfCategorical(other);
      }
      r := Ok(());
    }

    /** Merges every non-null state of a column, up to the first that cannot be read. */
    method UpdateBatch(column: seq<Option<Encoded>>) returns (r: Result<(), StateError>, ghost n: nat)
      requires Valid() && forall i :: 0 <= i < |column| ==> WellFormed(codec.kind, column[i])
      modifies this, Repr()
      ensures Valid() && fresh(Repr() - old(Repr())) && n <= |column|
      ensures r.Ok? <==> n == |column|
      ensures r.Err? ==> !Readable(codec, column[n])
      ensures forall i :: 0 <= i < n ==> Readable(codec, column[i])
      ensures Value() == FoldColumn(codec, old(Value()), column[..n])
    {
      n := 0;
      for i := 0 to |column|
        invariant n == i && Valid() && fresh(Repr() - old(Repr()))
        invariant forall j :: 0 <= j < i ==> Readable(codec, column[j])
        invariant Value() == FoldColumn(codec, old(Value()), column[..i])
      {
        assert column[..i + 1][..i] == column[..i];
        var merged := MergeRow(column[i]);
        if merged.Err? {
          return merged, i;
        }
        n := i + 1;
      }
      r := Ok(());
    }

    /** The intermediate state holds what was merged here, and reads back unless it exceeds the budget. */
    method Export() returns (bytes: Option<Encoded>)
      requires Valid()
      ensures WellFormed(codec.kind, bytes)
      ensures Value() == if bytes.Some? then Held(codec.kind, bytes.value) else None
      ensures Readable(codec, bytes) <==> bytes.None? || codec.budget.size(bytes.value) <= codec.budget.limit
      ensures Readable(codec, bytes) ==> ContentOf(codec, bytes) == Value()
    {
      match state
      case Empty => bytes := None;
      case OfContinuous(acc) => bytes := Some(EncodedContinuous(acc.State(), acc.quantiles));
      case OfCategorical(acc) =>
        var entries := acc.Entries();
        EncodedEntries(entries);
        bytes := Some(EncodedCategorical(acc.totalCount, entries));
    }

    /** The final content; the accumulator is left empty. */
    method Finish() returns (result: Option<Content>)
      requires Valid()
      modifies this
      ensures Valid() && Value() == None && Repr() == {} && result == old(Value())
    {
      result := Value();
      state := Empty;
    }
  }

  lemma {:induction false} EncodedEntries(entries: seq<Entry>)
    requires Distinct(entries) && PositiveEntries(entries)
    ensures CountsOf(entries) == MapOf(entries)
  {
    AddAllIsPlus(map[], entries);
  }

  /** Reads a categorical state: the classes are added in the order in which they were written. */
  method DecodeCategorical(e: Encoded) returns (acc: CategoricalAccumulator)
    requires e.EncodedCategorical? && e.total == TotalOf(CountsOf(e.entries))
    ensures fresh(acc) && fresh(acc.inlineEntries) && acc.Valid() && acc.Value() == CountsOf(e.entries)
  {
    acc := new CategoricalAccumulator();
    for i := 0 to |e.entries|
      invariant fresh(acc) && fresh(acc.inlineEntries)
      invariant acc.Valid() && acc.Value() == CountsOf(e.entries[..i])
    {
      assert e.entries[..i + 1][..i] == e.entries[..i];
      acc.UpdateWeighted(e.entries[i].category, e.entries[i].count);
    }
    assert e.entries[..|e.entries|] == e.entries;
    acc.totalCount := e.total;
  }
}
