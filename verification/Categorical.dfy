/**
 The accumulator of a cell's class frequencies: sixteen inline slots that spill to a hash map.
 Both representations stand for the same map from class to weight.
 */
module Categorical {
  import opened Wrappers
  import opened ClassCounts
  import opened Majority
  import opened Histogram

  const INLINE_CAPACITY := 16

  class CategoricalAccumulator {
    const inlineEntries: array<Entry>
    var inlineLen: nat
    var heapCounts: Option<Counts>
    var totalCount: real

    /** The map that the representation stands for. */
    function Value(): Counts
      reads this, inlineEntries
    {
      if heapCounts.Some? then heapCounts.value
      else if inlineLen <= inlineEntries.Length then MapOf(inlineEntries[..inlineLen])
      else map[]
    }

    ghost predicate Valid()
      reads this, inlineEntries
    {
      && inlineEntries.Length == INLINE_CAPACITY && inlineLen <= INLINE_CAPACITY
      && (heapCounts.None? ==> Inline())
      && Positive(Value()) && totalCount == TotalOf(Value())
    }

    constructor ()
      ensures Valid() && fresh(inlineEntries) && Value() == map[]
    {
      inlineEntries := new Entry[INLINE_CAPACITY](_ => Entry(0, 0.0));
      inlineLen, heapCounts, totalCount := 0, None, 0.0;
      new;
      TotalPositive(map[]);
    }

    /** The entries in the order of iteration, which for the hash map is arbitrary. */
    method Entries() returns (entries: seq<Entry>)
      requires Valid()
      ensures Lists(entries, Value()) && PositiveEntries(entries) && |entries| == |Value()|
    {
      if heapCounts.Some? {
        entries := MapEntries(heapCounts.value);
        ListsEntries(entries, Value());
      } else {
        entries := inlineEntries[..inlineLen];
      }
      MapOfSize(entries);
    }

    method GetClassCount(category: int) returns (count: real)
      requires Valid()
      ensures count == Get(Value(), category)
    {
      if heapCounts.Some? {
        return Get(heapCounts.value, category);
      }
      var i := Find(category);
      if i < inlineLen {
        MapOfAt(inlineEntries[..inlineLen], i);
        return inlineEntries[i].count;
      }
      MapOfKeys(inlineEntries[..inlineLen], category);
      return 0.0;
    }

    /** The inline slot of a class, or `inlineLen`. */
    method Find(category: int) returns (i: nat)
      requires inlineLen <= inlineEntries.Length
      ensures i <= inlineLen
      ensures i < inlineLen ==> inlineEntries[i].category == category
      ensures i == inlineLen <==> !Visits(inlineEntries[..inlineLen], category)
    {
      i := 0;
      while i < inlineLen
        invariant i <= inlineLen
        invariant forall j :: 0 <= j < i ==> inlineEntries[j].category != category
      {
        if inlineEntries[i].category == category {
          assert inlineEntries[..inlineLen][i].category == category;
          return;
        }
        i := i + 1;
      }
    }

    /** A weighted observation; the class moves to the hash map when it is the seventeenth. */
    method UpdateWeighted(category: int, weight: real)
      requires Valid()
      modifies this, inlineEntries
      ensures Valid() && Value() == Added(old(Value()), category, weight)
    {
      if weight <= 0.0 {
        return;
      }
      TotalAdded(Value(), category, weight);
      totalCount := totalCount + weight;
      if heapCounts.Some? {
        heapCounts := Some(Added(heapCounts.value, category, weight));
        return;
      }
      var i := Find(category);
      if i < inlineLen {
        AddToSlot(i, weight);
      } else if inlineLen < INLINE_CAPACITY {
        AppendSlot(category, weight);
      } else {
        Spill(category, weight);
      }
    }

    predicate Inline()
      reads this, inlineEntries
    {
      && inlineEntries.Length == INLINE_CAPACITY && inlineLen <= INLINE_CAPACITY && heapCounts.None?
      && Distinct(inlineEntries[..inlineLen]) && PositiveEntries(inlineEntries[..inlineLen])
    }

    method AddToSlot(i: nat, weight: real)
      requires Inline() && i < inlineLen && weight > 0.0
      modifies inlineEntries
      ensures Inline() && Value() == Added(old(Value()), old(inlineEntries[i].category), weight)
    {
      ghost var entries := inlineEntries[..inlineLen];
      MapOfAt(entries, i);
      MapOfUpdate(entries, i, entries[i].count + weight);
      inlineEntries[i] := Entry(inlineEntries[i].category, inlineEntries[i].count + weight);
      assert inlineEntries[..inlineLen] == entries[i := inlineEntries[i]];
    }

    method AppendSlot(category: int, weight: real)
      requires Inline() && inlineLen < INLINE_CAPACITY && weight > 0.0
      requires !Visits(inlineEntries[..inlineLen], category)
      modifies `inlineLen, inlineEntries
      ensures Inline() && Value() == Added(old(Value()), category, weight)
    {
      ghost var entries := inlineEntries[..inlineLen];
      MapOfKeys(entries, category);
      MapOfSnoc(entries, Entry(category, weight));
      assert forall i :: 0 <= i < |entries| ==> Visits(entries, entries[i].category);
      inlineEntries[inlineLen] := Entry(category, weight);
      inlineLen := inlineLen + 1;
      assert inlineEntries[..inlineLen] == entries + [Entry(category, weight)];
    }

    method Spill(category: int, weight: real)
      requires Inline() && inlineLen == INLINE_CAPACITY && weight > 0.0
      requires !Visits(inlineEntries[..inlineLen], category)
      modifies `heapCounts
      ensures heapCounts == Some(Added(old(Value()), category, weight))
    {
      var spilled: Counts := map[];
      for j := 0 to INLINE_CAPACITY
        invariant spilled == MapOf(inlineEntries[..j])
      {
        assert inlineEntries[..j + 1] == inlineEntries[..j] + [inlineEntries[j]];
        MapOfSnoc(inlineEntries[..j], inlineEntries[j]);
        spilled := spilled[inlineEntries[j].category := inlineEntries[j].count];
      }
      MapOfKeys(inlineEntries[..inlineLen], category);
      heapCounts := Some(spilled[category := weight]);
    }

    /** Adds the other accumulator class by class, in whatever order its classes come. */
    method Merge(other: CategoricalAccumulator)
      requires Valid() && other.Valid() && other != this && other.inlineEntries != inlineEntries
      modifies this, inlineEntries
      ensures Valid() && Value() == Plus(old(Value()), other.Value())
    {
      TotalPositive(other.Value());
      if other.totalCount == 0.0 {
        PlusEmpty(Value(), other.Value());
        return;
      }
      var entries := other.Entries();
      ghost var before := Value();
      for i := 0 to |entries|
        invariant Valid() && Value() == AddAll(before, entries[..i])
      {
        assert entries[..i + 1][..i] == entries[..i];
        UpdateWeighted(entries[i].category, entries[i].count);
      }
      assert entries[..|entries|] == entries;
      AddAllIsPlus(before, entries);
    }

    /** The class that leads after one pass in the order of iteration. */
    method GetMajority() returns (category: int, count: real, fraction: real, ghost order: seq<Entry>)
      requires Valid()
      ensures Lists(order, Value())
      ensures order == [] ==> category == 0 && count == 0.0 && fraction == 0.0
      ensures order != [] ==>
                && Entry(category, count) == Winner(order, TotalOf(Value()) * TIE_SHARE)
                && TotalOf(Value()) > 0.0 && fraction == count / TotalOf(Value())
      ensures Empty(Value()) <==> order == []
      ensures !Empty(Value()) ==>
                && category in Value() && count == Value()[category]
                && forall k :: k in Value() ==>
                     Value()[k] <= count + Slack(|Value()| - 1, TotalOf(Value()) * TIE_SHARE)
    {
      TotalPositive(Value());
      var entries := Entries();
      order := entries;
      if totalCount == 0.0 {
        category, count, fraction := 0, 0.0, 0.0;
        EmptyLists(entries, Value());
        return;
      }
      var tieEps := (if totalCount < 0.0 then -totalCount else totalCount) * TIE_SHARE;
      category, count := Leader(entries, tieEps);
      ListedNearMaximum(entries, Value(), tieEps);
      WinnerNearMaximum(entries, tieEps);
      fraction := if totalCount > 0.0 && count > 0.0 then count / totalCount else 0.0;
    }

    static method Leader(entries: seq<Entry>, tieEps: real) returns (maxCat: int, maxCount: real)
      requires entries != []
      ensures Entry(maxCat, maxCount) == Winner(entries, tieEps)
    {
      var seenAny := false;
      maxCat, maxCount := 0, -1.0;
      for i := 0 to |entries|
        invariant seenAny <==> i > 0
        invariant seenAny ==> Entry(maxCat, maxCount) == Winner(entries[..i], tieEps)
      {
        var x := entries[i];
        assert entries[..i + 1][..i] == entries[..i];
        var isTie := (if x.count < maxCount then maxCount - x.count else x.count - maxCount) <= tieEps;
        if !seenAny || (x.count > maxCount && !isTie) || (isTie && x.category < maxCat) {
          maxCount, maxCat, seenAny := x.count, x.category, true;
        }
      }
      assert entries[..|entries|] == entries;
    }

    method UniqueClasses() returns (n: nat)
      requires Valid()
      ensures n == |Value()|
    {
      if heapCounts.Some? {
        n := |heapCounts.value|;
      } else {
        n := inlineLen;
        MapOfSize(inlineEntries[..inlineLen]);
      }
    }

    /** The histogram depends on the map alone, not on the representation or the order. */
    method HistogramJson() returns (text: string)
      requires Valid()
      ensures IsHistogram(text, Value())
    {
      var n := UniqueClasses();
      var entries := Entries();
      if n == 0 {
        assert SortedEntries(entries, Value());
        return "{}";
      }
      var sorted := SortByCategory(entries, Value());
      SharesOf(sorted, Value());
      text := WriteEntries(sorted, totalCount);
    }
  }

  lemma PlusEmpty(a: Counts, b: Counts)
    requires Empty(b)
    ensures Plus(a, b) == a
  {}

  lemma MapOfUpdate(entries: seq<Entry>, i: nat, count: real)
    requires Distinct(entries) && i < |entries|
    ensures var updated := entries[i := Entry(entries[i].category, count)];
      Distinct(updated) && MapOf(updated) == MapOf(entries)[entries[i].category := count]
  {
    var k := entries[i].category;
    var updated := entries[i := Entry(k, count)];
    MapOfAt(entries, i);
    var m := MapOf(entries)[k := count];
    forall j | 0 <= j < |updated|
      ensures updated[j].category in m && m[updated[j].category] == updated[j].count
    {
      MapOfAt(entries, j);
    }
    forall c | c in m
      ensures Visits(updated, c)
    {
      MapOfKeys(entries, c);
      var j :| 0 <= j < |entries| && entries[j].category == c;
      assert updated[j].category == c;
    }
    ListsFrom(updated, m);
  }

  /** The entries of a hash map, in some order. */
  method MapEntries(m: Counts) returns (entries: seq<Entry>)
    ensures Lists(entries, m)
  {
    entries := [];
    var keys := m.Keys;
    while keys != {}
      invariant keys <= m.Keys
      invariant Lists(entries, m - keys)
    {
      Inhabited(keys);
      var k :| k in keys;
      MapOfKeys(entries, k);
      forall i | 0 <= i < |entries|
        ensures entries[i].category != k
      {
        assert Visits(entries, entries[i].category);
      }
      MapOfSnoc(entries, Entry(k, m[k]));
      assert m - (keys - {k}) == (m - keys)[k := m[k]];
      entries := entries + [Entry(k, m[k])];
      keys := keys - {k};
    }
    assert m - {} == m;
  }
}
