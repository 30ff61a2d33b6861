/**
 What a categorical accumulator means: a map from class to accumulated weight. The order in which
 the entries of such a map are visited is arbitrary.
 */
module ClassCounts {
  type Counts = map<int, real>

  datatype Entry = Entry(category: int, count: real)

  function Get(m: Counts, category: int): real {
    if category in m then m[category] else 0.0
  }

  predicate Empty(m: Counts) {
    forall k :: k !in m
  }

  predicate Positive(m: Counts) {
    forall k :: k in m ==> m[k] > 0.0
  }

  /** One more weighted observation; weights that are not positive are ignored. */
  function Added(m: Counts, category: int, weight: real): Counts {
    if weight <= 0.0 then m else m[category := Get(m, category) + weight]
  }

  function Plus(a: Counts, b: Counts): Counts {
    map k | k in a.Keys + b.Keys :: Get(a, k) + Get(b, k)
  }

  lemma Inhabited(keys: set<int>)
    ensures keys == {} || exists k :: k in keys
  {
    if forall k :: k !in keys {
      assert keys == {};
    }
  }

  ghost function TotalOf(m: Counts): real
    decreases |m|
  {
    if exists k :: k in m then
      var k :| k in m;
      m[k] + TotalOf(m - {k})
    else 0.0
  }

  lemma {:induction false} TotalRemove(m: Counts, k: int)
    requires k in m
    ensures TotalOf(m) == m[k] + TotalOf(m - {k})
    decreases |m|
  {
    var first :| first in m && TotalOf(m) == m[first] + TotalOf(m - {first});
    if first != k {
      TotalRemove(m - {first}, k);
      TotalRemove(m - {k}, first);
      assert m - {first} - {k} == m - {k} - {first};
    }
  }

  lemma {:induction false} TotalAdded(m: Counts, category: int, weight: real)
    requires weight > 0.0
    ensures TotalOf(Added(m, category, weight)) == TotalOf(m) + weight
  {
    var m' := Added(m, category, weight);
    TotalRemove(m', category);
    assert m' - {category} == m - {category};
    if category in m {
      TotalRemove(m, category);
    } else {
      assert m - {category} == m;
    }
  }

  /** A class weighs at most the total, and the total is zero only without classes. */
  lemma {:induction false} TotalPositive(m: Counts)
    requires Positive(m)
    ensures if Empty(m) then TotalOf(m) == 0.0 else TotalOf(m) > 0.0
    decreases |m|
  {
    if !Empty(m) {
      var first :| first in m && TotalOf(m) == m[first] + TotalOf(m - {first});
      TotalPositive(m - {first});
    }
  }

  lemma {:induction false} TotalBounds(m: Counts, k: int)
    requires Positive(m) && k in m
    ensures 0.0 < m[k] <= TotalOf(m)
  {
    TotalRemove(m, k);
    TotalPositive(m - {k});
  }

  // ----- Visiting the entries -----

  function MapOf(entries: seq<Entry>): Counts {
    if entries == [] then map[]
    else
      var last := entries[|entries| - 1];
      MapOf(entries[..|entries| - 1])[last.category := last.count]
  }

  predicate Distinct(entries: seq<Entry>) {
    forall i, j :: 0 <= i < j < |entries| ==> entries[i].category != entries[j].category
  }

  /** `entries` visits every class of `m` once. */
  predicate Lists(entries: seq<Entry>, m: Counts) {
    Distinct(entries) && MapOf(entries) == m
  }

  lemma {:induction false} MapOfSnoc(entries: seq<Entry>, last: Entry)
    ensures MapOf(entries + [last]) == MapOf(entries)[last.category := last.count]
  {
    assert (entries + [last])[..|entries|] == entries;
  }

  lemma {:induction false} MapOfAt(entries: seq<Entry>, i: nat)
    requires Distinct(entries) && i < |entries|
    ensures entries[i].category in MapOf(entries)
    ensures MapOf(entries)[entries[i].category] == entries[i].count
  {
    if i < |entries| - 1 {
      MapOfAt(entries[..|entries| - 1], i);
    }
  }

  predicate Visits(entries: seq<Entry>, k: int) {
    exists i :: 0 <= i < |entries| && entries[i].category == k
  }

  lemma VisitsFront(entries: seq<Entry>, n: nat, k: int)
    requires n <= |entries| && Visits(entries[..n], k)
    ensures Visits(entries, k)
  {
    var i :| 0 <= i < n && entries[..n][i].category == k;
    assert entries[i].category == k;
  }

  lemma EmptyLists(entries: seq<Entry>, m: Counts)
    requires Lists(entries, m) && Empty(m)
    ensures entries == []
  {
    if entries != [] {
      MapOfAt(entries, 0);
    }
  }

  lemma {:induction false} MapOfKeys(entries: seq<Entry>, k: int)
    ensures k in MapOf(entries) <==> Visits(entries, k)
  {
    if entries != [] {
      var n := |entries| - 1;
      MapOfKeys(entries[..n], k);
      if Visits(entries[..n], k) {
        VisitsFront(entries, n, k);
      }
    }
  }

  lemma {:induction false} MapOfSize(entries: seq<Entry>)
    requires Distinct(entries)
    ensures |MapOf(entries)| == |entries|
  {
    if entries != [] {
      var n := |entries| - 1;
      MapOfSize(entries[..n]);
      MapOfKeys(entries[..n], entries[n].category);
      assert MapOf(entries).Keys == MapOf(entries[..n]).Keys + {entries[n].category};
    }
  }

  /** Adding the entries of `b` one by one, in any order, is the pointwise sum. */
  function AddAll(m: Counts, entries: seq<Entry>): Counts {
    if entries == [] then m
    else
      var last := entries[|entries| - 1];
      Added(AddAll(m, entries[..|entries| - 1]), last.category, last.count)
  }

  lemma {:induction false} AddAllIsPlus(m: Counts, entries: seq<Entry>)
    requires Distinct(entries) && PositiveEntries(entries)
    ensures AddAll(m, entries) == Plus(m, MapOf(entries))
  {
    if entries != [] {
      var n := |entries| - 1;
      var front, last := entries[..n], entries[n];
      MapOfKeys(front, last.category);
      AddAllIsPlus(m, front);
      PlusNext(m, MapOf(front), last);
    }
  }

  lemma PlusNext(m: Counts, front: Counts, last: Entry)
    requires last.category !in front && last.count > 0.0
    ensures Added(Plus(m, front), last.category, last.count)
         == Plus(m, front[last.category := last.count])
  {}

  predicate PositiveEntries(entries: seq<Entry>) {
    forall i :: 0 <= i < |entries| ==> entries[i].count > 0.0
  }

  // ----- Lists of observations -----

  /** The map of a list of weighted observations (category, weight). */
  function CountsOf(s: seq<Entry>): Counts { AddAll(map[], s) }

  /** The total weight of a class over a list, by definition. */
  function ClassWeight(s: seq<Entry>, category: int): real {
    if s == [] then 0.0
    else
      var last := s[|s| - 1];
      var before := ClassWeight(s[..|s| - 1], category);
      if last.category == category && last.count > 0.0 then before + last.count else before
  }

  predicate Observed(s: seq<Entry>, category: int) {
    exists i :: 0 <= i < |s| && s[i].category == category && s[i].count > 0.0
  }

  /** Every class weighs what the list gives it, and no class is missing or made up. */
  lemma {:induction false} CountsAreClassWeights(s: seq<Entry>, category: int)
    ensures Get(CountsOf(s), category) == ClassWeight(s, category)
    ensures category in CountsOf(s) <==> Observed(s, category)
    ensures category in CountsOf(s) ==> CountsOf(s)[category] > 0.0
  {
    if s != [] {
      var n := |s| - 1;
      CountsAreClassWeights(s[..n], category);
      if Observed(s[..n], category) {
        var i :| 0 <= i < n && s[..n][i].category == category && s[..n][i].count > 0.0;
        assert s[i].category == category;
      }
    }
  }

  lemma CountsOfPositive(s: seq<Entry>)
    ensures Positive(CountsOf(s))
  {
    forall k | k in CountsOf(s)
      ensures CountsOf(s)[k] > 0.0
    {
      CountsAreClassWeights(s, k);
    }
  }

  lemma {:induction false} ClassWeightAppend(s: seq<Entry>, t: seq<Entry>, category: int)
    ensures ClassWeight(s + t, category) == ClassWeight(s, category) + ClassWeight(t, category)
    ensures Observed(s + t, category) <==> Observed(s, category) || Observed(t, category)
  {
    if t == [] {
      assert s + t == s;
    } else {
      var n := |t| - 1;
      assert (s + t)[..|s| + n] == s + t[..n];
      ClassWeightAppend(s, t[..n], category);
    }
    ObservedAppend(s, t, category);
  }

  lemma ObservedAppend(s: seq<Entry>, t: seq<Entry>, category: int)
    ensures Observed(s + t, category) <==> Observed(s, category) || Observed(t, category)
  {
    if Observed(s, category) {
      var i :| 0 <= i < |s| && s[i].category == category && s[i].count > 0.0;
      assert (s + t)[i] == s[i];
    }
    if Observed(t, category) {
      var i :| 0 <= i < |t| && t[i].category == category && t[i].count > 0.0;
      assert (s + t)[|s| + i] == t[i];
    }
  }

  /** Merging is a homomorphism from lists of observations. */
  lemma PlusIs(s: seq<Entry>, t: seq<Entry>)
    ensures Plus(CountsOf(s), CountsOf(t)) == CountsOf(s + t)
  {
    forall k
      ensures k in Plus(CountsOf(s), CountsOf(t)) <==> k in CountsOf(s + t)
      ensures k in CountsOf(s + t) ==> Plus(CountsOf(s), CountsOf(t))[k] == CountsOf(s + t)[k]
    {
      CountsAreClassWeights(s, k);
      CountsAreClassWeights(t, k);
      CountsAreClassWeights(s + t, k);
      ClassWeightAppend(s, t, k);
    }
  }

  lemma {:induction false} ClassWeightPermuted(s: seq<Entry>, t: seq<Entry>, category: int)
    requires multiset(s) == multiset(t)
    ensures ClassWeight(s, category) == ClassWeight(t, category)
    decreases |s|
  {
    if s == [] {
      assert |multiset(t)| == 0;
    } else {
      var last := s[|s| - 1];
      assert last in multiset(s);
      var i :| 0 <= i < |t| && t[i] == last;
      var front, rest := s[..|s| - 1], t[..i] + t[i + 1..];
      assert s == front + [last];
      assert t == t[..i] + [last] + t[i + 1..];
      assert multiset(front) == multiset(s) - multiset{last};
      assert multiset(rest) == multiset(t) - multiset{last};
      ClassWeightPermuted(front, rest, category);
      ClassWeightAppend(t[..i] + [last], t[i + 1..], category);
      ClassWeightAppend(t[..i], [last], category);
      ClassWeightAppend(t[..i], t[i + 1..], category);
      assert [last][..0] == [];
    }
  }

  /** The map depends only on which observations there are, not on their order. */
  lemma CountsPermuted(s: seq<Entry>, t: seq<Entry>)
    requires multiset(s) == multiset(t)
    ensures CountsOf(s) == CountsOf(t)
  {
    forall k
      ensures k in CountsOf(s) <==> k in CountsOf(t)
      ensures k in CountsOf(s) ==> CountsOf(s)[k] == CountsOf(t)[k]
    {
      CountsAreClassWeights(s, k);
      CountsAreClassWeights(t, k);
      ClassWeightPermuted(s, t, k);
      ObservedPermuted(s, t, k);
    }
  }

  lemma ObservedPermuted(s: seq<Entry>, t: seq<Entry>, category: int)
    requires multiset(s) == multiset(t)
    ensures Observed(s, category) <==> Observed(t, category)
  {
    forall a: seq<Entry>, b: seq<Entry> | multiset(a) == multiset(b) && Observed(a, category)
      ensures Observed(b, category)
    {
      var i :| 0 <= i < |a| && a[i].category == category && a[i].count > 0.0;
      assert a[i] in multiset(b);
      var j :| 0 <= j < |b| && b[j] == a[i];
    }
  }
}
