/**
 The majority class: a single pass over the classes in arbitrary order, where counts within an
 epsilon are tied and ties go to the lower class.
 */
module Majority {
  import opened ClassCounts

  predicate Tied(a: real, b: real, eps: real) {
    -eps <= a - b <= eps
  }

  /** Whether visiting `x` takes the lead from `best`. */
  predicate Replaces(x: Entry, best: Entry, eps: real) {
    || (x.count > best.count && !Tied(x.count, best.count, eps))
    || (Tied(x.count, best.count, eps) && x.category < best.category)
  }

  /** The leader after visiting all entries in order. */
  function Winner(entries: seq<Entry>, eps: real): Entry
    requires entries != []
  {
    var last := entries[|entries| - 1];
    if |entries| == 1 then last
    else
      var best := Winner(entries[..|entries| - 1], eps);
      if Replaces(last, best, eps) then last else best
  }

  /** `n` epsilons. */
  function Slack(n: nat, eps: real): real {
    if n == 0 then 0.0 else Slack(n - 1, eps) + eps
  }

  lemma {:induction false} SlackIs(n: nat, eps: real)
    ensures Slack(n, eps) == n as real * eps
  {
    if n > 0 {
      SlackIs(n - 1, eps);
      assert n as real * eps == (n - 1) as real * eps + eps;
    }
  }

  /** Each tie that goes to a lower class may cost one epsilon, and no more. */
  lemma {:induction false} WinnerNearMaximum(entries: seq<Entry>, eps: real)
    requires entries != [] && eps >= 0.0
    ensures Winner(entries, eps) in entries
    ensures forall i :: 0 <= i < |entries| ==>
              entries[i].count <= Winner(entries, eps).count + Slack(|entries| - 1, eps)
    ensures Slack(|entries| - 1, eps) >= 0.0
  {
    var n := |entries| - 1;
    if n > 0 {
      WinnerNearMaximum(entries[..n], eps);
      assert forall i :: 0 <= i < n ==> entries[..n][i] == entries[i];
    }
  }

  // ----- When the order of the visit does not matter -----

  function EntryOf(m: Counts, k: int): Entry
    requires k in m
  {
    Entry(k, m[k])
  }

  /** The class takes the lead from every other, whenever it is visited. */
  predicate BeatsAll(m: Counts, eps: real, w: int) {
    w in m && forall u :: u in m && u != w ==> Replaces(EntryOf(m, w), EntryOf(m, u), eps)
  }

  ghost predicate OrderFree(m: Counts, eps: real) {
    forall a, b :: a != [] && b != [] && Lists(a, m) && Lists(b, m) ==> Winner(a, eps) == Winner(b, eps)
  }

  lemma {:induction false} LeaderStays(entries: seq<Entry>, eps: real, w: Entry)
    requires entries != [] && eps >= 0.0 && w in entries && Distinct(entries)
    requires forall i :: 0 <= i < |entries| && entries[i] != w ==> Replaces(w, entries[i], eps)
    ensures Winner(entries, eps) == w
  {
    var n := |entries| - 1;
    if n > 0 {
      var front, last := entries[..n], entries[n];
      WinnerNearMaximum(front, eps);
      var i :| 0 <= i < |front| && front[i] == Winner(front, eps);
      assert entries[i] == front[i];
      if last == w {
        assert front[i] != w;
      } else {
        assert w in front;
        LeaderStays(front, eps, w);
        assert Replaces(w, last, eps);
      }
    }
  }

  /** Once replaced, a class that is not visited again never leads. */
  lemma {:induction false} LoserGone(first: Entry, second: Entry, rest: seq<Entry>, eps: real)
    requires Replaces(second, first, eps) && first !in rest && first != second
    ensures Winner([first, second] + rest, eps) != first
  {
    var all := [first, second] + rest;
    if rest == [] {
      assert all == [first, second] && all[..1] == [first];
    } else {
      var n := |rest| - 1;
      assert all[..|all| - 1] == [first, second] + rest[..n];
      LoserGone(first, second, rest[..n], eps);
    }
  }

  lemma ListsFrom(entries: seq<Entry>, m: Counts)
    requires Distinct(entries)
    requires forall i :: 0 <= i < |entries| ==>
               entries[i].category in m && m[entries[i].category] == entries[i].count
    requires forall k :: k in m ==> Visits(entries, k)
    ensures Lists(entries, m)
  {
    forall k
      ensures k in MapOf(entries) <==> k in m
      ensures k in m ==> MapOf(entries)[k] == m[k]
    {
      MapOfKeys(entries, k);
      if Visits(entries, k) {
        var i :| 0 <= i < |entries| && entries[i].category == k;
        MapOfAt(entries, i);
      }
    }
  }

  lemma ListsEntries(entries: seq<Entry>, m: Counts)
    requires Lists(entries, m)
    ensures forall i :: 0 <= i < |entries| ==>
              entries[i].category in m && entries[i] == EntryOf(m, entries[i].category)
    ensures forall k :: k in m ==> EntryOf(m, k) in entries
  {
    forall i | 0 <= i < |entries|
      ensures entries[i].category in m && entries[i] == EntryOf(m, entries[i].category)
    {
      MapOfAt(entries, i);
    }
    forall k | k in m
      ensures EntryOf(m, k) in entries
    {
      MapOfKeys(entries, k);
      var i :| 0 <= i < |entries| && entries[i].category == k;
      MapOfAt(entries, i);
    }
  }

  /** In whatever order the classes of a map are visited, one that is near the maximum wins. */
  lemma {:induction false} ListedNearMaximum(entries: seq<Entry>, m: Counts, eps: real)
    requires Lists(entries, m) && eps >= 0.0 && entries != []
    ensures |entries| == |m|
    ensures var w := Winner(entries, eps);
      && w.category in m && w.count == m[w.category]
      && forall k :: k in m ==> m[k] <= w.count + Slack(|m| - 1, eps)
  {
    MapOfSize(entries);
    WinnerNearMaximum(entries, eps);
    ListsEntries(entries, m);
    forall k | k in m
      ensures m[k] <= Winner(entries, eps).count + Slack(|m| - 1, eps)
    {
      var i :| 0 <= i < |entries| && entries[i] == EntryOf(m, k);
    }
  }

  /** Some order to visit the classes of a map. */
  lemma {:induction false} SomeOrder(m: Counts) returns (entries: seq<Entry>)
    ensures Lists(entries, m)
    decreases |m|
  {
    if !Empty(m) {
      var k :| k in m;
      var rest := SomeOrder(m - {k});
      MapOfKeys(rest, k);
      MapOfSnoc(rest, EntryOf(m, k));
      entries := rest + [EntryOf(m, k)];
      assert forall i :: 0 <= i < |rest| ==> Visits(rest, rest[i].category);
      assert m == (m - {k})[k := m[k]];
    } else {
      entries := [];
      ListsFrom(entries, m);
    }
  }

  /** An order that visits `w` first and `u` second. */
  lemma OrderStarting(m: Counts, w: int, u: int) returns (rest: seq<Entry>)
    requires w in m && u in m && w != u
    ensures Lists([EntryOf(m, w), EntryOf(m, u)] + rest, m)
    ensures EntryOf(m, w) !in rest
  {
    var others := m - {w, u};
    rest := SomeOrder(others);
    ListsEntries(rest, others);
    var all := [EntryOf(m, w), EntryOf(m, u)] + rest;
    forall k | k in m
      ensures Visits(all, k)
    {
      if k == w {
        assert all[0].category == k;
      } else if k == u {
        assert all[1].category == k;
      } else {
        MapOfKeys(rest, k);
        var i :| 0 <= i < |rest| && rest[i].category == k;
        assert all[i + 2].category == k;
      }
    }
    ListsFrom(all, m);
  }

  lemma SomeWinner(m: Counts, eps: real) returns (a: seq<Entry>, w: int)
    requires !Empty(m) && eps >= 0.0
    ensures a != [] && Lists(a, m) && w in m && Winner(a, eps) == EntryOf(m, w)
  {
    a := SomeOrder(m);
    ListsEntries(a, m);
    WinnerNearMaximum(a, eps);
    w := Winner(a, eps).category;
  }

  /** The winner is independent of the order of the visit exactly when one class beats every
      other; then it wins. */
  lemma MajorityOrderFree(m: Counts, eps: real)
    requires !Empty(m) && eps >= 0.0
    ensures OrderFree(m, eps) <==> exists w :: BeatsAll(m, eps, w)
  {
    if w :| BeatsAll(m, eps, w) {
      forall a, b | a != [] && b != [] && Lists(a, m) && Lists(b, m)
        ensures Winner(a, eps) == Winner(b, eps)
      {
        WinnerBeatsAll(m, eps, w, a);
        WinnerBeatsAll(m, eps, w, b);
      }
    }
    if OrderFree(m, eps) {
      var a, w := SomeWinner(m, eps);
      forall u | u in m && u != w
        ensures Replaces(EntryOf(m, w), EntryOf(m, u), eps)
      {
        if !Replaces(EntryOf(m, w), EntryOf(m, u), eps) {
          assert Replaces(EntryOf(m, u), EntryOf(m, w), eps);
          var rest := OrderStarting(m, w, u);
          LoserGone(EntryOf(m, w), EntryOf(m, u), rest, eps);
        }
      }
      assert BeatsAll(m, eps, w);
    }
  }

  lemma {:induction false} WinnerBeatsAll(m: Counts, eps: real, w: int, a: seq<Entry>)
    requires eps >= 0.0 && BeatsAll(m, eps, w) && Lists(a, m)
    ensures a != [] && Winner(a, eps) == EntryOf(m, w)
  {
    ListsEntries(a, m);
    LeaderStays(a, eps, EntryOf(m, w));
  }

  /** Counts that are equal or clearly apart: the lowest class of maximal count wins. */
  lemma {:induction false} SeparatedMajority(m: Counts, eps: real, w: int, a: seq<Entry>)
    requires eps >= 0.0 && Lists(a, m) && w in m
    requires forall j, k :: j in m && k in m ==> m[j] == m[k] || !Tied(m[j], m[k], eps)
    requires forall k :: k in m ==> m[k] <= m[w] && (m[k] == m[w] ==> w <= k)
    ensures a != [] && Winner(a, eps) == EntryOf(m, w)
  {
    WinnerBeatsAll(m, eps, w, a);
  }

  /** Share of the total within which counts are tied. */
  const TIE_SHARE := 0.000000001

  /** Three classes, each tied with the next but the first not with the last: the winner depends
      on the order of the visit. */
  lemma ChainOfTies()
    ensures var m: Counts := map[1 := 1.0, 2 := 1.000000002, 3 := 1.000000004];
      Positive(m) && !OrderFree(m, TotalOf(m) * TIE_SHARE)
  {
    var m: Counts := map[1 := 1.0, 2 := 1.000000002, 3 := 1.000000004];
    TotalRemove(m, 1);
    TotalRemove(m - {1}, 2);
    TotalRemove(m - {1} - {2}, 3);
    var eps := 3.000000006 * TIE_SHARE;
    assert TotalOf(m) == 3.000000006 by {
      assert Empty(m - {1} - {2} - {3});
    }
    MajorityOrderFree(m, eps);
    assert 1 in m && 2 in m && 3 in m;
    forall w
      ensures !BeatsAll(m, eps, w)
    {
      if w == 1 {
        assert !Replaces(EntryOf(m, 1), EntryOf(m, 3), eps);
      } else if w == 2 {
        assert !Replaces(EntryOf(m, 2), EntryOf(m, 1), eps);
      } else if w == 3 {
        assert !Replaces(EntryOf(m, 3), EntryOf(m, 2), eps);
      }
    }
  }
}
