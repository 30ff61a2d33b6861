/** Inserting into a sequence that ascends in some order. */
module Insertion {
  predicate Ascending<T>(sorted: seq<T>, less: (T, T) -> bool) {
    forall i, j :: 0 <= i < j < |sorted| ==> less(sorted[i], sorted[j])
  }

  ghost predicate Transitive<T(!new)>(less: (T, T) -> bool) {
    forall x, y, z :: less(x, y) && less(y, z) ==> less(x, z)
  }

  /** What precedes the position is less than `x`, and what follows it is greater. */
  predicate InsertionPoint<T>(sorted: seq<T>, at: nat, x: T, less: (T, T) -> bool) {
    && at <= |sorted|
    && (forall j :: 0 <= j < at ==> less(sorted[j], x))
    && (at < |sorted| ==> less(x, sorted[at]))
  }

  function Insert<T>(sorted: seq<T>, at: nat, x: T): seq<T>
    requires at <= |sorted|
  {
    sorted[..at] + [x] + sorted[at..]
  }

  lemma InsertedAscending<T(!new)>(sorted: seq<T>, at: nat, x: T, less: (T, T) -> bool)
    requires Transitive(less) && Ascending(sorted, less) && InsertionPoint(sorted, at, x, less)
    ensures Ascending(Insert(sorted, at, x), less)
  {
    var t := Insert(sorted, at, x);
    forall j | at <= j < |sorted|
      ensures less(x, sorted[j])
    {
      assert j == at || less(sorted[at], sorted[j]);
    }
    forall i, j | 0 <= i < j < |t|
      ensures less(t[i], t[j])
    {
      assert t[i] == if i < at then sorted[i] else if i == at then x else sorted[i - 1];
      assert t[j] == if j < at then sorted[j] else if j == at then x else sorted[j - 1];
    }
  }
}
