/**
 Merging the partial cells of all partitions into final records, keyed by resolution and cell.
 */
module PartialMerger {
  import opened Insertion
  import opened Wrappers
  import opened PartialStates
  import opened MergeUdaf

  datatype Key = Key(resolution: nat, h3: nat)

  /** The order of the output. */
  predicate KeyLess(a: Key, b: Key) {
    a.resolution < b.resolution || (a.resolution == b.resolution && a.h3 < b.h3)
  }

  /** A cell with its state: one partition's share, or the merged result. */
  datatype Record = Record(key: Key, content: Content)

  type Cells = map<Key, Content>

  function Pushed(m: Cells, p: Record): Cells {
    m[p.key := if p.key in m then Merged(m[p.key], p.content) else p.content]
  }

  /** The cells after pushing some shares. */
  function CellsOf(shares: seq<Record>): Cells {
    if shares == [] then map[] else Pushed(CellsOf(shares[..|shares| - 1]), shares[|shares| - 1])
  }

  /** The shares of one cell, in order. */
  function SharesOf(shares: seq<Record>, key: Key): seq<Content> {
    if shares == [] then []
    else
      var n := |shares| - 1;
      SharesOf(shares[..n], key) + (if shares[n].key == key then [shares[n].content] else [])
  }

  function FoldContents(contents: seq<Content>): Option<Content> {
    if contents == [] then None
    else Step(FoldContents(contents[..|contents| - 1]), Some(contents[|contents| - 1]))
  }

  function Lookup(m: Cells, key: Key): Option<Content> {
    if key in m then Some(m[key]) else None
  }

  /** Each cell is the merge of its own shares, whatever other cells come in between. */
  lemma {:induction false} CellIsFold(shares: seq<Record>, key: Key)
    ensures Lookup(CellsOf(shares), key) == FoldContents(SharesOf(shares, key))
    ensures key in CellsOf(shares) <==> SharesOf(shares, key) != []
  {
    if shares != [] {
      var n := |shares| - 1;
      CellIsFold(shares[..n], key);
      var before := SharesOf(shares[..n], key);
      if shares[n].key == key {
        assert (before + [shares[n].content])[..|before|] == before;
      } else {
        assert before + [] == before;
      }
    }
  }

  // ----- Sorted output -----

  predicate RecordLess(a: Record, b: Record) {
    KeyLess(a.key, b.key)
  }

  predicate HasKey(records: seq<Record>, key: Key) {
    exists i :: 0 <= i < |records| && records[i].key == key
  }

  /** The records are exactly the cells, sorted by key. */
  predicate Listing(records: seq<Record>, m: Cells) {
    && Ascending(records, RecordLess)
    && (forall i :: 0 <= i < |records| ==> records[i].key in m && m[records[i].key] == records[i].content)
    && (forall k :: k in m ==> HasKey(records, k))
  }

  predicate Last(m: Cells, key: Key) {
    key in m && forall k :: k in m && k != key ==> KeyLess(k, key)
  }

  lemma {:induction false} LastExists(m: Cells)
    requires exists k :: k in m
    ensures exists k :: Last(m, k)
    decreases |m|
  {
    var k :| k in m;
    var rest := m - {k};
    if l :| l in rest {
      LastExists(rest);
      var last :| Last(rest, last);
      forall x | x in m && x != k
        ensures x in rest && (x == last || KeyLess(x, last))
      {
      }
      if KeyLess(k, last) {
        assert Last(m, last);
      } else {
        assert Last(m, k);
      }
    } else {
      assert forall l :: l in m && l != k ==> l in rest;
      assert Last(m, k);
    }
  }

  /** The cells in ascending order of their keys. */
  ghost function SortedRecords(m: Cells): seq<Record>
    decreases |m|
  {
    if exists k :: k in m then
      LastExists(m);
      var k :| Last(m, k);
      SortedRecords(m - {k}) + [Record(k, m[k])]
    else []
  }

  lemma ListingFront(records: seq<Record>, m: Cells, k: Key)
    requires Listing(records, m) && Last(m, k)
    ensures records != [] && records[|records| - 1] == Record(k, m[k])
    ensures Listing(records[..|records| - 1], m - {k})
  {
    assert HasKey(records, k);
    var n := |records| - 1;
    var i :| 0 <= i < |records| && records[i].key == k;
    assert records[n].key == k;
    forall l | l in m - {k}
      ensures HasKey(records[..n], l)
    {
      assert HasKey(records, l);
      var j :| 0 <= j < |records| && records[j].key == l;
      assert records[..n][j].key == l;
    }
  }

  lemma SortedUnfold(m: Cells) returns (k: Key)
    requires exists l :: l in m
    ensures Last(m, k) && SortedRecords(m) == SortedRecords(m - {k}) + [Record(k, m[k])]
  {
    LastExists(m);
    k :| Last(m, k) && SortedRecords(m) == SortedRecords(m - {k}) + [Record(k, m[k])];
  }

  lemma ListingSnoc(front: seq<Record>, m: Cells, k: Key)
    requires Last(m, k) && Listing(front, m - {k})
    ensures Listing(front + [Record(k, m[k])], m)
  {
    var t := front + [Record(k, m[k])];
    forall i, j | 0 <= i < j < |t|
      ensures RecordLess(t[i], t[j])
    {
      assert front[i].key in m - {k};
    }
    forall x | x in m
      ensures HasKey(t, x)
    {
      if x == k {
        assert t[|front|].key == x;
      } else {
        assert HasKey(front, x);
        var i :| 0 <= i < |front| && front[i].key == x;
        assert t[i].key == x;
      }
    }
  }

  lemma {:induction false} SortedIsListing(m: Cells)
    ensures Listing(SortedRecords(m), m)
    decreases |m|
  {
    if k :| k in m {
      var last := SortedUnfold(m);
      SortedIsListing(m - {last});
      ListingSnoc(SortedRecords(m - {last}), m, last);
    }
  }

  /** The cells come by resolution, and by their number within one resolution. */
  lemma {:induction false} SortedOrder(m: Cells, i: nat, j: nat)
    requires i < j < |SortedRecords(m)|
    ensures var a, b := SortedRecords(m)[i].key, SortedRecords(m)[j].key;
      a.resolution < b.resolution || (a.resolution == b.resolution && a.h3 < b.h3)
  {
    SortedIsListing(m);
    assert RecordLess(SortedRecords(m)[i], SortedRecords(m)[j]);
  }

  /** There is one sorted listing of a map. */
  lemma {:induction false} ListingIsSorted(records: seq<Record>, m: Cells)
    requires Listing(records, m)
    ensures records == SortedRecords(m)
    decreases |records|
  {
    if records != [] {
      assert records[0].key in m;
      var k := SortedUnfold(m);
      ListingFront(records, m, k);
      ListingIsSorted(records[..|records| - 1], m - {k});
      assert records == records[..|records| - 1] + [Record(k, m[k])];
    } else {
      assert forall l :: l in m ==> HasKey(records, l);
    }
  }

  /** The records that pass a filter, in order. */
  function Passing(records: seq<Record>, passes: Content -> bool): seq<Record> {
    if records == [] then []
    else
      var n := |records| - 1;
      Passing(records[..n], passes) + (if passes(records[n].content) then [records[n]] else [])
  }

  class Merger {
    var cells: Cells

    constructor ()
      ensures cells == map[]
    {
      cells := map[];
    }

    /** Merges one share of a cell. */
    method Push(cell: Record)
      modifies this
      ensures cells == Pushed(old(cells), cell)
    {
      if cell.key in cells {
        cells := cells[cell.key := Merged(cells[cell.key], cell.content)];
      } else {
        cells := cells[cell.key := cell.content];
      }
    }

    method PushEncoded(codec: Codec, key: Key, state: Encoded) returns (r: Result<(), StateError>)
      modifies this
      ensures r.Ok? <==> Decode(codec, state).Some?
      ensures r.Ok? ==> cells == Pushed(old(cells), Record(key, Decode(codec, state).value))
      ensures r.Err? ==> cells == old(cells)
    {
      var content := Decode(codec, state);
      if content.None? {
        return Err(InvalidState);
      }
      Push(Record(key, content.value));
      r := Ok(());
    }

    /** The merged cells that pass the filter, sorted by key. */
    method Finish(passes: Content -> bool) returns (records: seq<Record>)
      ensures records == Passing(SortedRecords(cells), passes)
    {
      var sorted := SortCells(cells);
      ListingIsSorted(sorted, cells);
      records := [];
      for i := 0 to |sorted|
        invariant records == Passing(sorted[..i], passes)
      {
        assert sorted[..i + 1][..i] == sorted[..i];
        if passes(sorted[i].content) {
          records := records + [sorted[i]];
        }
      }
      assert sorted[..|sorted|] == sorted;
    }
  }

  lemma InsertedListing(sorted: seq<Record>, at: nat, x: Record, m: Cells)
    requires Listing(sorted, m) && InsertionPoint(sorted, at, x, RecordLess) && x.key !in m
    ensures Listing(Insert(sorted, at, x), m[x.key := x.content])
  {
    var t := Insert(sorted, at, x);
    InsertedAscending(sorted, at, x, RecordLess);
    forall i | 0 <= i < |t|
      ensures t[i].key in m[x.key := x.content] && m[x.key := x.content][t[i].key] == t[i].content
    {
      assert t[i] == if i < at then sorted[i] else if i == at then x else sorted[i - 1];
    }
    forall k | k in m[x.key := x.content]
      ensures HasKey(t, k)
    {
      if k == x.key {
        assert t[at].key == k;
      } else {
        assert HasKey(sorted, k);
        var i :| 0 <= i < |sorted| && sorted[i].key == k;
        assert t[if i < at then i else i + 1].key == k;
      }
    }
  }

  lemma SomeKey(keys: set<Key>)
    ensures keys == {} || exists k :: k in keys
  {
    if forall k :: k !in keys {
      assert keys == {};
    }
  }

  /** Takes the cells out of the hash map, in whatever order, and sorts them. */
  method SortCells(m: Cells) returns (sorted: seq<Record>)
    ensures Listing(sorted, m)
  {
    sorted := [];
    var keys := m.Keys;
    while keys != {}
      invariant keys <= m.Keys
      invariant Listing(sorted, m - keys)
    {
      SomeKey(keys);
      var k :| k in keys;
      var at := 0;
      while at < |sorted| && KeyLess(sorted[at].key, k)
        invariant at <= |sorted|
        invariant forall j :: 0 <= j < at ==> KeyLess(sorted[j].key, k)
      {
        at := at + 1;
      }
      InsertedListing(sorted, at, Record(k, m[k]), m - keys);
      assert m - (keys - {k}) == (m - keys)[k := m[k]];
      sorted := Insert(sorted, at, Record(k, m[k]));
      keys := keys - {k};
    }
    assert m - {} == m;
  }
}
