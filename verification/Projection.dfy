/**
 The columns that the reader of a partitioned scan outputs, and how the requested columns are taken
 from them.
 */
module Projection {
  import opened Names
  import opened Wrappers

  const KEYS: seq<string> := ["h3_index", "resolution"]

  predicate Distinct(xs: seq<nat>) {
    forall i, j :: 0 <= i < j < |xs| ==> xs[i] != xs[j]
  }

  /** The requested columns: base columns by index, then the partial state. */
  function Requested(columns: nat, projection: Option<seq<nat>>): (r: seq<nat>)
    ensures projection.Some? ==> r == projection.value
    ensures projection.None? ==> |r| == columns + 1 && forall i :: 0 <= i <= columns ==> r[i] == i
  {
    if projection.Some? then projection.value else seq(columns + 1, i requires 0 <= i < columns + 1 => i)
  }

  /** What the reader must output of the base columns: those requested and the keys of a cell. */
  predicate Needed(names: seq<string>, requested: seq<nat>, i: nat) {
    && i < |names|
    && (i in requested || IndexOf(names, "h3_index") == Some(i) || IndexOf(names, "resolution") == Some(i))
  }

  /** One of the first keys names the column. */
  predicate IsKey(names: seq<string>, keys: seq<string>, i: nat) {
    exists k :: 0 <= k < |keys| && IndexOf(names, keys[k]) == Some(i)
  }

  method PartitionedProjection(names: seq<string>, projection: Option<seq<nat>>)
    returns (reader: seq<nat>, out: seq<nat>)
    ensures Distinct(reader)
    ensures forall i :: i in reader <==> Needed(names, Requested(|names|, projection), i)
    ensures |out| == |Requested(|names|, projection)|
    ensures forall k :: 0 <= k < |out| ==> TakenFrom(reader, |names|, Requested(|names|, projection)[k], out[k])
  {
    var requested := Requested(|names|, projection);
    reader := ReadRequested(|names|, requested);
    reader := ReadKeys(names, reader);
    forall i: nat
      ensures i in reader <==> Needed(names, requested, i)
    {
      KeysAre(names, i);
    }
    out := [];
    for k := 0 to |requested|
      invariant |out| == k
      invariant forall l :: 0 <= l < k ==> TakenFrom(reader, |names|, requested[l], out[l])
    {
      if requested[k] >= |names| {
        out := out + [|reader|];
      } else {
        assert Needed(names, requested, requested[k]);
        var at := Find(reader, requested[k]);
        out := out + [at];
      }
    }
  }

  /** The requested base columns, each once. */
  method ReadRequested(state: nat, requested: seq<nat>) returns (reader: seq<nat>)
    ensures Distinct(reader) && forall i :: i in reader <==> i < state && i in requested
  {
    reader := [];
    for k := 0 to |requested|
      invariant Distinct(reader)
      invariant forall i :: i in reader <==> i < state && i in requested[..k]
    {
      assert requested[..k + 1] == requested[..k] + [requested[k]];
      if requested[k] < state && requested[k] !in reader {
        reader := reader + [requested[k]];
      }
    }
    assert requested[..|requested|] == requested;
  }

  /** The columns of the keys are added where they are missing. */
  method ReadKeys(names: seq<string>, before: seq<nat>) returns (reader: seq<nat>)
    requires Distinct(before)
    ensures Distinct(reader) && forall i: nat :: i in reader <==> i in before || IsKey(names, KEYS, i)
  {
    reader := before;
    for k := 0 to |KEYS|
      invariant Distinct(reader)
      invariant forall i: nat :: i in reader <==> i in before || IsKey(names, KEYS[..k], i)
    {
      var i := IndexOf(names, KEYS[k]);
      KeyNext(names, KEYS, k);
      if i.Some? && i.value !in reader {
        reader := reader + [i.value];
      }
    }
    assert KEYS[..|KEYS|] == KEYS;
  }

  lemma {:induction false} KeyNext(names: seq<string>, keys: seq<string>, k: nat)
    requires k < |keys|
    ensures forall i: nat :: IsKey(names, keys[..k + 1], i) <==>
              IsKey(names, keys[..k], i) || IndexOf(names, keys[k]) == Some(i)
  {
    assert keys[..k + 1] == keys[..k] + [keys[k]];
    forall i: nat
      ensures IsKey(names, keys[..k] + [keys[k]], i) <==>
              IsKey(names, keys[..k], i) || IndexOf(names, keys[k]) == Some(i)
    {
      KeySnoc(names, keys[..k], keys[k], i);
    }
  }

  lemma {:induction false} KeySnoc(names: seq<string>, front: seq<string>, key: string, i: nat)
    ensures IsKey(names, front + [key], i) <==> IsKey(names, front, i) || IndexOf(names, key) == Some(i)
  {
    var keys := front + [key];
    if IsKey(names, front, i) {
      var l :| 0 <= l < |front| && IndexOf(names, front[l]) == Some(i);
      assert keys[l] == front[l];
    }
    assert keys[|front|] == key;
  }

  lemma {:induction false} KeysAre(names: seq<string>, i: nat)
    ensures IsKey(names, KEYS, i) <==>
            IndexOf(names, "h3_index") == Some(i) || IndexOf(names, "resolution") == Some(i)
  {
    if IndexOf(names, "h3_index") == Some(i) {
      assert IndexOf(names, KEYS[0]) == Some(i);
    }
    if IndexOf(names, "resolution") == Some(i) {
      assert IndexOf(names, KEYS[1]) == Some(i);
    }
  }

  method Find(xs: seq<nat>, x: nat) returns (at: nat)
    requires x in xs
    ensures at < |xs| && xs[at] == x
  {
    at := 0;
    while xs[at] != x
      invariant at < |xs| && x !in xs[..at]
      decreases |xs| - at
    {
      assert xs == xs[..at] + xs[at..];
      at := at + 1;
    }
  }

  /** The requested column is found at the output position: a base column among the reader's columns,
      the state after them. */
  predicate TakenFrom(reader: seq<nat>, state: nat, requested: nat, at: nat) {
    if requested >= state then at == |reader| else at < |reader| && reader[at] == requested
  }

  /** A row as the reader outputs it. */
  function ReaderRow<T>(base: seq<T>, state: T, reader: seq<nat>): seq<T>
    requires forall i :: 0 <= i < |reader| ==> reader[i] < |base|
  {
    seq(|reader| + 1, i requires 0 <= i < |reader| + 1 => if i < |reader| then base[reader[i]] else state)
  }

  /** The columns of a row by index. */
  function Columns<T>(row: seq<T>, indices: seq<nat>): seq<T>
    requires forall i :: 0 <= i < |indices| ==> indices[i] < |row|
  {
    seq(|indices|, i requires 0 <= i < |indices| => row[indices[i]])
  }

  /** Reading and mapping gives exactly the requested columns of the row with its state, in the
      requested order, with repeats, with or without the state. */
  lemma ProjectionReads<T>(base: seq<T>, state: T, requested: seq<nat>, reader: seq<nat>, out: seq<nat>)
    requires forall k :: 0 <= k < |requested| ==> requested[k] <= |base|
    requires forall i :: 0 <= i < |reader| ==> reader[i] < |base|
    requires |out| == |requested|
    requires forall k :: 0 <= k < |out| ==> TakenFrom(reader, |base|, requested[k], out[k])
    ensures forall k :: 0 <= k < |out| ==> out[k] < |ReaderRow(base, state, reader)|
    ensures Columns(ReaderRow(base, state, reader), out) == Columns(base + [state], requested)
  {
    var read := ReaderRow(base, state, reader);
    forall k | 0 <= k < |out|
      ensures out[k] < |read| && read[out[k]] == (base + [state])[requested[k]]
    {
      assert TakenFrom(reader, |base|, requested[k], out[k]);
    }
  }

  /** The reader always outputs the columns by which partial rows are merged. */
  lemma {:induction false} KeysRead(names: seq<string>, requested: seq<nat>, key: string)
    requires key == "h3_index" || key == "resolution"
    requires exists i :: 0 <= i < |names| && SameName(names[i], key)
    ensures IndexOf(names, key).Some? && Needed(names, requested, IndexOf(names, key).value)
  {}
}
