/** Column names, compared without regard to the case of ASCII letters. */
module Names {
  import opened Wrappers

  function Lower(c: char): char {
    if 'A' <= c <= 'Z' then c - 'A' + 'a' else c
  }

  function LowerAll(s: string): (r: string)
    ensures |r| == |s| && forall i :: 0 <= i < |s| ==> r[i] == Lower(s[i])
  {
    seq(|s|, i requires 0 <= i < |s| => Lower(s[i]))
  }

  /** Each character is the same, or one letter in the two cases. */
  predicate SameName(a: string, b: string)
    ensures SameName(a, b) <==>
              && |a| == |b|
              && forall i :: 0 <= i < |a| ==>
                   || a[i] == b[i]
                   || ('A' <= a[i] <= 'Z' && b[i] as int == a[i] as int + 32)
                   || ('A' <= b[i] <= 'Z' && a[i] as int == b[i] as int + 32)
  {
    LowerAll(a) == LowerAll(b)
  }

  /** The first column of a name. */
  function IndexOf(names: seq<string>, name: string): (i: Option<nat>)
    ensures i.Some? ==>
              && i.value < |names| && SameName(names[i.value], name)
              && forall j :: 0 <= j < i.value ==> !SameName(names[j], name)
    ensures i.None? ==> forall j :: 0 <= j < |names| ==> !SameName(names[j], name)
  {
    if names == [] then None
    else if SameName(names[0], name) then Some(0)
    else
      var i := IndexOf(names[1..], name);
      if i.Some? then Some(i.value + 1) else None
  }
}
