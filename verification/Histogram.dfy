/**
 The class histogram as JSON text: the classes in ascending order, each with its share of the
 total rounded to four decimals.
 */
module Histogram {
  import opened Insertion
  import opened Reals
  import opened ClassCounts
  import opened Majority

  predicate CategoryLess(a: Entry, b: Entry) {
    a.category < b.category
  }

  /** The one way to list the classes of a map in ascending order. */
  ghost predicate SortedEntries(entries: seq<Entry>, m: Counts) {
    Ascending(entries, CategoryLess) && Lists(entries, m)
  }

  lemma SortedSame(m: Counts, a: seq<Entry>, b: seq<Entry>)
    requires SortedEntries(a, m) && SortedEntries(b, m)
    ensures a == b
  {
    MapOfSize(a);
    MapOfSize(b);
    ListsEntries(a, m);
    ListsEntries(b, m);
    forall x
      ensures Has(a, x) <==> Has(b, x)
    {
      if Has(a, x) {
        var i :| 0 <= i < |a| && a[i] == x;
        assert EntryOf(m, x.category) in b;
      }
      if Has(b, x) {
        var i :| 0 <= i < |b| && b[i] == x;
        assert EntryOf(m, x.category) in a;
      }
    }
    AscendingSame(a, b);
  }

  predicate Has(a: seq<Entry>, x: Entry) {
    exists i :: 0 <= i < |a| && a[i] == x
  }

  lemma {:induction false} AscendingSame(a: seq<Entry>, b: seq<Entry>)
    requires Ascending(a, CategoryLess) && Ascending(b, CategoryLess) && |a| == |b|
    requires forall x :: Has(a, x) <==> Has(b, x)
    ensures a == b
  {
    if a != [] {
      var n := |a| - 1;
      assert a[n] == b[n] by {
        assert Has(a, a[n]) && Has(b, b[n]);
      }
      forall x
        ensures Has(a[..n], x) <==> Has(b[..n], x)
      {
        HasFront(a, x);
        HasFront(b, x);
      }
      AscendingSame(a[..n], b[..n]);
      assert a == a[..n] + [a[n]] && b == b[..n] + [b[n]];
    }
  }

  lemma HasFront(a: seq<Entry>, x: Entry)
    requires Ascending(a, CategoryLess) && a != []
    ensures Has(a[..|a| - 1], x) <==> Has(a, x) && x != a[|a| - 1]
  {
    var n := |a| - 1;
    if Has(a[..n], x) {
      var i :| 0 <= i < n && a[..n][i] == x;
      assert a[i] == x;
    }
    if Has(a, x) && x != a[n] {
      var i :| 0 <= i < |a| && a[i] == x;
      assert a[..n][i] == x;
    }
  }

  // ----- Text -----

  function Decimal(n: nat): string {
    if n < 10 then [DIGITS[n]] else Decimal(n / 10) + [DIGITS[n % 10]]
  }

  const DIGITS := "0123456789"

  function SignedDecimal(n: int): string {
    if n < 0 then "-" + Decimal(-n) else Decimal(n)
  }

  /** Four digits with leading zeros. */
  function FourDigits(n: nat): string
    requires n < 10000
  {
    [DIGITS[n / 1000], DIGITS[n / 100 % 10], DIGITS[n / 10 % 10], DIGITS[n % 10]]
  }

  predicate AllDigits(s: string) {
    forall i :: 0 <= i < |s| ==> '0' <= s[i] <= '9'
  }

  /** The number that a text of digits stands for. */
  function ValueOf(s: string): nat
    requires AllDigits(s)
  {
    if s == "" then 0
    else
      var n := |s| - 1;
      10 * ValueOf(s[..n]) + (s[n] as nat - '0' as nat)
  }

  lemma {:induction false} ValueSnoc(s: string, digit: nat)
    requires AllDigits(s) && digit < 10
    ensures AllDigits(s + [DIGITS[digit]]) && ValueOf(s + [DIGITS[digit]]) == 10 * ValueOf(s) + digit
  {
    var t := s + [DIGITS[digit]];
    DigitIs(digit);
    assert t[..|s|] == s;
  }

  lemma DigitIs(digit: nat)
    requires digit < 10
    ensures '0' <= DIGITS[digit] <= '9' && DIGITS[digit] as nat - '0' as nat == digit
  {}

  /** The decimal text of a number reads as that number, and has no leading zero. */
  lemma {:induction false} DecimalReads(n: nat)
    ensures AllDigits(Decimal(n)) && ValueOf(Decimal(n)) == n
    ensures Decimal(n) != "" && (n > 0 ==> Decimal(n)[0] != '0') && (n == 0 ==> Decimal(n) == "0")
  {
    if n < 10 {
      DigitIs(n);
      ValueSnoc("", n);
      assert "" + [DIGITS[n]] == [DIGITS[n]];
    } else {
      DecimalReads(n / 10);
      ValueSnoc(Decimal(n / 10), n % 10);
    }
  }

  lemma FourDigitsRead(n: nat)
    requires n < 10000
    ensures |FourDigits(n)| == 4 && AllDigits(FourDigits(n)) && ValueOf(FourDigits(n)) == n
  {
    var a, b, c, d := n / 1000, n / 100 % 10, n / 10 % 10, n % 10;
    FourPlaces(n);
    var one := [DIGITS[a]];
    var two := one + [DIGITS[b]];
    var three := two + [DIGITS[c]];
    assert "" + one == one;
    ValueSnoc("", a);
    ValueSnoc(one, b);
    ValueSnoc(two, c);
    ValueSnoc(three, d);
    assert FourDigits(n) == three + [DIGITS[d]];
  }

  lemma FourPlaces(n: nat)
    requires n < 10000
    ensures n == 10 * (10 * (10 * (n / 1000) + n / 100 % 10) + n / 10 % 10) + n % 10
  {
    assert n / 100 == n / 10 / 10 && n / 1000 == n / 100 / 10;
  }

  /** The text of an entry: the class as a quoted integer without leading zeros, and its share with four
      digits after the point. */
  lemma EntryReads(x: Entry, total: real) returns (name: string, whole: string, part: string)
    requires 0.0 <= x.count <= total && total > 0.0
    ensures EntryText(x, total) == "\"" + (if x.category < 0 then "-" else "") + name + "\": " + whole + "." + part
    ensures AllDigits(name) && ValueOf(name) == if x.category < 0 then -x.category else x.category
    ensures name != "" && (name[0] == '0' ==> name == "0")
    ensures AllDigits(whole) && |whole| == 1 && AllDigits(part) && |part| == 4
    ensures 10000 * ValueOf(whole) + ValueOf(part) == Units(x.count, total)
  {
    var units := Units(x.count, total);
    var n := if x.category < 0 then -x.category else x.category;
    name, whole, part := Decimal(n), Decimal(units / 10000), FourDigits(units % 10000);
    DecimalReads(n);
    DecimalReads(units / 10000);
    FourDigitsRead(units % 10000);
    assert units == 10000 * (units / 10000) + units % 10000;
    SameText(name, whole, part);
  }

  lemma SameText(name: string, whole: string, part: string)
    ensures "\"" + "" + name + "\": " + whole + "." + part == "\"" + name + "\": " + whole + "." + part
    ensures "\"" + "-" + name + "\": " + whole + "." + part == "\"" + ("-" + name) + "\": " + whole + "." + part
  {
    assert "\"" + "" + name == "\"" + name;
    assert "\"" + "-" + name == "\"" + ("-" + name);
  }

  /** The share of the total in ten-thousandths, rounded to the nearest. */
  function Units(count: real, total: real): (units: nat)
    requires 0.0 <= count <= total && total > 0.0
    ensures units <= 10000
    ensures 2.0 * Abs(units as real * total - 10000.0 * count) <= total
  {
    var share := count / total;
    assert share * total == count;
    assert 0.0 <= share <= 1.0;
    var units := (share * 10000.0 + 0.5).Floor;
    UnitsNearest(count, total, share, units);
    units
  }

  lemma UnitsNearest(count: real, total: real, share: real, units: int)
    requires total > 0.0 && count == share * total && 0.0 <= share <= 1.0
    requires units as real <= share * 10000.0 + 0.5 < units as real + 1.0
    ensures 2.0 * Abs(units as real * total - 10000.0 * count) <= total
  {
    var d := units as real - share * 10000.0;
    assert units as real * total - 10000.0 * count == d * total;
    assert -0.5 <= d <= 0.5;
    ScaleBound(d, total);
  }

  lemma ScaleBound(d: real, total: real)
    requires -0.5 <= d <= 0.5 && total > 0.0
    ensures -total <= 2.0 * (d * total) <= total
  {
    assert (0.5 - d) * total >= 0.0 && (0.5 + d) * total >= 0.0;
  }

  function EntryText(x: Entry, total: real): string
    requires 0.0 <= x.count <= total && total > 0.0
  {
    var units := Units(x.count, total);
    "\"" + SignedDecimal(x.category) + "\": " + Decimal(units / 10000) + "." + FourDigits(units % 10000)
  }

  predicate Shares(entries: seq<Entry>, total: real) {
    total > 0.0 && forall i :: 0 <= i < |entries| ==> 0.0 <= entries[i].count <= total
  }

  /** The texts with a comma between them. */
  function Joined(parts: seq<string>): string {
    if parts == [] then ""
    else
      var n := |parts| - 1;
      Joined(parts[..n]) + (if n > 0 then ", " else "") + parts[n]
  }

  function EntriesText(entries: seq<Entry>, total: real): string
    requires Shares(entries, total)
  {
    Joined(EntryTexts(entries, total))
  }

  function EntryTexts(entries: seq<Entry>, total: real): seq<string>
    requires Shares(entries, total)
  {
    seq(|entries|, i requires 0 <= i < |entries| => EntryText(entries[i], total))
  }

  lemma {:induction false} SharesOf(entries: seq<Entry>, m: Counts)
    requires Positive(m) && Lists(entries, m) && entries != []
    ensures Shares(entries, TotalOf(m))
  {
    forall i | 0 <= i < |entries|
      ensures 0.0 < entries[i].count <= TotalOf(m)
    {
      MapOfAt(entries, i);
      TotalBounds(m, entries[i].category);
    }
    assert 0.0 < entries[0].count <= TotalOf(m);
  }

  /** The histogram of a map: its classes in ascending order. */
  ghost predicate IsHistogram(text: string, m: Counts) {
    exists entries :: SortedEntries(entries, m)
      && (entries == [] || Shares(entries, TotalOf(m)))
      && text == "{" + (if entries == [] then "" else EntriesText(entries, TotalOf(m))) + "}"
  }

  /** A map has one histogram only. */
  lemma HistogramUnique(m: Counts, a: string, b: string)
    requires IsHistogram(a, m) && IsHistogram(b, m)
    ensures a == b
  {
    var x :| SortedEntries(x, m) && (x == [] || Shares(x, TotalOf(m)))
      && a == "{" + (if x == [] then "" else EntriesText(x, TotalOf(m))) + "}";
    var y :| SortedEntries(y, m) && (y == [] || Shares(y, TotalOf(m)))
      && b == "{" + (if y == [] then "" else EntriesText(y, TotalOf(m))) + "}";
    SortedSame(m, x, y);
  }

  /** Sorts the entries of a map by class. */
  method SortByCategory(entries: seq<Entry>, ghost m: Counts) returns (sorted: seq<Entry>)
    requires Lists(entries, m)
    ensures SortedEntries(sorted, m) && |sorted| == |entries|
  {
    sorted := [];
    for i := 0 to |entries|
      invariant |sorted| == i && SortedEntries(sorted, MapOf(entries[..i]))
    {
      assert entries[..i + 1] == entries[..i] + [entries[i]];
      NotBefore(entries, i);
      sorted := InsertSorted(sorted, entries[i], entries[..i]);
    }
    assert entries[..|entries|] == entries;
  }

  lemma NotBefore(entries: seq<Entry>, i: nat)
    requires Distinct(entries) && i < |entries|
    ensures !Visits(entries[..i], entries[i].category)
  {
    assert forall j :: 0 <= j < i ==> entries[..i][j] == entries[j];
  }

  /** Puts an entry of a new class where it belongs. */
  method InsertSorted(sorted: seq<Entry>, x: Entry, ghost before: seq<Entry>) returns (r: seq<Entry>)
    requires SortedEntries(sorted, MapOf(before)) && !Visits(before, x.category)
    ensures |r| == |sorted| + 1 && SortedEntries(r, MapOf(before + [x]))
  {
    MapOfSnoc(before, x);
    MapOfKeys(before, x.category);
    MapOfKeys(sorted, x.category);
    var at := 0;
    while at < |sorted| && sorted[at].category < x.category
      invariant at <= |sorted|
      invariant forall j :: 0 <= j < at ==> sorted[j].category < x.category
    {
      at := at + 1;
    }
    assert at < |sorted| ==> Visits(sorted, sorted[at].category);
    InsertedAscending(sorted, at, x, CategoryLess);
    MapOfInserted(sorted, at, x);
    r := Insert(sorted, at, x);
  }

  lemma {:induction false} MapOfInserted(sorted: seq<Entry>, at: nat, x: Entry)
    requires at <= |sorted| && !Visits(sorted, x.category)
    ensures MapOf(Insert(sorted, at, x)) == MapOf(sorted)[x.category := x.count]
    decreases |sorted|
  {
    if at == |sorted| {
      assert Insert(sorted, at, x) == sorted + [x];
      MapOfSnoc(sorted, x);
    } else {
      var front, last := sorted[..|sorted| - 1], sorted[|sorted| - 1];
      NotVisited(front, last, x.category);
      assert sorted == front + [last];
      MapOfInserted(front, at, x);
      InsertBefore(front, last, at, x);
      MapOfSnoc(Insert(front, at, x), last);
      MapOfSnoc(front, last);
      UpdatesCommute(MapOf(front), x, last);
    }
  }

  lemma NotVisited(front: seq<Entry>, last: Entry, k: int)
    ensures !Visits(front + [last], k) ==> !Visits(front, k) && last.category != k
  {
    assert (front + [last])[|front|] == last;
    assert forall i :: 0 <= i < |front| ==> (front + [last])[i] == front[i];
  }

  lemma InsertBefore(front: seq<Entry>, last: Entry, at: nat, x: Entry)
    requires at <= |front|
    ensures Insert(front + [last], at, x) == Insert(front, at, x) + [last]
  {}

  lemma UpdatesCommute(m: Counts, x: Entry, y: Entry)
    requires x.category != y.category
    ensures m[x.category := x.count][y.category := y.count] == m[y.category := y.count][x.category := x.count]
  {}

  method WriteEntries(entries: seq<Entry>, total: real) returns (text: string)
    requires Shares(entries, total)
    ensures text == "{" + EntriesText(entries, total) + "}"
  {
    var body := WriteBody(entries, total);
    text := "{" + body + "}";
  }

  method WriteBody(entries: seq<Entry>, total: real) returns (text: string)
    requires Shares(entries, total)
    ensures text == EntriesText(entries, total)
  {
    ghost var texts := EntryTexts(entries, total);
    text := "";
    for i := 0 to |entries|
      invariant text == Joined(texts[..i])
    {
      JoinedNext(texts, i);
      if i > 0 {
        text := text + ", ";
      }
      var next := WriteEntry(entries[i], total);
      text := text + next;
    }
    assert texts[..|entries|] == texts;
  }

  lemma JoinedNext(parts: seq<string>, i: nat)
    requires i < |parts|
    ensures Joined(parts[..i + 1]) == Joined(parts[..i]) + (if i > 0 then ", " else "") + parts[i]
  {
    assert parts[..i + 1][..i] == parts[..i];
  }

  /** Clamping the share to [0, 1] changes nothing. */
  method WriteEntry(x: Entry, total: real) returns (text: string)
    requires 0.0 <= x.count <= total && total > 0.0
    ensures text == EntryText(x, total)
  {
    var frac := if total > 0.0 then Clamp(x.count / total) else 0.0;
    ClampIdle(x.count, total);
    var units := (frac * 10000.0 + 0.5).Floor;
    var intPart, decPart := units / 10000, units % 10000;
    text := "\"" + SignedDecimal(x.category) + "\": " + Decimal(intPart) + "." + FourDigits(decPart);
  }

  function Clamp(x: real): real {
    if x < 0.0 then 0.0 else if x > 1.0 then 1.0 else x
  }

  lemma ClampIdle(count: real, total: real)
    requires 0.0 <= count <= total && total > 0.0
    ensures Clamp(count / total) == count / total
  {
    var share := count / total;
    assert share * total == count;
  }
}
