/**
 Hexadecimal text of 64-bit cell indices: the formatter fills a 16-byte buffer from its end,
 the parser accumulates nibbles.
 */
module FastHex {
  import opened Names
  import opened Wrappers

  const TWO_64: nat := 0x1_0000_0000_0000_0000

  const HEX_CHARS: string := "0123456789abcdef"

  /** The number a hexadecimal digit of either case stands for. */
  function Nibble(c: char): Option<nat> {
    if '0' <= c <= '9' then Some((c - '0') as nat)
    else if 'a' <= c <= 'f' then Some((c - 'a') as nat + 10)
    else if 'A' <= c <= 'F' then Some((c - 'A') as nat + 10)
    else None
  }

  /** The hexadecimal digits of both cases, and nothing else. */
  lemma Nibbles(c: char, d: nat)
    requires d < 16
    ensures Nibble("0123456789abcdef"[d]) == Nibble("0123456789ABCDEF"[d]) == Some(d)
    ensures Nibble(c).Some? <==> c in "0123456789abcdef" || c in "ABCDEF"
  {
    if Nibble(c).Some? {
      var i := Nibble(c).value;
      if c <= '9' || c >= 'a' {
        assert "0123456789abcdef"[i] == c;
      } else {
        assert "ABCDEF"[i - 10] == c;
      }
    }
  }

  predicate IsHex(s: string) {
    forall c :: c in s ==> Nibble(c).Some?
  }

  /** The number a string of hexadecimal digits stands for. */
  function HexValue(s: string): nat
    requires IsHex(s)
  {
    if s == [] then 0 else 16 * HexValue(s[..|s| - 1]) + Nibble(s[|s| - 1]).value
  }

  predicate IsLowerDigit(c: char) {
    '0' <= c <= '9' || 'a' <= c <= 'f'
  }

  /** Lowercase hexadecimal digits without a superfluous leading zero. */
  predicate IsCanonical(s: string) {
    s != [] && (forall c :: c in s ==> IsLowerDigit(c)) && (s[0] == '0' ==> |s| == 1)
  }

  /** The lowercase digit for a nibble. */
  function HexChar(d: nat): (c: char)
    requires d < 16
    ensures Nibble(c) == Some(d) && IsLowerDigit(c)
  {
    HEX_CHARS[d]
  }

  lemma HexCharOf(c: char)
    requires IsLowerDigit(c)
    ensures Nibble(c).Some? && Nibble(c).value < 16 && HexChar(Nibble(c).value) == c
  {}

  /** One more digit. */
  lemma {:induction false} Appended(s: string, c: char)
    requires IsHex(s) && Nibble(c).Some?
    ensures IsHex(s + [c]) && HexValue(s + [c]) == 16 * HexValue(s) + Nibble(c).value
  {
    assert (s + [c])[..|s|] == s;
  }

  /** The canonical text of a number. */
  function HexText(n: nat): string {
    if n < 16 then [HexChar(n)] else HexText(n / 16) + [HexChar(n % 16)]
  }

  lemma {:induction false} HexTextValue(n: nat)
    ensures IsHex(HexText(n)) && HexValue(HexText(n)) == n
  {
    if n < 16 {
      Appended([], HexChar(n));
    } else {
      HexTextValue(n / 16);
      Appended(HexText(n / 16), HexChar(n % 16));
    }
  }

  lemma {:induction false} HexTextCanonical(n: nat)
    ensures IsCanonical(HexText(n)) && (n > 0 ==> HexText(n)[0] != '0')
  {
    if n >= 16 {
      HexTextCanonical(n / 16);
    }
  }

  /** A canonical text is determined by its value, so HexText(n) is the one text for `n`. */
  lemma {:induction false} CanonicalUnique(s: string)
    requires IsCanonical(s) && IsHex(s)
    ensures s == HexText(HexValue(s))
  {
    var front, last := s[..|s| - 1], s[|s| - 1];
    assert s == front + [last];
    if front == [] {
      assert s == [last];
      OneDigit(last);
    } else {
      CanonicalFront(s);
      CanonicalUnique(front);
      CanonicalNext(front, last);
    }
  }

  lemma {:induction false} CanonicalNext(front: string, last: char)
    requires IsHex(front) && HexValue(front) > 0 && front == HexText(HexValue(front)) && IsLowerDigit(last)
    ensures IsHex(front + [last]) && HexText(HexValue(front + [last])) == front + [last]
  {
    var n, d := HexValue(front), Nibble(last).value;
    HexCharOf(last);
    Appended(front, last);
    NextDigit(n, d);
    assert HexValue(front + [last]) == 16 * n + d;
  }

  lemma OneDigit(c: char)
    requires IsLowerDigit(c)
    ensures IsHex([c]) && HexText(HexValue([c])) == [c]
  {
    HexCharOf(c);
    assert [c][..0] == [];
  }

  lemma CanonicalFront(s: string)
    requires IsCanonical(s) && IsHex(s) && |s| > 1
    ensures IsCanonical(s[..|s| - 1]) && IsHex(s[..|s| - 1]) && HexValue(s[..|s| - 1]) > 0
  {
    LeadingDigit(s[..|s| - 1]);
  }

  lemma NextDigit(n: nat, d: nat)
    requires n > 0 && d < 16
    ensures HexText(16 * n + d) == HexText(n) + [HexChar(d)]
  {
    assert (16 * n + d) / 16 == n && (16 * n + d) % 16 == d;
  }

  lemma {:induction false} LeadingDigit(s: string)
    requires IsHex(s) && s != [] && s[0] != '0'
    ensures HexValue(s) > 0
  {
    if |s| > 1 {
      LeadingDigit(s[..|s| - 1]);
    }
  }

  /** No text of hexadecimal digits for a number is shorter than the canonical one. */
  lemma {:induction false} CanonicalShortest(s: string)
    requires IsHex(s) && s != []
    ensures |HexText(HexValue(s))| <= |s|
  {
    HexValueBound(s);
    HexTextLength(HexValue(s), |s|);
  }

  function Pow16(k: nat): nat {
    if k == 0 then 1 else 16 * Pow16(k - 1)
  }

  lemma {:induction false} HexValueBound(s: string)
    requires IsHex(s)
    ensures HexValue(s) < Pow16(|s|)
  {
    if s != [] {
      HexValueBound(s[..|s| - 1]);
      assert Nibble(s[|s| - 1]).value < 16;
    }
  }

  lemma {:induction false} Pow16Monotonic(j: nat, k: nat)
    requires j <= k
    ensures Pow16(j) <= Pow16(k)
  {
    if j < k {
      Pow16Monotonic(j, k - 1);
    }
  }

  lemma SixteenDigits()
    ensures Pow16(16) == TWO_64
  {
    assert Pow16(4) == 65536 * Pow16(0);
    assert Pow16(8) == 65536 * Pow16(4);
    assert Pow16(12) == 65536 * Pow16(8);
    assert Pow16(16) == 65536 * Pow16(12);
  }

  lemma {:induction false} HexTextLength(n: nat, k: nat)
    requires n < Pow16(k) && k > 0
    ensures |HexText(n)| <= k
  {
    if k > 1 && n >= 16 {
      HexTextLength(n / 16, k - 1);
    }
  }

  /** The text of the digits still to be written, empty for none. */
  function RestText(n: nat): string {
    if n == 0 then "" else HexText(n)
  }

  lemma RestDigit(n: nat, after: string)
    requires n > 0
    ensures RestText(n) + after == RestText(n / 16) + ([HexChar(n % 16)] + after)
  {
    assert RestText(n) == RestText(n / 16) + [HexChar(n % 16)];
  }

  /** Formats a number into the end of a buffer; the text is the returned slice of it. */
  method FastHexU64(val: nat, buf: array<char>) returns (text: string)
    requires val < TWO_64 && buf.Length == 16
    modifies buf
    ensures text == HexText(val) && |text| <= 16 && buf[16 - |text|..] == text
  {
    if val == 0 {
      buf[15] := '0';
      return buf[15..16];
    }
    SixteenDigits();
    var rest: nat, idx: nat := val, 16;
    ghost var digits := "";
    while rest > 0 && idx > 0
      invariant idx <= 16 && rest < Pow16(idx)
      invariant HexText(val) == RestText(rest) + digits
      invariant buf[idx..] == digits
    {
      RestDigit(rest, digits);
      var next, digit := rest / 16, HexChar(rest % 16);
      digits := [digit] + digits;
      idx := idx - 1;
      buf[idx] := digit;
      SmallerRest(rest, idx);
      rest := next;
    }
    assert buf[idx..16] == digits;
    return buf[idx..16];
  }

  lemma SmallerRest(n: nat, k: nat)
    requires n < Pow16(k + 1)
    ensures n / 16 < Pow16(k)
  {}

  // ----- Parsing -----

  /** Unicode white space, which trimming removes. */
  predicate IsWhitespace(c: char) {
    '\t' <= c <= '\r' || c == ' ' || c == '\U{85}' || c == '\U{A0}' || c == '\U{1680}'
    || '\U{2000}' <= c <= '\U{200A}' || c == '\U{2028}' || c == '\U{2029}' || c == '\U{202F}'
    || c == '\U{205F}' || c == '\U{3000}'
  }

  /** The 25 characters by their code points. */
  lemma WhitespaceIs(c: char)
    ensures IsWhitespace(c) <==>
            c as int in {9, 10, 11, 12, 13, 32, 133, 160, 5760, 8192, 8193, 8194, 8195, 8196, 8197, 8198, 8199, 8200,
                         8201, 8202, 8232, 8233, 8239, 8287, 12288}
  {}

  function TrimStart(s: string): string {
    if s != [] && IsWhitespace(s[0]) then TrimStart(s[1..]) else s
  }

  function TrimEnd(s: string): string {
    if s != [] && IsWhitespace(s[|s| - 1]) then TrimEnd(s[..|s| - 1]) else s
  }

  function Trim(s: string): string {
    TrimEnd(TrimStart(s))
  }

  /** Trimming removes white space at both ends, as much as there is, and nothing else. */
  lemma {:induction false} TrimIs(s: string) returns (before: string, after: string)
    ensures s == before + Trim(s) + after
    ensures forall c :: c in before || c in after ==> IsWhitespace(c)
    ensures Trim(s) != [] ==> !IsWhitespace(Trim(s)[0]) && !IsWhitespace(Trim(s)[|Trim(s)| - 1])
  {
    before := TrimStartIs(s);
    after := TrimEndIs(TrimStart(s));
    if Trim(s) != [] {
      assert Trim(s)[0] == TrimStart(s)[0];
    }
  }

  lemma {:induction false} TrimStartIs(s: string) returns (before: string)
    ensures s == before + TrimStart(s) && forall c :: c in before ==> IsWhitespace(c)
    ensures TrimStart(s) != [] ==> !IsWhitespace(TrimStart(s)[0])
  {
    if s != [] && IsWhitespace(s[0]) {
      before := TrimStartIs(s[1..]);
      before := [s[0]] + before;
    } else {
      before := [];
    }
  }

  lemma {:induction false} TrimEndIs(s: string) returns (after: string)
    ensures s == TrimEnd(s) + after && forall c :: c in after ==> IsWhitespace(c)
    ensures TrimEnd(s) != [] ==> !IsWhitespace(TrimEnd(s)[|TrimEnd(s)| - 1])
  {
    if s != [] && IsWhitespace(s[|s| - 1]) {
      after := TrimEndIs(s[..|s| - 1]);
      after := after + [s[|s| - 1]];
    } else {
      after := [];
    }
  }

  /** What the parser accepts: one to sixteen hexadecimal digits between white space. */
  predicate Accepted(s: string) {
    1 <= |Trim(s)| <= 16 && IsHex(Trim(s))
  }

  method ParseHexU64(s: string) returns (r: Option<nat>)
    ensures r == if Accepted(s) then Some(HexValue(Trim(s))) else None
    ensures r.Some? ==> r.value < TWO_64
  {
    var text := Trim(s);
    if text == [] || |text| > 16 {
      return None;
    }
    var val := 0;
    for i := 0 to |text|
      invariant IsHex(text[..i]) && val == HexValue(text[..i])
    {
      assert text[..i + 1][..i] == text[..i];
      match Nibble(text[i]) {
        case None =>
          assert text[i] in text;
          return None;
        case Some(nibble) =>
          val := val * 16 + nibble;
      }
    }
    assert text[..|text|] == text;
    HexValueBound(text);
    Pow16Monotonic(|text|, 16);
    SixteenDigits();
    return Some(val);
  }

  lemma {:induction false} TrimEndKeeps(s: string)
    requires forall c :: c in s ==> !IsWhitespace(c)
    ensures Trim(s) == s
  {}

  /** Every 64-bit number survives formatting and parsing. */
  method RoundTrip(val: nat) returns (parsed: Option<nat>)
    requires val < TWO_64
    ensures parsed == Some(val)
  {
    var buf := new char[16];
    var text := FastHexU64(val, buf);
    HexTextCanonical(val);
    HexTextValue(val);
    TrimEndKeeps(text);
    parsed := ParseHexU64(text);
  }

  /** `s` without leading zeros, but not empty. */
  function StripZeros(s: string): string {
    if |s| > 1 && s[0] == '0' then StripZeros(s[1..]) else s
  }

  lemma LowerNibble(c: char)
    requires Nibble(c).Some?
    ensures Nibble(Lower(c)) == Nibble(c) && IsLowerDigit(Lower(c))
  {}

  lemma {:induction false} LowerValue(s: string)
    requires IsHex(s)
    ensures IsHex(LowerAll(s)) && HexValue(LowerAll(s)) == HexValue(s)
    ensures forall c :: c in LowerAll(s) ==> IsLowerDigit(c)
  {
    if s != [] {
      var n := |s| - 1;
      LowerValue(s[..n]);
      LowerNibble(s[n]);
      Appended(LowerAll(s[..n]), Lower(s[n]));
      assert LowerAll(s) == LowerAll(s[..n]) + [Lower(s[n])];
    }
  }

  lemma {:induction false} StripZeroValue(s: string)
    requires IsHex(s) && |s| > 1 && s[0] == '0'
    ensures IsHex(s[1..]) && HexValue(s[1..]) == HexValue(s)
  {
    var n := |s| - 1;
    assert s[1..][..n - 1] == s[..n][1..];
    if n > 1 {
      StripZeroValue(s[..n]);
    }
  }

  lemma {:induction false} StripCanonical(s: string)
    requires s != [] && IsHex(s) && forall c :: c in s ==> IsLowerDigit(c)
    ensures IsCanonical(StripZeros(s)) && IsHex(StripZeros(s))
    ensures HexValue(StripZeros(s)) == HexValue(s)
  {
    if |s| > 1 && s[0] == '0' {
      StripZeroValue(s);
      StripCanonical(s[1..]);
    }
  }

  /** Formatting what an accepted text parses to gives that text trimmed, in lower case and
      without leading zeros. */
  method Normalize(s: string) returns (text: string)
    requires Accepted(s)
    ensures text == StripZeros(LowerAll(Trim(s)))
  {
    var parsed := ParseHexU64(s);
    var buf := new char[16];
    text := FastHexU64(parsed.value, buf);
    LowerValue(Trim(s));
    StripCanonical(LowerAll(Trim(s)));
    CanonicalUnique(StripZeros(LowerAll(Trim(s))));
  }
}
