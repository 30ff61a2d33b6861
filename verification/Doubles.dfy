/**
 The numbers that the 64-bit words of coordinates stand for, by the laws of the binary64 format of
 IEEE 754: one, doubling from exponent to exponent, equal steps within an exponent, the subnormal
 numbers down to zero, the sign, and the infinities.
 */
module Doubles {
  import opened Floats
  import opened Wkb

  const TWO_52 := 4503599627370496

  /** The word of a sign, an exponent and a fraction. */
  function Word(negative: bool, exponent: nat, fraction: nat): Word64
    requires exponent < 2048 && fraction < TWO_52
  {
    Word64((if negative then 2147483648 else 0) + exponent * 1048576 + fraction / TWO_32, fraction % TWO_32)
  }

  /** Every word is one of a sign, an exponent and a fraction. */
  lemma EveryWord(w: Word64) returns (negative: bool, exponent: nat, fraction: nat)
    ensures exponent < 2048 && fraction < TWO_52 && w == Word(negative, exponent, fraction)
  {
    negative := w.high >= 2147483648;
    exponent := w.high / 1048576 % 2048;
    fraction := w.high % 1048576 * TWO_32 + w.low;
    assert fraction / TWO_32 == w.high % 1048576 && fraction % TWO_32 == w.low;
  }

  lemma WordParts(negative: bool, exponent: nat, fraction: nat)
    requires exponent < 2048 && fraction < TWO_52
    ensures var w := Word(negative, exponent, fraction);
      && (w.high >= 2147483648 <==> negative)
      && w.high / 1048576 % 2048 == exponent
      && w.high % 1048576 * TWO_32 + w.low == fraction
  {
    var h := fraction / TWO_32;
    assert h < 1048576;
    var w := Word(negative, exponent, fraction);
    assert w.high / 1048576 == (if negative then 2048 else 0) + exponent;
    assert w.high % 1048576 == h;
  }

  // ----- Powers of two -----

  lemma {:induction false} ScaleAdd(x: real, y: real, e: int)
    ensures Scale(x + y, e) == Scale(x, e) + Scale(y, e)
    decreases if e < 0 then -e else e
  {
    if e > 0 {
      ScaleAdd(2.0 * x, 2.0 * y, e - 1);
      assert 2.0 * (x + y) == 2.0 * x + 2.0 * y;
    } else if e < 0 {
      ScaleAdd(x / 2.0, y / 2.0, e + 1);
      assert (x + y) / 2.0 == x / 2.0 + y / 2.0;
    }
  }

  lemma ScaleNext(x: real, e: int)
    ensures Scale(x, e + 1) == 2.0 * Scale(x, e)
    ensures Scale(2.0 * x, e) == 2.0 * Scale(x, e)
  {
    ScaleAdd(x, x, e);
    assert x + x == 2.0 * x;
    if e < 0 {
      ScaleAdd(x / 2.0, x / 2.0, e + 1);
      assert x / 2.0 + x / 2.0 == x;
    }
  }

  lemma {:induction false} ScalePositive(x: real, e: int)
    requires x > 0.0
    ensures Scale(x, e) > 0.0
    decreases if e < 0 then -e else e
  {
    if e > 0 {
      ScalePositive(2.0 * x, e - 1);
    } else if e < 0 {
      ScalePositive(x / 2.0, e + 1);
    }
  }

  /** Two to a power of ten steps at a time. */
  lemma ScaleTen(x: real, e: int)
    ensures Scale(1024.0 * x, e) == 1024.0 * Scale(x, e) == Scale(x, e + 10)
  {
    ScaleNext(x, e);
    ScaleNext(2.0 * x, e);
    ScaleNext(4.0 * x, e);
    ScaleNext(8.0 * x, e);
    ScaleNext(16.0 * x, e);
    ScaleNext(32.0 * x, e);
    ScaleNext(64.0 * x, e);
    ScaleNext(128.0 * x, e);
    ScaleNext(256.0 * x, e);
    ScaleNext(512.0 * x, e);
    ScaleNext(x, e + 1);
    ScaleNext(x, e + 2);
    ScaleNext(x, e + 3);
    ScaleNext(x, e + 4);
    ScaleNext(x, e + 5);
    ScaleNext(x, e + 6);
    ScaleNext(x, e + 7);
    ScaleNext(x, e + 8);
    ScaleNext(x, e + 9);
  }

  /** A whole number of units is as many times one unit. */
  lemma {:induction false} ScaleWhole(n: nat, e: int)
    ensures Scale(n as real, e) == n as real * Scale(1.0, e)
  {
    if n == 0 {
      ScaleAdd(0.0, 0.0, e);
    } else {
      ScaleWhole(n - 1, e);
      ScaleAdd((n - 1) as real, 1.0, e);
    }
  }

  /** The value of the last place of an exponent; subnormal numbers share that of the smallest normal
      ones. */
  function Place(exponent: nat): real {
    Scale(1.0, (if exponent == 0 then 1 else exponent) - 1075)
  }

  lemma PlaceNext(exponent: nat)
    ensures Place(exponent) > 0.0
    ensures Place(exponent + 1) == if exponent == 0 then Place(0) else 2.0 * Place(exponent)
  {
    ScalePositive(1.0, (if exponent == 0 then 1 else exponent) - 1075);
    if exponent > 0 {
      ScaleNext(1.0, exponent - 1075);
    }
  }

  // ----- The laws -----

  /** The number of every word of a finite one: the sign bit negates. */
  lemma Signed(negative: bool, exponent: nat, fraction: nat)
    requires exponent < 2047 && fraction < TWO_52
    ensures ToF64(Word(negative, exponent, fraction))
         == Finite(if negative then -Magnitude(exponent, fraction) else Magnitude(exponent, fraction))
  {
    WordParts(negative, exponent, fraction);
  }

  /** The step between the numbers of an exponent: the fraction 2^-52 of its first number, or of the
      first normal number. */
  function Step(exponent: nat): real {
    Magnitude(if exponent == 0 then 1 else exponent, 0) / 4503599627370496.0
  }

  lemma MagnitudeIs(exponent: nat, fraction: nat) returns (x: real, k: real, place: real)
    requires fraction < TWO_52
    ensures x == Magnitude(exponent, fraction) == k * place
    ensures k == (if exponent == 0 then fraction else TWO_52 + fraction) as real
    ensures place == Place(exponent) > 0.0
  {
    k := (if exponent == 0 then fraction else TWO_52 + fraction) as real;
    ScaleWhole(if exponent == 0 then fraction else TWO_52 + fraction, (if exponent == 0 then 1 else exponent) - 1075);
    PlaceNext(exponent);
    x, place := Magnitude(exponent, fraction), Place(exponent);
  }

  lemma StepIs(exponent: nat)
    ensures Step(exponent) == Place(exponent) > 0.0
  {
    var x, k, place := MagnitudeIs(if exponent == 0 then 1 else exponent, 0);
    PlaceNext(exponent);
    Quotient(x, place);
  }

  lemma Quotient(x: real, place: real)
    requires x == 4503599627370496.0 * place
    ensures x / 4503599627370496.0 == place
  {}

  lemma FirstPlaces()
    ensures Scale(4503599627370496.0, -52) == 1.0
  {
    ScaleTen(1.0, -10);
    ScaleTen(1024.0, -20);
    ScaleTen(1048576.0, -30);
    ScaleTen(1073741824.0, -40);
    ScaleTen(1099511627776.0, -50);
    ScaleNext(1125899906842624.0, -51);
    ScaleNext(2251799813685248.0, -52);
  }

  lemma One()
    ensures ToF64(Word64(0x3FF00000, 0)) == Finite(1.0)
  {
    FirstPlaces();
    assert Word(false, 1023, 0) == Word64(0x3FF00000, 0);
    WordParts(false, 1023, 0);
  }

  /** The next exponent doubles a normal number. */
  lemma Doubled(exponent: nat, fraction: nat)
    requires 1 <= exponent < 2046 && fraction < TWO_52
    ensures Magnitude(exponent + 1, fraction) == 2.0 * Magnitude(exponent, fraction)
  {
    var x, k, p := MagnitudeIs(exponent, fraction);
    var y, l, q := MagnitudeIs(exponent + 1, fraction);
    PlaceNext(exponent);
    Twice(x, y, k, p, q);
  }

  lemma Twice(x: real, y: real, k: real, p: real, q: real)
    requires x == k * p && y == k * q && q == 2.0 * p
    ensures y == 2.0 * x
  {}

  lemma OneMore(x: real, y: real, k: real, l: real, p: real)
    requires x == k * p && y == l * p && l == k + 1.0
    ensures y == x + p
  {}

  /** One more in the fraction is one step more. */
  lemma Stepped(exponent: nat, fraction: nat)
    requires exponent < 2047 && fraction + 1 < TWO_52
    ensures Magnitude(exponent, fraction + 1) == Magnitude(exponent, fraction) + Step(exponent)
  {
    var x, k, p := MagnitudeIs(exponent, fraction);
    var y, l, q := MagnitudeIs(exponent, fraction + 1);
    StepIs(exponent);
    OneMore(x, y, k, l, p);
  }

  /** The last number of an exponent is one step below the first of the next; the first of all is
      zero. */
  lemma Carried(exponent: nat)
    requires exponent < 2046
    ensures Magnitude(exponent + 1, 0) == Magnitude(exponent, TWO_52 - 1) + Step(exponent)
    ensures Magnitude(0, 0) == 0.0
  {
    var x, k, p := MagnitudeIs(exponent, TWO_52 - 1);
    var y, l, q := MagnitudeIs(exponent + 1, 0);
    var zero, none, least := MagnitudeIs(0, 0);
    StepIs(exponent);
    PlaceNext(exponent);
    Carry(x, y, k, l, p, q, exponent == 0);
  }

  lemma Carry(x: real, y: real, k: real, l: real, p: real, q: real, lowest: bool)
    requires x == k * p && y == l * q && l == 4503599627370496.0
    requires k == if lowest then l - 1.0 else 2.0 * l - 1.0
    requires q == if lowest then p else 2.0 * p
    ensures y == x + p
  {}

  /** The words of finite numbers that are not negative ascend as the numbers do. */
  lemma {:induction false} Ascends(e: nat, f: nat, e': nat, f': nat)
    requires e < 2047 && f < TWO_52 && e' < 2047 && f' < TWO_52
    requires e < e' || (e == e' && f < f')
    ensures Magnitude(e, f) < Magnitude(e', f')
    decreases e', f'
  {
    if f' > 0 {
      Stepped(e', f' - 1);
      StepIs(e');
      if e < e' || f < f' - 1 {
        Ascends(e, f, e', f' - 1);
      }
    } else {
      Carried(e' - 1);
      StepIs(e' - 1);
      if e < e' - 1 || f < TWO_52 - 1 {
        Ascends(e, f, e' - 1, TWO_52 - 1);
      }
    }
  }

  /** Beyond the finite numbers are the infinities and what is not a number. */
  lemma NotFinite(negative: bool, fraction: nat)
    requires fraction < TWO_52
    ensures ToF64(Word(negative, 2047, fraction))
         == if fraction > 0 then NaN else if negative then NegInf else PosInf
  {
    WordParts(negative, 2047, fraction);
  }
}
