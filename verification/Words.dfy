/**
 Machine words as bit sequences, least significant bit first: the bitwise operations, the
 shifts and the arithmetic modulo a power of two, with the algebra the hashes rely on.
 */
module Words {

  type Bits = seq<bool>

  type Byte = w: Bits | |w| == 8 witness seq(8, _ => false)

  type Bytes = seq<Byte>

  function Pow2(k: nat): (p: nat)
    ensures p > 0
  {
    if k == 0 then 1 else 2 * Pow2(k - 1)
  }

  /** The number a word stands for. */
  function Value(a: Bits): nat {
    if a == [] then 0 else 2 * Value(a[1..]) + if a[0] then 1 else 0
  }

  /** Bit `i` of a number. */
  predicate Bit(n: nat, i: nat) {
    if i == 0 then n % 2 == 1 else Bit(n / 2, i - 1)
  }

  /** The low `k` bits of a number. */
  function OfNat(n: nat, k: nat): (r: Bits)
    ensures |r| == k && forall i :: 0 <= i < k ==> r[i] == Bit(n, i)
  {
    seq(k, i requires 0 <= i < k => Bit(n, i))
  }

  function Xor(a: Bits, b: Bits): (r: Bits)
    requires |a| == |b|
    ensures |r| == |a| && forall i :: 0 <= i < |r| ==> r[i] == (a[i] != b[i])
  {
    seq(|a|, i requires 0 <= i < |a| => a[i] != b[i])
  }

  function And(a: Bits, b: Bits): (r: Bits)
    requires |a| == |b|
    ensures |r| == |a| && forall i :: 0 <= i < |r| ==> r[i] == (a[i] && b[i])
  {
    seq(|a|, i requires 0 <= i < |a| => a[i] && b[i])
  }

  function Not(a: Bits): (r: Bits)
    ensures |r| == |a| && forall i :: 0 <= i < |r| ==> r[i] == !a[i]
  {
    seq(|a|, i requires 0 <= i < |a| => !a[i])
  }

  function Shr(a: Bits, k: nat): (r: Bits)
    ensures |r| == |a| && forall i :: 0 <= i < |r| ==> r[i] == (i + k < |a| && a[i + k])
  {
    seq(|a|, i requires 0 <= i < |a| => i + k < |a| && a[i + k])
  }

  function Shl(a: Bits, k: nat): (r: Bits)
    ensures |r| == |a| && forall i :: 0 <= i < |r| ==> r[i] == (i >= k && a[i - k])
  {
    seq(|a|, i requires 0 <= i < |a| => i >= k && a[i - k])
  }

  function Or(a: Bits, b: Bits): (r: Bits)
    requires |a| == |b|
    ensures |r| == |a| && forall i :: 0 <= i < |r| ==> r[i] == (a[i] || b[i])
  {
    seq(|a|, i requires 0 <= i < |a| => a[i] || b[i])
  }

  function RotateRight(a: Bits, k: nat): (r: Bits)
    requires k <= |a|
    ensures |r| == |a|
    ensures forall i :: 0 <= i < |r| ==> r[i] == if i + k < |a| then a[i + k] else a[i + k - |a|]
  {
    a[k..] + a[..k]
  }

  /** Bytes joined into one word, the first byte lowest (little-endian). */
  function Join(bytes: Bytes): (r: Bits)
    ensures |r| == 8 * |bytes|
  {
    if bytes == [] then [] else bytes[0] + Join(bytes[1..])
  }

  lemma {:induction false} JoinInjective(a: Bytes, b: Bytes)
    requires |a| == |b| && Join(a) == Join(b)
    ensures a == b
  {
    if a != [] {
      assert a[0] == Join(a)[..8] && Join(a[1..]) == Join(a)[8..];
      assert b[0] == Join(b)[..8] && Join(b[1..]) == Join(b)[8..];
      JoinInjective(a[1..], b[1..]);
      assert a == [a[0]] + a[1..] && b == [b[0]] + b[1..];
    }
  }

  lemma {:induction false} JoinAppend(a: Bytes, b: Bytes)
    ensures Join(a + b) == Join(a) + Join(b)
  {
    if a == [] {
      assert a + b == b;
    } else {
      assert (a + b)[1..] == a[1..] + b;
      JoinAppend(a[1..], b);
    }
  }

  function Zeros(n: nat): (r: Bytes)
    ensures |r| == n && forall i, j :: 0 <= i < n && 0 <= j < 8 ==> !r[i][j]
  {
    seq(n, _ => seq(8, _ => false))
  }

  function WrappingAdd(a: Bits, b: Bits): (r: Bits)
    requires |a| == |b|
    ensures |r| == |a|
  {
    seq(|a|, i requires 0 <= i < |a| => Bit(Value(a) + Value(b), i))
  }

  /** A word times a constant. */
  function WrappingMul(a: Bits, c: nat): (r: Bits)
    ensures |r| == |a|
  {
    OfNat(Value(a) * c, |a|)
  }

  /** A word holds every number below two to its width, each in one way. */
  lemma {:induction false} ValueOfNat(n: nat, k: nat)
    ensures Value(OfNat(n, k)) == n % Pow2(k)
  {
    if k > 0 {
      assert OfNat(n, k)[1..] == OfNat(n / 2, k - 1);
      ValueOfNat(n / 2, k - 1);
      var q := n / 2 / Pow2(k - 1);
      assert n / 2 == q * Pow2(k - 1) + n / 2 % Pow2(k - 1);
      Associate(q, 2, Pow2(k - 1));
      QuotientIs(n, Pow2(k), q, 2 * (n / 2 % Pow2(k - 1)) + n % 2);
    }
  }

  lemma {:induction false} OfNatValue(a: Bits)
    ensures OfNat(Value(a), |a|) == a && Value(a) < Pow2(|a|)
  {
    if a != [] {
      OfNatValue(a[1..]);
      assert Value(a) / 2 == Value(a[1..]);
      assert OfNat(Value(a), |a|)[1..] == a[1..];
    }
  }

  /** Folding a word in twice leaves nothing of it. */
  lemma XorCancels(a: Bits, b: Bits)
    requires |a| == |b|
    ensures Xor(Xor(a, b), b) == a && Xor(a, Xor(a, b)) == b
  {}

  lemma QuotientIs(x: int, m: int, q: int, r: int)
    requires m > 0 && x == q * m + r && 0 <= r < m
    ensures x / m == q && x % m == r
  {
    var q', r' := x / m, x % m;
    assert x == q' * m + r' && 0 <= r' < m;
    assert (q - q') * m == r' - r;
    if q < q' {
      MultiplyBound(q' - q, m);
    } else if q > q' {
      MultiplyBound(q - q', m);
    }
  }

  lemma MultiplyBound(d: int, m: int)
    requires d >= 1 && m > 0
    ensures d * m >= m
  {
    assert (d - 1) * m >= 0;
  }

  lemma Associate(a: int, b: int, c: int)
    ensures (a * b) * c == a * (b * c)
  {}

  lemma Distribute(a: int, b: int, c: int)
    ensures (a - b) * c == a * c - b * c
  {}

  lemma Swap(a: int, b: int, c: int)
    ensures (a * b) * c == (a * c) * b
  {}

  lemma Spread(x: int, t: int, m: int)
    ensures x * (t * m + 1) == (x * t) * m + x
  {}

  /** Multiplication by `c` modulo `m` is undone by its inverse `d`. */
  lemma MultiplyInverse(x: nat, c: nat, y: nat, d: nat, m: nat)
    requires x < m && (c * d) % m == 1 && y == x * c % m
    ensures y * d % m == x
  {
    var q, t := x * c / m, c * d / m;
    assert x * c == q * m + y;
    assert c * d == t * m + 1;
    calc {
      y * d;
      (x * c - q * m) * d;
      { Distribute(x * c, q * m, d); }
      (x * c) * d - (q * m) * d;
      { Associate(x, c, d); Swap(q, m, d); }
      x * (t * m + 1) - (q * d) * m;
      { Spread(x, t, m); }
      (x * t) * m + x - (q * d) * m;
      { Distribute(x * t, q * d, m); }
      (x * t - q * d) * m + x;
    }
    QuotientIs(y * d, m, x * t - q * d, x);
  }

  /** A word times `c` is undone by a product with the inverse of `c`. */
  lemma {:induction false} UnmultiplyMultiply(a: Bits, c: nat, d: nat)
    requires (c * d) % Pow2(|a|) == 1
    ensures WrappingMul(WrappingMul(a, c), d) == a
  {
    var b := WrappingMul(a, c);
    ProductValue(a, c);
    ProductValue(b, d);
    OfNatValue(a);
    MultiplyInverse(Value(a), c, Value(b), d, Pow2(|a|));
    SameValue(WrappingMul(b, d), a);
  }

  lemma {:induction false} SameValue(a: Bits, b: Bits)
    requires |a| == |b| && Value(a) == Value(b)
    ensures a == b
  {
    OfNatValue(a);
    OfNatValue(b);
  }

  lemma {:induction false} ProductValue(a: Bits, c: nat)
    ensures Value(WrappingMul(a, c)) == Value(a) * c % Pow2(|a|)
  {
    ValueOfNat(Value(a) * c, |a|);
  }

  lemma {:induction false} OfNatWraps(n: nat, k: nat)
    ensures OfNat(n, k) == OfNat(n % Pow2(k), k)
  {
    ValueOfNat(n, k);
    OfNatValue(OfNat(n, k));
  }

  lemma AddCommutes(a: Bits, b: Bits)
    requires |a| == |b|
    ensures WrappingAdd(a, b) == WrappingAdd(b, a)
  {
    SumBits(a, b);
    SumBits(b, a);
  }

  lemma {:induction false} SumBits(a: Bits, b: Bits)
    requires |a| == |b|
    ensures WrappingAdd(a, b) == OfNat(Value(a) + Value(b), |a|)
  {}

  /** Wrapping early or late makes no difference to a sum. */
  lemma AddAssociates(a: Bits, b: Bits, c: Bits)
    requires |a| == |b| == |c|
    ensures WrappingAdd(WrappingAdd(a, b), c) == WrappingAdd(a, WrappingAdd(b, c))
  {
    var k := |a|;
    SumBits(a, b);
    SumBits(b, c);
    SumBits(WrappingAdd(a, b), c);
    SumBits(a, WrappingAdd(b, c));
    ValueOfNat(Value(a) + Value(b), k);
    ValueOfNat(Value(b) + Value(c), k);
    SumWraps(Value(a) + Value(b), Value(c), k);
    SumWraps(Value(b) + Value(c), Value(a), k);
  }

  lemma {:induction false} SumWraps(n: nat, x: nat, k: nat)
    ensures OfNat(n % Pow2(k) + x, k) == OfNat(n + x, k)
  {
    OfNatWraps(n % Pow2(k) + x, k);
    OfNatWraps(n + x, k);
    SumRemainder(n, x, Pow2(k));
  }

  lemma SumRemainder(n: nat, x: nat, m: nat)
    requires m > 0
    ensures (n % m + x) % m == (n + x) % m
  {
    var q, t := n / m, (n % m + x) / m;
    assert n % m + x == t * m + (n % m + x) % m;
    assert n + x == (q + t) * m + (n % m + x) % m;
    QuotientIs(n + x, m, q + t, (n % m + x) % m);
  }

  lemma Pow2Byte(k: nat)
    ensures Pow2(k + 8) == 256 * Pow2(k)
  {
    assert Pow2(k + 2) == 4 * Pow2(k);
    assert Pow2(k + 4) == 4 * Pow2(k + 2);
    assert Pow2(k + 6) == 4 * Pow2(k + 4);
  }

  lemma Pow2Words()
    ensures Pow2(8) == 0x100
    ensures Pow2(32) == 0x1_0000_0000
    ensures Pow2(64) == 0x1_0000_0000_0000_0000
  {
    Pow2Byte(0);
    Pow2Byte(8);
    Pow2Byte(16);
    Pow2Byte(24);
    Pow2Byte(32);
    Pow2Byte(40);
    Pow2Byte(48);
    Pow2Byte(56);
  }
}
