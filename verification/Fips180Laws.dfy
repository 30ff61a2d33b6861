/**
 What the constants and the byte orders of SHA-256 are: fractions of roots of primes, and numbers
 written with the most significant byte first.
 */
module Fips180Laws {
  import opened Fips180
  import opened Words

  // ----- Constants -----

  /** The first 32 bits of the fractional part of a cube root; its whole part is `whole`. */
  predicate CubeRootFraction(p: nat, whole: nat, k: nat) {
    var n := whole * 0x1_0000_0000 + k;
    k < 0x1_0000_0000 && n * n * n <= p * 0x1_0000_0000_0000_0000_0000_0000 < (n + 1) * (n + 1) * (n + 1)
  }

  predicate SquareRootFraction(p: nat, whole: nat, k: nat) {
    var n := whole * 0x1_0000_0000 + k;
    k < 0x1_0000_0000 && n * n <= p * 0x1_0000_0000_0000_0000 < (n + 1) * (n + 1)
  }

  /** The whole part of the cube root of a number below 343. */
  function WholeCubeRoot(p: nat): nat {
    if p < 8 then 1 else if p < 27 then 2 else if p < 64 then 3 else if p < 125 then 4 else if p < 216 then 5 else 6
  }

  predicate AreCubeRoots(ps: seq<nat>, ks: seq<nat>) {
    |ps| == |ks| && forall i :: 0 <= i < |ps| ==> CubeRootFraction(ps[i], WholeCubeRoot(ps[i]), ks[i])
  }

  lemma AppendedRoots(ps: seq<nat>, ks: seq<nat>, qs: seq<nat>, ls: seq<nat>)
    requires AreCubeRoots(ps, ks) && AreCubeRoots(qs, ls)
    ensures AreCubeRoots(ps + qs, ks + ls)
  {}

  /** The first 64 primes. */
  const PRIMES: seq<nat> := P0 + P1 + P2 + P3 + P4 + P5 + P6 + P7

  const P0: seq<nat> := [2, 3, 5, 7, 11, 13, 17, 19]
  const P1: seq<nat> := [23, 29, 31, 37, 41, 43, 47, 53]
  const P2: seq<nat> := [59, 61, 67, 71, 73, 79, 83, 89]
  const P3: seq<nat> := [97, 101, 103, 107, 109, 113, 127, 131]
  const P4: seq<nat> := [137, 139, 149, 151, 157, 163, 167, 173]
  const P5: seq<nat> := [179, 181, 191, 193, 197, 199, 211, 223]
  const P6: seq<nat> := [227, 229, 233, 239, 241, 251, 257, 263]
  const P7: seq<nat> := [269, 271, 277, 281, 283, 293, 307, 311]

  lemma Row0()
    ensures AreCubeRoots(P0, K0)
  {}

  lemma Row1()
    ensures AreCubeRoots(P1, K1)
  {}

  lemma Row2()
    ensures AreCubeRoots(P2, K2)
  {}

  lemma Row3()
    ensures AreCubeRoots(P3, K3)
  {}

  lemma Row4()
    ensures AreCubeRoots(P4, K4)
  {}

  lemma Row5()
    ensures AreCubeRoots(P5, K5)
  {}

  lemma Row6()
    ensures AreCubeRoots(P6, K6)
  {}

  lemma Row7()
    ensures AreCubeRoots(P7, K7)
  {}

  /** Section 4.2.2: the round constants are the first 32 bits of the fractional parts of the cube roots of
      the first 64 primes. */
  lemma RoundConstants()
    ensures |K| == 64 && AreCubeRoots(PRIMES, K)
  {
    Row0();
    Row1();
    Row2();
    Row3();
    Row4();
    Row5();
    Row6();
    Row7();
    AppendedRoots(P0, K0, P1, K1);
    AppendedRoots(P0 + P1, K0 + K1, P2, K2);
    AppendedRoots(P0 + P1 + P2, K0 + K1 + K2, P3, K3);
    AppendedRoots(P0 + P1 + P2 + P3, K0 + K1 + K2 + K3, P4, K4);
    AppendedRoots(P0 + P1 + P2 + P3 + P4, K0 + K1 + K2 + K3 + K4, P5, K5);
    AppendedRoots(P0 + P1 + P2 + P3 + P4 + P5, K0 + K1 + K2 + K3 + K4 + K5, P6, K6);
    AppendedRoots(P0 + P1 + P2 + P3 + P4 + P5 + P6, K0 + K1 + K2 + K3 + K4 + K5 + K6, P7, K7);
  }

  /** Section 5.3.3: the initial hash value comes from the square roots of the first eight primes. */
  lemma InitialConstants()
    ensures SquareRootFraction(2, 1, H0[0]) && SquareRootFraction(3, 1, H0[1])
    ensures SquareRootFraction(5, 2, H0[2]) && SquareRootFraction(7, 2, H0[3])
    ensures SquareRootFraction(11, 3, H0[4]) && SquareRootFraction(13, 3, H0[5])
    ensures SquareRootFraction(17, 4, H0[6]) && SquareRootFraction(19, 4, H0[7])
  {}

  lemma ConstantReads(n: nat)
    requires n < 0x1_0000_0000
    ensures Value(Word32(n)) == n
  {
    Pow2Words();
    Reads(n, 32, 0x1_0000_0000);
  }

  lemma {:induction false} Reads(n: nat, k: nat, limit: nat)
    requires n < limit && limit == Pow2(k)
    ensures Value(OfNat(n, k)) == n
  {
    ValueOfNat(n, k);
    Below(n, limit);
  }

  lemma Below(n: nat, limit: nat)
    requires n < limit
    ensures n % limit == n
  {}

  // ----- Byte orders -----

  /** The number that bytes stand for, the most significant first. */
  function NumberOf(bytes: Bytes): nat {
    if bytes == [] then 0 else 256 * NumberOf(bytes[..|bytes| - 1]) + Value(bytes[|bytes| - 1])
  }

  /** The bytes of a word read as its number. */
  lemma {:induction false} BigEndianReads(w: Bits)
    requires |w| % 8 == 0
    ensures NumberOf(BigEndian(w)) == Value(w)
    decreases |w|
  {
    if w != [] {
      BigEndianReads(w[8..]);
      assert BigEndian(w)[..|BigEndian(w)| - 1] == BigEndian(w[8..]);
      assert w == w[..8] + w[8..];
      ValueAppend(w[..8], w[8..]);
      Pow2Words();
    }
  }

  lemma {:induction false} ValueAppend(a: Bits, b: Bits)
    ensures Value(a + b) == Value(a) + Pow2(|a|) * Value(b)
  {
    if a == [] {
      assert a + b == b;
    } else {
      assert (a + b)[1..] == a[1..] + b;
      ValueAppend(a[1..], b);
      Associate(2, Pow2(|a| - 1), Value(b));
    }
  }

  /** Joined bytes read as a number, the least significant first. */
  lemma {:induction false} JoinReads(bytes: Bytes)
    requires bytes != []
    ensures Value(Join(bytes)) == Value(bytes[0]) + 256 * Value(Join(bytes[1..]))
  {
    ValueAppend(bytes[0], Join(bytes[1..]));
    Pow2Words();
  }

  /** A word of a block is the number of its four bytes, the most significant first. */
  lemma BlockWordReads(block: Block, t: nat)
    requires t < 16
    ensures Value(BlockWord(block, t))
         == 0x1000000 * Value(block[4 * t]) + 0x10000 * Value(block[4 * t + 1]) + 0x100 * Value(block[4 * t + 2])
            + Value(block[4 * t + 3])
  {
    FourBytes(block[4 * t], block[4 * t + 1], block[4 * t + 2], block[4 * t + 3]);
  }

  lemma {:induction false} FourBytes(a: Byte, b: Byte, c: Byte, d: Byte)
    ensures Value(Join([d, c, b, a])) == 0x1000000 * Value(a) + 0x10000 * Value(b) + 0x100 * Value(c) + Value(d)
  {
    JoinReads([d, c, b, a]);
    JoinReads([c, b, a]);
    JoinReads([b, a]);
    JoinReads([a]);
    assert [d, c, b, a][1..] == [c, b, a] && [c, b, a][1..] == [b, a] && [b, a][1..] == [a];
    assert [a][1..] == [] && Join([]) == [] && Value([]) == 0;
  }

  lemma {:induction false} NoBits(w: Bits)
    requires forall i :: 0 <= i < |w| ==> !w[i]
    ensures Value(w) == 0
  {
    if w != [] {
      NoBits(w[1..]);
    }
  }

  /** After the message come the byte 0x80, zeros, and the length in bits. */
  lemma PaddingReads(message: Bytes)
    requires |message| < 0x2000_0000_0000_0000
    ensures var n, p := |message|, Padded(message);
      && |p| >= n + 9 && p[..n] == message && Value(p[n]) == 0x80
      && (forall i :: n < i < |p| - 8 ==> Value(p[i]) == 0)
      && NumberOf(p[|p| - 8..]) == 8 * n
  {
    var n := |message|;
    var length := OfNat(8 * n, 64);
    FourParts(message, MARKER, Zeros(ZeroBytes(n)), BigEndian(length), Padded(message));
    LengthReads(n);
    MarkerReads();
    forall i | 0 <= i < ZeroBytes(n)
      ensures Value(Zeros(ZeroBytes(n))[i]) == 0
    {
      NoBits(Zeros(ZeroBytes(n))[i]);
    }
  }

  lemma FourParts(message: Bytes, marker: Byte, zeros: Bytes, length: Bytes, p: Bytes)
    requires p == message + [marker] + zeros + length
    ensures var n := |message|;
      && |p| == n + 1 + |zeros| + |length| && p[..n] == message && p[n] == marker
      && (forall i :: n < i < |p| - |length| ==> p[i] == zeros[i - n - 1])
      && p[|p| - |length|..] == length
  {}

  lemma LengthReads(n: nat)
    requires n < 0x2000_0000_0000_0000
    ensures NumberOf(BigEndian(OfNat(8 * n, 64))) == 8 * n
  {
    BigEndianReads(OfNat(8 * n, 64));
    ValueOfNat(8 * n, 64);
    Pow2Words();
  }

  lemma MarkerReads()
    ensures Value(MARKER) == 0x80
  {
    ValueAppend(MARKER[..7], MARKER[7..]);
    NoBits(MARKER[..7]);
    assert MARKER == MARKER[..7] + MARKER[7..] && MARKER[7..] == [true];
    assert Value([true]) == 1;
    assert Pow2(7) == 0x80;
  }
}
