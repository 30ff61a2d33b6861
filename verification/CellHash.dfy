/**
 The hash of raw H3 indices: the SplitMix64 finalizer and the hasher built on it.
 */
module CellHash {
  import opened Words

  type U64 = w: Bits | |w| == 64 witness seq(64, _ => false)

  const ZERO: U64 := seq(64, _ => false)

  const MULTIPLIER1: nat := 0xbf58_476d_1ce4_e5b9
  const MULTIPLIER2: nat := 0x94d0_49bb_1331_11eb
  const INVERSE1: nat := 0x96de_1b17_3f11_9089
  const INVERSE2: nat := 0x3196_42b2_d24d_8ec3

  // ----- The finalizer -----

  /** A word mixed with its own high bits. */
  function ShiftXor(x: U64, s: nat): U64 {
    Xor(x, Shr(x, s))
  }

  function MixH3(cell: U64): U64 {
    var h := WrappingMul(ShiftXor(cell, 30), MULTIPLIER1);
    var g := WrappingMul(ShiftXor(h, 27), MULTIPLIER2);
    ShiftXor(g, 31)
  }

  /** The inverse of ShiftXor for shifts of at least 22 places. */
  function UnshiftXor(y: U64, s: nat): U64 {
    Xor(Xor(y, Shr(y, s)), Shr(y, 2 * s))
  }

  /** Undoes MixH3 step by step, with the multiplicative inverses of its two odd constants. */
  function UnmixH3(hash: U64): U64 {
    var h := WrappingMul(UnshiftXor(hash, 31), INVERSE2);
    var g := WrappingMul(UnshiftXor(h, 27), INVERSE1);
    UnshiftXor(g, 30)
  }

  lemma UnshiftShift(x: U64, s: nat)
    requires s >= 22
    ensures UnshiftXor(ShiftXor(x, s), s) == x
    ensures ShiftXor(UnshiftXor(x, s), s) == x
  {
    var y, z := ShiftXor(x, s), UnshiftXor(x, s);
    forall i | 0 <= i < 64
      ensures UnshiftXor(y, s)[i] == x[i] && ShiftXor(z, s)[i] == x[i]
    {
      BitsApart(x, s, i);
    }
  }

  /** A bit meets at most two others that lie `s` and `2 * s` places above it. */
  lemma BitsApart(x: U64, s: nat, i: nat)
    requires s >= 22 && i < 64
    ensures UnshiftXor(ShiftXor(x, s), s)[i] == x[i]
    ensures ShiftXor(UnshiftXor(x, s), s)[i] == x[i]
  {}

  lemma Inverses()
    ensures MULTIPLIER1 * INVERSE1 % Pow2(64) == 1 && INVERSE1 * MULTIPLIER1 % Pow2(64) == 1
    ensures MULTIPLIER2 * INVERSE2 % Pow2(64) == 1 && INVERSE2 * MULTIPLIER2 % Pow2(64) == 1
  {
    Pow2Words();
  }

  lemma UnmixMix(cell: U64)
    ensures UnmixH3(MixH3(cell)) == cell
  {
    var a := ShiftXor(cell, 30);
    var b := WrappingMul(a, MULTIPLIER1);
    var c := ShiftXor(b, 27);
    var d := WrappingMul(c, MULTIPLIER2);
    Inverses();
    UnshiftShift(d, 31);
    UnmultiplyMultiply(c, MULTIPLIER2, INVERSE2);
    UnshiftShift(b, 27);
    UnmultiplyMultiply(a, MULTIPLIER1, INVERSE1);
    UnshiftShift(cell, 30);
  }

  lemma MixUnmix(hash: U64)
    ensures MixH3(UnmixH3(hash)) == hash
  {
    var d := UnshiftXor(hash, 31);
    var c := WrappingMul(d, INVERSE2);
    var b := UnshiftXor(c, 27);
    var a := WrappingMul(b, INVERSE1);
    Inverses();
    UnshiftShift(a, 30);
    UnmultiplyMultiply(b, INVERSE1, MULTIPLIER1);
    UnshiftShift(c, 27);
    UnmultiplyMultiply(d, INVERSE2, MULTIPLIER2);
    UnshiftShift(hash, 31);
  }

  ghost predicate Reached(hash: U64) {
    exists cell: U64 :: MixH3(cell) == hash
  }

  /** MixH3 is a bijection on 64-bit words: no two cells collide and every word is a hash. */
  lemma MixH3Bijective()
    ensures forall x: U64, y: U64 :: MixH3(x) == MixH3(y) ==> x == y
    ensures forall hash: U64 :: Reached(hash)
  {
    forall x: U64, y: U64 | MixH3(x) == MixH3(y)
      ensures x == y
    {
      UnmixMix(x);
      UnmixMix(y);
    }
    forall hash: U64
      ensures Reached(hash)
    {
      MixUnmix(hash);
    }
  }

  // ----- The hasher -----

  /** The hasher's state after one 64-bit word; rotating left by 5 is rotating right by 59. */
  function Fold(state: U64, word: U64): U64 {
    MixH3(Xor(RotateRight(state, 59), word))
  }

  /** From one state, distinct words lead to distinct states. */
  lemma FoldInjective(state: U64, v: U64, w: U64)
    requires Fold(state, v) == Fold(state, w)
    ensures v == w
  {
    var key := RotateRight(state, 59);
    UnmixMix(Xor(key, v));
    UnmixMix(Xor(key, w));
    XorCancels(key, v);
    XorCancels(key, w);
  }

  /** A fresh hasher sends a raw cell to its finalizer. */
  lemma FreshFold(cell: U64)
    ensures Fold(ZERO, cell) == MixH3(cell)
  {
    assert Xor(RotateRight(ZERO, 59), cell) == cell;
  }

  /** The last word of a write: the zero-padded leftover bytes, with the length xor-ed in,
      shifted up by 56 places (which keeps only its low eight bits). */
  function TailWord(rest: Bytes, length: nat): U64
    requires |rest| < 8
  {
    Xor(Join(rest + Zeros(8 - |rest|)), seq(56, _ => false) + OfNat(length, 8))
  }

  function TailOf(bytes: Bytes): U64 {
    TailWord(bytes[|bytes| / 8 * 8..], |bytes|)
  }

  /** The words a write folds in: full words, then the tail. */
  function WordsOf(bytes: Bytes): seq<U64> {
    FullWords(bytes, |bytes| / 8) + [TailOf(bytes)]
  }

  function FullWords(bytes: Bytes, n: nat): (r: seq<U64>)
    requires 8 * n <= |bytes|
    ensures |r| == n
  {
    seq(n, i requires 0 <= i < n => Join(bytes[8 * i..8 * i + 8]))
  }

  /** Folding words into a state, one after the other. */
  function FoldAll(state: U64, words: seq<U64>): U64 {
    if words == [] then state else Fold(FoldAll(state, words[..|words| - 1]), words[|words| - 1])
  }

  /** The top byte of the tail word is the length, the others are the leftover bytes. */
  lemma {:induction false} TailWordParts(rest: Bytes, length: nat)
    requires |rest| < 8
    ensures TailWord(rest, length)[..56] == Join(rest + Zeros(7 - |rest|))
    ensures TailWord(rest, length)[56..] == OfNat(length, 8)
  {
    PaddedJoin(rest);
    XorParts(Join(rest + Zeros(7 - |rest|)), OfNat(length, 8));
  }

  lemma {:induction false} PaddedJoin(rest: Bytes)
    requires |rest| < 8
    ensures Join(rest + Zeros(8 - |rest|)) == Join(rest + Zeros(7 - |rest|)) + seq(8, _ => false)
  {
    var low := rest + Zeros(7 - |rest|);
    assert rest + Zeros(8 - |rest|) == low + Zeros(1);
    JoinAppend(low, Zeros(1));
    JoinOne(Zeros(1));
  }

  lemma {:induction false} JoinOne(one: Bytes)
    requires |one| == 1
    ensures Join(one) == one[0]
  {
    assert one[1..] == [];
    assert Join(one) == one[0] + Join([]);
  }

  lemma XorParts(low: Bits, high: Bits)
    requires |low| == 56 && |high| == 8
    ensures Xor(low + seq(8, _ => false), seq(56, _ => false) + high) == low + high
  {}

  lemma LengthByte(m: nat, n: nat)
    requires OfNat(m, 8) == OfNat(n, 8)
    ensures m % 256 == n % 256
  {
    Pow2Byte(0);
    ValueOfNat(m, 8);
    ValueOfNat(n, 8);
  }

  lemma TailWordInjective(a: Bytes, b: Bytes, full: nat)
    requires |a| < 8 && |b| < 8
    requires TailWord(a, 8 * full + |a|) == TailWord(b, 8 * full + |b|)
    ensures a == b
  {
    TailWordParts(a, 8 * full + |a|);
    TailWordParts(b, 8 * full + |b|);
    LengthByte(8 * full + |a|, 8 * full + |b|);
    assert |a| == |b|;
    var p, q := a + Zeros(7 - |a|), b + Zeros(7 - |b|);
    JoinInjective(p, q);
    assert a == p[..|a|] && b == q[..|a|];
  }

  /** From any state, byte strings with the same full words hash alike only when equal: in
      particular strings shorter than eight bytes never collide, trailing zeros included. */
  lemma {:induction false} WriteInjective(state: U64, a: Bytes, b: Bytes)
    requires |a| / 8 == |b| / 8 && FullWords(a, |a| / 8) == FullWords(b, |b| / 8)
    ensures FoldAll(state, WordsOf(a)) == FoldAll(state, WordsOf(b)) <==> a == b
  {
    if FoldAll(state, WordsOf(a)) == FoldAll(state, WordsOf(b)) {
      LastWordInjective(state, FullWords(a, |a| / 8), TailOf(a), TailOf(b));
      SameParts(a, b, |a| / 8);
    }
  }

  lemma {:induction false} LastWordInjective(state: U64, words: seq<U64>, v: U64, w: U64)
    requires FoldAll(state, words + [v]) == FoldAll(state, words + [w])
    ensures v == w
  {
    assert (words + [v])[..|words|] == words && (words + [w])[..|words|] == words;
    FoldInjective(FoldAll(state, words), v, w);
  }

  lemma SameParts(a: Bytes, b: Bytes, full: nat)
    requires |a| / 8 == |b| / 8 == full
    requires FullWords(a, full) == FullWords(b, full) && TailOf(a) == TailOf(b)
    ensures a == b
  {
    TailWordInjective(a[8 * full..], b[8 * full..], full);
    FullWordsInjective(a, b, full);
    assert a == a[..8 * full] + a[8 * full..] && b == b[..8 * full] + b[8 * full..];
  }

  lemma {:induction false} FullWordsInjective(a: Bytes, b: Bytes, n: nat)
    requires 8 * n <= |a| && 8 * n <= |b| && FullWords(a, n) == FullWords(b, n)
    ensures a[..8 * n] == b[..8 * n]
  {
    if n > 0 {
      var m := n - 1;
      assert FullWords(a, n)[m] == FullWords(b, n)[m];
      JoinInjective(a[8 * m..8 * m + 8], b[8 * m..8 * m + 8]);
      assert FullWords(a, m) == FullWords(a, n)[..m] && FullWords(b, m) == FullWords(b, n)[..m];
      FullWordsInjective(a, b, m);
      assert a[..8 * n] == a[..8 * m] + a[8 * m..8 * m + 8];
      assert b[..8 * n] == b[..8 * m] + b[8 * m..8 * m + 8];
    }
  }

  lemma {:induction false} FoldNext(state: U64, bytes: Bytes, i: nat)
    requires 8 * i + 8 <= |bytes|
    ensures FoldAll(state, FullWords(bytes, i + 1))
         == Fold(FoldAll(state, FullWords(bytes, i)), Join(bytes[8 * i..8 * i + 8]))
  {
    var words := FullWords(bytes, i + 1);
    assert words[..i] == FullWords(bytes, i);
  }

  lemma {:induction false} FoldLast(state: U64, bytes: Bytes)
    ensures FoldAll(state, WordsOf(bytes))
         == Fold(FoldAll(state, FullWords(bytes, |bytes| / 8)), TailOf(bytes))
  {
    assert WordsOf(bytes)[..|bytes| / 8] == FullWords(bytes, |bytes| / 8);
  }

  /** The hasher object: one 64-bit word of state. */
  class H3Hasher {
    var state: U64

    constructor ()
      ensures state == ZERO
    {
      state := ZERO;
    }

    method Finish() returns (hash: U64)
      ensures hash == state
    {
      hash := state;
    }

    method WriteU64(n: U64)
      modifies this
      ensures state == Fold(old(state), n)
    {
      state := MixH3(Xor(RotateRight(state, 59), n));
    }

    /** Folds the full little-endian words of `bytes`, then the padded rest with the length. */
    method Write(bytes: Bytes)
      modifies this
      ensures state == FoldAll(old(state), WordsOf(bytes))
    {
      WriteFullWords(bytes, |bytes| / 8);
      var last := Tail(bytes[|bytes| / 8 * 8..], |bytes|);
      FoldLast(old(state), bytes);
      WriteU64(last);
    }

    method WriteFullWords(bytes: Bytes, n: nat)
      requires 8 * n <= |bytes|
      modifies this
      ensures state == FoldAll(old(state), FullWords(bytes, n))
    {
      for i := 0 to n
        invariant state == FoldAll(old(state), FullWords(bytes, i))
      {
        FoldNext(old(state), bytes, i);
        var word := Join(bytes[8 * i..8 * i + 8]);
        WriteU64(word);
      }
    }
  }

  /** Fills the tail buffer and mixes in the length. */
  method Tail(rest: Bytes, length: nat) returns (word: U64)
    requires |rest| < 8
    ensures word == TailWord(rest, length)
  {
    var tail := new Byte[8](_ => seq(8, _ => false));
    forall k | 0 <= k < |rest| {
      tail[k] := rest[k];
    }
    assert tail[..] == rest + Zeros(8 - |rest|);
    word := Xor(Join(tail[..]), seq(56, _ => false) + OfNat(length, 8));
  }

  /** Two cells written to two fresh hashers finish with equal hashes only if equal. */
  method HashTwoCells(x: U64, y: U64) returns (hx: U64, hy: U64)
    ensures hx == MixH3(x) && hy == MixH3(y)
    ensures hx == hy <==> x == y
  {
    var a := new H3Hasher();
    var b := new H3Hasher();
    a.WriteU64(x);
    b.WriteU64(y);
    hx := a.Finish();
    hy := b.Finish();
    FreshFold(x);
    FreshFold(y);
    MixH3Bijective();
  }
}
