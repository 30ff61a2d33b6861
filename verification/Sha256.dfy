/**
 The secure hash algorithm SHA-256 as FIPS 180-4 defines it, on messages of whole bytes.
 Additions are modulo 2 to the 32.
 */
module Fips180 {
  import opened Words

  type U32 = w: Bits | |w| == 32 witness seq(32, _ => false)

  /** A hash value: eight words. */
  type Hash = h: seq<U32> | |h| == 8 witness seq(8, _ => seq(32, _ => false))

  type Block = b: Bytes | |b| == 64 witness seq(64, _ => seq(8, _ => false))

  /** Section 4.2.2. */
  const K: seq<nat> := K0 + K1 + K2 + K3 + K4 + K5 + K6 + K7

  const K0: seq<nat> := [
    0x428a2f98, 0x71374491, 0xb5c0fbcf, 0xe9b5dba5, 0x3956c25b, 0x59f111f1, 0x923f82a4, 0xab1c5ed5]
  const K1: seq<nat> := [
    0xd807aa98, 0x12835b01, 0x243185be, 0x550c7dc3, 0x72be5d74, 0x80deb1fe, 0x9bdc06a7, 0xc19bf174]
  const K2: seq<nat> := [
    0xe49b69c1, 0xefbe4786, 0x0fc19dc6, 0x240ca1cc, 0x2de92c6f, 0x4a7484aa, 0x5cb0a9dc, 0x76f988da]
  const K3: seq<nat> := [
    0x983e5152, 0xa831c66d, 0xb00327c8, 0xbf597fc7, 0xc6e00bf3, 0xd5a79147, 0x06ca6351, 0x14292967]
  const K4: seq<nat> := [
    0x27b70a85, 0x2e1b2138, 0x4d2c6dfc, 0x53380d13, 0x650a7354, 0x766a0abb, 0x81c2c92e, 0x92722c85]
  const K5: seq<nat> := [
    0xa2bfe8a1, 0xa81a664b, 0xc24b8b70, 0xc76c51a3, 0xd192e819, 0xd6990624, 0xf40e3585, 0x106aa070]
  const K6: seq<nat> := [
    0x19a4c116, 0x1e376c08, 0x2748774c, 0x34b0bcb5, 0x391c0cb3, 0x4ed8aa4a, 0x5b9cca4f, 0x682e6ff3]
  const K7: seq<nat> := [
    0x748f82ee, 0x78a5636f, 0x84c87814, 0x8cc70208, 0x90befffa, 0xa4506ceb, 0xbef9a3f7, 0xc67178f2]

  /** Section 5.3.3. */
  const H0: seq<nat> := [
    0x6a09e667, 0xbb67ae85, 0x3c6ef372, 0xa54ff53a, 0x510e527f, 0x9b05688c, 0x1f83d9ab, 0x5be0cd19]

  function Word32(n: nat): U32 {
    OfNat(n, 32)
  }

  function InitialHash(): Hash {
    seq(8, i requires 0 <= i < 8 => Word32(H0[i]))
  }

  // Sections 3.2 and 4.1.2.

  function ROTR(n: nat, x: U32): U32
    requires n <= 32
  {
    Or(Shr(x, n), Shl(x, 32 - n))
  }

  function Ch(x: U32, y: U32, z: U32): U32 {
    Xor(And(x, y), And(Not(x), z))
  }

  function Maj(x: U32, y: U32, z: U32): U32 {
    Xor(Xor(And(x, y), And(x, z)), And(y, z))
  }

  function UpperSigma0(x: U32): U32 {
    Xor(Xor(ROTR(2, x), ROTR(13, x)), ROTR(22, x))
  }

  function UpperSigma1(x: U32): U32 {
    Xor(Xor(ROTR(6, x), ROTR(11, x)), ROTR(25, x))
  }

  function LowerSigma0(x: U32): U32 {
    Xor(Xor(ROTR(7, x), ROTR(18, x)), Shr(x, 3))
  }

  function LowerSigma1(x: U32): U32 {
    Xor(Xor(ROTR(17, x), ROTR(19, x)), Shr(x, 10))
  }

  function Add(x: U32, y: U32): U32 {
    WrappingAdd(x, y)
  }

  /** Word `t` of a block: four bytes, the most significant first. */
  function BlockWord(block: Block, t: nat): U32
    requires t < 16
  {
    Join([block[4 * t + 3], block[4 * t + 2], block[4 * t + 1], block[4 * t]])
  }

  /** Section 6.2.2, step 1: the message schedule. */
  function Schedule(block: Block, t: nat): U32 {
    if t < 16 then BlockWord(block, t)
    else Add(Add(Add(LowerSigma1(Schedule(block, t - 2)), Schedule(block, t - 7)),
                 LowerSigma0(Schedule(block, t - 15))), Schedule(block, t - 16))
  }

  /** The eight working variables. */
  datatype Registers = Registers(a: U32, b: U32, c: U32, d: U32, e: U32, f: U32, g: U32, h: U32)

  function Load(hash: Hash): Registers {
    Registers(hash[0], hash[1], hash[2], hash[3], hash[4], hash[5], hash[6], hash[7])
  }

  /** Section 6.2.2, step 3: one round with its constant and schedule word. */
  function Round(r: Registers, k: U32, w: U32): Registers {
    var t1 := Add(Add(Add(Add(r.h, UpperSigma1(r.e)), Ch(r.e, r.f, r.g)), k), w);
    var t2 := Add(UpperSigma0(r.a), Maj(r.a, r.b, r.c));
    Registers(Add(t1, t2), r.a, r.b, r.c, Add(r.d, t1), r.e, r.f, r.g)
  }

  /** The working variables after the first `t` rounds. */
  function Rounds(r: Registers, block: Block, t: nat): Registers
    requires t <= 64
  {
    if t == 0 then r
    else Round(Rounds(r, block, t - 1), Word32(K[t - 1]), Schedule(block, t - 1))
  }

  function Listed(r: Registers): (hash: Hash)
    ensures Load(hash) == r
  {
    [r.a, r.b, r.c, r.d, r.e, r.f, r.g, r.h]
  }

  /** Section 6.2.2, step 4. */
  function AddBack(r: Registers, hash: Hash): Hash {
    seq(8, i requires 0 <= i < 8 => Add(Listed(r)[i], hash[i]))
  }

  function Compress(hash: Hash, block: Block): Hash {
    AddBack(Rounds(Load(hash), block, 64), hash)
  }

  // Section 5.1.1: padding.

  /** Zero bytes between the byte 0x80 and the length field. */
  function ZeroBytes(n: nat): (z: nat)
    ensures z < 64
  {
    (119 - n % 64) % 64
  }

  /** Whether one bit and `k` zero bits after `n` bytes reach the length field's place. */
  predicate Aligned(n: nat, k: nat) {
    (8 * n + 1 + k) % 512 == 448
  }

  /** Bits of zero padding after the single one bit: the smallest `k` that brings the length
      to 448 modulo 512. The byte 0x80 holds the one bit and seven of them. */
  lemma SmallestPadding(n: nat)
    ensures Aligned(n, 8 * ZeroBytes(n) + 7)
    ensures forall k: nat :: k < 8 * ZeroBytes(n) + 7 ==> !Aligned(n, k)
  {
    var q, r, z := n / 64, n % 64, ZeroBytes(n);
    assert n == 64 * q + r && r + z == if r < 56 then 55 else 119;
    AlignedAt(n, 8 * z + 7, q + (if r < 56 then 0 else 1));
    forall k: nat | k < 8 * z + 7
      ensures !Aligned(n, k)
    {
      NotAligned(n, k, q, 8 * r + 1 + k);
    }
  }

  lemma AlignedAt(n: nat, k: nat, turns: nat)
    requires 8 * n + 1 + k == 512 * turns + 448
    ensures Aligned(n, k)
  {}

  lemma NotAligned(n: nat, k: nat, q: nat, x: nat)
    requires 8 * n + 1 + k == 512 * q + x && (x < 448 || 448 < x < 960)
    ensures !Aligned(n, k)
  {}

  const MARKER: Byte := [false, false, false, false, false, false, false, true]

  /** The bytes of a word, the most significant first. */
  function BigEndian(w: Bits): (r: Bytes)
    requires |w| % 8 == 0
    ensures |r| == |w| / 8
    decreases |w|
  {
    if w == [] then [] else BigEndian(w[8..]) + [w[..8]]
  }

  function Padded(message: Bytes): (r: Bytes)
    ensures |r| % 64 == 0
  {
    var n := |message|;
    message + [MARKER] + Zeros(ZeroBytes(n)) + BigEndian(OfNat(8 * n, 64))
  }

  /** Section 5.2.1: a padded message as blocks. */
  function BlocksOf(bytes: Bytes): (r: seq<Block>)
    requires |bytes| % 64 == 0
    ensures |r| == |bytes| / 64 && forall i :: 0 <= i < |r| ==> r[i] == bytes[64 * i..64 * i + 64]
  {
    seq(|bytes| / 64, i requires 0 <= i < |bytes| / 64 => bytes[64 * i..64 * i + 64])
  }

  /** Section 6.2.2: the blocks in order. */
  function HashBlocks(hash: Hash, blocks: seq<Block>): Hash {
    FoldBlocks(Compress, hash, blocks)
  }

  function FoldBlocks(compress: (Hash, Block) -> Hash, hash: Hash, blocks: seq<Block>): Hash {
    if blocks == [] then hash
    else compress(FoldBlocks(compress, hash, blocks[..|blocks| - 1]), blocks[|blocks| - 1])
  }

  function HashBytes(hash: seq<U32>): (r: Bytes)
    ensures |r| == 4 * |hash|
  {
    if hash == [] then [] else HashBytes(hash[..|hash| - 1]) + BigEndian(hash[|hash| - 1])
  }

  /** The message digest. */
  function Digest(message: Bytes): (r: Bytes)
    ensures |r| == 32
  {
    HashBytes(HashBlocks(InitialHash(), BlocksOf(Padded(message))))
  }
}

/**
 The SHA-256 of the extension packager, and its two-level hash of an extension's bytes.
 */
module Sha256 {
  import opened Words
  import opened Fips180

  /** The 64 words of a block's schedule. */
  method MessageSchedule(block: Block) returns (w: array<U32>)
    ensures fresh(w) && w.Length == 64
    ensures forall t :: 0 <= t < 64 ==> w[t] == Schedule(block, t)
  {
    w := new U32[64](_ => Word32(0));
    for i := 0 to 16
      invariant forall t :: 0 <= t < i ==> w[t] == Schedule(block, t)
    {
      w[i] := Join([block[4 * i + 3], block[4 * i + 2], block[4 * i + 1], block[4 * i]]);
    }
    for i := 16 to 64
      invariant forall t :: 0 <= t < i ==> w[t] == Schedule(block, t)
    {
      var word := NextWord(w[i - 16], w[i - 15], w[i - 7], w[i - 2]);
      w[i] := word;
    }
  }

  /** A word of the schedule from the words 16, 15, 7 and 2 places before it. */
  method NextWord(w16: U32, w15: U32, w7: U32, w2: U32) returns (word: U32)
    ensures word == Add(Add(Add(LowerSigma1(w2), w7), LowerSigma0(w15)), w16)
  {
    var s0 := Xor(Xor(RotateRight(w15, 7), RotateRight(w15, 18)), Shr(w15, 3));
    var s1 := Xor(Xor(RotateRight(w2, 17), RotateRight(w2, 19)), Shr(w2, 10));
    Sigmas(w15, w2);
    SumOrder(w16, s0, w7, s1);
    word := Add(Add(Add(w16, s0), w7), s1);
  }

  /** A rotation is the two shifts of section 3.2. */
  lemma Rotation(x: U32, n: nat)
    requires n <= 32
    ensures RotateRight(x, n) == ROTR(n, x)
  {}

  lemma Sigmas(x: U32, y: U32)
    ensures Xor(Xor(RotateRight(x, 7), RotateRight(x, 18)), Shr(x, 3)) == LowerSigma0(x)
    ensures Xor(Xor(RotateRight(y, 17), RotateRight(y, 19)), Shr(y, 10)) == LowerSigma1(y)
  {
    Rotation(x, 7);
    Rotation(x, 18);
    Rotation(y, 17);
    Rotation(y, 19);
  }

  /** The schedule sum does not depend on the order of its terms. */
  lemma SumOrder(w16: U32, s0: U32, w7: U32, s1: U32)
    ensures Add(Add(Add(w16, s0), w7), s1) == Add(Add(Add(s1, w7), s0), w16)
  {
    AddCommutes(Add(Add(w16, s0), w7), s1);
    AddCommutes(Add(w16, s0), w7);
    AddAssociates(s1, w7, Add(w16, s0));
    AddCommutes(w16, s0);
    AddAssociates(Add(s1, w7), s0, w16);
  }

  lemma RoundSigmas(x: U32, y: U32)
    ensures Xor(Xor(RotateRight(x, 6), RotateRight(x, 11)), RotateRight(x, 25)) == UpperSigma1(x)
    ensures Xor(Xor(RotateRight(y, 2), RotateRight(y, 13)), RotateRight(y, 22)) == UpperSigma0(y)
  {
    Rotation(x, 6);
    Rotation(x, 11);
    Rotation(x, 25);
    Rotation(y, 2);
    Rotation(y, 13);
    Rotation(y, 22);
  }

  /** Runs the 64 rounds on eight variables. */
  method RunRounds(hash: Hash, w: array<U32>, ghost block: Block) returns (r: Registers)
    requires w.Length == 64 && forall t :: 0 <= t < 64 ==> w[t] == Schedule(block, t)
    ensures r == Rounds(Load(hash), block, 64)
  {
    var a, b, c, d := hash[0], hash[1], hash[2], hash[3];
    var e, f, g, h := hash[4], hash[5], hash[6], hash[7];
    for i := 0 to 64
      invariant Registers(a, b, c, d, e, f, g, h) == Rounds(Load(hash), block, i)
    {
      var s1 := Xor(Xor(RotateRight(e, 6), RotateRight(e, 11)), RotateRight(e, 25));
      var ch := Xor(And(e, f), And(Not(e), g));
      var temp1 := Add(Add(Add(Add(h, s1), ch), Word32(K[i])), w[i]);
      var s0 := Xor(Xor(RotateRight(a, 2), RotateRight(a, 13)), RotateRight(a, 22));
      var maj := Xor(Xor(And(a, b), And(a, c)), And(b, c));
      var temp2 := Add(s0, maj);
      RoundSigmas(e, a);
      h := g;
      g := f;
      f := e;
      e := Add(d, temp1);
      d := c;
      c := b;
      b := a;
      a := Add(temp1, temp2);
    }
    r := Registers(a, b, c, d, e, f, g, h);
  }

  /** Compresses one block into the state. */
  method ProcessBlock(state: array<U32>, block: Block)
    requires state.Length == 8
    modifies state
    ensures state[..] == Compress(old(state[..]), block)
  {
    var hash: Hash := state[..];
    var w := MessageSchedule(block);
    var r := RunRounds(hash, w, block);
    AddWords(state, r);
  }

  method AddWords(state: array<U32>, r: Registers)
    requires state.Length == 8
    modifies state
    ensures state[..] == AddBack(r, old(state[..]))
  {
    ghost var hash: Hash := state[..];
    for i := 0 to 8
      invariant forall j :: 0 <= j < i ==> state[j] == AddBack(r, hash)[j]
      invariant forall j :: i <= j < 8 ==> state[j] == hash[j]
    {
      AddCommutes(state[i], Listed(r)[i]);
      state[i] := Add(state[i], Listed(r)[i]);
    }
  }

  /** The bytes the code hashes after the full blocks, as it lays them out in its buffer. */
  function TailBytes(rem: Bytes, length: nat): (r: Bytes)
    requires |rem| < 64
    ensures |r| == if |rem| < 56 then 64 else 128
  {
    var used := if |rem| < 56 then 56 else 120;
    rem + [MARKER] + Zeros(used - 1 - |rem|) + BigEndian(OfNat(8 * length, 64))
  }

  /** Full blocks and tail together are the padded message, whether the tail takes one block
      or two. */
  lemma PaddingIsTail(data: Bytes)
    ensures Padded(data) == data + TailBytes(data[|data| / 64 * 64..], |data|)[|data| % 64..]
    ensures BlocksOf(Padded(data)) == BlocksOf(data[..|data| / 64 * 64])
                                    + BlocksOf(TailBytes(data[|data| / 64 * 64..], |data|))
  {
    var full := |data| / 64 * 64;
    var rem := data[full..];
    assert |rem| == |data| % 64;
    assert ZeroBytes(|data|) == (if |rem| < 56 then 55 else 119) - |rem|;
    assert data == data[..full] + rem;
    assert Padded(data) == data[..full] + TailBytes(rem, |data|);
    BlocksAppend(data[..full], TailBytes(rem, |data|));
  }

  lemma BlocksAppend(a: Bytes, b: Bytes)
    requires |a| % 64 == 0 && |b| % 64 == 0
    ensures BlocksOf(a + b) == BlocksOf(a) + BlocksOf(b)
  {
    var n := |a| / 64;
    assert |a + b| / 64 == n + |b| / 64;
    forall i | 0 <= i < n
      ensures BlocksOf(a + b)[i] == BlocksOf(a)[i]
    {
      assert (a + b)[64 * i..64 * i + 64] == a[64 * i..64 * i + 64];
    }
    forall i | 0 <= i < |b| / 64
      ensures BlocksOf(a + b)[n + i] == BlocksOf(b)[i]
    {
      assert 64 * (n + i) == |a| + 64 * i;
      assert (a + b)[64 * (n + i)..64 * (n + i) + 64] == b[64 * i..64 * i + 64];
    }
  }

  lemma {:induction false} FoldAppend(compress: (Hash, Block) -> Hash, hash: Hash,
                                      a: seq<Block>, b: seq<Block>)
    ensures FoldBlocks(compress, hash, a + b)
         == FoldBlocks(compress, FoldBlocks(compress, hash, a), b)
  {
    if b == [] {
      assert a + b == a;
    } else {
      var n := |b| - 1;
      assert (a + b)[..|a| + n] == a + b[..n];
      FoldAppend(compress, hash, a, b[..n]);
    }
  }

  lemma {:induction false} FoldNext(compress: (Hash, Block) -> Hash, hash: Hash, blocks: seq<Block>, i: nat)
    requires i < |blocks|
    ensures FoldBlocks(compress, hash, blocks[..i + 1])
         == compress(FoldBlocks(compress, hash, blocks[..i]), blocks[i])
  {
    assert blocks[..i + 1][..i] == blocks[..i];
  }

  /** Processes every block of `bytes`. */
  method ProcessBlocks(state: array<U32>, bytes: Bytes)
    requires state.Length == 8 && |bytes| % 64 == 0
    modifies state
    ensures state[..] == HashBlocks(old(state[..]), BlocksOf(bytes))
  {
    var blocks := BlocksOf(bytes);
    for i := 0 to |blocks|
      invariant state[..] == FoldBlocks(Compress, old(state[..]), blocks[..i])
    {
      FoldNext(Compress, old(state[..]), blocks, i);
      ProcessBlock(state, blocks[i]);
    }
    assert blocks[..|blocks|] == blocks;
  }

  /** Fills the 128-byte tail buffer; the first 64 bytes or all of it are to be processed. */
  method FillTail(rem: Bytes, length: nat) returns (tail: Bytes)
    requires |rem| < 64
    ensures |tail| == 128 && tail[..|TailBytes(rem, length)|] == TailBytes(rem, length)
  {
    var bitLen := BigEndian(OfNat(8 * length, 64));
    var buffer := new Byte[128](_ => seq(8, _ => false));
    forall i | 0 <= i < |rem| {
      buffer[i] := rem[i];
    }
    buffer[|rem|] := MARKER;
    var at := if |rem| < 56 then 56 else 120;
    forall i | 0 <= i < 8 {
      buffer[at + i] := bitLen[i];
    }
    tail := buffer[..];
    assert tail[..at + 8] == TailBytes(rem, length);
  }

  /** The digest of every byte string is the one FIPS 180-4 defines. */
  method Hash256(data: Bytes) returns (digest: Bytes)
    ensures digest == Digest(data)
  {
    var state := new U32[8](i requires 0 <= i < 8 => Word32(H0[i]));
    assert state[..] == InitialHash();
    var full := |data| / 64 * 64;
    var rem := data[full..];
    ProcessBlocks(state, data[..full]);
    var tail := FillTail(rem, |data|);
    if |rem| < 56 {
      ProcessBlocks(state, tail[..64]);
    } else {
      ProcessBlocks(state, tail[..128]);
    }
    PaddingIsTail(data);
    FoldAppend(Compress, InitialHash(), BlocksOf(data[..full]), BlocksOf(TailBytes(rem, |data|)));
    digest := WriteWords(state[..]);
  }

  method WriteWords(words: seq<U32>) returns (bytes: Bytes)
    ensures bytes == HashBytes(words)
  {
    bytes := [];
    for i := 0 to |words|
      invariant bytes == HashBytes(words[..i])
    {
      assert words[..i + 1][..i] == words[..i];
      bytes := bytes + BigEndian(words[i]);
    }
    assert words[..|words|] == words;
  }
}
