/** SHA-256 as FIPS 180-4 defines it, over messages of whole bytes. */
module Sha256Standard {
  // A message is a string of bytes.
  newtype byte = x: int | 0 <= x < 256

  type Bytes = seq<byte>

  // Section 3.2: rotation and shift; section 4.1.2: the six logical functions.
  function RotateRight(x: bv32, n: bv32): bv32
    requires 0 < n < 32
  {
    (x >> n) | (x << (32 - n))
  }

  function ShiftRight(x: bv32, n: bv32): bv32
    requires n < 32
  {
    x >> n
  }

  function Xor(x: bv32, y: bv32): bv32 { x ^ y }

  function Xor3(x: bv32, y: bv32, z: bv32): bv32 { Xor(Xor(x, y), z) }

  // Section 3.2: addition modulo 2^32.
  function Sum(x: bv32, y: bv32): bv32 { x + y }

  function Sum5(x: bv32, y: bv32, z: bv32, u: bv32, v: bv32): bv32 { Sum(Sum(Sum(Sum(x, y), z), u), v) }

  function Choice(x: bv32, y: bv32, z: bv32): bv32 { (x & y) ^ (!x & z) }

  function Majority(x: bv32, y: bv32, z: bv32): bv32 { (x & y) ^ (x & z) ^ (y & z) }

  function BigSigma0(x: bv32): bv32 { Xor3(RotateRight(x, 2), RotateRight(x, 13), RotateRight(x, 22)) }

  function BigSigma1(x: bv32): bv32 { Xor3(RotateRight(x, 6), RotateRight(x, 11), RotateRight(x, 25)) }

  function SmallSigma0(x: bv32): bv32 { Xor3(RotateRight(x, 7), RotateRight(x, 18), ShiftRight(x, 3)) }

  function SmallSigma1(x: bv32): bv32 { Xor3(RotateRight(x, 17), RotateRight(x, 19), ShiftRight(x, 10)) }

  newtype word = x: int | 0 <= x < 0x1_0000_0000

  // Section 4.2.2: the round constants, in rows of eight.
  function ConstantRow(r: nat): (row: seq<word>)
    requires r < 8
    ensures |row| == 8
  {
    if r == 0 then [0x428a2f98, 0x71374491, 0xb5c0fbcf, 0xe9b5dba5, 0x3956c25b, 0x59f111f1, 0x923f82a4, 0xab1c5ed5]
    else if r == 1 then [0xd807aa98, 0x12835b01, 0x243185be, 0x550c7dc3, 0x72be5d74, 0x80deb1fe, 0x9bdc06a7, 0xc19bf174]
    else if r == 2 then [0xe49b69c1, 0xefbe4786, 0x0fc19dc6, 0x240ca1cc, 0x2de92c6f, 0x4a7484aa, 0x5cb0a9dc, 0x76f988da]
    else if r == 3 then [0x983e5152, 0xa831c66d, 0xb00327c8, 0xbf597fc7, 0xc6e00bf3, 0xd5a79147, 0x06ca6351, 0x14292967]
    else if r == 4 then [0x27b70a85, 0x2e1b2138, 0x4d2c6dfc, 0x53380d13, 0x650a7354, 0x766a0abb, 0x81c2c92e, 0x92722c85]
    else if r == 5 then [0xa2bfe8a1, 0xa81a664b, 0xc24b8b70, 0xc76c51a3, 0xd192e819, 0xd6990624, 0xf40e3585, 0x106aa070]
    else if r == 6 then [0x19a4c116, 0x1e376c08, 0x2748774c, 0x34b0bcb5, 0x391c0cb3, 0x4ed8aa4a, 0x5b9cca4f, 0x682e6ff3]
    else [0x748f82ee, 0x78a5636f, 0x84c87814, 0x8cc70208, 0x90befffa, 0xa4506ceb, 0xbef9a3f7, 0xc67178f2]
  }

  function K(t: nat): bv32
    requires t < 64
  {
    ConstantRow(t / 8)[t % 8] as bv32
  }

  // Eight words: a hash value, or the working variables of a round.
  datatype Words = Words(a: bv32, b: bv32, c: bv32, d: bv32, e: bv32, f: bv32, g: bv32, h: bv32)

  // Section 5.3.3: the initial hash value.
  function InitialWord(i: nat): word
    requires i < 8
  {
    [0x6a09e667, 0xbb67ae85, 0x3c6ef372, 0xa54ff53a, 0x510e527f, 0x9b05688c, 0x1f83d9ab, 0x5be0cd19][i]
  }

  function IV(): Words {
    Words(InitialWord(0) as bv32, InitialWord(1) as bv32, InitialWord(2) as bv32, InitialWord(3) as bv32,
          InitialWord(4) as bv32, InitialWord(5) as bv32, InitialWord(6) as bv32, InitialWord(7) as bv32)
  }

  // Section 5.2.1: the 32-bit words of a block, the first byte the most significant.
  function BigEndianWord(b0: byte, b1: byte, b2: byte, b3: byte): bv32 {
    ((b0 as bv32) << 24) | ((b1 as bv32) << 16) | ((b2 as bv32) << 8) | (b3 as bv32)
  }

  // Section 6.2.2, step 1: the message schedule.
  function ScheduleWord(w2: bv32, w7: bv32, w15: bv32, w16: bv32): bv32 {
    SmallSigma1(w2) + w7 + SmallSigma0(w15) + w16
  }

  function Schedule(block: Bytes, t: nat): bv32
    requires |block| == 64 && t < 64
  {
    if t < 16 then BigEndianWord(block[4 * t], block[4 * t + 1], block[4 * t + 2], block[4 * t + 3])
    else ScheduleWord(Schedule(block, t - 2), Schedule(block, t - 7), Schedule(block, t - 15), Schedule(block, t - 16))
  }

  // Section 6.2.2, step 3: one round.
  function Round(v: Words, k: bv32, w: bv32): Words {
    var t1 := Sum5(v.h, BigSigma1(v.e), Choice(v.e, v.f, v.g), k, w);
    var t2 := Sum(BigSigma0(v.a), Majority(v.a, v.b, v.c));
    Words(Sum(t1, t2), v.a, v.b, v.c, Sum(v.d, t1), v.e, v.f, v.g)
  }

  function Rounds(v: Words, block: Bytes, t: nat): Words
    requires |block| == 64 && t <= 64
  {
    if t == 0 then v else Round(Rounds(v, block, t - 1), K(t - 1), Schedule(block, t - 1))
  }

  function Added(v: Words, w: Words): Words {
    Words(Sum(v.a, w.a), Sum(v.b, w.b), Sum(v.c, w.c), Sum(v.d, w.d), Sum(v.e, w.e), Sum(v.f, w.f), Sum(v.g, w.g), Sum(v.h, w.h))
  }

  // Section 6.2.2, step 4: the intermediate hash value after one block.
  function Compress(v: Words, block: Bytes): Words
    requires |block| == 64
  {
    Added(v, Rounds(v, block, 64))
  }

  function HashBlocks(v: Words, data: Bytes): Words
    requires |data| % 64 == 0
  {
    if data == [] then v else Compress(HashBlocks(v, data[..|data| - 64]), data[|data| - 64..])
  }

  // Section 5.1.1: how many zero bytes follow the 0x80 byte.
  function PadZeros(length: nat): nat {
    (55 - length) % 64
  }

  function Zeros(k: nat): (z: Bytes)
    ensures |z| == k
  {
    if k == 0 then [] else Zeros(k - 1) + [0]
  }

  function LowByte(n: nat): byte {
    (n % 256) as byte
  }

  // The count least significant bytes of n, the most significant first.
  function BigEndian(n: nat, count: nat): (b: Bytes)
    ensures |b| == count
  {
    if count == 0 then [] else BigEndian(n / 256, count - 1) + [LowByte(n)]
  }

  // The padded message, its length field given in bits.
  function PaddedWith(message: Bytes, bits: nat): Bytes {
    message + [0x80] + Zeros(PadZeros(|message|)) + BigEndian(bits, 8)
  }

  const TWO_64: nat := 0x1_0000_0000_0000_0000

  // Section 5.1.1, for messages below 2^64 bits.
  function Padded(message: Bytes): Bytes {
    PaddedWith(message, 8 * |message|)
  }

  lemma PaddedFillsBlocks(message: Bytes, bits: nat)
    ensures |PaddedWith(message, bits)| % 64 == 0
  {
  }

  // Section 6.2.2: the digest.
  function Digest(message: Bytes): Words {
    PaddedFillsBlocks(message, 8 * |message|);
    HashBlocks(IV(), Padded(message))
  }

  /** Section 5.1.1: the zeros are the fewest that leave the length field at the end of a block. */
  lemma FewestZeros(length: nat, k: nat)
    ensures (length + 1 + PadZeros(length)) % 64 == 56
    ensures (length + 1 + k) % 64 == 56 ==> PadZeros(length) <= k
  {
    assert (length + 1 + k) % 64 == 56 ==> k % 64 == PadZeros(length);
  }

  function Pow256(i: nat): nat {
    if i == 0 then 1 else 256 * Pow256(i - 1)
  }

  ghost function Value(b: Bytes): nat {
    if b == [] then 0 else 256 * Value(b[..|b| - 1]) + b[|b| - 1] as nat
  }

  /** The length field holds the number it was given, when that fits its width. */
  lemma {:induction false} BigEndianValue(n: nat, count: nat)
    requires n < Pow256(count)
    ensures Value(BigEndian(n, count)) == n
  {
    if count > 0 {
      assert BigEndian(n, count)[..count - 1] == BigEndian(n / 256, count - 1);
      BigEndianValue(n / 256, count - 1);
    }
  }

  lemma FieldWidth()
    ensures Pow256(8) == TWO_64
  {
    assert Pow256(2) == 65536;
    assert Pow256(4) == 256 * Pow256(3) == 65536 * 65536;
    assert Pow256(6) == 256 * Pow256(5) == 65536 * 65536 * 65536;
  }

  /** Different messages have different paddings. */
  lemma PaddingInjective(m: Bytes, m': Bytes)
    requires 8 * |m| < TWO_64 && 8 * |m'| < TWO_64 && Padded(m) == Padded(m')
    ensures m == m'
  {
    hide Padded, BigEndian, Pow256;
    PaddedParts(m);
    PaddedParts(m');
    FieldWidth();
    BigEndianValue(8 * |m|, 8);
    BigEndianValue(8 * |m'|, 8);
  }

  lemma PaddedParts(m: Bytes)
    ensures var p := Padded(m); |p| >= |m| + 8 && p[..|m|] == m && p[|p| - 8..] == BigEndian(8 * |m|, 8)
  {
  }

  /** Hashing blocks in two goes is hashing them in one. */
  lemma {:induction false} HashBlocksSplit(v: Words, a: Bytes, b: Bytes)
    requires |a| % 64 == 0 && |b| % 64 == 0
    ensures (|a + b|) % 64 == 0 && HashBlocks(v, a + b) == HashBlocks(HashBlocks(v, a), b)
  {
    hide Compress;
    if b == [] {
      assert a + b == a;
    } else {
      HashBlocksSplit(v, a, b[..|b| - 64]);
      assert (a + b)[..|a + b| - 64] == a + b[..|b| - 64];
      assert (a + b)[|a + b| - 64..] == b[|b| - 64..];
    }
  }
}

/** What the constants are, from the prime numbers; and what the logical functions do to each bit. */
module Sha256Meaning {
  import opened Sha256Standard

  // The first sixty-four prime numbers, in rows of eight.
  function PrimeRow(r: nat): (row: seq<nat>)
    requires r < 8
    ensures |row| == 8
  {
    if r == 0 then [2, 3, 5, 7, 11, 13, 17, 19]
    else if r == 1 then [23, 29, 31, 37, 41, 43, 47, 53]
    else if r == 2 then [59, 61, 67, 71, 73, 79, 83, 89]
    else if r == 3 then [97, 101, 103, 107, 109, 113, 127, 131]
    else if r == 4 then [137, 139, 149, 151, 157, 163, 167, 173]
    else if r == 5 then [179, 181, 191, 193, 197, 199, 211, 223]
    else if r == 6 then [227, 229, 233, 239, 241, 251, 257, 263]
    else [269, 271, 277, 281, 283, 293, 307, 311]
  }

  // The whole part of a cube root, and of a square root, of a prime listed.
  function CubeRootOf(p: nat): nat {
    if p < 8 then 1 else if p < 27 then 2 else if p < 64 then 3 else if p < 125 then 4 else if p < 216 then 5 else 6
  }

  function SquareRootOf(p: nat): nat {
    if p < 4 then 1 else if p < 9 then 2 else if p < 16 then 3 else 4
  }

  // The first thirty-two bits of the fractional part of a cube root, and of a square root.
  ghost predicate FractionOfCubeRoot(p: nat, fraction: nat) {
    var n := CubeRootOf(p) * 0x1_0000_0000 + fraction;
    && n * n * n <= p * 0x1_0000_0000_0000_0000_0000_0000 < (n + 1) * (n + 1) * (n + 1)
  }

  ghost predicate FractionOfSquareRoot(p: nat, fraction: nat) {
    var n := SquareRootOf(p) * 0x1_0000_0000 + fraction;
    && n * n <= p * 0x1_0000_0000_0000_0000 < (n + 1) * (n + 1)
  }

  ghost predicate AreRoundConstants(primes: seq<nat>, row: seq<word>)
    requires |primes| == 8 && |row| == 8
  {
    forall c | 0 <= c < 8 :: FractionOfCubeRoot(primes[c], row[c] as nat)
  }

  lemma RowOf(primes: seq<nat>, row: seq<word>)
    requires |primes| == 8 && |row| == 8
    requires FractionOfCubeRoot(primes[0], row[0] as nat) && FractionOfCubeRoot(primes[1], row[1] as nat)
    requires FractionOfCubeRoot(primes[2], row[2] as nat) && FractionOfCubeRoot(primes[3], row[3] as nat)
    requires FractionOfCubeRoot(primes[4], row[4] as nat) && FractionOfCubeRoot(primes[5], row[5] as nat)
    requires FractionOfCubeRoot(primes[6], row[6] as nat) && FractionOfCubeRoot(primes[7], row[7] as nat)
    ensures AreRoundConstants(primes, row)
  {
    hide FractionOfCubeRoot;
  }

  lemma Row0()
    ensures AreRoundConstants(PrimeRow(0), ConstantRow(0))
  {
    hide AreRoundConstants;
    RowOf(PrimeRow(0), ConstantRow(0));
  }

  lemma Row1()
    ensures AreRoundConstants(PrimeRow(1), ConstantRow(1))
  {
    hide AreRoundConstants;
    RowOf(PrimeRow(1), ConstantRow(1));
  }

  lemma Row2()
    ensures AreRoundConstants(PrimeRow(2), ConstantRow(2))
  {
    hide AreRoundConstants;
    RowOf(PrimeRow(2), ConstantRow(2));
  }

  lemma Row3()
    ensures AreRoundConstants(PrimeRow(3), ConstantRow(3))
  {
    hide AreRoundConstants;
    RowOf(PrimeRow(3), ConstantRow(3));
  }

  lemma Row4()
    ensures AreRoundConstants(PrimeRow(4), ConstantRow(4))
  {
    hide AreRoundConstants;
    RowOf(PrimeRow(4), ConstantRow(4));
  }

  lemma Row5()
    ensures AreRoundConstants(PrimeRow(5), ConstantRow(5))
  {
    hide AreRoundConstants;
    RowOf(PrimeRow(5), ConstantRow(5));
  }

  lemma Row6()
    ensures AreRoundConstants(PrimeRow(6), ConstantRow(6))
  {
    hide AreRoundConstants;
    RowOf(PrimeRow(6), ConstantRow(6));
  }

  lemma Row7()
    ensures AreRoundConstants(PrimeRow(7), ConstantRow(7))
  {
    hide AreRoundConstants;
    RowOf(PrimeRow(7), ConstantRow(7));
  }

  /** Sections 4.2.2 and 5.3.3: the constants are the fractional parts of the primes' cube roots,
      and the initial hash value those of the first eight primes' square roots. */
  lemma ConstantsAreRoots()
    ensures forall r | 0 <= r < 8 :: AreRoundConstants(PrimeRow(r), ConstantRow(r))
    ensures forall i | 0 <= i < 8 :: IsInitialWord(i)
  {
    hide AreRoundConstants, IsInitialWord, PrimeRow, ConstantRow, InitialWord;
    Row0(); Row1(); Row2(); Row3();
    Row4(); Row5(); Row6(); Row7();
    InitialRoots();
  }

  ghost predicate IsInitialWord(i: nat)
    requires i < 8
  {
    FractionOfSquareRoot(PrimeRow(0)[i], InitialWord(i) as nat)
  }

  lemma Initial(i: nat)
    requires i < 8 && FractionOfSquareRoot(PrimeRow(0)[i], InitialWord(i) as nat)
    ensures IsInitialWord(i)
  {
  }

  /** Round t adds the t-th constant, and the hash value starts from the initial words in order. */
  lemma RoundConstantIs(t: nat)
    requires t < 64
    ensures K(t) == ConstantRow(t / 8)[t % 8] as bv32
  {
    hide ConstantRow;
  }

  lemma InitialIs()
    ensures IV().a == InitialWord(0) as bv32 && IV().b == InitialWord(1) as bv32
    ensures IV().c == InitialWord(2) as bv32 && IV().d == InitialWord(3) as bv32
    ensures IV().e == InitialWord(4) as bv32 && IV().f == InitialWord(5) as bv32
    ensures IV().g == InitialWord(6) as bv32 && IV().h == InitialWord(7) as bv32
  {
    hide InitialWord;
  }

  lemma InitialRoots()
    ensures forall i | 0 <= i < 8 :: IsInitialWord(i)
  {
    hide IsInitialWord;
    Initial(0); Initial(1); Initial(2); Initial(3);
    Initial(4); Initial(5); Initial(6); Initial(7);
  }

  /** Section 3.2: adding one more goes one further around the words. */
  lemma SumCounts(x: bv32, y: bv32)
    ensures Sum(x, 0) == x && Sum(x, y + 1) == Sum(x, y) + 1
  {
  }

  lemma SmallByte(b: byte)
    ensures b as bv32 <= 0xff
  {
  }

  lemma Shifts(w0: bv32, w1: bv32, w2: bv32, w3: bv32)
    requires w0 <= 0xff && w1 <= 0xff && w2 <= 0xff && w3 <= 0xff
    ensures var w := (w0 << 24) | (w1 << 16) | (w2 << 8) | w3;
            w >> 24 == w0 && (w >> 16) & 0xff == w1 && (w >> 8) & 0xff == w2 && w & 0xff == w3
  {
  }

  /** Section 3.1: a word's bytes, the most significant first. */
  lemma WordBytes(b0: byte, b1: byte, b2: byte, b3: byte)
    ensures var w := BigEndianWord(b0, b1, b2, b3);
            && w >> 24 == b0 as bv32 && (w >> 16) & 0xff == b1 as bv32
            && (w >> 8) & 0xff == b2 as bv32 && w & 0xff == b3 as bv32
  {
    SmallByte(b0);
    SmallByte(b1);
    SmallByte(b2);
    SmallByte(b3);
    Shifts(b0 as bv32, b1 as bv32, b2 as bv32, b3 as bv32);
  }

  // Bit i, counted around the word.
  ghost predicate Bit(x: bv32, i: bv32) {
    (x >> (i & 31)) & 1 == 1
  }

  ghost function Above(i: bv32, n: bv32): bv32 {
    i + n
  }

  lemma Turned(x: bv32, n: bv32, i: bv32)
    requires 0 < n < 32
    ensures (((x >> n) | (x << (32 - n))) >> (i & 31)) & 1 == 1 <==> (x >> ((i + n) & 31)) & 1 == 1
  {
  }

  lemma Shifted(x: bv32, n: bv32, i: bv32)
    requires n < 32 && i < 32
    ensures ((x >> n) >> (i & 31)) & 1 == 1 <==> i + n < 32 && (x >> ((i + n) & 31)) & 1 == 1
  {
  }

  lemma Crossed(x: bv32, y: bv32, s: bv32)
    requires s < 32
    ensures ((x ^ y) >> s) & 1 == 1 <==> ((x >> s) & 1 == 1) != ((y >> s) & 1 == 1)
  {
  }

  lemma RotatedBit(x: bv32, n: bv32, i: bv32)
    requires 0 < n < 32
    ensures Bit(RotateRight(x, n), i) == Bit(x, Above(i, n))
  {
    Turned(x, n, i);
  }

  lemma ShiftedBit(x: bv32, n: bv32, i: bv32)
    requires n < 32 && i < 32
    ensures Bit(ShiftRight(x, n), i) == (i + n < 32 && Bit(x, Above(i, n)))
  {
    Shifted(x, n, i);
  }

  lemma XorBit(x: bv32, y: bv32, i: bv32)
    ensures Bit(Xor(x, y), i) == (Bit(x, i) != Bit(y, i))
  {
    hide Bit;
    CrossedBit(x, y, Xor(x, y), i);
  }

  lemma CrossedBit(x: bv32, y: bv32, z: bv32, i: bv32)
    requires z == x ^ y
    ensures Bit(z, i) == (Bit(x, i) != Bit(y, i))
  {
    Crossed(x, y, i & 31);
  }

  lemma Xor3Bit(x: bv32, y: bv32, z: bv32, i: bv32)
    ensures Bit(Xor3(x, y, z), i) == ((Bit(x, i) != Bit(y, i)) != Bit(z, i))
  {
    hide Bit, Xor;
    XorBit(x, y, i);
    XorBit(Xor(x, y), z, i);
  }

  /** Section 4.1.2, bit by bit: each sigma's bit is odd parity of three bits further around. */
  lemma BigSigmaBits(x: bv32, i: bv32)
    ensures Bit(BigSigma0(x), i) == ((Bit(x, Above(i, 2)) != Bit(x, Above(i, 13))) != Bit(x, Above(i, 22)))
    ensures Bit(BigSigma1(x), i) == ((Bit(x, Above(i, 6)) != Bit(x, Above(i, 11))) != Bit(x, Above(i, 25)))
  {
    hide Bit, RotateRight, Above, Xor3;
    forall n: bv32 | 0 < n < 32 ensures Bit(RotateRight(x, n), i) == Bit(x, Above(i, n)) { RotatedBit(x, n, i); }
    Xor3Bit(RotateRight(x, 2), RotateRight(x, 13), RotateRight(x, 22), i);
    Xor3Bit(RotateRight(x, 6), RotateRight(x, 11), RotateRight(x, 25), i);
  }

  /** The small sigmas drop the bits a shift drops. */
  lemma SmallSigmaBits(x: bv32, i: bv32)
    requires i < 32
    ensures Bit(SmallSigma0(x), i) == ((Bit(x, Above(i, 7)) != Bit(x, Above(i, 18))) != (i < 29 && Bit(x, Above(i, 3))))
    ensures Bit(SmallSigma1(x), i) == ((Bit(x, Above(i, 17)) != Bit(x, Above(i, 19))) != (i < 22 && Bit(x, Above(i, 10))))
  {
    hide Bit, RotateRight, Above, Xor3, ShiftRight;
    forall n: bv32 | 0 < n < 32 ensures Bit(RotateRight(x, n), i) == Bit(x, Above(i, n)) { RotatedBit(x, n, i); }
    ShiftedBit(x, 3, i);
    ShiftedBit(x, 10, i);
    Xor3Bit(RotateRight(x, 7), RotateRight(x, 18), ShiftRight(x, 3), i);
    Xor3Bit(RotateRight(x, 17), RotateRight(x, 19), ShiftRight(x, 10), i);
  }

  lemma Chosen(x: bv32, y: bv32, z: bv32)
    ensures var r := (x & y) ^ (!x & z); r & x == y & x && r & !x == z & !x
  {
  }

  lemma Agreed(x: bv32, y: bv32, z: bv32)
    ensures (x & y) ^ (x & z) ^ (y & z) == ((x ^ y) & z) ^ (!(x ^ y) & x)
  {
  }

  /** Choice is y where x has ones and z where it has zeros. */
  lemma ChoiceWords(x: bv32, y: bv32, z: bv32)
    ensures Choice(x, y, z) & x == y & x && Choice(x, y, z) & !x == z & !x
  {
    Chosen(x, y, z);
  }

  /** Where two words agree Majority is what they agree on, and elsewhere the third decides. */
  lemma MajorityWords(x: bv32, y: bv32, z: bv32)
    ensures Majority(x, y, z) == Choice(x ^ y, z, x)
  {
    Agreed(x, y, z);
  }
}

/** apps/plan/ptp_bundle.cpp: the streaming `Sha256` and its use on the chunks of a file. */
module Sha256Stream {
  import opened Sha256Standard

  // Two hexadecimal digits to a byte, eight to a word, the most significant first.
  function Hex(n: bv4): char {
    "0123456789abcdef"[n as int]
  }

  function Nibble(w: bv32, shift: nat): bv4
    requires shift < 32
  {
    ((w >> shift) & 0xf) as bv4
  }

  function HexWord(w: bv32): string {
    [Hex(Nibble(w, 28)), Hex(Nibble(w, 24)), Hex(Nibble(w, 20)), Hex(Nibble(w, 16)),
     Hex(Nibble(w, 12)), Hex(Nibble(w, 8)), Hex(Nibble(w, 4)), Hex(Nibble(w, 0))]
  }

  function HexWords(w: seq<bv32>): string {
    if w == [] then "" else HexWords(w[..|w| - 1]) + HexWord(w[|w| - 1])
  }

  function List(v: Words): seq<bv32> {
    [v.a, v.b, v.c, v.d, v.e, v.f, v.g, v.h]
  }

  function HexDigest(v: Words): string {
    HexWords(List(v))
  }

  // The hash value once all whole blocks of data are in.
  ghost function HashOf(data: Bytes): Words
    requires |data| % 64 == 0
  {
    HashBlocks(IV(), data)
  }

  lemma OneMoreBlock(data: Bytes, block: Bytes)
    requires |data| % 64 == 0 && |block| == 64
    ensures HashOf(data + block) == Compress(HashOf(data), block)
  {
    hide Compress;
    assert (data + block)[..|data|] == data && (data + block)[|data|..] == block;
  }

  // The schedule's recurrence, summed in the program's order.
  function NextWord(w16: bv32, w15: bv32, w7: bv32, w2: bv32): bv32 {
    w16 + SmallSigma0(w15) + w7 + SmallSigma1(w2)
  }

  lemma SumOrder(a: bv32, b: bv32, c: bv32, d: bv32)
    ensures a + b + c + d == d + c + b + a
  {
  }

  lemma NextWordScheduled(w16: bv32, w15: bv32, w7: bv32, w2: bv32)
    ensures NextWord(w16, w15, w7, w2) == ScheduleWord(w2, w7, w15, w16)
  {
    hide SmallSigma0, SmallSigma1;
    SumOrder(w16, SmallSigma0(w15), w7, SmallSigma1(w2));
  }

  lemma ScheduleUnfolds(block: Bytes, t: nat)
    requires |block| == 64 && 16 <= t < 64
    ensures Schedule(block, t)
         == ScheduleWord(Schedule(block, t - 2), Schedule(block, t - 7), Schedule(block, t - 15), Schedule(block, t - 16))
  {
  }

  // The first sixteen words of the schedule.
  method Load(block: array<byte>) returns (words: array<bv32>)
    requires block.Length == 64
    ensures fresh(words) && words.Length == 64
    ensures forall t | 0 <= t < 16 :: words[t] == Schedule(block[..], t)
  {
    hide BigEndianWord, ScheduleWord;
    words := new bv32[64](_ => 0);
    var i := 0;
    while i < 16
      invariant 0 <= i <= 16 && forall t | 0 <= t < i :: words[t] == Schedule(block[..], t)
    {
      words[i] := BigEndianWord(block[4 * i], block[4 * i + 1], block[4 * i + 2], block[4 * i + 3]);
      i := i + 1;
    }
  }

  // The message schedule of a block, in a fresh array.
  method Expand(block: array<byte>) returns (words: array<bv32>)
    requires block.Length == 64
    ensures fresh(words) && words.Length == 64
    ensures forall t | 0 <= t < 64 :: words[t] == Schedule(block[..], t)
  {
    hide Schedule, NextWord, ScheduleWord;
    words := Load(block);
    var i := 16;
    while i < 64
      invariant 16 <= i <= 64 && forall t | 0 <= t < i :: words[t] == Schedule(block[..], t)
    {
      NextWordScheduled(words[i - 16], words[i - 15], words[i - 7], words[i - 2]);
      ScheduleUnfolds(block[..], i);
      words[i] := NextWord(words[i - 16], words[i - 15], words[i - 7], words[i - 2]);
      i := i + 1;
    }
  }

  // n shifted right by i bytes.
  function Shifted(n: nat, i: nat): nat {
    if i == 0 then n else Shifted(n / 256, i - 1)
  }

  lemma {:induction false} BigEndianAt(n: nat, count: nat, i: nat)
    requires i < count
    ensures BigEndian(n, count)[count - 1 - i] == LowByte(Shifted(n, i))
  {
    if i > 0 { BigEndianAt(n / 256, count - 1, i - 1); }
  }

  // A 64-bit unsigned counter.
  function Wrap(n: nat): nat {
    n % TWO_64
  }

  lemma WrapAdd(a: nat, b: nat)
    ensures Wrap(Wrap(a) + b) == Wrap(a + b)
  {
  }

  lemma WrapBits(a: nat)
    ensures Wrap(8 * Wrap(a)) == Wrap(8 * a)
  {
  }

  lemma WrapFits(a: nat)
    ensures a < TWO_64 ==> Wrap(a) == a
  {
  }

  lemma NoZeros()
    ensures Zeros(0) == []
  {
  }

  lemma {:induction false} ZerosJoin(a: nat, b: nat)
    ensures Zeros(a) + Zeros(b) == Zeros(a + b)
  {
    if b > 0 { ZerosJoin(a, b - 1); }
  }

  // What the program computes: the length field is the bit count modulo 2^64.
  ghost function StreamDigest(message: Bytes): Words {
    PaddedFillsBlocks(message, Wrap(8 * |message|));
    HashOf(PaddedWith(message, Wrap(8 * |message|)))
  }

  lemma StreamDigestIs(message: Bytes)
    ensures var data := PaddedWith(message, Wrap(8 * |message|)); |data| % 64 == 0 && StreamDigest(message) == HashOf(data)
    ensures |message| < 0x2000_0000_0000_0000 ==> StreamDigest(message) == Digest(message)
  {
    hide HashBlocks, PaddedWith;
    PaddedFillsBlocks(message, Wrap(8 * |message|));
    WrapFits(8 * |message|);
  }

  lemma FedIsPadded(message: Bytes, bits: nat, zeros: nat)
    requires zeros == (if (|message| + 1) % 64 > 56 || (|message| + 1) % 64 == 0 then 120 else 56) - (|message| % 64 + 1)
    ensures message + [0x80] + Zeros(zeros) + BigEndian(bits, 8) == PaddedWith(message, bits)
  {
    hide Zeros, BigEndian;
  }

  class Sha256 {
    var state: Words
    const block: array<byte>
    var blockSize: nat
    var total: nat
    // The whole blocks already in the state.
    ghost var hashed: Bytes

    ghost predicate Holds()
      reads this, block
    {
      block.Length == 64 && blockSize <= 64 && |hashed| % 64 == 0 && state == HashOf(hashed)
    }

    // Every byte put in so far.
    ghost function Fed(): Bytes
      requires Holds()
      reads this, block
    {
      hashed + block[..blockSize]
    }

    ghost predicate Valid()
      reads this, block
    {
      Holds() && blockSize < 64 && total == Wrap(|Fed()|)
    }

    constructor ()
      ensures Valid() && Fed() == [] && fresh(block)
    {
      state := IV();
      block := new byte[64](_ => 0);
      blockSize, total, hashed := 0, 0, [];
    }

    // One full block goes into the state.
    method Transform()
      requires Holds() && blockSize == 64
      modifies this`state, this`hashed
      ensures hashed == old(Fed()) && |hashed| % 64 == 0 && state == HashOf(hashed)
    {
      hide BigSigma0, BigSigma1, Choice, Majority, Sum, Sum5, K, Schedule, HashOf;
      var words := Expand(block);
      var a, b, c, d, e, f, g, h := state.a, state.b, state.c, state.d, state.e, state.f, state.g, state.h;
      var i := 0;
      while i < 64
        invariant 0 <= i <= 64 && Words(a, b, c, d, e, f, g, h) == Rounds(state, block[..], i)
      {
        var sum1, choice := BigSigma1(e), Choice(e, f, g);
        var temp1 := Sum5(h, sum1, choice, K(i), words[i]);
        var sum0, majority := BigSigma0(a), Majority(a, b, c);
        var temp2 := Sum(sum0, majority);
        h := g;
        g := f;
        f := e;
        e := Sum(d, temp1);
        d := c;
        c := b;
        b := a;
        a := Sum(temp1, temp2);
        i := i + 1;
      }
      OneMoreBlock(hashed, block[..]);
      state := Words(Sum(state.a, a), Sum(state.b, b), Sum(state.c, c), Sum(state.d, d),
                     Sum(state.e, e), Sum(state.f, f), Sum(state.g, g), Sum(state.h, h));
      hashed := hashed + block[..];
    }

    // A full buffer is hashed and emptied.
    method Flush()
      requires Holds() && blockSize == 64
      modifies this`blockSize, this`state, this`hashed
      ensures Holds() && blockSize == 0 && Fed() == old(Fed())
    {
      hide HashOf;
      Transform();
      blockSize := 0;
      assert block[..0] == [];
    }

    method Put(value: byte)
      requires Holds() && blockSize < 64
      modifies this`blockSize, block
      ensures Holds() && Fed() == old(Fed()) + [value] && blockSize == old(blockSize) + 1
    {
      hide HashOf;
      block[blockSize] := value;
      assert block[..blockSize + 1] == old(block[..blockSize]) + [value];
      blockSize := blockSize + 1;
    }

    // memcpy of data[from..from + count] to the end of the buffer.
    method Fill(data: Bytes, from: nat, count: nat)
      requires Holds() && from + count <= |data| && blockSize + count <= 64
      modifies this`blockSize, block
      ensures Holds() && Fed() == old(Fed()) + data[from..from + count] && blockSize == old(blockSize) + count
    {
      hide HashOf;
      forall k | 0 <= k < count { block[blockSize + k] := data[from + k]; }
      blockSize := blockSize + count;
    }

    method Update(data: Bytes)
      requires Valid()
      modifies this, block
      ensures Valid() && Fed() == old(Fed()) + data
    {
      hide HashOf, Wrap;
      WrapAdd(|Fed()|, |data|);
      total := Wrap(total + |data|);
      var done := 0;
      while done < |data|
        invariant done <= |data| && Holds() && blockSize < 64 && Fed() == old(Fed()) + data[..done]
        invariant total == Wrap(old(total) + |data|)
      {
        var count := if |data| - done < 64 - blockSize then |data| - done else 64 - blockSize;
        Fill(data, done, count);
        assert data[..done] + data[done..done + count] == data[..done + count];
        done := done + count;
        if blockSize == 64 { Flush(); }
      }
      assert data[..done] == data;
    }

    // Zero bytes up to the given place in the buffer.
    method PutZeros(to: nat)
      requires Holds() && blockSize <= to <= 64
      modifies this`blockSize, block
      ensures Holds() && blockSize == to && Fed() == old(Fed()) + Zeros(to - old(blockSize))
    {
      hide HashOf;
      while blockSize < to
        invariant blockSize <= to && old(blockSize) <= blockSize && Holds()
        invariant Fed() == old(Fed()) + Zeros(blockSize - old(blockSize))
      {
        Put(0);
      }
    }

    // The length field, at the end of the buffer.
    method PutLength(bits: nat)
      requires Holds() && blockSize == 56
      modifies this`blockSize, block
      ensures Holds() && blockSize == 64 && Fed() == old(Fed()) + BigEndian(bits, 8)
    {
      hide HashOf;
      var i := 7;
      while i >= 0
        invariant -1 <= i <= 7 && Holds() && blockSize == 63 - i
        invariant Fed() == old(Fed()) + BigEndian(bits, 8)[..7 - i]
      {
        BigEndianAt(bits, 8, i);
        Put(LowByte(Shifted(bits, i)));
        i := i - 1;
      }
    }

    // Zeros up to the place of the length field, over a block boundary if need be.
    method PutPadding() returns (ghost zeros: nat)
      requires Holds()
      modifies this`blockSize, this`state, this`hashed, block
      ensures Holds() && blockSize == 56 && Fed() == old(Fed()) + Zeros(zeros)
      ensures zeros == (if old(blockSize) > 56 then 120 else 56) - old(blockSize)
    {
      hide HashOf, Zeros;
      zeros := 0;
      NoZeros();
      if blockSize > 56 {
        zeros := 64 - blockSize;
        PutZeros(64);
        Flush();
      }
      ZerosJoin(zeros, 56 - blockSize);
      zeros := zeros + 56 - blockSize;
      PutZeros(56);
    }

    // The padding and the length go in, and the last block is hashed.
    method Close(bits: nat)
      requires Holds() && blockSize < 64
      modifies this`blockSize, this`state, this`hashed, block
      ensures |hashed| % 64 == 0 && hashed == PaddedWith(old(Fed()), bits) && state == HashOf(hashed)
    {
      hide Zeros, BigEndian, HashOf, PaddedWith;
      ghost var message := Fed();
      Put(0x80);
      ghost var zeros := PutPadding();
      PutLength(bits);
      FedIsPadded(message, bits, zeros);
      Transform();
    }

    /** The digest of everything fed, in hexadecimal: the length field counts its bits modulo
        2^64, so below 2^61 bytes it is the standard's digest. */
    method Finish() returns (digest: string)
      requires Valid()
      modifies this, block
      ensures digest == HexDigest(StreamDigest(old(Fed())))
      ensures |old(Fed())| < 0x2000_0000_0000_0000 ==> digest == HexDigest(Digest(old(Fed())))
    {
      hide HexDigest, Wrap, HashOf, StreamDigest, Digest, PaddedWith;
      ghost var message := Fed();
      WrapBits(|message|);
      StreamDigestIs(message);
      Close(Wrap(total * 8));
      digest := Render(state);
    }
  }

  // The words written one after the other.
  method Render(v: Words) returns (digest: string)
    ensures digest == HexDigest(v)
  {
    hide HexWord;
    digest := "";
    var words, i := List(v), 0;
    while i < 8
      invariant 0 <= i <= 8 && digest == HexWords(words[..i])
    {
      digest := digest + HexWord(words[i]);
      assert words[..i + 1][..i] == words[..i];
      i := i + 1;
    }
    assert words[..8] == words;
  }

  function Flatten(chunks: seq<Bytes>): Bytes {
    if chunks == [] then [] else Flatten(chunks[..|chunks| - 1]) + chunks[|chunks| - 1]
  }

  /** A file read in chunks, whatever their sizes, hashes to the digest of its bytes. */
  method HashChunks(chunks: seq<Bytes>) returns (digest: string)
    ensures digest == HexDigest(StreamDigest(Flatten(chunks)))
    ensures |Flatten(chunks)| < 0x2000_0000_0000_0000 ==> digest == HexDigest(Digest(Flatten(chunks)))
  {
    hide HexDigest, Digest, HashOf, StreamDigest;
    var hash := new Sha256();
    var i := 0;
    while i < |chunks|
      invariant 0 <= i <= |chunks| && hash.Valid() && fresh(hash) && fresh(hash.block) && hash.Fed() == Flatten(chunks[..i])
    {
      hash.Update(chunks[i]);
      assert chunks[..i + 1][..i] == chunks[..i];
      i := i + 1;
    }
    assert chunks[..i] == chunks;
    digest := hash.Finish();
  }

  lemma HexInjective(m: bv4, n: bv4)
    requires Hex(m) == Hex(n)
    ensures m == n
  {
  }

  lemma NibblesDetermine(v: bv32, w: bv32)
    requires Nibble(v, 28) == Nibble(w, 28) && Nibble(v, 24) == Nibble(w, 24) && Nibble(v, 20) == Nibble(w, 20)
    requires Nibble(v, 16) == Nibble(w, 16) && Nibble(v, 12) == Nibble(w, 12) && Nibble(v, 8) == Nibble(w, 8)
    requires Nibble(v, 4) == Nibble(w, 4) && Nibble(v, 0) == Nibble(w, 0)
    ensures v == w
  {
  }

  lemma WordInjective(v: bv32, w: bv32)
    requires HexWord(v) == HexWord(w)
    ensures v == w
  {
    hide Hex, Nibble;
    var x, y := HexWord(v), HexWord(w);
    assert x[0] == y[0] && x[1] == y[1] && x[2] == y[2] && x[3] == y[3];
    assert x[4] == y[4] && x[5] == y[5] && x[6] == y[6] && x[7] == y[7];
    HexInjective(Nibble(v, 28), Nibble(w, 28));
    HexInjective(Nibble(v, 24), Nibble(w, 24));
    HexInjective(Nibble(v, 20), Nibble(w, 20));
    HexInjective(Nibble(v, 16), Nibble(w, 16));
    HexInjective(Nibble(v, 12), Nibble(w, 12));
    HexInjective(Nibble(v, 8), Nibble(w, 8));
    HexInjective(Nibble(v, 4), Nibble(w, 4));
    HexInjective(Nibble(v, 0), Nibble(w, 0));
    NibblesDetermine(v, w);
  }

  /** Equal hexadecimal digests mean equal hash values. */
  lemma {:induction false} HexDigestInjective(v: seq<bv32>, w: seq<bv32>)
    requires |v| == |w| && HexWords(v) == HexWords(w)
    ensures v == w
  {
    hide HexWord;
    if v != [] {
      var n := |v| - 1;
      HexLength(v[..n]);
      HexLength(w[..n]);
      assert HexWords(v)[..8 * n] == HexWords(v[..n]) && HexWords(w)[..8 * n] == HexWords(w[..n]);
      assert HexWords(v)[8 * n..] == HexWord(v[n]) && HexWords(w)[8 * n..] == HexWord(w[n]);
      HexDigestInjective(v[..n], w[..n]);
      WordInjective(v[n], w[n]);
      assert v == v[..n] + [v[n]] && w == w[..n] + [w[n]];
    }
  }

  lemma {:induction false} HexLength(v: seq<bv32>)
    ensures |HexWords(v)| == 8 * |v|
  {
    if v != [] { HexLength(v[..|v| - 1]); }
  }
}
