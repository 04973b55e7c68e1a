/** The reference: the message digest as RFC 1321 defines it. */
module Rfc1321 {
  /** The four-word buffer A, B, C, D of section 3.3. */
  datatype Digest = Digest(a: bv32, b: bv32, c: bv32, d: bv32)

  const INITIAL := Digest(0x67452301, 0xefcdab89, 0x98badcfe, 0x10325476)

  // ----- section 3.4: the auxiliary functions and the 64 operations of a block

  function F(x: bv32, y: bv32, z: bv32): bv32 { (x & y) | (!x & z) }

  function G(x: bv32, y: bv32, z: bv32): bv32 { (x & z) | (y & !z) }

  function H(x: bv32, y: bv32, z: bv32): bv32 { x ^ y ^ z }

  function I(x: bv32, y: bv32, z: bv32): bv32 { y ^ (x | !z) }

  /** T[i + 1], the integer part of 2^32 * abs(sin(i + 1)). */
  function T(i: nat): bv32 {
    if i < 4 then (if i == 0 then 0xd76aa478 else if i == 1 then 0xe8c7b756 else if i == 2 then 0x242070db else 0xc1bdceee)
    else if i < 8 then (if i == 4 then 0xf57c0faf else if i == 5 then 0x4787c62a else if i == 6 then 0xa8304613 else 0xfd469501)
    else if i < 12 then (if i == 8 then 0x698098d8 else if i == 9 then 0x8b44f7af else if i == 10 then 0xffff5bb1 else 0x895cd7be)
    else if i < 16 then (if i == 12 then 0x6b901122 else if i == 13 then 0xfd987193 else if i == 14 then 0xa679438e else 0x49b40821)
    else if i < 20 then (if i == 16 then 0xf61e2562 else if i == 17 then 0xc040b340 else if i == 18 then 0x265e5a51 else 0xe9b6c7aa)
    else if i < 24 then (if i == 20 then 0xd62f105d else if i == 21 then 0x02441453 else if i == 22 then 0xd8a1e681 else 0xe7d3fbc8)
    else if i < 28 then (if i == 24 then 0x21e1cde6 else if i == 25 then 0xc33707d6 else if i == 26 then 0xf4d50d87 else 0x455a14ed)
    else if i < 32 then (if i == 28 then 0xa9e3e905 else if i == 29 then 0xfcefa3f8 else if i == 30 then 0x676f02d9 else 0x8d2a4c8a)
    else if i < 36 then (if i == 32 then 0xfffa3942 else if i == 33 then 0x8771f681 else if i == 34 then 0x6d9d6122 else 0xfde5380c)
    else if i < 40 then (if i == 36 then 0xa4beea44 else if i == 37 then 0x4bdecfa9 else if i == 38 then 0xf6bb4b60 else 0xbebfbc70)
    else if i < 44 then (if i == 40 then 0x289b7ec6 else if i == 41 then 0xeaa127fa else if i == 42 then 0xd4ef3085 else 0x04881d05)
    else if i < 48 then (if i == 44 then 0xd9d4d039 else if i == 45 then 0xe6db99e5 else if i == 46 then 0x1fa27cf8 else 0xc4ac5665)
    else if i < 52 then (if i == 48 then 0xf4292244 else if i == 49 then 0x432aff97 else if i == 50 then 0xab9423a7 else 0xfc93a039)
    else if i < 56 then (if i == 52 then 0x655b59c3 else if i == 53 then 0x8f0ccc92 else if i == 54 then 0xffeff47d else 0x85845dd1)
    else if i < 60 then (if i == 56 then 0x6fa87e4f else if i == 57 then 0xfe2ce6e0 else if i == 58 then 0xa3014314 else 0x4e0811a1)
    else if i == 60 then 0xf7537e82 else if i == 61 then 0xbd3af235 else if i == 62 then 0x2ad7d2bb else 0xeb86d391
  }

  /** The word of the block that operation i adds. */
  function Index(i: nat): (k: nat)
    ensures k < 16
  {
    if i < 16 then i else if i < 32 then (5 * i + 1) % 16 else if i < 48 then (3 * i + 5) % 16 else (7 * i) % 16
  }

  /** The rotation of operation i. */
  function Shift(i: nat): (s: nat)
    ensures 0 < s < 32
  {
    var j := i % 4;
    if i < 16 then (if j == 0 then 7 else if j == 1 then 12 else if j == 2 then 17 else 22)
    else if i < 32 then (if j == 0 then 5 else if j == 1 then 9 else if j == 2 then 14 else 20)
    else if i < 48 then (if j == 0 then 4 else if j == 1 then 11 else if j == 2 then 16 else 23)
    else (if j == 0 then 6 else if j == 1 then 10 else if j == 2 then 15 else 21)
  }

  function Auxiliary(i: nat, x: bv32, y: bv32, z: bv32): bv32 {
    if i < 16 then F(x, y, z) else if i < 32 then G(x, y, z) else if i < 48 then H(x, y, z) else I(x, y, z)
  }

  /** Addition modulo 2^32. */
  function Add(u: bv32, v: bv32): bv32 { u + v }

  function Rotl(w: bv32, s: nat): bv32
    requires 0 < s < 32
  {
    (w << s) | (w >> (32 - s))
  }

  /** Operation i: a = b + ((a + aux(b, c, d) + X[k] + T[i]) <<< s); the registers then change roles. */
  function Step(i: nat, s: Digest, x: seq<bv32>): Digest
    requires |x| == 16
  {
    var sum := Add(s.a, Add(Auxiliary(i, s.b, s.c, s.d), Add(x[Index(i)], T(i))));
    Digest(s.d, Add(s.b, Rotl(sum, Shift(i))), s.b, s.c)
  }

  /** Operations from `i` up to but not including `end`. */
  function Steps(s: Digest, x: seq<bv32>, i: nat, end: nat): Digest
    requires |x| == 16
    decreases end - i
  {
    if i >= end then s else Steps(Step(i, s, x), x, i + 1, end)
  }

  function Plus(s: Digest, t: Digest): Digest { Digest(Add(s.a, t.a), Add(s.b, t.b), Add(s.c, t.c), Add(s.d, t.d)) }

  /** The buffer after one block of sixteen words. */
  function Compress(s: Digest, x: seq<bv32>): Digest
    requires |x| == 16
  {
    Plus(s, Steps(s, x, 0, 64))
  }

  /** A word from its bytes, low-order byte first (section 2). */
  function WordOf(b0: bv8, b1: bv8, b2: bv8, b3: bv8): bv32 {
    b0 as bv32 | (b1 as bv32 << 8) | (b2 as bv32 << 16) | (b3 as bv32 << 24)
  }

  function BlockWords(b: seq<bv8>): (x: seq<bv32>)
    requires |b| == 64
    ensures |x| == 16
  {
    seq(16, i requires 0 <= i < 16 => WordOf(b[4 * i], b[4 * i + 1], b[4 * i + 2], b[4 * i + 3]))
  }

  /** The fold of Compress over the full blocks of m. */
  function Absorb(s: Digest, m: seq<bv8>): Digest
    decreases |m|
  {
    if |m| < 64 then s else Absorb(Compress(s, BlockWords(m[..64])), m[64..])
  }

  // ----- sections 3.1 and 3.2: padding and length

  function Zeros(n: nat): (z: seq<bv8>)
    ensures |z| == n
    ensures forall k :: 0 <= k < n ==> z[k] == 0
  {
    seq(n, _ => 0)
  }

  /** Byte j of v, low-order byte first. */
  function ByteOf(v: nat, j: nat): bv8
    requires j < 4
  {
    ((if j == 0 then v else if j == 1 then v / 0x100 else if j == 2 then v / 0x1_0000 else v / 0x100_0000) % 256) as bv8
  }

  function WordBytes(v: nat): (b: seq<bv8>)
    ensures |b| == 4
  {
    [ByteOf(v, 0), ByteOf(v, 1), ByteOf(v, 2), ByteOf(v, 3)]
  }

  const WORD: nat := 0x1_0000_0000

  /** The length in bits as a 64-bit number, two words with the low-order word first. */
  function LengthBytes(n: nat): (b: seq<bv8>)
    ensures |b| == 8
  {
    WordBytes(8 * n % (WORD * WORD) % WORD) + WordBytes(8 * n % (WORD * WORD) / WORD)
  }

  /** The zero bytes that bring a message of n bytes and the one bit to 56 modulo 64. */
  function ZeroCount(n: nat): nat { (55 - n) % 64 }

  /** The message, a one bit, zeros to 56 modulo 64, and the length. */
  function Padded(m: seq<bv8>): (p: seq<bv8>)
    ensures |p| % 64 == 0
  {
    m + [0x80] + Zeros(ZeroCount(|m|)) + LengthBytes(|m|)
  }

  // ----- section 3.5: output

  function OutputWord(w: bv32): (b: seq<bv8>)
    ensures |b| == 4
  {
    [(w & 0xff) as bv8, ((w >> 8) & 0xff) as bv8, ((w >> 16) & 0xff) as bv8, (w >> 24) as bv8]
  }

  function Output(s: Digest): (b: seq<bv8>)
    ensures |b| == 16
  {
    OutputWord(s.a) + OutputWord(s.b) + OutputWord(s.c) + OutputWord(s.d)
  }

  function Md5(m: seq<bv8>): (b: seq<bv8>)
    ensures |b| == 16
  {
    Output(Absorb(INITIAL, Padded(m)))
  }

  // ----- what padding and output amount to

  /** Sections 3.1 and 3.2: the message, one byte 80, zeros, and the bit length modulo 2^64 in eight bytes,
      the lowest first; a multiple of 64 bytes in all, with fewer than 64 zeros. */
  lemma PaddingAsRequired(m: seq<bv8>)
    ensures var p, n := Padded(m), |m|;
            && |p| % 64 == 0 && n + 9 <= |p| < n + 9 + 64 && m <= p && p[n] == 0x80
            && (forall k :: n < k < |p| - 8 ==> p[k] == 0)
            && p[|p| - 8..] == [(8 * n % 0x100) as bv8, (8 * n / 0x100 % 0x100) as bv8,
                                (8 * n / 0x1_0000 % 0x100) as bv8, (8 * n / 0x100_0000 % 0x100) as bv8,
                                (8 * n / 0x1_0000_0000 % 0x100) as bv8, (8 * n / 0x100_0000_0000 % 0x100) as bv8,
                                (8 * n / 0x1_0000_0000_0000 % 0x100) as bv8,
                                (8 * n / 0x100_0000_0000_0000 % 0x100) as bv8]
  {
    LengthByByte(|m|);
    hide LengthBytes;
    var p := Padded(m);
    assert p[|p| - 8..] == LengthBytes(|m|);
  }

  lemma LengthByByte(n: nat)
    ensures LengthBytes(n) == [(8 * n % 0x100) as bv8, (8 * n / 0x100 % 0x100) as bv8,
                               (8 * n / 0x1_0000 % 0x100) as bv8, (8 * n / 0x100_0000 % 0x100) as bv8,
                               (8 * n / 0x1_0000_0000 % 0x100) as bv8, (8 * n / 0x100_0000_0000 % 0x100) as bv8,
                               (8 * n / 0x1_0000_0000_0000 % 0x100) as bv8,
                               (8 * n / 0x100_0000_0000_0000 % 0x100) as bv8]
  {
    var x := 8 * n;
    var high, v := x / WORD, x % (WORD * WORD);
    var lo, hi := v % WORD, v / WORD;
    assert v == x - WORD * (WORD * (x / (WORD * WORD)));
    LowDigits(x, WORD * (x / (WORD * WORD)) + hi, lo);
    assert high == WORD * (x / (WORD * WORD)) + hi;
    LowDigits(high, x / (WORD * WORD), hi);
    HighDigits(x);
  }

  lemma SameDigit(a: nat, b: nat)
    ensures (256 * a + b) % 256 == b % 256
  {
  }

  /** What the words above do not touch. */
  lemma LowDigits(x: nat, k: nat, lo: nat)
    requires x == WORD * k + lo && lo < WORD
    ensures lo % 256 == x % 256 && lo / 0x100 % 256 == x / 0x100 % 256
    ensures lo / 0x1_0000 % 256 == x / 0x1_0000 % 256 && lo / 0x100_0000 % 256 == x / 0x100_0000 % 256
  {
    SameDigit(0x100_0000 * k, lo);
    assert x / 0x100 == 256 * (0x1_0000 * k) + lo / 0x100;
    SameDigit(0x1_0000 * k, lo / 0x100);
    assert x / 0x1_0000 == 256 * (0x100 * k) + lo / 0x1_0000;
    SameDigit(0x100 * k, lo / 0x1_0000);
    assert x / 0x100_0000 == 256 * k + lo / 0x100_0000;
    SameDigit(k, lo / 0x100_0000);
  }

  lemma HighDigits(x: nat)
    ensures x / WORD / 0x100 == x / 0x100_0000_0000
    ensures x / WORD / 0x1_0000 == x / 0x1_0000_0000_0000
    ensures x / WORD / 0x100_0000 == x / 0x100_0000_0000_0000
  {
  }
}
