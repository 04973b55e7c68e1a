/** The block transformation of server/common/libtools/MD5.cpp: sixty-four unrolled macro calls. */
module Md5Transform {
  import opened Rfc1321

  // ----- the macros F1 to F4 and MD5STEP

  function F1(x: bv32, y: bv32, z: bv32): bv32 { z ^ (x & (y ^ z)) }

  function F2(x: bv32, y: bv32, z: bv32): bv32 { F1(z, x, y) }

  function F3(x: bv32, y: bv32, z: bv32): bv32 { x ^ y ^ z }

  function F4(x: bv32, y: bv32, z: bv32): bv32 { y ^ (x | !z) }

  /** w += f + (data + t), rotate by s, w += x. */
  function Md5Step(f: bv32, w: bv32, x: bv32, data: bv32, t: bv32, s: nat): bv32
    requires 0 < s < 32
  {
    Add(Rotl(Add(w, Add(f, Add(data, t))), s), x)
  }

  /** The optimised selections are the standard's F and G. */
  lemma SelectionF(x: bv32, y: bv32, z: bv32)
    ensures F1(x, y, z) == F(x, y, z)
  {
    SelectBits(x, y, z);
  }

  lemma SelectionG(x: bv32, y: bv32, z: bv32)
    ensures F2(x, y, z) == G(x, y, z)
  {
    SelectBits(z, x, y);
    assert (z & x) | (!z & y) == (x & z) | (y & !z);
  }

  lemma SelectBits(x: bv32, y: bv32, z: bv32)
    ensures z ^ (x & (y ^ z)) == (x & y) | (!x & z)
  {
  }

  lemma AddCommutes(u: bv32, v: bv32)
    ensures Add(u, v) == Add(v, u)
  {
  }

  lemma StepAgrees(f: bv32, w: bv32, x: bv32, data: bv32, t: bv32, s: nat)
    requires 0 < s < 32
    ensures Md5Step(f, w, x, data, t, s) == Add(x, Rotl(Add(w, Add(f, Add(data, t))), s))
  {
    hide Rotl, Add;
    AddCommutes(Rotl(Add(w, Add(f, Add(data, t))), s), x);
  }

  lemma StepF(i: nat, w: bv32, x: bv32, y: bv32, z: bv32, m: seq<bv32>, k: nat, t: bv32, s: nat, end: nat)
    requires 0 <= i < 16 && i < end && |m| == 16
    requires k == Index(i) && t == T(i) && s == Shift(i)
    ensures Steps(Digest(w, x, y, z), m, i, end)
         == Steps(Digest(z, Md5Step(F1(x, y, z), w, x, m[k], t, s), x, y), m, i + 1, end)
  {
    hide F1, F, Md5Step, Rotl, T, Index, Shift, Add;
    SelectionF(x, y, z);
    StepAgrees(F1(x, y, z), w, x, m[k], t, s);
  }

  lemma StepG(i: nat, w: bv32, x: bv32, y: bv32, z: bv32, m: seq<bv32>, k: nat, t: bv32, s: nat, end: nat)
    requires 16 <= i < 32 && i < end && |m| == 16
    requires k == Index(i) && t == T(i) && s == Shift(i)
    ensures Steps(Digest(w, x, y, z), m, i, end)
         == Steps(Digest(z, Md5Step(F2(x, y, z), w, x, m[k], t, s), x, y), m, i + 1, end)
  {
    hide F2, G, Md5Step, Rotl, T, Index, Shift, Add;
    SelectionG(x, y, z);
    StepAgrees(F2(x, y, z), w, x, m[k], t, s);
  }

  lemma StepH(i: nat, w: bv32, x: bv32, y: bv32, z: bv32, m: seq<bv32>, k: nat, t: bv32, s: nat, end: nat)
    requires 32 <= i < 48 && i < end && |m| == 16
    requires k == Index(i) && t == T(i) && s == Shift(i)
    ensures Steps(Digest(w, x, y, z), m, i, end)
         == Steps(Digest(z, Md5Step(F3(x, y, z), w, x, m[k], t, s), x, y), m, i + 1, end)
  {
    hide Md5Step, Rotl, T, Index, Shift, Add;
    StepAgrees(F3(x, y, z), w, x, m[k], t, s);
  }

  lemma StepI(i: nat, w: bv32, x: bv32, y: bv32, z: bv32, m: seq<bv32>, k: nat, t: bv32, s: nat, end: nat)
    requires 48 <= i < 64 && i < end && |m| == 16
    requires k == Index(i) && t == T(i) && s == Shift(i)
    ensures Steps(Digest(w, x, y, z), m, i, end)
         == Steps(Digest(z, Md5Step(F4(x, y, z), w, x, m[k], t, s), x, y), m, i + 1, end)
  {
    hide Md5Step, Rotl, T, Index, Shift, Add;
    StepAgrees(F4(x, y, z), w, x, m[k], t, s);
  }

  lemma StepsDone(s: Digest, x: seq<bv32>, end: nat)
    requires |x| == 16
    ensures Steps(s, x, end, end) == s
  {
  }

  lemma {:induction false} StepsJoin(s: Digest, x: seq<bv32>, i: nat, j: nat, end: nat)
    requires |x| == 16 && i <= j <= end
    ensures Steps(s, x, i, end) == Steps(Steps(s, x, i, j), x, j, end)
    decreases j - i
  {
    hide Step;
    if i < j {
      StepsJoin(Step(i, s, x), x, i + 1, j, end);
    }
  }

  /** Operations 0 to 7. */
  method Transform0(s: Digest, x: seq<bv32>) returns (r: Digest)
    requires |x| == 16
    ensures r == Steps(s, x, 0, 8)
  {
    hide F1, F2, F3, F4, Md5Step, Step, Steps;
    var Digest(a, b, c, d) := s;
    StepF(0, a, b, c, d, x, 0, 0xd76aa478, 7, 8);
    a := Md5Step(F1(b, c, d), a, b, x[0], 0xd76aa478, 7);
    StepF(1, d, a, b, c, x, 1, 0xe8c7b756, 12, 8);
    d := Md5Step(F1(a, b, c), d, a, x[1], 0xe8c7b756, 12);
    StepF(2, c, d, a, b, x, 2, 0x242070db, 17, 8);
    c := Md5Step(F1(d, a, b), c, d, x[2], 0x242070db, 17);
    StepF(3, b, c, d, a, x, 3, 0xc1bdceee, 22, 8);
    b := Md5Step(F1(c, d, a), b, c, x[3], 0xc1bdceee, 22);
    StepF(4, a, b, c, d, x, 4, 0xf57c0faf, 7, 8);
    a := Md5Step(F1(b, c, d), a, b, x[4], 0xf57c0faf, 7);
    StepF(5, d, a, b, c, x, 5, 0x4787c62a, 12, 8);
    d := Md5Step(F1(a, b, c), d, a, x[5], 0x4787c62a, 12);
    StepF(6, c, d, a, b, x, 6, 0xa8304613, 17, 8);
    c := Md5Step(F1(d, a, b), c, d, x[6], 0xa8304613, 17);
    StepF(7, b, c, d, a, x, 7, 0xfd469501, 22, 8);
    b := Md5Step(F1(c, d, a), b, c, x[7], 0xfd469501, 22);
    StepsDone(Digest(a, b, c, d), x, 8);
    r := Digest(a, b, c, d);
  }

  /** Operations 8 to 15. */
  method Transform8(s: Digest, x: seq<bv32>) returns (r: Digest)
    requires |x| == 16
    ensures r == Steps(s, x, 8, 16)
  {
    hide F1, F2, F3, F4, Md5Step, Step, Steps;
    var Digest(a, b, c, d) := s;
    StepF(8, a, b, c, d, x, 8, 0x698098d8, 7, 16);
    a := Md5Step(F1(b, c, d), a, b, x[8], 0x698098d8, 7);
    StepF(9, d, a, b, c, x, 9, 0x8b44f7af, 12, 16);
    d := Md5Step(F1(a, b, c), d, a, x[9], 0x8b44f7af, 12);
    StepF(10, c, d, a, b, x, 10, 0xffff5bb1, 17, 16);
    c := Md5Step(F1(d, a, b), c, d, x[10], 0xffff5bb1, 17);
    StepF(11, b, c, d, a, x, 11, 0x895cd7be, 22, 16);
    b := Md5Step(F1(c, d, a), b, c, x[11], 0x895cd7be, 22);
    StepF(12, a, b, c, d, x, 12, 0x6b901122, 7, 16);
    a := Md5Step(F1(b, c, d), a, b, x[12], 0x6b901122, 7);
    StepF(13, d, a, b, c, x, 13, 0xfd987193, 12, 16);
    d := Md5Step(F1(a, b, c), d, a, x[13], 0xfd987193, 12);
    StepF(14, c, d, a, b, x, 14, 0xa679438e, 17, 16);
    c := Md5Step(F1(d, a, b), c, d, x[14], 0xa679438e, 17);
    StepF(15, b, c, d, a, x, 15, 0x49b40821, 22, 16);
    b := Md5Step(F1(c, d, a), b, c, x[15], 0x49b40821, 22);
    StepsDone(Digest(a, b, c, d), x, 16);
    r := Digest(a, b, c, d);
  }

  /** Operations 16 to 23. */
  method Transform16(s: Digest, x: seq<bv32>) returns (r: Digest)
    requires |x| == 16
    ensures r == Steps(s, x, 16, 24)
  {
    hide F1, F2, F3, F4, Md5Step, Step, Steps;
    var Digest(a, b, c, d) := s;
    StepG(16, a, b, c, d, x, 1, 0xf61e2562, 5, 24);
    a := Md5Step(F2(b, c, d), a, b, x[1], 0xf61e2562, 5);
    StepG(17, d, a, b, c, x, 6, 0xc040b340, 9, 24);
    d := Md5Step(F2(a, b, c), d, a, x[6], 0xc040b340, 9);
    StepG(18, c, d, a, b, x, 11, 0x265e5a51, 14, 24);
    c := Md5Step(F2(d, a, b), c, d, x[11], 0x265e5a51, 14);
    StepG(19, b, c, d, a, x, 0, 0xe9b6c7aa, 20, 24);
    b := Md5Step(F2(c, d, a), b, c, x[0], 0xe9b6c7aa, 20);
    StepG(20, a, b, c, d, x, 5, 0xd62f105d, 5, 24);
    a := Md5Step(F2(b, c, d), a, b, x[5], 0xd62f105d, 5);
    StepG(21, d, a, b, c, x, 10, 0x02441453, 9, 24);
    d := Md5Step(F2(a, b, c), d, a, x[10], 0x02441453, 9);
    StepG(22, c, d, a, b, x, 15, 0xd8a1e681, 14, 24);
    c := Md5Step(F2(d, a, b), c, d, x[15], 0xd8a1e681, 14);
    StepG(23, b, c, d, a, x, 4, 0xe7d3fbc8, 20, 24);
    b := Md5Step(F2(c, d, a), b, c, x[4], 0xe7d3fbc8, 20);
    StepsDone(Digest(a, b, c, d), x, 24);
    r := Digest(a, b, c, d);
  }

  /** Operations 24 to 31. */
  method Transform24(s: Digest, x: seq<bv32>) returns (r: Digest)
    requires |x| == 16
    ensures r == Steps(s, x, 24, 32)
  {
    hide F1, F2, F3, F4, Md5Step, Step, Steps;
    var Digest(a, b, c, d) := s;
    StepG(24, a, b, c, d, x, 9, 0x21e1cde6, 5, 32);
    a := Md5Step(F2(b, c, d), a, b, x[9], 0x21e1cde6, 5);
    StepG(25, d, a, b, c, x, 14, 0xc33707d6, 9, 32);
    d := Md5Step(F2(a, b, c), d, a, x[14], 0xc33707d6, 9);
    StepG(26, c, d, a, b, x, 3, 0xf4d50d87, 14, 32);
    c := Md5Step(F2(d, a, b), c, d, x[3], 0xf4d50d87, 14);
    StepG(27, b, c, d, a, x, 8, 0x455a14ed, 20, 32);
    b := Md5Step(F2(c, d, a), b, c, x[8], 0x455a14ed, 20);
    StepG(28, a, b, c, d, x, 13, 0xa9e3e905, 5, 32);
    a := Md5Step(F2(b, c, d), a, b, x[13], 0xa9e3e905, 5);
    StepG(29, d, a, b, c, x, 2, 0xfcefa3f8, 9, 32);
    d := Md5Step(F2(a, b, c), d, a, x[2], 0xfcefa3f8, 9);
    StepG(30, c, d, a, b, x, 7, 0x676f02d9, 14, 32);
    c := Md5Step(F2(d, a, b), c, d, x[7], 0x676f02d9, 14);
    StepG(31, b, c, d, a, x, 12, 0x8d2a4c8a, 20, 32);
    b := Md5Step(F2(c, d, a), b, c, x[12], 0x8d2a4c8a, 20);
    StepsDone(Digest(a, b, c, d), x, 32);
    r := Digest(a, b, c, d);
  }

  /** Operations 32 to 39. */
  method Transform32(s: Digest, x: seq<bv32>) returns (r: Digest)
    requires |x| == 16
    ensures r == Steps(s, x, 32, 40)
  {
    hide F1, F2, F3, F4, Md5Step, Step, Steps;
    var Digest(a, b, c, d) := s;
    StepH(32, a, b, c, d, x, 5, 0xfffa3942, 4, 40);
    a := Md5Step(F3(b, c, d), a, b, x[5], 0xfffa3942, 4);
    StepH(33, d, a, b, c, x, 8, 0x8771f681, 11, 40);
    d := Md5Step(F3(a, b, c), d, a, x[8], 0x8771f681, 11);
    StepH(34, c, d, a, b, x, 11, 0x6d9d6122, 16, 40);
    c := Md5Step(F3(d, a, b), c, d, x[11], 0x6d9d6122, 16);
    StepH(35, b, c, d, a, x, 14, 0xfde5380c, 23, 40);
    b := Md5Step(F3(c, d, a), b, c, x[14], 0xfde5380c, 23);
    StepH(36, a, b, c, d, x, 1, 0xa4beea44, 4, 40);
    a := Md5Step(F3(b, c, d), a, b, x[1], 0xa4beea44, 4);
    StepH(37, d, a, b, c, x, 4, 0x4bdecfa9, 11, 40);
    d := Md5Step(F3(a, b, c), d, a, x[4], 0x4bdecfa9, 11);
    StepH(38, c, d, a, b, x, 7, 0xf6bb4b60, 16, 40);
    c := Md5Step(F3(d, a, b), c, d, x[7], 0xf6bb4b60, 16);
    StepH(39, b, c, d, a, x, 10, 0xbebfbc70, 23, 40);
    b := Md5Step(F3(c, d, a), b, c, x[10], 0xbebfbc70, 23);
    StepsDone(Digest(a, b, c, d), x, 40);
    r := Digest(a, b, c, d);
  }

  /** Operations 40 to 47. */
  method Transform40(s: Digest, x: seq<bv32>) returns (r: Digest)
    requires |x| == 16
    ensures r == Steps(s, x, 40, 48)
  {
    hide F1, F2, F3, F4, Md5Step, Step, Steps;
    var Digest(a, b, c, d) := s;
    StepH(40, a, b, c, d, x, 13, 0x289b7ec6, 4, 48);
    a := Md5Step(F3(b, c, d), a, b, x[13], 0x289b7ec6, 4);
    StepH(41, d, a, b, c, x, 0, 0xeaa127fa, 11, 48);
    d := Md5Step(F3(a, b, c), d, a, x[0], 0xeaa127fa, 11);
    StepH(42, c, d, a, b, x, 3, 0xd4ef3085, 16, 48);
    c := Md5Step(F3(d, a, b), c, d, x[3], 0xd4ef3085, 16);
    StepH(43, b, c, d, a, x, 6, 0x04881d05, 23, 48);
    b := Md5Step(F3(c, d, a), b, c, x[6], 0x04881d05, 23);
    StepH(44, a, b, c, d, x, 9, 0xd9d4d039, 4, 48);
    a := Md5Step(F3(b, c, d), a, b, x[9], 0xd9d4d039, 4);
    StepH(45, d, a, b, c, x, 12, 0xe6db99e5, 11, 48);
    d := Md5Step(F3(a, b, c), d, a, x[12], 0xe6db99e5, 11);
    StepH(46, c, d, a, b, x, 15, 0x1fa27cf8, 16, 48);
    c := Md5Step(F3(d, a, b), c, d, x[15], 0x1fa27cf8, 16);
    StepH(47, b, c, d, a, x, 2, 0xc4ac5665, 23, 48);
    b := Md5Step(F3(c, d, a), b, c, x[2], 0xc4ac5665, 23);
    StepsDone(Digest(a, b, c, d), x, 48);
    r := Digest(a, b, c, d);
  }

  /** Operations 48 to 55. */
  method Transform48(s: Digest, x: seq<bv32>) returns (r: Digest)
    requires |x| == 16
    ensures r == Steps(s, x, 48, 56)
  {
    hide F1, F2, F3, F4, Md5Step, Step, Steps;
    var Digest(a, b, c, d) := s;
    StepI(48, a, b, c, d, x, 0, 0xf4292244, 6, 56);
    a := Md5Step(F4(b, c, d), a, b, x[0], 0xf4292244, 6);
    StepI(49, d, a, b, c, x, 7, 0x432aff97, 10, 56);
    d := Md5Step(F4(a, b, c), d, a, x[7], 0x432aff97, 10);
    StepI(50, c, d, a, b, x, 14, 0xab9423a7, 15, 56);
    c := Md5Step(F4(d, a, b), c, d, x[14], 0xab9423a7, 15);
    StepI(51, b, c, d, a, x, 5, 0xfc93a039, 21, 56);
    b := Md5Step(F4(c, d, a), b, c, x[5], 0xfc93a039, 21);
    StepI(52, a, b, c, d, x, 12, 0x655b59c3, 6, 56);
    a := Md5Step(F4(b, c, d), a, b, x[12], 0x655b59c3, 6);
    StepI(53, d, a, b, c, x, 3, 0x8f0ccc92, 10, 56);
    d := Md5Step(F4(a, b, c), d, a, x[3], 0x8f0ccc92, 10);
    StepI(54, c, d, a, b, x, 10, 0xffeff47d, 15, 56);
    c := Md5Step(F4(d, a, b), c, d, x[10], 0xffeff47d, 15);
    StepI(55, b, c, d, a, x, 1, 0x85845dd1, 21, 56);
    b := Md5Step(F4(c, d, a), b, c, x[1], 0x85845dd1, 21);
    StepsDone(Digest(a, b, c, d), x, 56);
    r := Digest(a, b, c, d);
  }

  /** Operations 56 to 63. */
  method Transform56(s: Digest, x: seq<bv32>) returns (r: Digest)
    requires |x| == 16
    ensures r == Steps(s, x, 56, 64)
  {
    hide F1, F2, F3, F4, Md5Step, Step, Steps;
    var Digest(a, b, c, d) := s;
    StepI(56, a, b, c, d, x, 8, 0x6fa87e4f, 6, 64);
    a := Md5Step(F4(b, c, d), a, b, x[8], 0x6fa87e4f, 6);
    StepI(57, d, a, b, c, x, 15, 0xfe2ce6e0, 10, 64);
    d := Md5Step(F4(a, b, c), d, a, x[15], 0xfe2ce6e0, 10);
    StepI(58, c, d, a, b, x, 6, 0xa3014314, 15, 64);
    c := Md5Step(F4(d, a, b), c, d, x[6], 0xa3014314, 15);
    StepI(59, b, c, d, a, x, 13, 0x4e0811a1, 21, 64);
    b := Md5Step(F4(c, d, a), b, c, x[13], 0x4e0811a1, 21);
    StepI(60, a, b, c, d, x, 4, 0xf7537e82, 6, 64);
    a := Md5Step(F4(b, c, d), a, b, x[4], 0xf7537e82, 6);
    StepI(61, d, a, b, c, x, 11, 0xbd3af235, 10, 64);
    d := Md5Step(F4(a, b, c), d, a, x[11], 0xbd3af235, 10);
    StepI(62, c, d, a, b, x, 2, 0x2ad7d2bb, 15, 64);
    c := Md5Step(F4(d, a, b), c, d, x[2], 0x2ad7d2bb, 15);
    StepI(63, b, c, d, a, x, 9, 0xeb86d391, 21, 64);
    b := Md5Step(F4(c, d, a), b, c, x[9], 0xeb86d391, 21);
    StepsDone(Digest(a, b, c, d), x, 64);
    r := Digest(a, b, c, d);
  }

  /** MD5Transform on the words of one block. */
  method Transform(buf: Digest, x: seq<bv32>) returns (r: Digest)
    requires |x| == 16
    ensures r == Compress(buf, x)
  {
    hide Steps, Plus;
    var s := Transform0(buf, x);
    s := Transform8(s, x);
    StepsJoin(buf, x, 0, 8, 16);
    s := Transform16(s, x);
    StepsJoin(buf, x, 0, 16, 24);
    s := Transform24(s, x);
    StepsJoin(buf, x, 0, 24, 32);
    s := Transform32(s, x);
    StepsJoin(buf, x, 0, 32, 40);
    s := Transform40(s, x);
    StepsJoin(buf, x, 0, 40, 48);
    s := Transform48(s, x);
    StepsJoin(buf, x, 0, 48, 56);
    s := Transform56(s, x);
    StepsJoin(buf, x, 0, 56, 64);
    r := Plus(buf, s);
  }
}
