/** The field GF(2^8) of section 4 of FIPS 197 and the two substitution tables of
    server/common/libtools/AesCore.cpp. */
module Gf256 {
  /** Byte `n` of a table row; a row holds sixteen entries, the first one in the highest byte. */
  function ByteOfRow(row: bv128, n: bv8): bv8 {
    ((if n < 8 then
      (if n < 4 then
        (if n < 2 then (if n < 1 then row >> 120 else row >> 112) else if n < 3 then row >> 104 else row >> 96)
      else
        (if n < 6 then (if n < 5 then row >> 88 else row >> 80) else if n < 7 then row >> 72 else row >> 64))
    else
      (if n < 12 then
        (if n < 10 then (if n < 9 then row >> 56 else row >> 48) else if n < 11 then row >> 40 else row >> 32)
      else
        (if n < 14 then (if n < 13 then row >> 24 else row >> 16) else if n < 15 then row >> 8 else row >> 0))) & 0xff) as bv8
  }

  /** The substitution box, the low byte of every entry of Te1. */
  function S(x: bv8): (y: bv8) {
    var r := x >> 4;
    var row: bv128 :=
      if r == 0x0 then 0x637c777b_f26b6fc5_3001672b_fed7ab76
      else if r == 0x1 then 0xca82c97d_fa5947f0_add4a2af_9ca472c0
      else if r == 0x2 then 0xb7fd9326_363ff7cc_34a5e5f1_71d83115
      else if r == 0x3 then 0x04c723c3_1896059a_071280e2_eb27b275
      else if r == 0x4 then 0x09832c1a_1b6e5aa0_523bd6b3_29e32f84
      else if r == 0x5 then 0x53d100ed_20fcb15b_6acbbe39_4a4c58cf
      else if r == 0x6 then 0xd0efaafb_434d3385_45f9027f_503c9fa8
      else if r == 0x7 then 0x51a3408f_929d38f5_bcb6da21_10fff3d2
      else if r == 0x8 then 0xcd0c13ec_5f974417_c4a77e3d_645d1973
      else if r == 0x9 then 0x60814fdc_222a9088_46eeb814_de5e0bdb
      else if r == 0xa then 0xe0323a0a_4906245c_c2d3ac62_9195e479
      else if r == 0xb then 0xe7c8376d_8dd54ea9_6c56f4ea_657aae08
      else if r == 0xc then 0xba78252e_1ca6b4c6_e8dd741f_4bbd8b8a
      else if r == 0xd then 0x703eb566_4803f60e_613557b9_86c11d9e
      else if r == 0xe then 0xe1f89811_69d98e94_9b1e87e9_ce5528df
      else 0x8ca1890d_bfe64268_41992d0f_b054bb16;
    ByteOfRow(row, x & 0xf)
  }

  /** The inverse substitution box, the table Td4. */
  function Si(x: bv8): (y: bv8) {
    var r := x >> 4;
    var row: bv128 :=
      if r == 0x0 then 0x52096ad5_3036a538_bf40a39e_81f3d7fb
      else if r == 0x1 then 0x7ce33982_9b2fff87_348e4344_c4dee9cb
      else if r == 0x2 then 0x547b9432_a6c2233d_ee4c950b_42fac34e
      else if r == 0x3 then 0x082ea166_28d924b2_765ba249_6d8bd125
      else if r == 0x4 then 0x72f8f664_86689816_d4a45ccc_5d65b692
      else if r == 0x5 then 0x6c704850_fdedb9da_5e154657_a78d9d84
      else if r == 0x6 then 0x90d8ab00_8cbcd30a_f7e45805_b8b34506
      else if r == 0x7 then 0xd02c1e8f_ca3f0f02_c1afbd03_01138a6b
      else if r == 0x8 then 0x3a911141_4f67dcea_97f2cfce_f0b4e673
      else if r == 0x9 then 0x96ac7422_e7ad3585_e2f937e8_1c75df6e
      else if r == 0xa then 0x47f11a71_1d29c589_6fb7620e_aa18be1b
      else if r == 0xb then 0xfc563e4b_c6d27920_9adbc0fe_78cd5af4
      else if r == 0xc then 0x1fdda833_8807c731_b1121059_2780ec5f
      else if r == 0xd then 0x60517fa9_19b54a0d_2de57a9f_93c99cef
      else if r == 0xe then 0xa0e03b4d_ae2af5b0_c8ebbb3c_83539961
      else 0x172b047e_ba77d626_e1691463_55210c7d;
    ByteOfRow(row, x & 0xf)
  }

  /** Si undoes S on every byte. */
  lemma SubstitutionInverse(x: bv8)
    ensures Si(S(x)) == x
  {
  }

  /** Addition in the field, section 4.1 of FIPS 197. */
  function Add(a: bv8, b: bv8): bv8 { a ^ b }

  function Sum4(a: bv8, b: bv8, c: bv8, d: bv8): bv8 { Add(Add(a, b), Add(c, d)) }

  lemma AddCommutes(a: bv8, b: bv8)
    ensures Add(a, b) == Add(b, a)
  {
  }

  lemma AddAssociates(a: bv8, b: bv8, c: bv8)
    ensures Add(Add(a, b), c) == Add(a, Add(b, c))
  {
  }

  lemma AddCancels(a: bv8, k: bv8)
    ensures Add(Add(a, k), k) == a
  {
  }

  lemma AddShuffle(a: bv8, b: bv8, c: bv8, d: bv8)
    ensures Add(Add(a, b), Add(c, d)) == Add(Add(a, c), Add(b, d))
  {
    hide Add;
    AddAssociates(a, b, Add(c, d));
    AddAssociates(b, c, d);
    AddCommutes(b, c);
    AddAssociates(c, b, d);
    AddAssociates(a, c, Add(b, d));
  }

  lemma Sum4Chain(a: bv8, b: bv8, c: bv8, d: bv8)
    ensures Add(Add(Add(a, b), c), d) == Sum4(a, b, c, d)
  {
    hide Add;
    AddAssociates(Add(a, b), c, d);
  }

  lemma Sum4Rotate(a: bv8, b: bv8, c: bv8, d: bv8)
    ensures Sum4(a, b, c, d) == Sum4(b, c, d, a)
  {
    hide Add;
    AddCommutes(a, b);
    AddShuffle(b, a, c, d);
    AddCommutes(a, d);
  }

  lemma Sum4Add(a: bv8, b: bv8, c: bv8, d: bv8, a': bv8, b': bv8, c': bv8, d': bv8)
    ensures Sum4(Add(a, a'), Add(b, b'), Add(c, c'), Add(d, d')) == Add(Sum4(a, b, c, d), Sum4(a', b', c', d'))
  {
    hide Add;
    AddShuffle(a, a', b, b');
    AddShuffle(c, c', d, d');
    AddShuffle(Add(a, b), Add(a', b'), Add(c, d), Add(c', d'));
  }

  lemma Sum4Transpose(a0: bv8, a1: bv8, a2: bv8, a3: bv8, b0: bv8, b1: bv8, b2: bv8, b3: bv8,
                      c0: bv8, c1: bv8, c2: bv8, c3: bv8, d0: bv8, d1: bv8, d2: bv8, d3: bv8)
    ensures Sum4(Sum4(a0, a1, a2, a3), Sum4(b0, b1, b2, b3), Sum4(c0, c1, c2, c3), Sum4(d0, d1, d2, d3))
         == Sum4(Sum4(a0, b0, c0, d0), Sum4(a1, b1, c1, d1), Sum4(a2, b2, c2, d2), Sum4(a3, b3, c3, d3))
  {
    hide Add;
    Sum4Add(Add(a0, a1), Add(b0, b1), Add(c0, c1), Add(d0, d1), Add(a2, a3), Add(b2, b3), Add(c2, c3), Add(d2, d3));
    Sum4Add(a0, b0, c0, d0, a1, b1, c1, d1);
    Sum4Add(a2, b2, c2, d2, a3, b3, c3, d3);
  }

  /** Multiplication by {02}, section 4.2.1 of FIPS 197. */
  function Xtime(b: bv8): bv8 {
    (b << 1) ^ (if b & 0x80 != 0 then 0x1b else 0)
  }

  function Mul3(b: bv8): bv8 { Add(Xtime(b), b) }

  function Mul9(b: bv8): bv8 { Add(Xtime(Xtime(Xtime(b))), b) }

  function Mul11(b: bv8): bv8 { Add(Add(Xtime(Xtime(Xtime(b))), Xtime(b)), b) }

  function Mul13(b: bv8): bv8 { Add(Add(Xtime(Xtime(Xtime(b))), Xtime(Xtime(b))), b) }

  function Mul14(b: bv8): bv8 { Add(Add(Xtime(Xtime(Xtime(b))), Xtime(Xtime(b))), Xtime(b)) }

  lemma XtimeLinear(x: bv8, y: bv8)
    ensures Xtime(Add(x, y)) == Add(Xtime(x), Xtime(y))
  {
    assert (x ^ y) << 1 == (x << 1) ^ (y << 1);
    assert (x ^ y) & 0x80 == (x & 0x80) ^ (y & 0x80);
    if x & 0x80 != 0 {
      if y & 0x80 != 0 {}
    } else {
      if y & 0x80 != 0 {}
    }
  }

  /** The coefficients of InvMixColumns distribute over addition in the field. */
  lemma MulLinear(x: bv8, y: bv8)
    ensures Mul9(Add(x, y)) == Add(Mul9(x), Mul9(y))
    ensures Mul11(Add(x, y)) == Add(Mul11(x), Mul11(y))
    ensures Mul13(Add(x, y)) == Add(Mul13(x), Mul13(y))
    ensures Mul14(Add(x, y)) == Add(Mul14(x), Mul14(y))
  {
    hide Xtime, Add;
    var x1, y1 := Xtime(x), Xtime(y);
    var x2, y2 := Xtime(x1), Xtime(y1);
    var x3, y3 := Xtime(x2), Xtime(y2);
    XtimeLinear(x, y);
    XtimeLinear(x1, y1);
    XtimeLinear(x2, y2);
    AddShuffle(x3, y3, x, y);
    AddShuffle(x3, y3, x1, y1);
    AddShuffle(Add(x3, x1), Add(y3, y1), x, y);
    AddShuffle(x3, y3, x2, y2);
    AddShuffle(Add(x3, x2), Add(y3, y2), x, y);
    AddShuffle(Add(x3, x2), Add(y3, y2), x1, y1);
  }

  lemma MulSum4(a: bv8, b: bv8, c: bv8, d: bv8)
    ensures Mul9(Sum4(a, b, c, d)) == Sum4(Mul9(a), Mul9(b), Mul9(c), Mul9(d))
    ensures Mul11(Sum4(a, b, c, d)) == Sum4(Mul11(a), Mul11(b), Mul11(c), Mul11(d))
    ensures Mul13(Sum4(a, b, c, d)) == Sum4(Mul13(a), Mul13(b), Mul13(c), Mul13(d))
    ensures Mul14(Sum4(a, b, c, d)) == Sum4(Mul14(a), Mul14(b), Mul14(c), Mul14(d))
  {
    hide Add, Mul9, Mul11, Mul13, Mul14;
    MulLinear(Add(a, b), Add(c, d));
    MulLinear(a, b);
    MulLinear(c, d);
  }

  /** One row of the MixColumns matrix, section 5.1.3 of FIPS 197. */
  function MixRow(a: bv8, b: bv8, c: bv8, d: bv8): bv8 { Sum4(Xtime(a), Mul3(b), c, d) }

  /** One row of the InvMixColumns matrix, section 5.3.3 of FIPS 197. */
  function InvMixRow(a: bv8, b: bv8, c: bv8, d: bv8): bv8 { Sum4(Mul14(a), Mul11(b), Mul13(c), Mul9(d)) }

  /** The two column polynomials are inverses modulo x^4 + 1: the constant coefficient of their product. */
  lemma MixPolynomialsConstant(b: bv8)
    ensures Sum4(Mul14(Xtime(b)), Mul11(b), Mul13(b), Mul9(Mul3(b))) == b
  {
  }

  lemma MixPolynomialsLinear(b: bv8)
    ensures Sum4(Mul14(Mul3(b)), Mul11(Xtime(b)), Mul13(b), Mul9(b)) == 0
  {
  }

  lemma MixPolynomialsQuadratic(b: bv8)
    ensures Sum4(Mul14(b), Mul11(Mul3(b)), Mul13(Xtime(b)), Mul9(b)) == 0
  {
  }

  lemma MixPolynomialsCubic(b: bv8)
    ensures Sum4(Mul14(b), Mul11(b), Mul13(Mul3(b)), Mul9(Xtime(b))) == 0
  {
  }

  lemma Sum4OfOne(a: bv8)
    ensures Sum4(a, 0, 0, 0) == a
  {
  }

  /** A row of InvMixColumns applied to the four rows of MixColumns gives back the first entry. */
  lemma InvMixRowUndoesMixRow(a: bv8, b: bv8, c: bv8, d: bv8)
    ensures InvMixRow(MixRow(a, b, c, d), MixRow(b, c, d, a), MixRow(c, d, a, b), MixRow(d, a, b, c)) == a
  {
    hide Sum4, Mul3, Mul9, Mul11, Mul13, Mul14, Xtime;
    MulSum4(Xtime(a), Mul3(b), c, d);
    Sum4Rotate(a, Xtime(b), Mul3(c), d);
    MulSum4(a, Xtime(b), Mul3(c), d);
    Sum4Rotate(a, b, Xtime(c), Mul3(d));
    Sum4Rotate(b, Xtime(c), Mul3(d), a);
    MulSum4(a, b, Xtime(c), Mul3(d));
    Sum4Rotate(Xtime(d), Mul3(a), b, c);
    MulSum4(Mul3(a), b, c, Xtime(d));
    Sum4Transpose(Mul14(Xtime(a)), Mul14(Mul3(b)), Mul14(c), Mul14(d),
                  Mul11(a), Mul11(Xtime(b)), Mul11(Mul3(c)), Mul11(d),
                  Mul13(a), Mul13(b), Mul13(Xtime(c)), Mul13(Mul3(d)),
                  Mul9(Mul3(a)), Mul9(b), Mul9(c), Mul9(Xtime(d)));
    MixPolynomialsConstant(a);
    MixPolynomialsLinear(b);
    MixPolynomialsQuadratic(c);
    MixPolynomialsCubic(d);
    Sum4OfOne(a);
  }

  lemma InvMixRowLinear(a: bv8, b: bv8, c: bv8, d: bv8, a': bv8, b': bv8, c': bv8, d': bv8)
    ensures InvMixRow(Add(a, a'), Add(b, b'), Add(c, c'), Add(d, d'))
         == Add(InvMixRow(a, b, c, d), InvMixRow(a', b', c', d'))
  {
    hide Add, Sum4, Mul9, Mul11, Mul13, Mul14;
    MulLinear(a, a');
    MulLinear(b, b');
    MulLinear(c, c');
    MulLinear(d, d');
    Sum4Add(Mul14(a), Mul11(b), Mul13(c), Mul9(d), Mul14(a'), Mul11(b'), Mul13(c'), Mul9(d'));
  }
}
