/** The substitution box of server/common/libtools/AesCore.cpp is the one of section 5.1.1 of FIPS 197. */
module SBox {
  import opened Gf256

  function Term(y: bv8, x: bv8, bit: bv8): bv8 { if y & bit != 0 then x else 0 }

  /** Multiplication in GF(2^8), section 4.2 of FIPS 197: the sum of the multiples of x by the powers of
      {02} that y holds. */
  function Times(x: bv8, y: bv8): bv8 {
    var x1 := Xtime(x);
    var x2 := Xtime(x1);
    var x3 := Xtime(x2);
    var x4 := Xtime(x3);
    var x5 := Xtime(x4);
    var x6 := Xtime(x5);
    var x7 := Xtime(x6);
    Term(y, x, 0x01) ^ Term(y, x1, 0x02) ^ Term(y, x2, 0x04) ^ Term(y, x3, 0x08)
    ^ Term(y, x4, 0x10) ^ Term(y, x5, 0x20) ^ Term(y, x6, 0x40) ^ Term(y, x7, 0x80)
  }

  /** The multiples the column mixes use are products in the field. */
  lemma SmallProducts(b: bv8)
    ensures Times(b, 0x02) == Xtime(b) && Times(b, 0x03) == Mul3(b) && Times(b, 0x09) == Mul9(b)
  {
    hide Xtime;
  }

  lemma LargeProducts(b: bv8)
    ensures Times(b, 0x0b) == Mul11(b) && Times(b, 0x0d) == Mul13(b)
  {
    hide Xtime;
  }

  lemma LargestProduct(b: bv8)
    ensures Times(b, 0x0e) == Mul14(b)
  {
    hide Xtime;
  }

  /** The affine transformation over GF(2), equation 5.1 of FIPS 197: bit i of the result is the sum of
      bits i, i + 4, i + 5, i + 6 and i + 7 of y, modulo 8, and bit i of {63}. */
  function Affine(y: bv8): bv8 {
    y ^ ((y << 1) | (y >> 7)) ^ ((y << 2) | (y >> 6)) ^ ((y << 3) | (y >> 5)) ^ ((y << 4) | (y >> 4)) ^ 0x63
  }

  /** Multiplicative inverses in the field, {00} standing for itself. */
  function Inverse(x: bv8): (y: bv8) {
    var r := x >> 4;
    var row: bv128 :=
      if r == 0x0 then 0x00018df6_cb527bd1_e84f29c0_b0e1e5c7
      else if r == 0x1 then 0x74b4aa4b_992b605f_583ffdcc_ff40eeb2
      else if r == 0x2 then 0x3a6e5af1_554da8c9_c10a9815_3044a2c2
      else if r == 0x3 then 0x2c45926c_f3396642_f235206f_77bb5919
      else if r == 0x4 then 0x1dfe3767_2d31f569_a764ab13_5425e909
      else if r == 0x5 then 0xed5c05ca_4c2487bf_183e22f0_51ec6117
      else if r == 0x6 then 0x165eafd3_49a63643_f44791df_3393213b
      else if r == 0x7 then 0x79b79785_10b5ba3c_b670d006_a1fa8182
      else if r == 0x8 then 0x837e7f80_9673be56_9b9e95d9_f702b9a4
      else if r == 0x9 then 0xde6a326d_d88a8472_2a149f88_f9dc899a
      else if r == 0xa then 0xfb7c2ec3_8fb86548_26c8124a_cee7d262
      else if r == 0xb then 0x0ce01fef_11757871_a58e763d_bdbc8657
      else if r == 0xc then 0x0b282fa3_dad4e40f_a9275304_1bfcace6
      else if r == 0xd then 0x7a07ae63_c5dbe2ea_948bc4d5_9df8906b
      else if r == 0xe then 0xb10dd6eb_c60ecfad_084ed7e3_5d501eb3
      else 0x5b233834_6846038c_dd9c7da0_cd1a411c;
    ByteOfRow(row, x & 0xf)
  }

  lemma InverseIsInverse(x: bv8)
    ensures if x == 0 then Inverse(x) == 0 else Times(x, Inverse(x)) == 1
  {
  }

  lemma SubstitutionIsAffine(x: bv8)
    ensures S(x) == Affine(Inverse(x))
  {
  }
}
