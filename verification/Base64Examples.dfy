/** The alphabet and the examples of RFC 4648: what the codecs must give, byte for byte. */
module Base64Examples {
  import opened Base64
  import opened Base64Legacy

  /** "ABCDEFGHIJKLMNOP". */
  lemma Alphabet0()
    ensures Tab(0) == 0x41 && Tab(1) == 0x42 && Tab(2) == 0x43 && Tab(3) == 0x44
    ensures Tab(4) == 0x45 && Tab(5) == 0x46 && Tab(6) == 0x47 && Tab(7) == 0x48
    ensures Tab(8) == 0x49 && Tab(9) == 0x4a && Tab(10) == 0x4b && Tab(11) == 0x4c
    ensures Tab(12) == 0x4d && Tab(13) == 0x4e && Tab(14) == 0x4f && Tab(15) == 0x50
  {
  }

  /** "QRSTUVWXYZabcdef". */
  lemma Alphabet1()
    ensures Tab(16) == 0x51 && Tab(17) == 0x52 && Tab(18) == 0x53 && Tab(19) == 0x54
    ensures Tab(20) == 0x55 && Tab(21) == 0x56 && Tab(22) == 0x57 && Tab(23) == 0x58
    ensures Tab(24) == 0x59 && Tab(25) == 0x5a && Tab(26) == 0x61 && Tab(27) == 0x62
    ensures Tab(28) == 0x63 && Tab(29) == 0x64 && Tab(30) == 0x65 && Tab(31) == 0x66
  {
  }

  /** "ghijklmnopqrstuv". */
  lemma Alphabet2()
    ensures Tab(32) == 0x67 && Tab(33) == 0x68 && Tab(34) == 0x69 && Tab(35) == 0x6a
    ensures Tab(36) == 0x6b && Tab(37) == 0x6c && Tab(38) == 0x6d && Tab(39) == 0x6e
    ensures Tab(40) == 0x6f && Tab(41) == 0x70 && Tab(42) == 0x71 && Tab(43) == 0x72
    ensures Tab(44) == 0x73 && Tab(45) == 0x74 && Tab(46) == 0x75 && Tab(47) == 0x76
  {
  }

  /** "wxyz0123456789+/". */
  lemma Alphabet3()
    ensures Tab(48) == 0x77 && Tab(49) == 0x78 && Tab(50) == 0x79 && Tab(51) == 0x7a
    ensures Tab(52) == 0x30 && Tab(53) == 0x31 && Tab(54) == 0x32 && Tab(55) == 0x33
    ensures Tab(56) == 0x34 && Tab(57) == 0x35 && Tab(58) == 0x36 && Tab(59) == 0x37
    ensures Tab(60) == 0x38 && Tab(61) == 0x39 && Tab(62) == 0x2b && Tab(63) == 0x2f
  {
  }

  /** A character is in the table exactly when some digit stands for it. */
  lemma InTabIff(c: bv8)
    ensures InTab(c) <==> exists i: bv8 :: i < 64 && Tab(i) == c
  {
    if InTab(c) {
      assert Tab(ChPos(c)) == c;
    }
    forall i: bv8 | i < 64 && Tab(i) == c
      ensures InTab(c)
    {
      ChPosTab(i);
    }
  }

  /** The test vectors of section 10: "f", "fo", "foo" and "foobar". */
  lemma TestVectors()
    ensures Encode([0x66]) == [0x5a, 0x67, 0x3d, 0x3d]
    ensures Encode([0x66, 0x6f]) == [0x5a, 0x6d, 0x38, 0x3d]
    ensures Encode([0x66, 0x6f, 0x6f]) == [0x5a, 0x6d, 0x39, 0x76]
    ensures Encode([0x66, 0x6f, 0x6f, 0x62, 0x61, 0x72]) == [0x5a, 0x6d, 0x39, 0x76, 0x59, 0x6d, 0x46, 0x79]
  {
    var foobar: seq<bv8> := [0x66, 0x6f, 0x6f, 0x62, 0x61, 0x72];
    assert foobar[3..] == [0x62, 0x61, 0x72] && foobar[3..][3..] == [];
    var foo: seq<bv8> := [0x66, 0x6f, 0x6f];
    assert foo[3..] == [];
  }

  /** The digits 62 and 63: the bytes fb and ff are "+w==" and "/w==". */
  lemma LastDigits()
    ensures Encode([0xfb]) == [0x2b, 0x77, 0x3d, 0x3d] && Encode([0xff]) == [0x2f, 0x77, 0x3d, 0x3d]
  {
  }

  /** The older encoder on the bytes 41 and 80: the sign of the second overwrites the first. */
  lemma OlderSmears()
    ensures EncodeSigned([0x41, 0x80]) == [0x2f, 0x34, 0x41, 0x3d]
  {
    EncodesSmeared([0x41, 0x80]);
    assert Smeared([0x41, 0x80]) == [0xff, 0x80];
  }

  /** The older decoder passes over a character outside the table before a first digit, but not before a
      second: "*QUI=" is decoded and "Q*UI=" is refused. */
  lemma OlderSkips()
    ensures Decoding([0x2a, 0x51, 0x55, 0x49, 0x3d]).0 == Decoded([0x41, 0x42])
    ensures Decoding([0x51, 0x2a, 0x55, 0x49, 0x3d]).0 == Rejected
  {
    var skipped: seq<bv8> := [0x2a, 0x51, 0x55, 0x49, 0x3d];
    assert FirstDigit(skipped, 0) == 1 && FirstDigitOrEnd(skipped, 3) == 3 && FirstDigitOrEnd(skipped, 4) == 4;
    assert Scan(skipped, 0) == Ended([0x41, 0x42]);
    var refused: seq<bv8> := [0x51, 0x2a, 0x55, 0x49, 0x3d];
    assert FirstDigit(refused, 0) == 0;
  }
}
