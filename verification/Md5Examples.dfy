/** A worked example of RFC 1321, appendix A.5: the digest of the twenty-six letters, operation by
    operation. */
module Md5Examples {
  import opened Rfc1321

  /** Section 3.3: the initial buffer, low-order bytes first. */
  lemma InitialBytes()
    ensures Output(INITIAL) == [0x01, 0x23, 0x45, 0x67, 0x89, 0xab, 0xcd, 0xef,
                                0xfe, 0xdc, 0xba, 0x98, 0x76, 0x54, 0x32, 0x10]
  {
  }

  /** The words the operations take, as section 3.4 lists them. */
  lemma IndicesListed()
    ensures Index(0) == 0 && Index(1) == 1 && Index(2) == 2 && Index(3) == 3 && Index(4) == 4
    ensures Index(5) == 5 && Index(6) == 6 && Index(7) == 7 && Index(8) == 8 && Index(9) == 9
    ensures Index(10) == 10 && Index(11) == 11 && Index(12) == 12 && Index(13) == 13 && Index(14) == 14
    ensures Index(15) == 15 && Index(16) == 1 && Index(17) == 6 && Index(18) == 11 && Index(19) == 0
    ensures Index(20) == 5 && Index(21) == 10 && Index(22) == 15 && Index(23) == 4 && Index(24) == 9
    ensures Index(25) == 14 && Index(26) == 3 && Index(27) == 8 && Index(28) == 13 && Index(29) == 2
    ensures Index(30) == 7 && Index(31) == 12 && Index(32) == 5 && Index(33) == 8 && Index(34) == 11
    ensures Index(35) == 14 && Index(36) == 1 && Index(37) == 4 && Index(38) == 7 && Index(39) == 10
    ensures Index(40) == 13 && Index(41) == 0 && Index(42) == 3 && Index(43) == 6 && Index(44) == 9
    ensures Index(45) == 12 && Index(46) == 15 && Index(47) == 2 && Index(48) == 0 && Index(49) == 7
    ensures Index(50) == 14 && Index(51) == 5 && Index(52) == 12 && Index(53) == 3 && Index(54) == 10
    ensures Index(55) == 1 && Index(56) == 8 && Index(57) == 15 && Index(58) == 6 && Index(59) == 13
    ensures Index(60) == 4 && Index(61) == 11 && Index(62) == 2 && Index(63) == 9
  {
  }

  /** The words of the padded message. */
  const X: seq<bv32> := [
    0x64636261, 0x68676665, 0x6c6b6a69, 0x706f6e6d,
    0x74737271, 0x78777675, 0x00807a79, 0x00000000,
    0x00000000, 0x00000000, 0x00000000, 0x00000000,
    0x00000000, 0x00000000, 0x000000d0, 0x00000000]

  /** Operation i, from its parts. */
  lemma OperationIs(i: nat, s: Digest, k: nat, t: bv32, turn: nat, aux: bv32, plus: bv32, all: bv32, sum: bv32,
                    turned: bv32, b: bv32)
    requires k < 16 && 0 < turn < 32 && Index(i) == k && T(i) == t && Shift(i) == turn
    requires Auxiliary(i, s.b, s.c, s.d) == aux && Add(X[k], t) == plus && Add(aux, plus) == all
    requires Add(s.a, all) == sum && Rotl(sum, turn) == turned && Add(s.b, turned) == b
    ensures Step(i, s, X) == Digest(s.d, b, s.b, s.c)
  {
    hide Index, T, Shift, Auxiliary, Add, Rotl;
  }

  lemma Taken(s: Digest, i: nat, end: nat)
    requires i < end
    ensures Steps(s, X, i, end) == Steps(Step(i, s, X), X, i + 1, end)
  {
  }

  lemma Operations0()
    ensures Steps(Digest(0x67452301, 0xefcdab89, 0x98badcfe, 0x10325476), X, 0, 64)
         == Steps(Digest(0x98badcfe, 0xaab1aaaa, 0xd6d117a6, 0xefcdab89), X, 2, 64)
  {
    hide Steps;
    OperationIs(0, Digest(0x67452301, 0xefcdab89, 0x98badcfe, 0x10325476), 0, 0xd76aa478, 7,
                0x98badcfe, 0x3bce06d9, 0xd488e3d7, 0x3bce06d8, 0xe7036c1d, 0xd6d117a6);
    Taken(Digest(0x67452301, 0xefcdab89, 0x98badcfe, 0x10325476), 0, 64);
    OperationIs(1, Digest(0x10325476, 0xd6d117a6, 0xefcdab89, 0x98badcfe), 1, 0xe8c7b756, 12,
                0xceebcbd8, 0x512f1dbb, 0x201ae993, 0x304d3e09, 0xd3e09304, 0xaab1aaaa);
    Taken(Digest(0x10325476, 0xd6d117a6, 0xefcdab89, 0x98badcfe), 1, 64);
  }

  lemma Operations2()
    ensures Steps(Digest(0x98badcfe, 0xaab1aaaa, 0xd6d117a6, 0xefcdab89), X, 2, 64)
         == Steps(Digest(0xd6d117a6, 0x4503b812, 0x227d8cf1, 0xaab1aaaa), X, 4, 64)
  {
    hide Steps;
    OperationIs(2, Digest(0x98badcfe, 0xaab1aaaa, 0xd6d117a6, 0xefcdab89), 2, 0x242070db, 17,
                0xc7dd03a3, 0x908bdb44, 0x5868dee7, 0xf123bbe5, 0x77cbe247, 0x227d8cf1);
    Taken(Digest(0x98badcfe, 0xaab1aaaa, 0xd6d117a6, 0xefcdab89), 2, 64);
    OperationIs(3, Digest(0xefcdab89, 0x227d8cf1, 0xaab1aaaa, 0xd6d117a6), 3, 0xc1bdceee, 22,
                0xf6b19ba6, 0x322d3d5b, 0x28ded901, 0x18ac848a, 0x22862b21, 0x4503b812);
    Taken(Digest(0xefcdab89, 0x227d8cf1, 0xaab1aaaa, 0xd6d117a6), 3, 64);
  }

  lemma Operations4()
    ensures Steps(Digest(0xd6d117a6, 0x4503b812, 0x227d8cf1, 0xaab1aaaa), X, 4, 64)
         == Steps(Digest(0x227d8cf1, 0xa811b278, 0xfe15f787, 0x4503b812), X, 6, 64)
  {
    hide Steps;
    OperationIs(4, Digest(0xd6d117a6, 0x4503b812, 0x227d8cf1, 0xaab1aaaa), 4, 0xf57c0faf, 7,
                0xaab18ab8, 0x69ef8220, 0x14a10cd8, 0xeb72247e, 0xb9123f75, 0xfe15f787);
    Taken(Digest(0xd6d117a6, 0x4503b812, 0x227d8cf1, 0xaab1aaaa), 4, 64);
    OperationIs(5, Digest(0xaab1aaaa, 0xfe15f787, 0x4503b812, 0x227d8cf1), 5, 0x4787c62a, 12,
                0x4469b872, 0xbfff3c9f, 0x0468f511, 0xaf1a9fbb, 0xa9fbbaf1, 0xa811b278);
    Taken(Digest(0xaab1aaaa, 0xfe15f787, 0x4503b812, 0x227d8cf1), 5, 64);
  }

  lemma Operations6()
    ensures Steps(Digest(0x227d8cf1, 0xa811b278, 0xfe15f787, 0x4503b812), X, 6, 64)
         == Steps(Digest(0xfe15f787, 0xda9bbb0d, 0xb71122fc, 0xa811b278), X, 8, 64)
  {
    hide Steps;
    OperationIs(6, Digest(0x227d8cf1, 0xa811b278, 0xfe15f787, 0x4503b812), 6, 0xa8304613, 17,
                0xed13ba02, 0xa8b0c08c, 0x95c47a8e, 0xb842077f, 0x0eff7084, 0xb71122fc);
    Taken(Digest(0x227d8cf1, 0xa811b278, 0xfe15f787, 0x4503b812), 6, 64);
    OperationIs(7, Digest(0x4503b812, 0xb71122fc, 0xa811b278, 0xfe15f787), 7, 0xfd469501, 22,
                0xe815f77b, 0xfd469501, 0xe55c8c7c, 0x2a60448e, 0x238a9811, 0xda9bbb0d);
    Taken(Digest(0x4503b812, 0xb71122fc, 0xa811b278, 0xfe15f787), 7, 64);
  }

  lemma Operations8()
    ensures Steps(Digest(0xfe15f787, 0xda9bbb0d, 0xb71122fc, 0xa811b278), X, 8, 64)
         == Steps(Digest(0xb71122fc, 0x2bbe757f, 0xae752899, 0xda9bbb0d), X, 10, 64)
  {
    hide Steps;
    OperationIs(8, Digest(0xfe15f787, 0xda9bbb0d, 0xb71122fc, 0xa811b278), 8, 0x698098d8, 7,
                0xb211227c, 0x698098d8, 0x1b91bb54, 0x19a7b2db, 0xd3d96d8c, 0xae752899);
    Taken(Digest(0xfe15f787, 0xda9bbb0d, 0xb71122fc, 0xa811b278), 8, 64);
    OperationIs(9, Digest(0xa811b278, 0xae752899, 0xda9bbb0d, 0xb71122fc), 9, 0x8b44f7af, 12,
                0x9b112a6d, 0x8b44f7af, 0x2656221c, 0xce67d494, 0x7d494ce6, 0x2bbe757f);
    Taken(Digest(0xa811b278, 0xae752899, 0xda9bbb0d, 0xb71122fc), 9, 64);
  }

  lemma Operations10()
    ensures Steps(Digest(0xb71122fc, 0x2bbe757f, 0xae752899, 0xda9bbb0d), X, 10, 64)
         == Steps(Digest(0xae752899, 0x56cfa5cb, 0x7d4bd80b, 0x2bbe757f), X, 12, 64)
  {
    hide Steps;
    OperationIs(10, Digest(0xb71122fc, 0x2bbe757f, 0xae752899, 0xda9bbb0d), 10, 0xffff5bb1, 17,
                0xfa35aa19, 0xffff5bb1, 0xfa3505ca, 0xb14628c6, 0x518d628c, 0x7d4bd80b);
    Taken(Digest(0xb71122fc, 0x2bbe757f, 0xae752899, 0xda9bbb0d), 10, 64);
    OperationIs(11, Digest(0xda9bbb0d, 0x7d4bd80b, 0x2bbe757f, 0xae752899), 11, 0x895cd7be, 22,
                0xab3e709b, 0x895cd7be, 0x349b4859, 0x0f370366, 0xd983cdc0, 0x56cfa5cb);
    Taken(Digest(0xda9bbb0d, 0x7d4bd80b, 0x2bbe757f, 0xae752899), 11, 64);
  }

  lemma Operations12()
    ensures Steps(Digest(0xae752899, 0x56cfa5cb, 0x7d4bd80b, 0x2bbe757f), X, 12, 64)
         == Steps(Digest(0x7d4bd80b, 0x85567d90, 0x1754a316, 0x56cfa5cb), X, 14, 64)
  {
    hide Steps;
    OperationIs(12, Digest(0xae752899, 0x56cfa5cb, 0x7d4bd80b, 0x2bbe757f), 12, 0x6b901122, 7,
                0x7d7bd03f, 0x6b901122, 0xe90be161, 0x978109fa, 0xc084fd4b, 0x1754a316);
    Taken(Digest(0xae752899, 0x56cfa5cb, 0x7d4bd80b, 0x2bbe757f), 12, 64);
    OperationIs(13, Digest(0x2bbe757f, 0x1754a316, 0x56cfa5cb, 0x7d4bd80b), 13, 0xfd987193, 12,
                0x7e4ff90b, 0xfd987193, 0x7be86a9e, 0xa7a6e01d, 0x6e01da7a, 0x85567d90);
    Taken(Digest(0x2bbe757f, 0x1754a316, 0x56cfa5cb, 0x7d4bd80b), 13, 64);
  }

  lemma Operations14()
    ensures Steps(Digest(0x7d4bd80b, 0x85567d90, 0x1754a316, 0x56cfa5cb), X, 14, 64)
         == Steps(Digest(0x1754a316, 0x608d6b7e, 0x00df74d5, 0x85567d90), X, 16, 64)
  {
    hide Steps;
    OperationIs(14, Digest(0x7d4bd80b, 0x85567d90, 0x1754a316, 0x56cfa5cb), 14, 0xa679438e, 17,
                0x57dda15b, 0xa679445e, 0xfe56e5b9, 0x7ba2bdc4, 0x7b88f745, 0x00df74d5);
    Taken(Digest(0x7d4bd80b, 0x85567d90, 0x1754a316, 0x56cfa5cb), 14, 64);
    OperationIs(15, Digest(0x56cfa5cb, 0x00df74d5, 0x85567d90, 0x1754a316), 15, 0x49b40821, 22,
                0x1756f792, 0x49b40821, 0x610affb3, 0xb7daa57e, 0x5fadf6a9, 0x608d6b7e);
    Taken(Digest(0x56cfa5cb, 0x00df74d5, 0x85567d90, 0x1754a316), 15, 64);
  }

  lemma Operations16()
    ensures Steps(Digest(0x1754a316, 0x608d6b7e, 0x00df74d5, 0x85567d90), X, 16, 64)
         == Steps(Digest(0x00df74d5, 0x5dcee119, 0x2d8071cc, 0x608d6b7e), X, 18, 64)
  {
    hide Steps;
    OperationIs(16, Digest(0x1754a316, 0x608d6b7e, 0x00df74d5, 0x85567d90), 1, 0xf61e2562, 5,
                0x008d6955, 0x5e858bc7, 0x5f12f51c, 0x76679832, 0xccf3064e, 0x2d8071cc);
    Taken(Digest(0x1754a316, 0x608d6b7e, 0x00df74d5, 0x85567d90), 16, 64);
    OperationIs(17, Digest(0x85567d90, 0x2d8071cc, 0x608d6b7e, 0x00df74d5), 6, 0xc040b340, 9,
                0x60807bee, 0xc0c12db9, 0x2141a9a7, 0xa6982737, 0x304e6f4d, 0x5dcee119);
    Taken(Digest(0x85567d90, 0x2d8071cc, 0x608d6b7e, 0x00df74d5), 17, 64);
  }

  lemma Operations18()
    ensures Steps(Digest(0x00df74d5, 0x5dcee119, 0x2d8071cc, 0x608d6b7e), X, 18, 64)
         == Steps(Digest(0x2d8071cc, 0x4c2145b3, 0xedfe7e4b, 0x5dcee119), X, 20, 64)
  {
    hide Steps;
    OperationIs(18, Digest(0x00df74d5, 0x5dcee119, 0x2d8071cc, 0x608d6b7e), 11, 0x265e5a51, 14,
                0x4d8c7198, 0x265e5a51, 0x73eacbe9, 0x74ca40be, 0x902f9d32, 0xedfe7e4b);
    Taken(Digest(0x00df74d5, 0x5dcee119, 0x2d8071cc, 0x608d6b7e), 18, 64);
    OperationIs(19, Digest(0x608d6b7e, 0xedfe7e4b, 0x5dcee119, 0x2d8071cc), 0, 0xe9b6c7aa, 20,
                0x7dcef059, 0x4e1a2a0b, 0xcbe91a64, 0x2c7685e2, 0x5e22c768, 0x4c2145b3);
    Taken(Digest(0x608d6b7e, 0xedfe7e4b, 0x5dcee119, 0x2d8071cc), 19, 64);
  }

  lemma Operations20()
    ensures Steps(Digest(0x2d8071cc, 0x4c2145b3, 0xedfe7e4b, 0x5dcee119), X, 20, 64)
         == Steps(Digest(0xedfe7e4b, 0x977efd2a, 0x570c43e0, 0x4c2145b3), X, 22, 64)
  {
    hide Steps;
    OperationIs(20, Digest(0x2d8071cc, 0x4c2145b3, 0xedfe7e4b, 0x5dcee119), 5, 0xd62f105d, 5,
                0xec305f53, 0x4ea686d2, 0x3ad6e625, 0x685757f1, 0x0aeafe2d, 0x570c43e0);
    Taken(Digest(0x2d8071cc, 0x4c2145b3, 0xedfe7e4b, 0x5dcee119), 20, 64);
    OperationIs(21, Digest(0x5dcee119, 0x570c43e0, 0x4c2145b3, 0xedfe7e4b), 10, 0x02441453, 9,
                0x450d43f0, 0x02441453, 0x47515843, 0xa520395c, 0x4072b94a, 0x977efd2a);
    Taken(Digest(0x5dcee119, 0x570c43e0, 0x4c2145b3, 0xedfe7e4b), 21, 64);
  }

  lemma Operations22()
    ensures Steps(Digest(0xedfe7e4b, 0x977efd2a, 0x570c43e0, 0x4c2145b3), X, 22, 64)
         == Steps(Digest(0x570c43e0, 0xc9f162d4, 0xc28ab49d, 0x977efd2a), X, 24, 64)
  {
    hide Steps;
    OperationIs(22, Digest(0xedfe7e4b, 0x977efd2a, 0x570c43e0, 0x4c2145b3), 15, 0xd8a1e681, 14,
                0x172c4762, 0xd8a1e681, 0xefce2de3, 0xddccac2e, 0x2b0bb773, 0xc28ab49d);
    Taken(Digest(0xedfe7e4b, 0x977efd2a, 0x570c43e0, 0x4c2145b3), 22, 64);
    OperationIs(23, Digest(0x4c2145b3, 0xc28ab49d, 0x977efd2a, 0x570c43e0), 4, 0xe7d3fbc8, 20,
                0xc27abc8a, 0x5c476e39, 0x1ec22ac3, 0x6ae37076, 0x0766ae37, 0xc9f162d4);
    Taken(Digest(0x4c2145b3, 0xc28ab49d, 0x977efd2a, 0x570c43e0), 23, 64);
  }

  lemma Operations24()
    ensures Steps(Digest(0x570c43e0, 0xc9f162d4, 0xc28ab49d, 0x977efd2a), X, 24, 64)
         == Steps(Digest(0xc28ab49d, 0x89980104, 0x25bfae3b, 0xc9f162d4), X, 26, 64)
  {
    hide Steps;
    OperationIs(24, Digest(0x570c43e0, 0xc9f162d4, 0xc28ab49d, 0x977efd2a), 9, 0x21e1cde6, 5,
                0xc1f06095, 0x21e1cde6, 0xe3d22e7b, 0x3ade725b, 0x5bce4b67, 0x25bfae3b);
    Taken(Digest(0x570c43e0, 0xc9f162d4, 0xc28ab49d, 0x977efd2a), 24, 64);
    OperationIs(25, Digest(0x977efd2a, 0x25bfae3b, 0xc9f162d4, 0xc28ab49d), 14, 0xc33707d6, 9,
                0x09fbe659, 0xc33708a6, 0xcd32eeff, 0x64b1ec29, 0x63d852c9, 0x89980104);
    Taken(Digest(0x977efd2a, 0x25bfae3b, 0xc9f162d4, 0xc28ab49d), 25, 64);
  }

  lemma Operations26()
    ensures Steps(Digest(0xc28ab49d, 0x89980104, 0x25bfae3b, 0xc9f162d4), X, 26, 64)
         == Steps(Digest(0x25bfae3b, 0xe6d3b398, 0xf8c8365f, 0x89980104), X, 28, 64)
  {
    hide Steps;
    OperationIs(26, Digest(0xc28ab49d, 0x89980104, 0x25bfae3b, 0xc9f162d4), 3, 0xf4d50d87, 14,
                0xad9e8c2f, 0x65447bf4, 0x12e30823, 0xd56dbcc0, 0x6f30355b, 0xf8c8365f);
    Taken(Digest(0xc28ab49d, 0x89980104, 0x25bfae3b, 0xc9f162d4), 26, 64);
    OperationIs(27, Digest(0xc9f162d4, 0xf8c8365f, 0x89980104, 0x25bfae3b), 8, 0x455a14ed, 20,
                0xa888271f, 0x455a14ed, 0xede23c0c, 0xb7d39ee0, 0xee0b7d39, 0xe6d3b398);
    Taken(Digest(0xc9f162d4, 0xf8c8365f, 0x89980104, 0x25bfae3b), 27, 64);
  }

  lemma Operations28()
    ensures Steps(Digest(0x25bfae3b, 0xe6d3b398, 0xf8c8365f, 0x89980104), X, 28, 64)
         == Steps(Digest(0xf8c8365f, 0x927b72e2, 0xf54d8710, 0xe6d3b398), X, 30, 64)
  {
    hide Steps;
    OperationIs(28, Digest(0x25bfae3b, 0xe6d3b398, 0xf8c8365f, 0x89980104), 13, 0xa9e3e905, 5,
                0xf0d0375b, 0xa9e3e905, 0x9ab42060, 0xc073ce9b, 0x0e79d378, 0xf54d8710);
    Taken(Digest(0x25bfae3b, 0xe6d3b398, 0xf8c8365f, 0x89980104), 28, 64);
    OperationIs(29, Digest(0x89980104, 0xf54d8710, 0xe6d3b398, 0xf8c8365f), 2, 0xfcefa3f8, 9,
                0xf65b8790, 0x695b0e61, 0x5fb695f1, 0xe94e96f5, 0x9d2debd2, 0x927b72e2);
    Taken(Digest(0x89980104, 0xf54d8710, 0xe6d3b398, 0xf8c8365f), 29, 64);
  }

  lemma Operations30()
    ensures Steps(Digest(0xf8c8365f, 0x927b72e2, 0xf54d8710, 0xe6d3b398), X, 30, 64)
         == Steps(Digest(0xf54d8710, 0xaeb35766, 0x2e69afc7, 0x927b72e2), X, 32, 64)
  {
    hide Steps;
    OperationIs(30, Digest(0xf8c8365f, 0x927b72e2, 0xf54d8710, 0xe6d3b398), 7, 0x676f02d9, 14,
                0x935f3680, 0x676f02d9, 0xface3959, 0xf3966fb8, 0x9bee3ce5, 0x2e69afc7);
    Taken(Digest(0xf8c8365f, 0x927b72e2, 0xf54d8710, 0xe6d3b398), 30, 64);
    OperationIs(31, Digest(0xe6d3b398, 0x2e69afc7, 0x927b72e2, 0xf54d8710), 12, 0x8d2a4c8a, 20,
                0x267bf7e2, 0x8d2a4c8a, 0xb3a6446c, 0x9a79f804, 0x8049a79f, 0xaeb35766);
    Taken(Digest(0xe6d3b398, 0x2e69afc7, 0x927b72e2, 0xf54d8710), 31, 64);
  }

  lemma Operations32()
    ensures Steps(Digest(0xf54d8710, 0xaeb35766, 0x2e69afc7, 0x927b72e2), X, 32, 64)
         == Steps(Digest(0x2e69afc7, 0x4c8ffa80, 0xb4bf680e, 0xaeb35766), X, 34, 64)
  {
    hide Steps;
    OperationIs(32, Digest(0xf54d8710, 0xaeb35766, 0x2e69afc7, 0x927b72e2), 5, 0xfffa3942, 4,
                0x12a18a43, 0x7871afb7, 0x8b1339fa, 0x8060c10a, 0x060c10a8, 0xb4bf680e);
    Taken(Digest(0xf54d8710, 0xaeb35766, 0x2e69afc7, 0x927b72e2), 32, 64);
    OperationIs(33, Digest(0x927b72e2, 0xb4bf680e, 0xaeb35766, 0x2e69afc7), 8, 0x8771f681, 11,
                0x346590af, 0x8771f681, 0xbbd78730, 0x4e52fa12, 0x97d09272, 0x4c8ffa80);
    Taken(Digest(0x927b72e2, 0xb4bf680e, 0xaeb35766, 0x2e69afc7), 33, 64);
  }

  lemma Operations34()
    ensures Steps(Digest(0x2e69afc7, 0x4c8ffa80, 0xb4bf680e, 0xaeb35766), X, 34, 64)
         == Steps(Digest(0xb4bf680e, 0x06a5e211, 0x2361ed0a, 0x4c8ffa80), X, 36, 64)
  {
    hide Steps;
    OperationIs(34, Digest(0x2e69afc7, 0x4c8ffa80, 0xb4bf680e, 0xaeb35766), 11, 0x6d9d6122, 16,
                0x5683c5e8, 0x6d9d6122, 0xc421270a, 0xf28ad6d1, 0xd6d1f28a, 0x2361ed0a);
    Taken(Digest(0x2e69afc7, 0x4c8ffa80, 0xb4bf680e, 0xaeb35766), 34, 64);
    OperationIs(35, Digest(0xaeb35766, 0x2361ed0a, 0x4c8ffa80, 0xb4bf680e), 14, 0xfde5380c, 23,
                0xdb517f84, 0xfde538dc, 0xd936b860, 0x87ea0fc6, 0xe343f507, 0x06a5e211);
    Taken(Digest(0xaeb35766, 0x2361ed0a, 0x4c8ffa80, 0xb4bf680e), 35, 64);
  }

  lemma Operations36()
    ensures Steps(Digest(0xb4bf680e, 0x06a5e211, 0x2361ed0a, 0x4c8ffa80), X, 36, 64)
         == Steps(Digest(0x2361ed0a, 0xf1e6dc7a, 0xb9c0c733, 0x06a5e211), X, 38, 64)
  {
    hide Steps;
    OperationIs(36, Digest(0xb4bf680e, 0x06a5e211, 0x2361ed0a, 0x4c8ffa80), 1, 0xa4beea44, 4,
                0x694bf59b, 0x0d2650a9, 0x76724644, 0x2b31ae52, 0xb31ae522, 0xb9c0c733);
    Taken(Digest(0xb4bf680e, 0x06a5e211, 0x2361ed0a, 0x4c8ffa80), 36, 64);
    OperationIs(37, Digest(0x4c8ffa80, 0xb9c0c733, 0x06a5e211, 0x2361ed0a), 4, 0x4bdecfa9, 11,
                0x9c04c828, 0xc052421a, 0x5c570a42, 0xa8e704c2, 0x38261547, 0xf1e6dc7a);
    Taken(Digest(0x4c8ffa80, 0xb9c0c733, 0x06a5e211, 0x2361ed0a), 37, 64);
  }

  lemma Operations38()
    ensures Steps(Digest(0x2361ed0a, 0xf1e6dc7a, 0xb9c0c733, 0x06a5e211), X, 38, 64)
         == Steps(Digest(0xb9c0c733, 0x8d41bf99, 0x23a9451b, 0xf1e6dc7a), X, 40, 64)
  {
    hide Steps;
    OperationIs(38, Digest(0x2361ed0a, 0xf1e6dc7a, 0xb9c0c733, 0x06a5e211), 7, 0xf6bb4b60, 16,
                0x4e83f958, 0xf6bb4b60, 0x453f44b8, 0x68a131c2, 0x31c268a1, 0x23a9451b);
    Taken(Digest(0x2361ed0a, 0xf1e6dc7a, 0xb9c0c733, 0x06a5e211), 38, 64);
    OperationIs(39, Digest(0x06a5e211, 0x23a9451b, 0xf1e6dc7a, 0xb9c0c733), 10, 0xbebfbc70, 23,
                0x6b8f5e52, 0xbebfbc70, 0x2a4f1ac2, 0x30f4fcd3, 0x69987a7e, 0x8d41bf99);
    Taken(Digest(0x06a5e211, 0x23a9451b, 0xf1e6dc7a, 0xb9c0c733), 39, 64);
  }

  lemma Operations40()
    ensures Steps(Digest(0xb9c0c733, 0x8d41bf99, 0x23a9451b, 0xf1e6dc7a), X, 40, 64)
         == Steps(Digest(0x23a9451b, 0x02c0b11c, 0xa3e88ead, 0x8d41bf99), X, 42, 64)
  {
    hide Steps;
    OperationIs(40, Digest(0xb9c0c733, 0x8d41bf99, 0x23a9451b, 0xf1e6dc7a), 13, 0x289b7ec6, 4,
                0x5f0e26f8, 0x289b7ec6, 0x87a9a5be, 0x416a6cf1, 0x16a6cf14, 0xa3e88ead);
    Taken(Digest(0xb9c0c733, 0x8d41bf99, 0x23a9451b, 0xf1e6dc7a), 40, 64);
    OperationIs(41, Digest(0xf1e6dc7a, 0xa3e88ead, 0x8d41bf99, 0x23a9451b), 0, 0xeaa127fa, 11,
                0x0d00742f, 0x4f048a5b, 0x5c04fe8a, 0x4debdb04, 0x5ed8226f, 0x02c0b11c);
    Taken(Digest(0xf1e6dc7a, 0xa3e88ead, 0x8d41bf99, 0x23a9451b), 41, 64);
  }

  lemma Operations42()
    ensures Steps(Digest(0x23a9451b, 0x02c0b11c, 0xa3e88ead, 0x8d41bf99), X, 42, 64)
         == Steps(Digest(0xa3e88ead, 0x90a35af5, 0x66f6468d, 0x02c0b11c), X, 44, 64)
  {
    hide Steps;
    OperationIs(42, Digest(0x23a9451b, 0x02c0b11c, 0xa3e88ead, 0x8d41bf99), 3, 0xd4ef3085, 16,
                0x2c698028, 0x455e9ef2, 0x71c81f1a, 0x95716435, 0x64359571, 0x66f6468d);
    Taken(Digest(0x23a9451b, 0x02c0b11c, 0xa3e88ead, 0x8d41bf99), 42, 64);
    OperationIs(43, Digest(0x8d41bf99, 0x66f6468d, 0x02c0b11c, 0xa3e88ead), 6, 0x04881d05, 23,
                0xc7de793c, 0x0508977e, 0xcce710ba, 0x5a28d053, 0x29ad1468, 0x90a35af5);
    Taken(Digest(0x8d41bf99, 0x66f6468d, 0x02c0b11c, 0xa3e88ead), 43, 64);
  }

  lemma Operations44()
    ensures Steps(Digest(0xa3e88ead, 0x90a35af5, 0x66f6468d, 0x02c0b11c), X, 44, 64)
         == Steps(Digest(0x66f6468d, 0xa04b4904, 0xb5d41f9c, 0x90a35af5), X, 46, 64)
  {
    hide Steps;
    OperationIs(44, Digest(0xa3e88ead, 0x90a35af5, 0x66f6468d, 0x02c0b11c), 9, 0xd9d4d039, 4,
                0xf495ad64, 0xd9d4d039, 0xce6a7d9d, 0x72530c4a, 0x2530c4a7, 0xb5d41f9c);
    Taken(Digest(0xa3e88ead, 0x90a35af5, 0x66f6468d, 0x02c0b11c), 44, 64);
    OperationIs(45, Digest(0x02c0b11c, 0xb5d41f9c, 0x90a35af5, 0x66f6468d), 12, 0xe6db99e5, 11,
                0x438103e4, 0xe6db99e5, 0x2a5c9dc9, 0x2d1d4ee5, 0xea772968, 0xa04b4904);
    Taken(Digest(0x02c0b11c, 0xb5d41f9c, 0x90a35af5, 0x66f6468d), 45, 64);
  }

  lemma Operations46()
    ensures Steps(Digest(0x66f6468d, 0xa04b4904, 0xb5d41f9c, 0x90a35af5), X, 46, 64)
         == Steps(Digest(0xb5d41f9c, 0x71d10367, 0x703d54d8, 0xa04b4904), X, 48, 64)
  {
    hide Steps;
    OperationIs(46, Digest(0x66f6468d, 0xa04b4904, 0xb5d41f9c, 0x90a35af5), 15, 0x1fa27cf8, 16,
                0x853c0c6d, 0x1fa27cf8, 0xa4de8965, 0x0bd4cff2, 0xcff20bd4, 0x703d54d8);
    Taken(Digest(0x66f6468d, 0xa04b4904, 0xb5d41f9c, 0x90a35af5), 46, 64);
    OperationIs(47, Digest(0x90a35af5, 0x703d54d8, 0xa04b4904, 0xb5d41f9c), 2, 0xc4ac5665, 23,
                0x65a20240, 0x3117c0ce, 0x96b9c30e, 0x275d1e03, 0x0193ae8f, 0x71d10367);
    Taken(Digest(0x90a35af5, 0x703d54d8, 0xa04b4904, 0xb5d41f9c), 47, 64);
  }

  lemma Operations48()
    ensures Steps(Digest(0xb5d41f9c, 0x71d10367, 0x703d54d8, 0xa04b4904), X, 48, 64)
         == Steps(Digest(0x703d54d8, 0x65456b34, 0xfc32dd6e, 0x71d10367), X, 50, 64)
  {
    hide Steps;
    OperationIs(48, Digest(0xb5d41f9c, 0x71d10367, 0x703d54d8, 0xa04b4904), 0, 0xf4292244, 6,
                0x0fc8e327, 0x588c84a5, 0x685567cc, 0x1e298768, 0x8a61da07, 0xfc32dd6e);
    Taken(Digest(0xb5d41f9c, 0x71d10367, 0x703d54d8, 0xa04b4904), 48, 64);
    OperationIs(49, Digest(0xa04b4904, 0xfc32dd6e, 0x71d10367, 0x703d54d8), 7, 0x432aff97, 10,
                0x8e23fc08, 0x432aff97, 0xd14efb9f, 0x719a44a3, 0x69128dc6, 0x65456b34);
    Taken(Digest(0xa04b4904, 0xfc32dd6e, 0x71d10367, 0x703d54d8), 49, 64);
  }

  lemma Operations50()
    ensures Steps(Digest(0x703d54d8, 0x65456b34, 0xfc32dd6e, 0x71d10367), X, 50, 64)
         == Steps(Digest(0xfc32dd6e, 0x33edb197, 0xb35602cb, 0x65456b34), X, 52, 64)
  {
    hide Steps;
    OperationIs(50, Digest(0x703d54d8, 0x65456b34, 0xfc32dd6e, 0x71d10367), 14, 0xab9423a7, 15,
                0x135d22d2, 0xab942477, 0xbef14749, 0x2f2e9c21, 0x4e109797, 0xb35602cb);
    Taken(Digest(0x703d54d8, 0x65456b34, 0xfc32dd6e, 0x71d10367), 50, 64);
    OperationIs(51, Digest(0x71d10367, 0xb35602cb, 0x65456b34, 0xfc32dd6e), 5, 0xfc93a039, 21,
                0xd69a49ef, 0x750b16ae, 0x4ba5609d, 0xbd766404, 0x8097aecc, 0x33edb197);
    Taken(Digest(0x71d10367, 0xb35602cb, 0x65456b34, 0xfc32dd6e), 51, 64);
  }

  lemma Operations52()
    ensures Steps(Digest(0xfc32dd6e, 0x33edb197, 0xb35602cb, 0x65456b34), X, 52, 64)
         == Steps(Digest(0xb35602cb, 0xd9bb987c, 0xc1e942f1, 0x33edb197), X, 54, 64)
  {
    hide Steps;
    OperationIs(52, Digest(0xfc32dd6e, 0x33edb197, 0xb35602cb, 0x65456b34), 12, 0x655b59c3, 6,
                0x08a9b714, 0x655b59c3, 0x6e0510d7, 0x6a37ee45, 0x8dfb915a, 0xc1e942f1);
    Taken(Digest(0xfc32dd6e, 0x33edb197, 0xb35602cb, 0x65456b34), 52, 64);
    OperationIs(53, Digest(0x65456b34, 0xc1e942f1, 0x33edb197, 0xb35602cb), 3, 0x8f0ccc92, 10,
                0xfe044e62, 0xff7c3aff, 0xfd808961, 0x62c5f495, 0x17d2558b, 0xd9bb987c);
    Taken(Digest(0x65456b34, 0xc1e942f1, 0x33edb197, 0xb35602cb), 53, 64);
  }

  lemma Operations54()
    ensures Steps(Digest(0xb35602cb, 0xd9bb987c, 0xc1e942f1, 0x33edb197), X, 54, 64)
         == Steps(Digest(0xc1e942f1, 0x83877d1b, 0x23a68048, 0xd9bb987c), X, 56, 64)
  {
    hide Steps;
    OperationIs(54, Digest(0xb35602cb, 0xd9bb987c, 0xc1e942f1, 0x33edb197), 10, 0xffeff47d, 15,
                0x1c529c8d, 0xffeff47d, 0x1c42910a, 0xcf9893d5, 0x49eae7cc, 0x23a68048);
    Taken(Digest(0xb35602cb, 0xd9bb987c, 0xc1e942f1, 0x33edb197), 54, 64);
    OperationIs(55, Digest(0x33edb197, 0x23a68048, 0xd9bb987c, 0xc1e942f1), 1, 0x85845dd1, 21,
                0xe60d2532, 0xedebc436, 0xd3f8e968, 0x07e69aff, 0x5fe0fcd3, 0x83877d1b);
    Taken(Digest(0x33edb197, 0x23a68048, 0xd9bb987c, 0xc1e942f1), 55, 64);
  }

  lemma Operations56()
    ensures Steps(Digest(0xc1e942f1, 0x83877d1b, 0x23a68048, 0xd9bb987c), X, 56, 64)
         == Steps(Digest(0x23a68048, 0x847fc2e7, 0x0077c208, 0x83877d1b), X, 58, 64)
  {
    hide Steps;
    OperationIs(56, Digest(0xc1e942f1, 0x83877d1b, 0x23a68048, 0xd9bb987c), 8, 0x6fa87e4f, 6,
                0x8461ffd3, 0x6fa87e4f, 0xf40a7e22, 0xb5f3c113, 0x7cf044ed, 0x0077c208);
    Taken(Digest(0xc1e942f1, 0x83877d1b, 0x23a68048, 0xd9bb987c), 56, 64);
    OperationIs(57, Digest(0xd9bb987c, 0x0077c208, 0x83877d1b, 0x23a68048), 15, 0xfe2ce6e0, 10,
                0x5ff882a4, 0xfe2ce6e0, 0x5e256984, 0x37e10200, 0x840800df, 0x847fc2e7);
    Taken(Digest(0xd9bb987c, 0x0077c208, 0x83877d1b, 0x23a68048), 57, 64);
  }

  lemma Operations58()
    ensures Steps(Digest(0x23a68048, 0x847fc2e7, 0x0077c208, 0x83877d1b), X, 58, 64)
         == Steps(Digest(0x0077c208, 0x5e6bc930, 0xa3e2247f, 0x847fc2e7), X, 60, 64)
  {
    hide Steps;
    OperationIs(58, Digest(0x23a68048, 0x847fc2e7, 0x0077c208, 0x83877d1b), 6, 0xa3014314, 15,
                0xfc0800ef, 0xa381bd8d, 0x9f89be7c, 0xc3303ec4, 0x1f626198, 0xa3e2247f);
    Taken(Digest(0x23a68048, 0x847fc2e7, 0x0077c208, 0x83877d1b), 58, 64);
    OperationIs(59, Digest(0x83877d1b, 0xa3e2247f, 0x847fc2e7, 0x0077c208), 13, 0x4e0811a1, 21,
                0x7b95ff18, 0x4e0811a1, 0xc99e10b9, 0x4d258dd4, 0xba89a4b1, 0x5e6bc930);
    Taken(Digest(0x83877d1b, 0xa3e2247f, 0x847fc2e7, 0x0077c208), 59, 64);
  }

  lemma Operations60()
    ensures Steps(Digest(0x0077c208, 0x5e6bc930, 0xa3e2247f, 0x847fc2e7), X, 60, 64)
         == Steps(Digest(0xa3e2247f, 0x2baf1354, 0x708ed9c2, 0x5e6bc930), X, 62, 64)
  {
    hide Steps;
    OperationIs(60, Digest(0x0077c208, 0x5e6bc930, 0xa3e2247f, 0x847fc2e7), 4, 0xf7537e82, 6,
                0xdc09d947, 0x6bc6f0f3, 0x47d0ca3a, 0x48488c42, 0x12231092, 0x708ed9c2);
    Taken(Digest(0x0077c208, 0x5e6bc930, 0xa3e2247f, 0x847fc2e7), 60, 64);
    OperationIs(61, Digest(0x847fc2e7, 0x708ed9c2, 0x5e6bc930, 0xa3e2247f), 11, 0xbd3af235, 10,
                0x22f412f2, 0xbd3af235, 0xe02f0527, 0x64aec80e, 0xbb203992, 0x2baf1354);
    Taken(Digest(0x847fc2e7, 0x708ed9c2, 0x5e6bc930, 0xa3e2247f), 61, 64);
  }

  lemma Operations62()
    ensures Steps(Digest(0xa3e2247f, 0x2baf1354, 0x708ed9c2, 0x5e6bc930), X, 62, 64)
         == Steps(Digest(0x708ed9c2, 0x1116e6d8, 0xd38f1e7f, 0x2baf1354), X, 64, 64)
  {
    hide Steps;
    OperationIs(62, Digest(0xa3e2247f, 0x2baf1354, 0x708ed9c2, 0x5e6bc930), 2, 0x2ad7d2bb, 15,
                0xdb31ee1d, 0x97433d24, 0x72752b41, 0x16574fc0, 0xa7e00b2b, 0xd38f1e7f);
    Taken(Digest(0xa3e2247f, 0x2baf1354, 0x708ed9c2, 0x5e6bc930), 62, 64);
    OperationIs(63, Digest(0x5e6bc930, 0xd38f1e7f, 0x2baf1354, 0x708ed9c2), 9, 0xeb86d391, 21,
                0xf4502d2b, 0xeb86d391, 0xdfd700bc, 0x3e42c9ec, 0x3d87c859, 0x1116e6d8);
    Taken(Digest(0x5e6bc930, 0xd38f1e7f, 0x2baf1354, 0x708ed9c2), 63, 64);
  }

  lemma AllOperations()
    ensures Compress(INITIAL, X) == Digest(0xd7d3fcc3, 0x00e49261, 0x6c49fb7d, 0x3be167ca)
  {
    hide Steps;
    Operations0();
    Operations2();
    Operations4();
    Operations6();
    Operations8();
    Operations10();
    Operations12();
    Operations14();
    Operations16();
    Operations18();
    Operations20();
    Operations22();
    Operations24();
    Operations26();
    Operations28();
    Operations30();
    Operations32();
    Operations34();
    Operations36();
    Operations38();
    Operations40();
    Operations42();
    Operations44();
    Operations46();
    Operations48();
    Operations50();
    Operations52();
    Operations54();
    Operations56();
    Operations58();
    Operations60();
    Operations62();
    NoneLeft(Digest(0x708ed9c2, 0x1116e6d8, 0xd38f1e7f, 0x2baf1354));
  }

  lemma NoneLeft(s: Digest)
    ensures Steps(s, X, 64, 64) == s
  {
  }

  /** The letters a to z. */
  const LETTERS: seq<bv8> := [
    0x61, 0x62, 0x63, 0x64, 0x65, 0x66, 0x67, 0x68, 0x69, 0x6a, 0x6b, 0x6c, 0x6d, 0x6e, 0x6f, 0x70,
    0x71, 0x72, 0x73, 0x74, 0x75, 0x76, 0x77, 0x78, 0x79, 0x7a]

  const ROW0: seq<bv8> := [
    0x61, 0x62, 0x63, 0x64, 0x65, 0x66, 0x67, 0x68,
    0x69, 0x6a, 0x6b, 0x6c, 0x6d, 0x6e, 0x6f, 0x70]

  const ROW1: seq<bv8> := [
    0x71, 0x72, 0x73, 0x74, 0x75, 0x76, 0x77, 0x78,
    0x79, 0x7a, 0x80, 0x00, 0x00, 0x00, 0x00, 0x00]

  const ROW2: seq<bv8> := [
    0x00, 0x00, 0x00, 0x00, 0x00, 0x00, 0x00, 0x00,
    0x00, 0x00, 0x00, 0x00, 0x00, 0x00, 0x00, 0x00]

  const ROW3: seq<bv8> := [
    0x00, 0x00, 0x00, 0x00, 0x00, 0x00, 0x00, 0x00,
    0xd0, 0x00, 0x00, 0x00, 0x00, 0x00, 0x00, 0x00]

  /** The padded message. */
  const PADDED: seq<bv8> := ROW0 + ROW1 + ROW2 + ROW3

  lemma LettersPadded()
    ensures Padded(LETTERS) == PADDED
  {
    LengthOfLetters();
    hide LengthBytes;
    assert ZeroCount(26) == 29;
  }

  lemma LengthOfLetters()
    ensures LengthBytes(26) == [0xd0, 0x00, 0x00, 0x00, 0x00, 0x00, 0x00, 0x00]
  {
    assert WordBytes(208) == [0xd0, 0, 0, 0] by { BytesOf208(); }
    assert WordBytes(0) == [0, 0, 0, 0] by { BytesOf0(); }
    hide WordBytes;
    assert 8 * 26 % (WORD * WORD) % WORD == 208 && 8 * 26 % (WORD * WORD) / WORD == 0;
  }

  lemma BytesOf208()
    ensures ByteOf(208, 0) == 0xd0 && ByteOf(208, 1) == 0 && ByteOf(208, 2) == 0 && ByteOf(208, 3) == 0
  {
  }

  lemma BytesOf0()
    ensures ByteOf(0, 0) == 0 && ByteOf(0, 1) == 0 && ByteOf(0, 2) == 0 && ByteOf(0, 3) == 0
  {
  }

  /** The words of a quarter of a block. */
  function RowWords(row: seq<bv8>): (x: seq<bv32>)
    requires |row| == 16
    ensures |x| == 4
  {
    [WordOf(row[0], row[1], row[2], row[3]), WordOf(row[4], row[5], row[6], row[7]),
     WordOf(row[8], row[9], row[10], row[11]), WordOf(row[12], row[13], row[14], row[15])]
  }

  lemma RowsOfBlock(a: seq<bv8>, b: seq<bv8>, c: seq<bv8>, d: seq<bv8>)
    requires |a| == |b| == |c| == |d| == 16
    ensures BlockWords(a + b + c + d) == RowWords(a) + RowWords(b) + RowWords(c) + RowWords(d)
  {
    hide BlockWords, RowWords;
    var p := a + b + c + d;
    BlockRow(p, 0);
    BlockRow(p, 1);
    BlockRow(p, 2);
    BlockRow(p, 3);
    assert p[0..16] == a && p[16..32] == b && p[32..48] == c && p[48..64] == d;
    var x := BlockWords(p);
    assert x == x[0..4] + x[4..8] + x[8..12] + x[12..16];
  }

  lemma BlockRow(p: seq<bv8>, j: nat)
    requires |p| == 64 && j < 4
    ensures BlockWords(p)[4 * j..4 * j + 4] == RowWords(p[16 * j..16 * j + 16])
  {
    hide WordOf;
  }

  lemma WordValues()
    ensures WordOf(0x61, 0x62, 0x63, 0x64) == 0x64636261
    ensures WordOf(0x65, 0x66, 0x67, 0x68) == 0x68676665
    ensures WordOf(0x69, 0x6a, 0x6b, 0x6c) == 0x6c6b6a69
    ensures WordOf(0x6d, 0x6e, 0x6f, 0x70) == 0x706f6e6d
    ensures WordOf(0x71, 0x72, 0x73, 0x74) == 0x74737271
    ensures WordOf(0x75, 0x76, 0x77, 0x78) == 0x78777675
    ensures WordOf(0x79, 0x7a, 0x80, 0x00) == 0x00807a79
    ensures WordOf(0x00, 0x00, 0x00, 0x00) == 0x00000000
    ensures WordOf(0xd0, 0x00, 0x00, 0x00) == 0x000000d0
  {
  }

  lemma LetterRows()
    ensures RowWords(ROW0) == [0x64636261, 0x68676665, 0x6c6b6a69, 0x706f6e6d]
    ensures RowWords(ROW1) == [0x74737271, 0x78777675, 0x00807a79, 0x00000000]
    ensures RowWords(ROW2) == [0x00000000, 0x00000000, 0x00000000, 0x00000000]
    ensures RowWords(ROW3) == [0x00000000, 0x00000000, 0x000000d0, 0x00000000]
  {
    WordValues();
    hide WordOf;
  }

  lemma LetterWords()
    ensures BlockWords(PADDED) == X
  {
    hide BlockWords, RowWords;
    LetterRows();
    RowsOfBlock(ROW0, ROW1, ROW2, ROW3);
  }

  /** The digest of the letters is c3fcd3d76192e4007dfb496cca67e13b. */
  lemma DigestOfLetters()
    ensures Md5([0x61, 0x62, 0x63, 0x64, 0x65, 0x66, 0x67, 0x68, 0x69, 0x6a, 0x6b, 0x6c, 0x6d, 0x6e, 0x6f, 0x70,
                0x71, 0x72, 0x73, 0x74, 0x75, 0x76, 0x77, 0x78, 0x79, 0x7a])
         == [0xc3, 0xfc, 0xd3, 0xd7, 0x61, 0x92, 0xe4, 0x00, 0x7d, 0xfb, 0x49, 0x6c, 0xca, 0x67, 0xe1, 0x3b]
  {
    LettersPadded();
    LetterWords();
    AllOperations();
    OneBlock();
    OutputOfLetters();
    hide Absorb, Compress, Padded, Output, BlockWords;
  }

  lemma OutputOfLetters()
    ensures Output(Digest(0xd7d3fcc3, 0x00e49261, 0x6c49fb7d, 0x3be167ca))
         == [0xc3, 0xfc, 0xd3, 0xd7, 0x61, 0x92, 0xe4, 0x00, 0x7d, 0xfb, 0x49, 0x6c, 0xca, 0x67, 0xe1, 0x3b]
  {
  }

  lemma OneBlock()
    ensures Absorb(INITIAL, PADDED) == Compress(INITIAL, BlockWords(PADDED))
  {
    hide Compress, BlockWords;
    assert PADDED[..64] == PADDED && PADDED[64..] == [];
  }
}
