/** The worked examples of FIPS 197: what the reference and the code must give, byte for byte. */
module AesExamples {
  import opened Gf256
  import opened Fips197
  import opened AesWords
  import opened AesCore

  /** RotWord takes the first byte to the end of the word. */
  lemma RotationOfWord(w: bv32)
    ensures RotColumn(Col(w)) == Col((w << 8) | (w >> 24))
  {
  }

  /** Figure 4: ten, twelve and fourteen rounds. */
  lemma RoundCounts()
    ensures RoundsFor(4) == 10 && RoundsFor(6) == 12 && RoundsFor(8) == 14
  {
  }

  /** The four words behind words 4r to 4r + 3 of the expansion of a four-word key. */
  lemma NextKey(key: seq<Column>, r: nat, k: State, next: State)
    requires |key| == 4
    requires ExpandedWord(key, 4 * r) == k.c0 && ExpandedWord(key, 4 * r + 1) == k.c1
    requires ExpandedWord(key, 4 * r + 2) == k.c2 && ExpandedWord(key, 4 * r + 3) == k.c3
    requires next.c0 == AddColumn(k.c0, ExpansionCore(4, 4 * r + 4, k.c3))
    requires next.c1 == AddColumn(k.c1, next.c0) && next.c2 == AddColumn(k.c2, next.c1)
    requires next.c3 == AddColumn(k.c3, next.c2)
    ensures ExpandedWord(key, 4 * r + 4) == next.c0 && ExpandedWord(key, 4 * r + 5) == next.c1
    ensures ExpandedWord(key, 4 * r + 6) == next.c2 && ExpandedWord(key, 4 * r + 7) == next.c3
  {
    hide AddColumn, SubColumn, RotColumn, RconByte;
  }

  /** A round from the state s, through the substituted state. */
  lemma NextState(x: State, w: Schedule, r: nat, s: State, sub: State, k: State, next: State)
    requires 4 * r + 8 <= |w| && Rounds(x, w, r) == s && RoundKey(w, r + 1) == k
    requires SubBytes(s) == sub && AddRoundKey(MixColumns(ShiftRows(sub)), k) == next
    ensures Rounds(x, w, r + 1) == next
  {
    hide SubBytes, ShiftRows, MixColumns, AddRoundKey, RoundKey;
  }

  lemma RconValues()
    ensures RconByte(1) == 0x01 && RconByte(2) == 0x02 && RconByte(3) == 0x04 && RconByte(4) == 0x08
    ensures RconByte(5) == 0x10 && RconByte(6) == 0x20 && RconByte(7) == 0x40 && RconByte(8) == 0x80
    ensures RconByte(9) == 0x1b && RconByte(10) == 0x36
  {
    assert RconByte(2) == 0x02 && RconByte(4) == 0x08;
    assert RconByte(6) == 0x20 && RconByte(8) == 0x80;
  }

  // ----- appendix A.1 and appendix B: a key of 128 bits

  const KEY: seq<Column> := [Col(0x2b7e1516), Col(0x28aed2a6), Col(0xabf71588), Col(0x09cf4f3c)]

  lemma Key0()
    ensures ExpandedWord(KEY, 0) == Col(0x2b7e1516) && ExpandedWord(KEY, 1) == Col(0x28aed2a6)
    ensures ExpandedWord(KEY, 2) == Col(0xabf71588) && ExpandedWord(KEY, 3) == Col(0x09cf4f3c)
  {
  }

  lemma Key1()
    ensures ExpandedWord(KEY, 4) == Col(0xa0fafe17) && ExpandedWord(KEY, 5) == Col(0x88542cb1)
    ensures ExpandedWord(KEY, 6) == Col(0x23a33939) && ExpandedWord(KEY, 7) == Col(0x2a6c7605)
  {
    Key0();
    RconValues();
    hide ExpandedWord, RconByte;
    NextKey(KEY, 0, StateOf(0x2b7e1516, 0x28aed2a6, 0xabf71588, 0x09cf4f3c),
            StateOf(0xa0fafe17, 0x88542cb1, 0x23a33939, 0x2a6c7605));
  }

  lemma Key2()
    ensures ExpandedWord(KEY, 8) == Col(0xf2c295f2) && ExpandedWord(KEY, 9) == Col(0x7a96b943)
    ensures ExpandedWord(KEY, 10) == Col(0x5935807a) && ExpandedWord(KEY, 11) == Col(0x7359f67f)
  {
    Key1();
    RconValues();
    hide ExpandedWord, RconByte;
    NextKey(KEY, 1, StateOf(0xa0fafe17, 0x88542cb1, 0x23a33939, 0x2a6c7605),
            StateOf(0xf2c295f2, 0x7a96b943, 0x5935807a, 0x7359f67f));
  }

  lemma Key3()
    ensures ExpandedWord(KEY, 12) == Col(0x3d80477d) && ExpandedWord(KEY, 13) == Col(0x4716fe3e)
    ensures ExpandedWord(KEY, 14) == Col(0x1e237e44) && ExpandedWord(KEY, 15) == Col(0x6d7a883b)
  {
    Key2();
    RconValues();
    hide ExpandedWord, RconByte;
    NextKey(KEY, 2, StateOf(0xf2c295f2, 0x7a96b943, 0x5935807a, 0x7359f67f),
            StateOf(0x3d80477d, 0x4716fe3e, 0x1e237e44, 0x6d7a883b));
  }

  lemma Key4()
    ensures ExpandedWord(KEY, 16) == Col(0xef44a541) && ExpandedWord(KEY, 17) == Col(0xa8525b7f)
    ensures ExpandedWord(KEY, 18) == Col(0xb671253b) && ExpandedWord(KEY, 19) == Col(0xdb0bad00)
  {
    Key3();
    RconValues();
    hide ExpandedWord, RconByte;
    NextKey(KEY, 3, StateOf(0x3d80477d, 0x4716fe3e, 0x1e237e44, 0x6d7a883b),
            StateOf(0xef44a541, 0xa8525b7f, 0xb671253b, 0xdb0bad00));
  }

  lemma Key5()
    ensures ExpandedWord(KEY, 20) == Col(0xd4d1c6f8) && ExpandedWord(KEY, 21) == Col(0x7c839d87)
    ensures ExpandedWord(KEY, 22) == Col(0xcaf2b8bc) && ExpandedWord(KEY, 23) == Col(0x11f915bc)
  {
    Key4();
    RconValues();
    hide ExpandedWord, RconByte;
    NextKey(KEY, 4, StateOf(0xef44a541, 0xa8525b7f, 0xb671253b, 0xdb0bad00),
            StateOf(0xd4d1c6f8, 0x7c839d87, 0xcaf2b8bc, 0x11f915bc));
  }

  lemma Key6()
    ensures ExpandedWord(KEY, 24) == Col(0x6d88a37a) && ExpandedWord(KEY, 25) == Col(0x110b3efd)
    ensures ExpandedWord(KEY, 26) == Col(0xdbf98641) && ExpandedWord(KEY, 27) == Col(0xca0093fd)
  {
    Key5();
    RconValues();
    hide ExpandedWord, RconByte;
    NextKey(KEY, 5, StateOf(0xd4d1c6f8, 0x7c839d87, 0xcaf2b8bc, 0x11f915bc),
            StateOf(0x6d88a37a, 0x110b3efd, 0xdbf98641, 0xca0093fd));
  }

  lemma Key7()
    ensures ExpandedWord(KEY, 28) == Col(0x4e54f70e) && ExpandedWord(KEY, 29) == Col(0x5f5fc9f3)
    ensures ExpandedWord(KEY, 30) == Col(0x84a64fb2) && ExpandedWord(KEY, 31) == Col(0x4ea6dc4f)
  {
    Key6();
    RconValues();
    hide ExpandedWord, RconByte;
    NextKey(KEY, 6, StateOf(0x6d88a37a, 0x110b3efd, 0xdbf98641, 0xca0093fd),
            StateOf(0x4e54f70e, 0x5f5fc9f3, 0x84a64fb2, 0x4ea6dc4f));
  }

  lemma Key8()
    ensures ExpandedWord(KEY, 32) == Col(0xead27321) && ExpandedWord(KEY, 33) == Col(0xb58dbad2)
    ensures ExpandedWord(KEY, 34) == Col(0x312bf560) && ExpandedWord(KEY, 35) == Col(0x7f8d292f)
  {
    Key7();
    RconValues();
    hide ExpandedWord, RconByte;
    NextKey(KEY, 7, StateOf(0x4e54f70e, 0x5f5fc9f3, 0x84a64fb2, 0x4ea6dc4f),
            StateOf(0xead27321, 0xb58dbad2, 0x312bf560, 0x7f8d292f));
  }

  lemma Key9()
    ensures ExpandedWord(KEY, 36) == Col(0xac7766f3) && ExpandedWord(KEY, 37) == Col(0x19fadc21)
    ensures ExpandedWord(KEY, 38) == Col(0x28d12941) && ExpandedWord(KEY, 39) == Col(0x575c006e)
  {
    Key8();
    RconValues();
    hide ExpandedWord, RconByte;
    NextKey(KEY, 8, StateOf(0xead27321, 0xb58dbad2, 0x312bf560, 0x7f8d292f),
            StateOf(0xac7766f3, 0x19fadc21, 0x28d12941, 0x575c006e));
  }

  lemma Key10()
    ensures ExpandedWord(KEY, 40) == Col(0xd014f9a8) && ExpandedWord(KEY, 41) == Col(0xc9ee2589)
    ensures ExpandedWord(KEY, 42) == Col(0xe13f0cc8) && ExpandedWord(KEY, 43) == Col(0xb6630ca6)
  {
    Key9();
    RconValues();
    hide ExpandedWord, RconByte;
    NextKey(KEY, 9, StateOf(0xac7766f3, 0x19fadc21, 0x28d12941, 0x575c006e),
            StateOf(0xd014f9a8, 0xc9ee2589, 0xe13f0cc8, 0xb6630ca6));
  }

  lemma KeyOfRound(r: nat, k: State)
    requires r <= 10
    requires ExpandedWord(KEY, 4 * r) == k.c0 && ExpandedWord(KEY, 4 * r + 1) == k.c1
    requires ExpandedWord(KEY, 4 * r + 2) == k.c2 && ExpandedWord(KEY, 4 * r + 3) == k.c3
    ensures RoundKey(KeyExpansion(KEY), r) == k
  {
    hide ExpandedWord;
  }

  const PLAIN: State := StateOf(0x3243f6a8, 0x885a308d, 0x313198a2, 0xe0370734)

  lemma State0()
    ensures Rounds(PLAIN, KeyExpansion(KEY), 0) == StateOf(0x193de3be, 0xa0f4e22b, 0x9ac68d2a, 0xe9f84808)
  {
    hide KeyExpansion, ExpandedWord;
    Key0();
    KeyOfRound(0, StateOf(0x2b7e1516, 0x28aed2a6, 0xabf71588, 0x09cf4f3c));
  }

  lemma State1()
    ensures Rounds(PLAIN, KeyExpansion(KEY), 1) == StateOf(0xa49c7ff2, 0x689f352b, 0x6b5bea43, 0x026a5049)
  {
    hide KeyExpansion, ExpandedWord, Rounds, RoundKey;
    State0();
    Key1();
    KeyOfRound(1, StateOf(0xa0fafe17, 0x88542cb1, 0x23a33939, 0x2a6c7605));
    Round1();
    NextState(PLAIN, KeyExpansion(KEY), 0, StateOf(0x193de3be, 0xa0f4e22b, 0x9ac68d2a, 0xe9f84808),
              StateOf(0xd42711ae, 0xe0bf98f1, 0xb8b45de5, 0x1e415230),
              StateOf(0xa0fafe17, 0x88542cb1, 0x23a33939, 0x2a6c7605),
              StateOf(0xa49c7ff2, 0x689f352b, 0x6b5bea43, 0x026a5049));
  }

  lemma Round1()
    ensures SubBytes(StateOf(0x193de3be, 0xa0f4e22b, 0x9ac68d2a, 0xe9f84808))
         == StateOf(0xd42711ae, 0xe0bf98f1, 0xb8b45de5, 0x1e415230)
    ensures AddRoundKey(MixColumns(ShiftRows(StateOf(0xd42711ae, 0xe0bf98f1, 0xb8b45de5, 0x1e415230))),
                        StateOf(0xa0fafe17, 0x88542cb1, 0x23a33939, 0x2a6c7605))
         == StateOf(0xa49c7ff2, 0x689f352b, 0x6b5bea43, 0x026a5049)
  {
  }

  lemma State2()
    ensures Rounds(PLAIN, KeyExpansion(KEY), 2) == StateOf(0xaa8f5f03, 0x61dde3ef, 0x82d24ad2, 0x6832469a)
  {
    hide KeyExpansion, ExpandedWord, Rounds, RoundKey;
    State1();
    Key2();
    KeyOfRound(2, StateOf(0xf2c295f2, 0x7a96b943, 0x5935807a, 0x7359f67f));
    Round2();
    NextState(PLAIN, KeyExpansion(KEY), 1, StateOf(0xa49c7ff2, 0x689f352b, 0x6b5bea43, 0x026a5049),
              StateOf(0x49ded289, 0x45db96f1, 0x7f39871a, 0x7702533b),
              StateOf(0xf2c295f2, 0x7a96b943, 0x5935807a, 0x7359f67f),
              StateOf(0xaa8f5f03, 0x61dde3ef, 0x82d24ad2, 0x6832469a));
  }

  lemma Round2()
    ensures SubBytes(StateOf(0xa49c7ff2, 0x689f352b, 0x6b5bea43, 0x026a5049))
         == StateOf(0x49ded289, 0x45db96f1, 0x7f39871a, 0x7702533b)
    ensures AddRoundKey(MixColumns(ShiftRows(StateOf(0x49ded289, 0x45db96f1, 0x7f39871a, 0x7702533b))),
                        StateOf(0xf2c295f2, 0x7a96b943, 0x5935807a, 0x7359f67f))
         == StateOf(0xaa8f5f03, 0x61dde3ef, 0x82d24ad2, 0x6832469a)
  {
  }

  lemma State3()
    ensures Rounds(PLAIN, KeyExpansion(KEY), 3) == StateOf(0x486c4eee, 0x671d9d0d, 0x4de3b138, 0xd65f58e7)
  {
    hide KeyExpansion, ExpandedWord, Rounds, RoundKey;
    State2();
    Key3();
    KeyOfRound(3, StateOf(0x3d80477d, 0x4716fe3e, 0x1e237e44, 0x6d7a883b));
    Round3();
    NextState(PLAIN, KeyExpansion(KEY), 2, StateOf(0xaa8f5f03, 0x61dde3ef, 0x82d24ad2, 0x6832469a),
              StateOf(0xac73cf7b, 0xefc111df, 0x13b5d6b5, 0x45235ab8),
              StateOf(0x3d80477d, 0x4716fe3e, 0x1e237e44, 0x6d7a883b),
              StateOf(0x486c4eee, 0x671d9d0d, 0x4de3b138, 0xd65f58e7));
  }

  lemma Round3()
    ensures SubBytes(StateOf(0xaa8f5f03, 0x61dde3ef, 0x82d24ad2, 0x6832469a))
         == StateOf(0xac73cf7b, 0xefc111df, 0x13b5d6b5, 0x45235ab8)
    ensures AddRoundKey(MixColumns(ShiftRows(StateOf(0xac73cf7b, 0xefc111df, 0x13b5d6b5, 0x45235ab8))),
                        StateOf(0x3d80477d, 0x4716fe3e, 0x1e237e44, 0x6d7a883b))
         == StateOf(0x486c4eee, 0x671d9d0d, 0x4de3b138, 0xd65f58e7)
  {
  }

  lemma State4()
    ensures Rounds(PLAIN, KeyExpansion(KEY), 4) == StateOf(0xe0927fe8, 0xc86363c0, 0xd9b13550, 0x85b8be01)
  {
    hide KeyExpansion, ExpandedWord, Rounds, RoundKey;
    State3();
    Key4();
    KeyOfRound(4, StateOf(0xef44a541, 0xa8525b7f, 0xb671253b, 0xdb0bad00));
    Round4();
    NextState(PLAIN, KeyExpansion(KEY), 3, StateOf(0x486c4eee, 0x671d9d0d, 0x4de3b138, 0xd65f58e7),
              StateOf(0x52502f28, 0x85a45ed7, 0xe311c807, 0xf6cf6a94),
              StateOf(0xef44a541, 0xa8525b7f, 0xb671253b, 0xdb0bad00),
              StateOf(0xe0927fe8, 0xc86363c0, 0xd9b13550, 0x85b8be01));
  }

  lemma Round4()
    ensures SubBytes(StateOf(0x486c4eee, 0x671d9d0d, 0x4de3b138, 0xd65f58e7))
         == StateOf(0x52502f28, 0x85a45ed7, 0xe311c807, 0xf6cf6a94)
    ensures AddRoundKey(MixColumns(ShiftRows(StateOf(0x52502f28, 0x85a45ed7, 0xe311c807, 0xf6cf6a94))),
                        StateOf(0xef44a541, 0xa8525b7f, 0xb671253b, 0xdb0bad00))
         == StateOf(0xe0927fe8, 0xc86363c0, 0xd9b13550, 0x85b8be01)
  {
  }

  lemma State5()
    ensures Rounds(PLAIN, KeyExpansion(KEY), 5) == StateOf(0xf1006f55, 0xc1924cef, 0x7cc88b32, 0x5db5d50c)
  {
    hide KeyExpansion, ExpandedWord, Rounds, RoundKey;
    State4();
    Key5();
    KeyOfRound(5, StateOf(0xd4d1c6f8, 0x7c839d87, 0xcaf2b8bc, 0x11f915bc));
    Round5();
    NextState(PLAIN, KeyExpansion(KEY), 4, StateOf(0xe0927fe8, 0xc86363c0, 0xd9b13550, 0x85b8be01),
              StateOf(0xe14fd29b, 0xe8fbfbba, 0x35c89653, 0x976cae7c),
              StateOf(0xd4d1c6f8, 0x7c839d87, 0xcaf2b8bc, 0x11f915bc),
              StateOf(0xf1006f55, 0xc1924cef, 0x7cc88b32, 0x5db5d50c));
  }

  lemma Round5()
    ensures SubBytes(StateOf(0xe0927fe8, 0xc86363c0, 0xd9b13550, 0x85b8be01))
         == StateOf(0xe14fd29b, 0xe8fbfbba, 0x35c89653, 0x976cae7c)
    ensures AddRoundKey(MixColumns(ShiftRows(StateOf(0xe14fd29b, 0xe8fbfbba, 0x35c89653, 0x976cae7c))),
                        StateOf(0xd4d1c6f8, 0x7c839d87, 0xcaf2b8bc, 0x11f915bc))
         == StateOf(0xf1006f55, 0xc1924cef, 0x7cc88b32, 0x5db5d50c)
  {
  }

  lemma State6()
    ensures Rounds(PLAIN, KeyExpansion(KEY), 6) == StateOf(0x260e2e17, 0x3d41b77d, 0xe86472a9, 0xfdd28b25)
  {
    hide KeyExpansion, ExpandedWord, Rounds, RoundKey;
    State5();
    Key6();
    KeyOfRound(6, StateOf(0x6d88a37a, 0x110b3efd, 0xdbf98641, 0xca0093fd));
    Round6();
    NextState(PLAIN, KeyExpansion(KEY), 5, StateOf(0xf1006f55, 0xc1924cef, 0x7cc88b32, 0x5db5d50c),
              StateOf(0xa163a8fc, 0x784f29df, 0x10e83d23, 0x4cd503fe),
              StateOf(0x6d88a37a, 0x110b3efd, 0xdbf98641, 0xca0093fd),
              StateOf(0x260e2e17, 0x3d41b77d, 0xe86472a9, 0xfdd28b25));
  }

  lemma Round6()
    ensures SubBytes(StateOf(0xf1006f55, 0xc1924cef, 0x7cc88b32, 0x5db5d50c))
         == StateOf(0xa163a8fc, 0x784f29df, 0x10e83d23, 0x4cd503fe)
    ensures AddRoundKey(MixColumns(ShiftRows(StateOf(0xa163a8fc, 0x784f29df, 0x10e83d23, 0x4cd503fe))),
                        StateOf(0x6d88a37a, 0x110b3efd, 0xdbf98641, 0xca0093fd))
         == StateOf(0x260e2e17, 0x3d41b77d, 0xe86472a9, 0xfdd28b25)
  {
  }

  lemma State7()
    ensures Rounds(PLAIN, KeyExpansion(KEY), 7) == StateOf(0x5a4142b1, 0x1949dc1f, 0xa3e01965, 0x7a8c040c)
  {
    hide KeyExpansion, ExpandedWord, Rounds, RoundKey;
    State6();
    Key7();
    KeyOfRound(7, StateOf(0x4e54f70e, 0x5f5fc9f3, 0x84a64fb2, 0x4ea6dc4f));
    Round7();
    NextState(PLAIN, KeyExpansion(KEY), 6, StateOf(0x260e2e17, 0x3d41b77d, 0xe86472a9, 0xfdd28b25),
              StateOf(0xf7ab31f0, 0x2783a9ff, 0x9b4340d3, 0x54b53d3f),
              StateOf(0x4e54f70e, 0x5f5fc9f3, 0x84a64fb2, 0x4ea6dc4f),
              StateOf(0x5a4142b1, 0x1949dc1f, 0xa3e01965, 0x7a8c040c));
  }

  lemma Round7()
    ensures SubBytes(StateOf(0x260e2e17, 0x3d41b77d, 0xe86472a9, 0xfdd28b25))
         == StateOf(0xf7ab31f0, 0x2783a9ff, 0x9b4340d3, 0x54b53d3f)
    ensures AddRoundKey(MixColumns(ShiftRows(StateOf(0xf7ab31f0, 0x2783a9ff, 0x9b4340d3, 0x54b53d3f))),
                        StateOf(0x4e54f70e, 0x5f5fc9f3, 0x84a64fb2, 0x4ea6dc4f))
         == StateOf(0x5a4142b1, 0x1949dc1f, 0xa3e01965, 0x7a8c040c)
  {
  }

  lemma State8()
    ensures Rounds(PLAIN, KeyExpansion(KEY), 8) == StateOf(0xea835cf0, 0x0445332d, 0x655d98ad, 0x8596b0c5)
  {
    hide KeyExpansion, ExpandedWord, Rounds, RoundKey;
    State7();
    Key8();
    KeyOfRound(8, StateOf(0xead27321, 0xb58dbad2, 0x312bf560, 0x7f8d292f));
    Round8();
    NextState(PLAIN, KeyExpansion(KEY), 7, StateOf(0x5a4142b1, 0x1949dc1f, 0xa3e01965, 0x7a8c040c),
              StateOf(0xbe832cc8, 0xd43b86c0, 0x0ae1d44d, 0xda64f2fe),
              StateOf(0xead27321, 0xb58dbad2, 0x312bf560, 0x7f8d292f),
              StateOf(0xea835cf0, 0x0445332d, 0x655d98ad, 0x8596b0c5));
  }

  lemma Round8()
    ensures SubBytes(StateOf(0x5a4142b1, 0x1949dc1f, 0xa3e01965, 0x7a8c040c))
         == StateOf(0xbe832cc8, 0xd43b86c0, 0x0ae1d44d, 0xda64f2fe)
    ensures AddRoundKey(MixColumns(ShiftRows(StateOf(0xbe832cc8, 0xd43b86c0, 0x0ae1d44d, 0xda64f2fe))),
                        StateOf(0xead27321, 0xb58dbad2, 0x312bf560, 0x7f8d292f))
         == StateOf(0xea835cf0, 0x0445332d, 0x655d98ad, 0x8596b0c5)
  {
  }

  lemma State9()
    ensures Rounds(PLAIN, KeyExpansion(KEY), 9) == StateOf(0xeb40f21e, 0x592e3884, 0x8ba113e7, 0x1bc342d2)
  {
    hide KeyExpansion, ExpandedWord, Rounds, RoundKey;
    State8();
    Key9();
    KeyOfRound(9, StateOf(0xac7766f3, 0x19fadc21, 0x28d12941, 0x575c006e));
    Round9();
    NextState(PLAIN, KeyExpansion(KEY), 8, StateOf(0xea835cf0, 0x0445332d, 0x655d98ad, 0x8596b0c5),
              StateOf(0x87ec4a8c, 0xf26ec3d8, 0x4d4c4695, 0x9790e7a6),
              StateOf(0xac7766f3, 0x19fadc21, 0x28d12941, 0x575c006e),
              StateOf(0xeb40f21e, 0x592e3884, 0x8ba113e7, 0x1bc342d2));
  }

  lemma Round9()
    ensures SubBytes(StateOf(0xea835cf0, 0x0445332d, 0x655d98ad, 0x8596b0c5))
         == StateOf(0x87ec4a8c, 0xf26ec3d8, 0x4d4c4695, 0x9790e7a6)
    ensures AddRoundKey(MixColumns(ShiftRows(StateOf(0x87ec4a8c, 0xf26ec3d8, 0x4d4c4695, 0x9790e7a6))),
                        StateOf(0xac7766f3, 0x19fadc21, 0x28d12941, 0x575c006e))
         == StateOf(0xeb40f21e, 0x592e3884, 0x8ba113e7, 0x1bc342d2)
  {
  }

  lemma LastRound()
    ensures Cipher(PLAIN, KeyExpansion(KEY), 10) == StateOf(0x3925841d, 0x02dc09fb, 0xdc118597, 0x196a0b32)
  {
    State9();
    Key10();
    KeyOfRound(10, StateOf(0xd014f9a8, 0xc9ee2589, 0xe13f0cc8, 0xb6630ca6));
    Round10();
    hide KeyExpansion, ExpandedWord, Rounds, RoundKey, SubBytes, ShiftRows, AddRoundKey;
  }

  lemma Round10()
    ensures SubBytes(StateOf(0xeb40f21e, 0x592e3884, 0x8ba113e7, 0x1bc342d2))
         == StateOf(0xe9098972, 0xcb31075f, 0x3d327d94, 0xaf2e2cb5)
    ensures AddRoundKey(ShiftRows(StateOf(0xe9098972, 0xcb31075f, 0x3d327d94, 0xaf2e2cb5)),
                        StateOf(0xd014f9a8, 0xc9ee2589, 0xe13f0cc8, 0xb6630ca6))
         == StateOf(0x3925841d, 0x02dc09fb, 0xdc118597, 0x196a0b32)
  {
  }

  /** Appendix B: the block 3243f6a8885a308d313198a2e0370734 under the key
      2b7e151628aed2a6abf7158809cf4f3c. */
  lemma AppendixB()
    ensures EncryptBlock([0x2b, 0x7e, 0x15, 0x16, 0x28, 0xae, 0xd2, 0xa6,
                          0xab, 0xf7, 0x15, 0x88, 0x09, 0xcf, 0x4f, 0x3c],
                         [0x32, 0x43, 0xf6, 0xa8, 0x88, 0x5a, 0x30, 0x8d,
                          0x31, 0x31, 0x98, 0xa2, 0xe0, 0x37, 0x07, 0x34])
         == [0x39, 0x25, 0x84, 0x1d, 0x02, 0xdc, 0x09, 0xfb,
                          0xdc, 0x11, 0x85, 0x97, 0x19, 0x6a, 0x0b, 0x32]
  {
    LastRound();
    KeyBytes();
    hide KeyExpansion, Cipher, BytesToColumns;
  }

  lemma KeyBytes()
    ensures BytesToColumns([0x2b, 0x7e, 0x15, 0x16, 0x28, 0xae, 0xd2, 0xa6,
                          0xab, 0xf7, 0x15, 0x88, 0x09, 0xcf, 0x4f, 0x3c]) == KEY
  {
  }

  // ----- appendices A.2 and A.3: keys of 192 and 256 bits

  const KEY_192: seq<Column> := [Col(0x8e73b0f7), Col(0xda0e6452), Col(0xc810f32b), Col(0x809079e5),
                              Col(0x62f8ead2), Col(0x522c6b7b)]

  lemma FirstWordOf192()
    ensures ExpandedWord(KEY_192, 6) == Col(0xfe0c91f7)
  {
    assert ExpandedWord(KEY_192, 5) == Col(0x522c6b7b) && ExpandedWord(KEY_192, 0) == Col(0x8e73b0f7);
  }

  const KEY_256: seq<Column> := [Col(0x603deb10), Col(0x15ca71be), Col(0x2b73aef0), Col(0x857d7781),
                              Col(0x1f352c07), Col(0x3b6108d7), Col(0x2d9810a3), Col(0x0914dff4)]

  lemma FirstWordOf256()
    ensures ExpandedWord(KEY_256, 8) == Col(0x9ba35411)
  {
    assert ExpandedWord(KEY_256, 7) == Col(0x0914dff4) && ExpandedWord(KEY_256, 0) == Col(0x603deb10);
  }

  /** The words between two rotations, the middle one substituted only. */
  lemma MiddleWordOf256()
    ensures ExpandedWord(KEY_256, 9) == Col(0x8e6925af) && ExpandedWord(KEY_256, 10) == Col(0xa51a8b5f)
    ensures ExpandedWord(KEY_256, 11) == Col(0x2067fcde) && ExpandedWord(KEY_256, 12) == Col(0xa8b09c1a)
  {
    FirstWordOf256();
    assert ExpandedWord(KEY_256, 1) == Col(0x15ca71be) && ExpandedWord(KEY_256, 2) == Col(0x2b73aef0);
    assert ExpandedWord(KEY_256, 3) == Col(0x857d7781) && ExpandedWord(KEY_256, 4) == Col(0x1f352c07);
    assert ExpandedWord(KEY_256, 9) == Col(0x8e6925af);
    assert ExpandedWord(KEY_256, 10) == Col(0xa51a8b5f);
    assert ExpandedWord(KEY_256, 11) == Col(0x2067fcde);
  }
}
