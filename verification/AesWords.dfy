/** The 32-bit words and lookup tables of server/common/libtools/AesCore.cpp, and what each
    table expression computes on columns. */
module AesWords {
  import opened Gf256
  import opened Fips197

  function Byte3(w: bv32): bv8 { (w >> 24) as bv8 }

  function Byte2(w: bv32): bv8 { ((w >> 16) & 0xff) as bv8 }

  function Byte1(w: bv32): bv8 { ((w >> 8) & 0xff) as bv8 }

  function Byte0(w: bv32): bv8 { (w & 0xff) as bv8 }

  function Xor(u: bv32, v: bv32): bv32 { u ^ v }

  function Xor4(t: bv32, u: bv32, v: bv32, w: bv32): bv32 { Xor(Xor(Xor(t, u), v), w) }

  function Xor5(t: bv32, u: bv32, v: bv32, w: bv32, k: bv32): bv32 { Xor(Xor4(t, u, v, w), k) }

  /** GETU32 on the four bytes a, b, c, d. */
  function Pack(a: bv8, b: bv8, c: bv8, d: bv8): bv32 {
    Xor4(a as bv32 << 24, b as bv32 << 16, c as bv32 << 8, d as bv32)
  }

  /** The column a word stands for. */
  function Col(w: bv32): Column { Column(Byte3(w), Byte2(w), Byte1(w), Byte0(w)) }

  function StateOf(s0: bv32, s1: bv32, s2: bv32, s3: bv32): State {
    State(Col(s0), Col(s1), Col(s2), Col(s3))
  }

  function Te0(x: bv8): bv32 { Pack(Xtime(S(x)), S(x), S(x), Mul3(S(x))) }

  function Te1(x: bv8): bv32 { Pack(Mul3(S(x)), Xtime(S(x)), S(x), S(x)) }

  function Te2(x: bv8): bv32 { Pack(S(x), Mul3(S(x)), Xtime(S(x)), S(x)) }

  function Te3(x: bv8): bv32 { Pack(S(x), S(x), Mul3(S(x)), Xtime(S(x))) }

  function Td0(x: bv8): bv32 { Pack(Mul14(Si(x)), Mul9(Si(x)), Mul13(Si(x)), Mul11(Si(x))) }

  function Td1(x: bv8): bv32 { Pack(Mul11(Si(x)), Mul14(Si(x)), Mul9(Si(x)), Mul13(Si(x))) }

  function Td2(x: bv8): bv32 { Pack(Mul13(Si(x)), Mul11(Si(x)), Mul14(Si(x)), Mul9(Si(x))) }

  function Td3(x: bv8): bv32 { Pack(Mul9(Si(x)), Mul13(Si(x)), Mul11(Si(x)), Mul14(Si(x))) }

  /** One word of a full encryption round. */
  function EncWord(a: bv32, b: bv32, c: bv32, d: bv32, k: bv32): bv32 {
    Xor5(Te0(Byte3(a)), Te1(Byte2(b)), Te2(Byte1(c)), Te3(Byte0(d)), k)
  }

  /** One word of the last encryption round. */
  function EncLastWord(a: bv32, b: bv32, c: bv32, d: bv32, k: bv32): bv32 {
    Xor5(Te2(Byte3(a)) & 0xff000000, Te3(Byte2(b)) & 0x00ff0000,
         Te0(Byte1(c)) & 0x0000ff00, Te1(Byte0(d)) & 0x000000ff, k)
  }

  /** One word of a full decryption round. */
  function DecWord(a: bv32, b: bv32, c: bv32, d: bv32, k: bv32): bv32 {
    Xor5(Td0(Byte3(a)), Td1(Byte2(b)), Td2(Byte1(c)), Td3(Byte0(d)), k)
  }

  /** One word of the last decryption round; Si is the table Td4. */
  function DecLastWord(a: bv32, b: bv32, c: bv32, d: bv32, k: bv32): bv32 {
    Xor(Pack(Si(Byte3(a)), Si(Byte2(b)), Si(Byte1(c)), Si(Byte0(d))), k)
  }

  /** The table form of SubWord(RotWord(temp)) in the key expansion. */
  function RotSubWord(temp: bv32): bv32 {
    Xor4(Te2(Byte2(temp)) & 0xff000000, Te3(Byte1(temp)) & 0x00ff0000,
         Te0(Byte0(temp)) & 0x0000ff00, Te1(Byte3(temp)) & 0x000000ff)
  }

  /** The table form of SubWord(temp) in the 256-bit key expansion. */
  function SubWord(temp: bv32): bv32 {
    Xor4(Te2(Byte3(temp)) & 0xff000000, Te3(Byte2(temp)) & 0x00ff0000,
         Te0(Byte1(temp)) & 0x0000ff00, Te1(Byte0(temp)) & 0x000000ff)
  }

  /** The inverse mix of one schedule word, read through Te1 and the Td tables. */
  function InvMixWord(w: bv32): bv32 {
    Xor4(Td0((Te1(Byte3(w)) & 0xff) as bv8), Td1((Te1(Byte2(w)) & 0xff) as bv8),
         Td2((Te1(Byte1(w)) & 0xff) as bv8), Td3((Te1(Byte0(w)) & 0xff) as bv8))
  }

  const RCON: seq<bv32> := [
    0x01000000, 0x02000000, 0x04000000, 0x08000000, 0x10000000,
    0x20000000, 0x40000000, 0x80000000, 0x1B000000, 0x36000000]

  // ----- words and columns

  lemma ColPack(a: bv8, b: bv8, c: bv8, d: bv8)
    ensures Col(Pack(a, b, c, d)) == Column(a, b, c, d)
  {
  }

  lemma ColXor(u: bv32, v: bv32)
    ensures Col(Xor(u, v)) == AddColumn(Col(u), Col(v))
  {
  }

  lemma PackMasks(a: bv8, b: bv8, c: bv8, d: bv8)
    ensures Pack(a, b, c, d) & 0xff000000 == a as bv32 << 24
    ensures Pack(a, b, c, d) & 0x00ff0000 == b as bv32 << 16
    ensures Pack(a, b, c, d) & 0x0000ff00 == c as bv32 << 8
    ensures Pack(a, b, c, d) & 0x000000ff == d as bv32
  {
  }

  lemma ColXor4(t: bv32, u: bv32, v: bv32, w: bv32)
    ensures Col(Xor4(t, u, v, w)) == AddColumn(AddColumn(AddColumn(Col(t), Col(u)), Col(v)), Col(w))
  {
    hide AddColumn, Col, Xor;
    ColXor(Xor(Xor(t, u), v), w);
    ColXor(Xor(t, u), v);
    ColXor(t, u);
  }

  lemma FourColumns(t: Column, u: Column, v: Column, w: Column)
    ensures AddColumn(AddColumn(AddColumn(t, u), v), w)
         == Column(Sum4(t.r0, u.r0, v.r0, w.r0), Sum4(t.r1, u.r1, v.r1, w.r1),
                   Sum4(t.r2, u.r2, v.r2, w.r2), Sum4(t.r3, u.r3, v.r3, w.r3))
  {
    hide Add, Sum4;
    Sum4Chain(t.r0, u.r0, v.r0, w.r0);
    Sum4Chain(t.r1, u.r1, v.r1, w.r1);
    Sum4Chain(t.r2, u.r2, v.r2, w.r2);
    Sum4Chain(t.r3, u.r3, v.r3, w.r3);
  }

  lemma TeColumns(a: bv8, b: bv8, c: bv8, d: bv8)
    ensures AddColumn(AddColumn(AddColumn(Col(Te0(a)), Col(Te1(b))), Col(Te2(c))), Col(Te3(d)))
         == MixColumn(SubColumn(Column(a, b, c, d)))
  {
    hide S, Xtime, Mul3, Sum4, Pack, Col, Add;
    var p, q, r, s := S(a), S(b), S(c), S(d);
    ColPack(Xtime(p), p, p, Mul3(p));
    ColPack(Mul3(q), Xtime(q), q, q);
    ColPack(r, Mul3(r), Xtime(r), r);
    ColPack(s, s, Mul3(s), Xtime(s));
    FourColumns(Col(Te0(a)), Col(Te1(b)), Col(Te2(c)), Col(Te3(d)));
    Sum4Rotate(p, Xtime(q), Mul3(r), s);
    Sum4Rotate(p, q, Xtime(r), Mul3(s));
    Sum4Rotate(q, Xtime(r), Mul3(s), p);
    Sum4Rotate(Xtime(s), Mul3(p), q, r);
  }

  lemma TdColumns(a: bv8, b: bv8, c: bv8, d: bv8)
    ensures AddColumn(AddColumn(AddColumn(Col(Td0(a)), Col(Td1(b))), Col(Td2(c))), Col(Td3(d)))
         == InvMixColumn(InvSubColumn(Column(a, b, c, d)))
  {
    hide Si, Mul9, Mul11, Mul13, Mul14, Sum4, Pack, Col, Add;
    var p, q, r, s := Si(a), Si(b), Si(c), Si(d);
    ColPack(Mul14(p), Mul9(p), Mul13(p), Mul11(p));
    ColPack(Mul11(q), Mul14(q), Mul9(q), Mul13(q));
    ColPack(Mul13(r), Mul11(r), Mul14(r), Mul9(r));
    ColPack(Mul9(s), Mul13(s), Mul11(s), Mul14(s));
    FourColumns(Col(Td0(a)), Col(Td1(b)), Col(Td2(c)), Col(Td3(d)));
    Sum4Rotate(Mul9(p), Mul14(q), Mul11(r), Mul13(s));
    Sum4Rotate(Mul13(p), Mul9(q), Mul14(r), Mul11(s));
    Sum4Rotate(Mul9(q), Mul14(r), Mul11(s), Mul13(p));
    Sum4Rotate(Mul14(s), Mul11(p), Mul13(q), Mul9(r));
  }

  /** A table lookup per byte computes the substitution, the shift and the mix of one column. */
  lemma EncWordColumn(a: bv32, b: bv32, c: bv32, d: bv32, k: bv32)
    ensures Col(EncWord(a, b, c, d, k))
         == AddColumn(MixColumn(SubColumn(Column(Byte3(a), Byte2(b), Byte1(c), Byte0(d)))), Col(k))
  {
    hide Te0, Te1, Te2, Te3, Col, AddColumn, MixColumn, SubColumn, Byte0, Byte1, Byte2, Byte3, Xor, Xor4;
    ColXor(Xor4(Te0(Byte3(a)), Te1(Byte2(b)), Te2(Byte1(c)), Te3(Byte0(d))), k);
    ColXor4(Te0(Byte3(a)), Te1(Byte2(b)), Te2(Byte1(c)), Te3(Byte0(d)));
    TeColumns(Byte3(a), Byte2(b), Byte1(c), Byte0(d));
  }

  lemma DecWordColumn(a: bv32, b: bv32, c: bv32, d: bv32, k: bv32)
    ensures Col(DecWord(a, b, c, d, k))
         == AddColumn(InvMixColumn(InvSubColumn(Column(Byte3(a), Byte2(b), Byte1(c), Byte0(d)))), Col(k))
  {
    hide Td0, Td1, Td2, Td3, Col, AddColumn, InvMixColumn, InvSubColumn, Byte0, Byte1, Byte2, Byte3, Xor, Xor4;
    ColXor(Xor4(Td0(Byte3(a)), Td1(Byte2(b)), Td2(Byte1(c)), Td3(Byte0(d))), k);
    ColXor4(Td0(Byte3(a)), Td1(Byte2(b)), Td2(Byte1(c)), Td3(Byte0(d)));
    TdColumns(Byte3(a), Byte2(b), Byte1(c), Byte0(d));
  }

  /** The four masked lookups pick the plain substitution of four bytes. */
  lemma MaskedTables(a: bv8, b: bv8, c: bv8, d: bv8)
    ensures Xor4(Te2(a) & 0xff000000, Te3(b) & 0x00ff0000, Te0(c) & 0x0000ff00, Te1(d) & 0x000000ff)
         == Pack(S(a), S(b), S(c), S(d))
  {
    hide S, Xtime, Mul3, Xor4;
    var p, q, r, s := S(a), S(b), S(c), S(d);
    PackMasks(p, Mul3(p), Xtime(p), p);
    PackMasks(q, q, Mul3(q), Xtime(q));
    PackMasks(Xtime(r), r, r, Mul3(r));
    PackMasks(Mul3(s), Xtime(s), s, s);
  }

  lemma EncLastWordColumn(a: bv32, b: bv32, c: bv32, d: bv32, k: bv32)
    ensures Col(EncLastWord(a, b, c, d, k))
         == AddColumn(SubColumn(Column(Byte3(a), Byte2(b), Byte1(c), Byte0(d))), Col(k))
  {
    hide Te0, Te1, Te2, Te3, Col, Pack, S, AddColumn, Byte0, Byte1, Byte2, Byte3, Xor, Xor4;
    var p, q, r, s := Byte3(a), Byte2(b), Byte1(c), Byte0(d);
    MaskedTables(p, q, r, s);
    ColXor(Pack(S(p), S(q), S(r), S(s)), k);
    ColPack(S(p), S(q), S(r), S(s));
  }

  lemma DecLastWordColumn(a: bv32, b: bv32, c: bv32, d: bv32, k: bv32)
    ensures Col(DecLastWord(a, b, c, d, k))
         == AddColumn(InvSubColumn(Column(Byte3(a), Byte2(b), Byte1(c), Byte0(d))), Col(k))
  {
    hide Col, Si, AddColumn, Byte0, Byte1, Byte2, Byte3, Xor, Pack;
    var p, q, r, s := Si(Byte3(a)), Si(Byte2(b)), Si(Byte1(c)), Si(Byte0(d));
    ColXor(Pack(p, q, r, s), k);
    ColPack(p, q, r, s);
  }

  lemma RotSubWordColumn(temp: bv32)
    ensures Col(RotSubWord(temp)) == SubColumn(RotColumn(Col(temp)))
  {
    hide Te0, Te1, Te2, Te3, Pack, S, Byte0, Byte1, Byte2, Byte3, Xor4;
    MaskedTables(Byte2(temp), Byte1(temp), Byte0(temp), Byte3(temp));
    ColPack(S(Byte2(temp)), S(Byte1(temp)), S(Byte0(temp)), S(Byte3(temp)));
  }

  lemma SubWordColumn(temp: bv32)
    ensures Col(SubWord(temp)) == SubColumn(Col(temp))
  {
    hide Te0, Te1, Te2, Te3, Pack, S, Byte0, Byte1, Byte2, Byte3, Xor4;
    MaskedTables(Byte3(temp), Byte2(temp), Byte1(temp), Byte0(temp));
    ColPack(S(Byte3(temp)), S(Byte2(temp)), S(Byte1(temp)), S(Byte0(temp)));
  }

  lemma LowByteOfTe1(x: bv8)
    ensures (Te1(x) & 0xff) as bv8 == S(x)
  {
    hide S, Xtime, Mul3;
    PackMasks(Mul3(S(x)), Xtime(S(x)), S(x), S(x));
  }

  /** Td after Te1 is a plain inverse mix: the substitution and its inverse cancel. */
  lemma InvMixWordColumn(w: bv32)
    ensures Col(InvMixWord(w)) == InvMixColumn(Col(w))
  {
    hide Te1, Td0, Td1, Td2, Td3, S, Si, InvMixRow, AddColumn, Byte0, Byte1, Byte2, Byte3, Xor4;
    var p, q, r, s := S(Byte3(w)), S(Byte2(w)), S(Byte1(w)), S(Byte0(w));
    LowByteOfTe1(Byte3(w));
    LowByteOfTe1(Byte2(w));
    LowByteOfTe1(Byte1(w));
    LowByteOfTe1(Byte0(w));
    ColXor4(Td0(p), Td1(q), Td2(r), Td3(s));
    TdColumns(p, q, r, s);
    SubColumnUndone(Col(w));
  }

  /** The rcon table holds the powers of x of section 5.2 of FIPS 197. */
  lemma RconColumn(i: nat)
    requires i < |RCON|
    ensures Col(RCON[i]) == Column(RconByte(i + 1), 0, 0, 0)
  {
    assert RconByte(2) == 0x02 && RconByte(3) == 0x04;
    assert RconByte(4) == 0x08 && RconByte(5) == 0x10;
    assert RconByte(6) == 0x20 && RconByte(7) == 0x40;
    assert RconByte(8) == 0x80 && RconByte(9) == 0x1b;
    assert RconByte(10) == 0x36;
  }

  // ----- whole rounds

  /** Four table words are one full round of the cipher. */
  lemma EncRound(s0: bv32, s1: bv32, s2: bv32, s3: bv32, k0: bv32, k1: bv32, k2: bv32, k3: bv32)
    ensures StateOf(EncWord(s0, s1, s2, s3, k0), EncWord(s1, s2, s3, s0, k1),
                    EncWord(s2, s3, s0, s1, k2), EncWord(s3, s0, s1, s2, k3))
         == AddRoundKey(MixColumns(ShiftRows(SubBytes(StateOf(s0, s1, s2, s3)))), StateOf(k0, k1, k2, k3))
  {
    hide S, EncWord, AddColumn, MixColumn, Byte0, Byte1, Byte2, Byte3;
    EncWordColumn(s0, s1, s2, s3, k0);
    EncWordColumn(s1, s2, s3, s0, k1);
    EncWordColumn(s2, s3, s0, s1, k2);
    EncWordColumn(s3, s0, s1, s2, k3);
  }

  lemma EncLastRound(s0: bv32, s1: bv32, s2: bv32, s3: bv32, k0: bv32, k1: bv32, k2: bv32, k3: bv32)
    ensures StateOf(EncLastWord(s0, s1, s2, s3, k0), EncLastWord(s1, s2, s3, s0, k1),
                    EncLastWord(s2, s3, s0, s1, k2), EncLastWord(s3, s0, s1, s2, k3))
         == AddRoundKey(ShiftRows(SubBytes(StateOf(s0, s1, s2, s3))), StateOf(k0, k1, k2, k3))
  {
    hide S, EncLastWord, AddColumn, Byte0, Byte1, Byte2, Byte3;
    EncLastWordColumn(s0, s1, s2, s3, k0);
    EncLastWordColumn(s1, s2, s3, s0, k1);
    EncLastWordColumn(s2, s3, s0, s1, k2);
    EncLastWordColumn(s3, s0, s1, s2, k3);
  }

  /** Four table words are one full round of the equivalent inverse cipher. */
  lemma DecRound(s0: bv32, s1: bv32, s2: bv32, s3: bv32, k0: bv32, k1: bv32, k2: bv32, k3: bv32)
    ensures StateOf(DecWord(s0, s3, s2, s1, k0), DecWord(s1, s0, s3, s2, k1),
                    DecWord(s2, s1, s0, s3, k2), DecWord(s3, s2, s1, s0, k3))
         == AddRoundKey(InvMixColumns(InvShiftRows(InvSubBytes(StateOf(s0, s1, s2, s3)))), StateOf(k0, k1, k2, k3))
  {
    hide Si, DecWord, AddColumn, InvMixColumn, Byte0, Byte1, Byte2, Byte3;
    DecWordColumn(s0, s3, s2, s1, k0);
    DecWordColumn(s1, s0, s3, s2, k1);
    DecWordColumn(s2, s1, s0, s3, k2);
    DecWordColumn(s3, s2, s1, s0, k3);
  }

  lemma DecLastRound(s0: bv32, s1: bv32, s2: bv32, s3: bv32, k0: bv32, k1: bv32, k2: bv32, k3: bv32)
    ensures StateOf(DecLastWord(s0, s3, s2, s1, k0), DecLastWord(s1, s0, s3, s2, k1),
                    DecLastWord(s2, s1, s0, s3, k2), DecLastWord(s3, s2, s1, s0, k3))
         == AddRoundKey(InvShiftRows(InvSubBytes(StateOf(s0, s1, s2, s3))), StateOf(k0, k1, k2, k3))
  {
    hide Si, DecLastWord, AddColumn, Byte0, Byte1, Byte2, Byte3;
    DecLastWordColumn(s0, s3, s2, s1, k0);
    DecLastWordColumn(s1, s0, s3, s2, k1);
    DecLastWordColumn(s2, s1, s0, s3, k2);
    DecLastWordColumn(s3, s2, s1, s0, k3);
  }
}
