/** The reference: the cipher, its straightforward inverse, its equivalent inverse and the key
    expansion as FIPS 197 defines them, on a state of four columns. */
module Fips197 {
  import opened Gf256

  datatype Column = Column(r0: bv8, r1: bv8, r2: bv8, r3: bv8)

  datatype State = State(c0: Column, c1: Column, c2: Column, c3: Column)

  /** A key schedule: four columns for each round key. */
  type Schedule = seq<Column>

  // ----- section 5.1: the transformations of the cipher

  function AddColumn(a: Column, b: Column): Column {
    Column(Add(a.r0, b.r0), Add(a.r1, b.r1), Add(a.r2, b.r2), Add(a.r3, b.r3))
  }

  function SubColumn(c: Column): Column {
    Column(S(c.r0), S(c.r1), S(c.r2), S(c.r3))
  }

  function MixColumn(c: Column): Column {
    Column(MixRow(c.r0, c.r1, c.r2, c.r3), MixRow(c.r1, c.r2, c.r3, c.r0),
           MixRow(c.r2, c.r3, c.r0, c.r1), MixRow(c.r3, c.r0, c.r1, c.r2))
  }

  function AddRoundKey(s: State, k: State): State {
    State(AddColumn(s.c0, k.c0), AddColumn(s.c1, k.c1), AddColumn(s.c2, k.c2), AddColumn(s.c3, k.c3))
  }

  function SubBytes(s: State): State {
    State(SubColumn(s.c0), SubColumn(s.c1), SubColumn(s.c2), SubColumn(s.c3))
  }

  function ShiftRows(s: State): State {
    State(Column(s.c0.r0, s.c1.r1, s.c2.r2, s.c3.r3), Column(s.c1.r0, s.c2.r1, s.c3.r2, s.c0.r3),
          Column(s.c2.r0, s.c3.r1, s.c0.r2, s.c1.r3), Column(s.c3.r0, s.c0.r1, s.c1.r2, s.c2.r3))
  }

  function MixColumns(s: State): State {
    State(MixColumn(s.c0), MixColumn(s.c1), MixColumn(s.c2), MixColumn(s.c3))
  }

  function RoundKey(w: Schedule, r: nat): State
    requires 4 * r + 4 <= |w|
  {
    State(w[4 * r], w[4 * r + 1], w[4 * r + 2], w[4 * r + 3])
  }

  /** The state after the initial key addition and `r` full rounds. */
  function Rounds(x: State, w: Schedule, r: nat): State
    requires 4 * r + 4 <= |w|
  {
    if r == 0 then AddRoundKey(x, RoundKey(w, 0))
    else AddRoundKey(MixColumns(ShiftRows(SubBytes(Rounds(x, w, r - 1)))), RoundKey(w, r))
  }

  /** Cipher(), figure 5 of FIPS 197. */
  function Cipher(x: State, w: Schedule, nr: nat): State
    requires 1 <= nr && 4 * nr + 4 <= |w|
  {
    AddRoundKey(ShiftRows(SubBytes(Rounds(x, w, nr - 1))), RoundKey(w, nr))
  }

  // ----- section 5.3: the inverse cipher

  function InvSubColumn(c: Column): Column {
    Column(Si(c.r0), Si(c.r1), Si(c.r2), Si(c.r3))
  }

  function InvMixColumn(c: Column): Column {
    Column(InvMixRow(c.r0, c.r1, c.r2, c.r3), InvMixRow(c.r1, c.r2, c.r3, c.r0),
           InvMixRow(c.r2, c.r3, c.r0, c.r1), InvMixRow(c.r3, c.r0, c.r1, c.r2))
  }

  function InvSubBytes(s: State): State {
    State(InvSubColumn(s.c0), InvSubColumn(s.c1), InvSubColumn(s.c2), InvSubColumn(s.c3))
  }

  function InvShiftRows(s: State): State {
    State(Column(s.c0.r0, s.c3.r1, s.c2.r2, s.c1.r3), Column(s.c1.r0, s.c0.r1, s.c3.r2, s.c2.r3),
          Column(s.c2.r0, s.c1.r1, s.c0.r2, s.c3.r3), Column(s.c3.r0, s.c2.r1, s.c1.r2, s.c0.r3))
  }

  function InvMixColumns(s: State): State {
    State(InvMixColumn(s.c0), InvMixColumn(s.c1), InvMixColumn(s.c2), InvMixColumn(s.c3))
  }

  /** The state after the initial key addition and the first `k` rounds of InvCipher(). */
  function InvRounds(y: State, w: Schedule, nr: nat, k: nat): State
    requires k < nr && 4 * nr + 4 <= |w|
  {
    if k == 0 then AddRoundKey(y, RoundKey(w, nr))
    else InvMixColumns(AddRoundKey(InvSubBytes(InvShiftRows(InvRounds(y, w, nr, k - 1))), RoundKey(w, nr - k)))
  }

  /** InvCipher(), figure 12 of FIPS 197. */
  function InvCipher(y: State, w: Schedule, nr: nat): State
    requires 1 <= nr && 4 * nr + 4 <= |w|
  {
    AddRoundKey(InvSubBytes(InvShiftRows(InvRounds(y, w, nr, nr - 1))), RoundKey(w, 0))
  }

  // ----- section 5.3.5: the equivalent inverse cipher, its schedule read forward from index 0

  function EqInvRounds(y: State, dw: Schedule, k: nat): State
    requires 4 * k + 4 <= |dw|
  {
    if k == 0 then AddRoundKey(y, RoundKey(dw, 0))
    else AddRoundKey(InvMixColumns(InvShiftRows(InvSubBytes(EqInvRounds(y, dw, k - 1)))), RoundKey(dw, k))
  }

  /** EqInvCipher(), figure 15 of FIPS 197, on the decryption schedule stored in order of use. */
  function EqInvCipher(y: State, dw: Schedule, nr: nat): State
    requires 1 <= nr && 4 * nr + 4 <= |dw|
  {
    AddRoundKey(InvShiftRows(InvSubBytes(EqInvRounds(y, dw, nr - 1))), RoundKey(dw, nr))
  }

  /** dw is the decryption schedule of w: round keys in reverse order of use, all but the outer two
      through InvMixColumns. */
  ghost predicate IsInverseSchedule(dw: Schedule, w: Schedule, nr: nat)
    requires 4 * nr + 4 <= |w| && 4 * nr + 4 <= |dw|
  {
    && RoundKey(dw, 0) == RoundKey(w, nr)
    && RoundKey(dw, nr) == RoundKey(w, 0)
    && forall r :: 0 < r < nr ==> RoundKey(dw, r) == InvMixColumns(RoundKey(w, nr - r))
  }

  // ----- section 5.2: key expansion

  function RotColumn(c: Column): Column { Column(c.r1, c.r2, c.r3, c.r0) }

  /** The byte x^(i-1) of the round constant Rcon[i]. */
  function RconByte(i: nat): bv8 {
    if i <= 1 then 0x01 else Xtime(RconByte(i - 1))
  }

  /** What is added to word i - Nk to obtain word i, given word i - 1. */
  function ExpansionCore(nk: nat, i: nat, previous: Column): Column
    requires nk <= i && nk > 0
  {
    if i % nk == 0 then AddColumn(SubColumn(RotColumn(previous)), Column(RconByte(i / nk), 0, 0, 0))
    else if nk > 6 && i % nk == 4 then SubColumn(previous)
    else previous
  }

  /** Word i of KeyExpansion(), figure 11 of FIPS 197, for a key of |key| words. */
  ghost function ExpandedWord(key: seq<Column>, i: nat): Column
    requires |key| > 0
  {
    if i < |key| then key[i]
    else AddColumn(ExpandedWord(key, i - |key|), ExpansionCore(|key|, i, ExpandedWord(key, i - 1)))
  }

  /** The number of rounds for a key of nk words, figure 4 of FIPS 197. */
  function RoundsFor(nk: nat): nat { nk + 6 }

  ghost function KeyExpansion(key: seq<Column>): (w: Schedule)
    requires |key| > 0
    ensures |w| == 4 * (RoundsFor(|key|) + 1)
  {
    seq(4 * (RoundsFor(|key|) + 1), i requires 0 <= i => ExpandedWord(key, i))
  }

  // ----- each transformation undone by its inverse

  lemma InvMixColumnUndoes(c: Column)
    ensures InvMixColumn(MixColumn(c)) == c
  {
    hide MixRow, InvMixRow;
    InvMixRowUndoesMixRow(c.r0, c.r1, c.r2, c.r3);
    InvMixRowUndoesMixRow(c.r1, c.r2, c.r3, c.r0);
    InvMixRowUndoesMixRow(c.r2, c.r3, c.r0, c.r1);
    InvMixRowUndoesMixRow(c.r3, c.r0, c.r1, c.r2);
  }

  /** InvMixColumns undoes MixColumns on every state. */
  lemma InvMixColumnsUndoes(s: State)
    ensures InvMixColumns(MixColumns(s)) == s
  {
    hide MixColumn, InvMixColumn;
    InvMixColumnUndoes(s.c0);
    InvMixColumnUndoes(s.c1);
    InvMixColumnUndoes(s.c2);
    InvMixColumnUndoes(s.c3);
  }

  lemma InvMixColumnLinear(a: Column, b: Column)
    ensures InvMixColumn(AddColumn(a, b)) == AddColumn(InvMixColumn(a), InvMixColumn(b))
  {
    hide Add, InvMixRow;
    InvMixRowLinear(a.r0, a.r1, a.r2, a.r3, b.r0, b.r1, b.r2, b.r3);
    InvMixRowLinear(a.r1, a.r2, a.r3, a.r0, b.r1, b.r2, b.r3, b.r0);
    InvMixRowLinear(a.r2, a.r3, a.r0, a.r1, b.r2, b.r3, b.r0, b.r1);
    InvMixRowLinear(a.r3, a.r0, a.r1, a.r2, b.r3, b.r0, b.r1, b.r2);
  }

  /** InvMixColumns distributes over the key addition, which is what lets the two change places. */
  lemma InvMixColumnsLinear(s: State, k: State)
    ensures InvMixColumns(AddRoundKey(s, k)) == AddRoundKey(InvMixColumns(s), InvMixColumns(k))
  {
    hide AddColumn, InvMixColumn;
    InvMixColumnLinear(s.c0, k.c0);
    InvMixColumnLinear(s.c1, k.c1);
    InvMixColumnLinear(s.c2, k.c2);
    InvMixColumnLinear(s.c3, k.c3);
  }

  lemma SubColumnUndone(c: Column)
    ensures InvSubColumn(SubColumn(c)) == c
  {
    hide S, Si;
    SubstitutionInverse(c.r0);
    SubstitutionInverse(c.r1);
    SubstitutionInverse(c.r2);
    SubstitutionInverse(c.r3);
  }

  lemma SubAndShiftUndone(s: State)
    ensures InvSubBytes(InvShiftRows(ShiftRows(SubBytes(s)))) == s
  {
    hide SubColumn, InvSubColumn;
    assert InvShiftRows(ShiftRows(SubBytes(s))) == SubBytes(s);
    SubColumnUndone(s.c0);
    SubColumnUndone(s.c1);
    SubColumnUndone(s.c2);
    SubColumnUndone(s.c3);
  }

  lemma SubAndShiftCommute(s: State)
    ensures InvShiftRows(InvSubBytes(s)) == InvSubBytes(InvShiftRows(s))
  {
    hide Si;
  }

  lemma AddColumnCancels(c: Column, k: Column)
    ensures AddColumn(AddColumn(c, k), k) == c
  {
    hide Add;
    AddCancels(c.r0, k.r0);
    AddCancels(c.r1, k.r1);
    AddCancels(c.r2, k.r2);
    AddCancels(c.r3, k.r3);
  }

  lemma AddRoundKeyCancels(s: State, k: State)
    ensures AddRoundKey(AddRoundKey(s, k), k) == s
  {
    hide AddColumn;
    AddColumnCancels(s.c0, k.c0);
    AddColumnCancels(s.c1, k.c1);
    AddColumnCancels(s.c2, k.c2);
    AddColumnCancels(s.c3, k.c3);
  }

  // ----- the inverse ciphers undo the cipher

  /** After k inverse rounds the state is the one the cipher had before its last k mix steps. */
  lemma {:induction false} InvRoundsRetrace(x: State, w: Schedule, nr: nat, k: nat)
    requires k < nr && 4 * nr + 4 <= |w|
    ensures InvRounds(Cipher(x, w, nr), w, nr, k) == ShiftRows(SubBytes(Rounds(x, w, nr - 1 - k)))
  {
    hide AddRoundKey, SubBytes, ShiftRows, MixColumns, InvSubBytes, InvShiftRows, InvMixColumns, RoundKey;
    var back := nr - 1 - k;
    if k == 0 {
      AddRoundKeyCancels(ShiftRows(SubBytes(Rounds(x, w, back))), RoundKey(w, nr));
    } else {
      InvRoundsRetrace(x, w, nr, k - 1);
      var before := Rounds(x, w, back);
      var after := Rounds(x, w, back + 1);
      SubAndShiftUndone(after);
      AddRoundKeyCancels(MixColumns(ShiftRows(SubBytes(before))), RoundKey(w, back + 1));
      InvMixColumnsUndoes(ShiftRows(SubBytes(before)));
    }
  }

  /** InvCipher undoes Cipher under any schedule, whatever the number of rounds. */
  lemma InvCipherUndoesCipher(x: State, w: Schedule, nr: nat)
    requires 1 <= nr && 4 * nr + 4 <= |w|
    ensures InvCipher(Cipher(x, w, nr), w, nr) == x
  {
    hide AddRoundKey, SubBytes, ShiftRows, MixColumns, InvSubBytes, InvShiftRows, InvMixColumns, RoundKey;
    InvRoundsRetrace(x, w, nr, nr - 1);
    SubAndShiftUndone(Rounds(x, w, 0));
    AddRoundKeyCancels(x, RoundKey(w, 0));
  }

  lemma {:induction false} EqInvRoundsAgree(y: State, w: Schedule, dw: Schedule, nr: nat, k: nat)
    requires k < nr && 4 * nr + 4 <= |w| && 4 * nr + 4 <= |dw|
    requires IsInverseSchedule(dw, w, nr)
    ensures EqInvRounds(y, dw, k) == InvRounds(y, w, nr, k)
  {
    hide AddRoundKey, InvSubBytes, InvShiftRows, InvMixColumns, RoundKey;
    if k > 0 {
      EqInvRoundsAgree(y, w, dw, nr, k - 1);
      var s := InvRounds(y, w, nr, k - 1);
      SubAndShiftCommute(s);
      InvMixColumnsLinear(InvSubBytes(InvShiftRows(s)), RoundKey(w, nr - k));
    }
  }

  /** On the decryption schedule the equivalent inverse cipher computes InvCipher. */
  lemma EqInvCipherIsInvCipher(y: State, w: Schedule, dw: Schedule, nr: nat)
    requires 1 <= nr && 4 * nr + 4 <= |w| && 4 * nr + 4 <= |dw|
    requires IsInverseSchedule(dw, w, nr)
    ensures EqInvCipher(y, dw, nr) == InvCipher(y, w, nr)
  {
    hide AddRoundKey, InvSubBytes, InvShiftRows, InvMixColumns, RoundKey;
    EqInvRoundsAgree(y, w, dw, nr, nr - 1);
    SubAndShiftCommute(InvRounds(y, w, nr, nr - 1));
  }

  /** The equivalent inverse cipher undoes the cipher. */
  lemma EqInvCipherUndoesCipher(x: State, w: Schedule, dw: Schedule, nr: nat)
    requires 1 <= nr && 4 * nr + 4 <= |w| && 4 * nr + 4 <= |dw|
    requires IsInverseSchedule(dw, w, nr)
    ensures EqInvCipher(Cipher(x, w, nr), dw, nr) == x
  {
    EqInvCipherIsInvCipher(Cipher(x, w, nr), w, dw, nr);
    InvCipherUndoesCipher(x, w, nr);
  }
}
