/** The key schedules and the block transformations of server/common/libtools/AesCore.cpp, in
    place over arrays, each proved to compute what FIPS 197 defines. */
module AesCore {
  import opened Fips197
  import opened AesWords

  /** AES_KEY: sixty schedule words and the number of rounds. */
  class AesKey {
    const rdKey: array<bv32>
    var rounds: int

    constructor ()
      ensures rdKey.Length == 60 && fresh(rdKey)
    {
      rdKey := new bv32[60];
      rounds := 0;
    }

    /** A schedule that AES_encrypt and AES_decrypt can walk: an even number of rounds within the array. */
    ghost predicate Ready()
      reads this
    {
      rdKey.Length == 60 && 2 <= rounds <= 14 && rounds % 2 == 0
    }

    ghost function Schedule(): (w: Schedule)
      reads rdKey
      ensures |w| == rdKey.Length
    {
      Columns(rdKey[..])
    }
  }

  ghost function Columns(a: seq<bv32>): (w: seq<Column>)
    ensures |w| == |a|
  {
    seq(|a|, i requires 0 <= i < |a| => Col(a[i]))
  }

  /** The words of a byte sequence, four bytes each, first byte highest. */
  ghost function BytesToColumns(b: seq<bv8>): (w: seq<Column>)
    ensures |w| == |b| / 4
  {
    seq(|b| / 4, i requires 0 <= i < |b| / 4 => Column(b[4 * i], b[4 * i + 1], b[4 * i + 2], b[4 * i + 3]))
  }

  /** Section 3.4 of FIPS 197: the state holding a sixteen-byte block, column by column. */
  function BlockToState(b: seq<bv8>): State
    requires |b| == 16
  {
    State(Column(b[0], b[1], b[2], b[3]), Column(b[4], b[5], b[6], b[7]),
          Column(b[8], b[9], b[10], b[11]), Column(b[12], b[13], b[14], b[15]))
  }

  function ColumnToBytes(c: Column): (b: seq<bv8>)
    ensures |b| == 4
  {
    [c.r0, c.r1, c.r2, c.r3]
  }

  function StateToBlock(s: State): (b: seq<bv8>)
    ensures |b| == 16
  {
    ColumnToBytes(s.c0) + ColumnToBytes(s.c1) + ColumnToBytes(s.c2) + ColumnToBytes(s.c3)
  }

  lemma BlockRoundTrip(s: State)
    ensures BlockToState(StateToBlock(s)) == s
  {
  }

  lemma StateRoundTrip(b: seq<bv8>)
    requires |b| == 16
    ensures StateToBlock(BlockToState(b)) == b
  {
  }

  /** b with the bytes from `at` on overwritten by v. */
  function Overwrite(b: seq<bv8>, at: nat, v: seq<bv8>): (r: seq<bv8>)
    requires at + |v| <= |b|
    ensures |r| == |b|
  {
    b[..at] + v + b[at + |v|..]
  }

  lemma OverwriteTwice(b: seq<bv8>, at: nat, u: seq<bv8>, v: seq<bv8>)
    requires at + |u| + |v| <= |b|
    ensures Overwrite(Overwrite(b, at, u), at + |u|, v) == Overwrite(b, at, u + v)
  {
  }

  // ----- key expansion

  /** The first n words hold the expansion of key. */
  ghost predicate Expanded(a: seq<bv32>, key: seq<Column>, n: nat)
  {
    |key| > 0 && n <= |a| && forall j :: 0 <= j < n ==> Col(a[j]) == ExpandedWord(key, j)
  }

  lemma ExpandPlain(a: seq<bv32>, key: seq<Column>, n: nat)
    requires Expanded(a, key, n) && |key| <= n < |a|
    requires n % |key| != 0 && (|key| > 6 ==> n % |key| != 4)
    ensures Expanded(a[n := Xor(a[n - |key|], a[n - 1])], key, n + 1)
  {
    hide Col, AddColumn;
    ColXor(a[n - |key|], a[n - 1]);
  }

  lemma ExpandRot(a: seq<bv32>, key: seq<Column>, n: nat, i: nat)
    requires Expanded(a, key, n) && |key| <= n < |a|
    requires n % |key| == 0 && n / |key| == i + 1 && i < 10
    ensures Expanded(a[n := Xor(Xor(a[n - |key|], RotSubWord(a[n - 1])), RCON[i])], key, n + 1)
  {
    hide RotSubWord, SubColumn, RotColumn, Xor;
    var u, v, r := a[n - |key|], RotSubWord(a[n - 1]), RCON[i];
    ColXor(Xor(u, v), r);
    ColXor(u, v);
    RotSubWordColumn(a[n - 1]);
    RconColumn(i);
    AddColumnAssociates(Col(u), Col(v), Col(r));
  }

  lemma AddColumnAssociates(a: Column, b: Column, c: Column)
    ensures AddColumn(AddColumn(a, b), c) == AddColumn(a, AddColumn(b, c))
  {
  }

  lemma ExpandSub(a: seq<bv32>, key: seq<Column>, n: nat)
    requires Expanded(a, key, n) && |key| <= n < |a|
    requires |key| > 6 && n % |key| == 4
    ensures Expanded(a[n := Xor(a[n - |key|], SubWord(a[n - 1]))], key, n + 1)
  {
    hide Col, AddColumn, SubWord, SubColumn;
    ColXor(a[n - |key|], SubWord(a[n - 1]));
    SubWordColumn(a[n - 1]);
  }

  /** rk[n] = rk[n - nk] ^ rk[n - 1]. */
  method PlainWord(rk: array<bv32>, ghost key: seq<Column>, n: nat, nk: nat)
    requires nk == |key| && Expanded(rk[..], key, n) && nk <= n < rk.Length
    requires n % nk != 0 && (nk > 6 ==> n % nk != 4)
    modifies rk
    ensures Expanded(rk[..], key, n + 1) && forall j :: n < j < rk.Length ==> rk[j] == old(rk[j])
  {
    ExpandPlain(rk[..], key, n);
    rk[n] := Xor(rk[n - nk], rk[n - 1]);
  }

  /** rk[n] = rk[n - nk] ^ SubWord(RotWord(rk[n - 1])) ^ rcon[i], through the tables. */
  method RotWord(rk: array<bv32>, ghost key: seq<Column>, n: nat, nk: nat, i: nat)
    requires nk == |key| && Expanded(rk[..], key, n) && nk <= n < rk.Length
    requires n % nk == 0 && n / nk == i + 1 && i < 10
    modifies rk
    ensures Expanded(rk[..], key, n + 1) && forall j :: n < j < rk.Length ==> rk[j] == old(rk[j])
  {
    hide RotSubWord, Xor;
    ExpandRot(rk[..], key, n, i);
    rk[n] := Xor(Xor(rk[n - nk], RotSubWord(rk[n - 1])), RCON[i]);
  }

  method SubbedWord(rk: array<bv32>, ghost key: seq<Column>, n: nat, nk: nat)
    requires nk == |key| && Expanded(rk[..], key, n) && nk <= n < rk.Length
    requires nk > 6 && n % nk == 4
    modifies rk
    ensures Expanded(rk[..], key, n + 1) && forall j :: n < j < rk.Length ==> rk[j] == old(rk[j])
  {
    hide SubWord, Xor;
    ExpandSub(rk[..], key, n);
    rk[n] := Xor(rk[n - nk], SubWord(rk[n - 1]));
  }

  /** The 128-bit loop: ten turns of four words. */
  method Expand128(rk: array<bv32>, ghost key: seq<Column>)
    requires |key| == 4 && Expanded(rk[..], key, 4) && rk.Length == 60
    modifies rk
    ensures Expanded(rk[..], key, 44) && forall j :: 44 <= j < rk.Length ==> rk[j] == old(rk[j])
  {
    hide Expanded;
    var i, p := 0, 0;
    while true
      invariant 0 <= i < 10 && p == 4 * i
      invariant Expanded(rk[..], key, p + 4) && forall j :: 44 <= j < rk.Length ==> rk[j] == old(rk[j])
      decreases 10 - i
    {
      RotWord(rk, key, p + 4, 4, i);
      PlainWord(rk, key, p + 5, 4);
      PlainWord(rk, key, p + 6, 4);
      PlainWord(rk, key, p + 7, 4);
      i := i + 1;
      if i == 10 { return; }
      p := p + 4;
    }
  }

  /** The 192-bit loop: eight turns of six words, the last one cut after four. */
  method Expand192(rk: array<bv32>, ghost key: seq<Column>)
    requires |key| == 6 && Expanded(rk[..], key, 6) && rk.Length == 60
    modifies rk
    ensures Expanded(rk[..], key, 52) && forall j :: 52 <= j < rk.Length ==> rk[j] == old(rk[j])
  {
    hide Expanded;
    var i, p := 0, 0;
    while true
      invariant 0 <= i < 8 && p == 6 * i
      invariant Expanded(rk[..], key, p + 6) && forall j :: 52 <= j < rk.Length ==> rk[j] == old(rk[j])
      decreases 8 - i
    {
      RotWord(rk, key, p + 6, 6, i);
      PlainWord(rk, key, p + 7, 6);
      PlainWord(rk, key, p + 8, 6);
      PlainWord(rk, key, p + 9, 6);
      i := i + 1;
      if i == 8 { return; }
      PlainWord(rk, key, p + 10, 6);
      PlainWord(rk, key, p + 11, 6);
      p := p + 6;
    }
  }

  /** The 256-bit loop: seven turns of eight words, the last one cut after four. */
  method Expand256(rk: array<bv32>, ghost key: seq<Column>)
    requires |key| == 8 && Expanded(rk[..], key, 8) && rk.Length == 60
    modifies rk
    ensures Expanded(rk[..], key, 60)
  {
    hide Expanded;
    var i, p := 0, 0;
    while true
      invariant 0 <= i < 7 && p == 8 * i
      invariant Expanded(rk[..], key, p + 8)
      decreases 7 - i
    {
      RotWord(rk, key, p + 8, 8, i);
      PlainWord(rk, key, p + 9, 8);
      PlainWord(rk, key, p + 10, 8);
      PlainWord(rk, key, p + 11, 8);
      i := i + 1;
      if i == 7 { return; }
      SubbedWord(rk, key, p + 12, 8);
      PlainWord(rk, key, p + 13, 8);
      PlainWord(rk, key, p + 14, 8);
      PlainWord(rk, key, p + 15, 8);
      p := p + 8;
    }
  }

  predicate SupportedBits(bits: int) { bits == 128 || bits == 192 || bits == 256 }

  /** GETU32(userKey + 4 * n) into rk[n]. */
  method LoadKeyWord(userKey: array<bv8>, rk: array<bv32>, ghost key: seq<Column>, n: nat)
    requires |key| > n && 4 * |key| <= userKey.Length && key == BytesToColumns(userKey[..4 * |key|])
    requires Expanded(rk[..], key, n) && n < rk.Length
    modifies rk
    ensures Expanded(rk[..], key, n + 1) && forall j :: n < j < rk.Length ==> rk[j] == old(rk[j])
  {
    hide Pack, Col;
    ColPack(userKey[4 * n], userKey[4 * n + 1], userKey[4 * n + 2], userKey[4 * n + 3]);
    rk[n] := Pack(userKey[4 * n], userKey[4 * n + 1], userKey[4 * n + 2], userKey[4 * n + 3]);
  }

  /** AES_set_encrypt_key: the words written are exactly the key expansion, for all three key sizes. */
  method SetEncryptKey(userKey: array?<bv8>, bits: int, key: AesKey?) returns (status: int)
    requires userKey != null && SupportedBits(bits) ==> userKey.Length >= bits / 8
    requires key != null ==> key.rdKey.Length == 60
    modifies if key == null then {} else {key, key.rdKey}
    ensures status == if userKey == null || key == null then -1 else if !SupportedBits(bits) then -2 else 0
    ensures status == 0 ==> key.Ready() && key.rounds == RoundsFor(bits / 32)
    ensures status == 0 ==>
              key.Schedule()[..4 * (key.rounds + 1)] == KeyExpansion(BytesToColumns(userKey[..bits / 8]))
    ensures status == 0 ==> forall j :: 4 * (key.rounds + 1) <= j < 60 ==> key.rdKey[j] == old(key.rdKey[j])
    ensures status != 0 && key != null ==> unchanged(key) && unchanged(key.rdKey)
  {
    if userKey == null || key == null { return -1; }
    if !SupportedBits(bits) { return -2; }
    hide Expanded;
    var rk := key.rdKey;
    ghost var kc := BytesToColumns(userKey[..bits / 8]);
    if bits == 128 {
      key.rounds := 10;
    } else if bits == 192 {
      key.rounds := 12;
    } else {
      key.rounds := 14;
    }
    ExpandedNone(rk[..], kc);
    LoadKeyWord(userKey, rk, kc, 0);
    LoadKeyWord(userKey, rk, kc, 1);
    LoadKeyWord(userKey, rk, kc, 2);
    LoadKeyWord(userKey, rk, kc, 3);
    if bits == 128 {
      Expand128(rk, kc);
      ExpandedAll(rk[..], kc);
      return 0;
    }
    LoadKeyWord(userKey, rk, kc, 4);
    LoadKeyWord(userKey, rk, kc, 5);
    if bits == 192 {
      Expand192(rk, kc);
      ExpandedAll(rk[..], kc);
      return 0;
    }
    LoadKeyWord(userKey, rk, kc, 6);
    LoadKeyWord(userKey, rk, kc, 7);
    Expand256(rk, kc);
    ExpandedAll(rk[..], kc);
    return 0;
  }

  lemma ExpandedNone(a: seq<bv32>, key: seq<Column>)
    requires |key| > 0
    ensures Expanded(a, key, 0)
  {
  }

  lemma ExpandedAll(a: seq<bv32>, key: seq<Column>)
    requires Expanded(a, key, 4 * (RoundsFor(|key|) + 1))
    ensures Columns(a)[..4 * (RoundsFor(|key|) + 1)] == KeyExpansion(key)
  {
    hide Col, ExpandedWord;
  }

  // ----- the decryption schedule

  /** Position q of the schedule after the round keys have changed places. */
  function Mirror(nr: nat, q: nat): int { 4 * nr - q + 2 * (q % 4) }

  method SwapWords(rk: array<bv32>, i: nat, j: nat)
    requires i < rk.Length && j < rk.Length
    modifies rk
    ensures rk[i] == old(rk[j]) && rk[j] == old(rk[i])
    ensures forall q :: 0 <= q < rk.Length && q != i && q != j ==> rk[q] == old(rk[q])
  {
    var temp := rk[i];
    rk[i] := rk[j];
    rk[j] := temp;
  }

  method SwapRoundKeys(rk: array<bv32>, i: nat, j: nat)
    requires i + 4 <= j && j + 4 <= rk.Length
    modifies rk
    ensures forall q :: i <= q < i + 4 ==> rk[q] == old(rk[j - i + q])
    ensures forall q :: j <= q < j + 4 ==> rk[q] == old(rk[i - j + q])
    ensures forall q :: 0 <= q < rk.Length && !(i <= q < i + 4) && !(j <= q < j + 4) ==> rk[q] == old(rk[q])
  {
    SwapWords(rk, i, j);
    SwapWords(rk, i + 1, j + 1);
    SwapWords(rk, i + 2, j + 2);
    SwapWords(rk, i + 3, j + 3);
  }

  lemma MirrorOfKey(nr: nat, p: nat)
    requires p % 4 == 0 && p <= 4 * nr
    ensures forall q :: p <= q < p + 4 ==> Mirror(nr, q) == 4 * nr - p + (q - p)
  {
  }

  lemma MirrorInRange(nr: nat, q: nat)
    requires q < 4 * nr + 4
    ensures 0 <= Mirror(nr, q) < 4 * nr + 4
  {
  }

  /** a is e with the round keys before word i and from word j + 4 on in mirrored places. */
  ghost predicate MirroredOutside(e: seq<bv32>, a: seq<bv32>, nr: nat, i: int, j: int)
  {
    |e| == |a| == 60 && nr <= 14
    && (forall q :: 0 <= q < 4 * nr + 4 ==>
          0 <= Mirror(nr, q) < 60 && a[q] == if i <= q < j + 4 then e[q] else e[Mirror(nr, q)])
    && forall q :: 4 * nr + 4 <= q < 60 ==> a[q] == e[q]
  }

  lemma MirroredNone(e: seq<bv32>, nr: nat)
    requires |e| == 60 && nr <= 14
    ensures MirroredOutside(e, e, nr, 0, 4 * nr)
  {
    forall q | 0 <= q < 4 * nr + 4
      ensures 0 <= Mirror(nr, q) < 60
    {
      MirrorInRange(nr, q);
    }
  }

  lemma MirroredStep(e: seq<bv32>, a: seq<bv32>, b: seq<bv32>, nr: nat, i: nat, j: nat)
    requires MirroredOutside(e, a, nr, i, j) && |b| == 60
    requires i < j && i + j == 4 * nr && i % 4 == 0
    requires forall q :: i <= q < i + 4 ==> b[q] == a[j - i + q]
    requires forall q :: j <= q < j + 4 ==> b[q] == a[i - j + q]
    requires forall q :: 0 <= q < 60 && !(i <= q < i + 4) && !(j <= q < j + 4) ==> b[q] == a[q]
    ensures MirroredOutside(e, b, nr, i + 4, j - 4)
  {
    hide Mirror;
    MirrorOfKey(nr, i);
    MirrorOfKey(nr, j);
    forall q | 0 <= q < 4 * nr + 4
      ensures 0 <= Mirror(nr, q) < 60 && b[q] == if i + 4 <= q < j then e[q] else e[Mirror(nr, q)]
    {
      if i <= q < i + 4 {
        assert b[q] == a[j - i + q] == e[j - i + q];
      } else if j <= q < j + 4 {
        assert b[q] == a[i - j + q] == e[i - j + q];
      }
    }
  }

  /** Invert the order of the round keys. */
  method ReverseRoundKeys(rk: array<bv32>, nr: nat)
    requires rk.Length == 60 && 2 <= nr <= 14 && nr % 2 == 0
    modifies rk
    ensures forall q :: 0 <= q < 4 * nr + 4 ==> 0 <= Mirror(nr, q) < 60 && rk[q] == old(rk[Mirror(nr, q)])
    ensures forall q :: 4 * nr + 4 <= q < 60 ==> rk[q] == old(rk[q])
  {
    hide Mirror, MirroredOutside;
    ghost var e := rk[..];
    MirroredNone(e, nr);
    var i, j := 0, 4 * nr;
    while i < j
      invariant 0 <= i <= j && i + j == 4 * nr && i % 4 == 0
      invariant MirroredOutside(e, rk[..], nr, i, j)
    {
      ghost var a := rk[..];
      SwapRoundKeys(rk, i, j);
      MirroredStep(e, a, rk[..], nr, i, j);
      i, j := i + 4, j - 4;
    }
    MirroredAll(e, rk[..], nr, i);
  }

  lemma MirroredAll(e: seq<bv32>, a: seq<bv32>, nr: nat, i: nat)
    requires MirroredOutside(e, a, nr, i, i) && i + i == 4 * nr && i % 4 == 0
    ensures |e| == |a| == 60 && nr <= 14
    ensures forall q :: 0 <= q < 4 * nr + 4 ==> 0 <= Mirror(nr, q) < 60 && a[q] == e[Mirror(nr, q)]
    ensures forall q :: 4 * nr + 4 <= q < 60 ==> a[q] == e[q]
  {
    MirrorOfKey(nr, i);
  }

  method InvMixAt(rk: array<bv32>, q: nat)
    requires q < rk.Length
    modifies rk
    ensures Col(rk[q]) == InvMixColumn(Col(old(rk[q])))
    ensures forall k :: 0 <= k < rk.Length && k != q ==> rk[k] == old(rk[k])
  {
    hide InvMixWord, Col, InvMixColumn;
    InvMixWordColumn(rk[q]);
    rk[q] := InvMixWord(rk[q]);
  }

  /** Apply the inverse mix to all round keys but the first and the last. */
  method InvMixRoundKeys(rk: array<bv32>, nr: nat)
    requires rk.Length == 60 && 2 <= nr <= 14
    modifies rk
    ensures forall q :: 4 <= q < 4 * nr ==> Col(rk[q]) == InvMixColumn(Col(old(rk[q])))
    ensures forall q :: 0 <= q < 4 || 4 * nr <= q < 60 ==> rk[q] == old(rk[q])
  {
    hide Col, InvMixColumn;
    var i, p := 1, 0;
    while i < nr
      invariant 1 <= i <= nr && p == 4 * (i - 1)
      invariant forall q :: 4 <= q < 4 * i ==> Col(rk[q]) == InvMixColumn(Col(old(rk[q])))
      invariant forall q :: 0 <= q < 4 || 4 * i <= q < 60 ==> rk[q] == old(rk[q])
    {
      p := p + 4;
      InvMixAt(rk, p);
      InvMixAt(rk, p + 1);
      InvMixAt(rk, p + 2);
      InvMixAt(rk, p + 3);
      i := i + 1;
    }
  }

  /** d holds e's round keys in reverse order, all but the outer two through the inverse mix. */
  ghost predicate ReversedWords(e: seq<bv32>, d: seq<bv32>, nr: nat)
  {
    |e| == |d| == 60 && nr <= 14
    && forall q :: 0 <= q < 4 * nr + 4 ==>
         0 <= Mirror(nr, q) < 60
         && Col(d[q]) == if 4 <= q < 4 * nr then InvMixColumn(Col(e[Mirror(nr, q)])) else Col(e[Mirror(nr, q)])
  }

  lemma ReversedRoundKey(e: seq<bv32>, d: seq<bv32>, nr: nat, r: nat)
    requires ReversedWords(e, d, nr) && r <= nr
    ensures RoundKey(Columns(d), r)
         == if 0 < r < nr then InvMixColumns(RoundKey(Columns(e), nr - r)) else RoundKey(Columns(e), nr - r)
  {
    hide Col, InvMixColumn, Mirror;
    MirrorOfKey(nr, 4 * r);
    assert Mirror(nr, 4 * r) == 4 * (nr - r);
    assert Mirror(nr, 4 * r + 1) == 4 * (nr - r) + 1;
    assert Mirror(nr, 4 * r + 2) == 4 * (nr - r) + 2;
    assert Mirror(nr, 4 * r + 3) == 4 * (nr - r) + 3;
  }

  lemma InverseScheduleByWords(e: seq<bv32>, d: seq<bv32>, nr: nat)
    requires ReversedWords(e, d, nr) && nr >= 2
    ensures IsInverseSchedule(Columns(d), Columns(e), nr)
  {
    hide Columns, RoundKey, InvMixColumns;
    forall r | 0 <= r <= nr
      ensures RoundKey(Columns(d), r)
           == if 0 < r < nr then InvMixColumns(RoundKey(Columns(e), nr - r)) else RoundKey(Columns(e), nr - r)
    {
      ReversedRoundKey(e, d, nr, r);
    }
  }

  /** AES_set_decrypt_key: reversal and inverse mix compose to the schedule of section 5.3.5 of FIPS 197. */
  method SetDecryptKey(userKey: array?<bv8>, bits: int, key: AesKey?) returns (status: int)
    requires userKey != null && SupportedBits(bits) ==> userKey.Length >= bits / 8
    requires key != null ==> key.rdKey.Length == 60
    modifies if key == null then {} else {key, key.rdKey}
    ensures status == if userKey == null || key == null then -1 else if !SupportedBits(bits) then -2 else 0
    ensures status == 0 ==> key.Ready() && key.rounds == RoundsFor(bits / 32)
    ensures status == 0 ==>
              IsInverseSchedule(key.Schedule(), KeyExpansion(BytesToColumns(userKey[..bits / 8])), key.rounds)
    ensures status == 0 ==> forall j :: 4 * (key.rounds + 1) <= j < 60 ==> key.rdKey[j] == old(key.rdKey[j])
    ensures status != 0 && key != null ==> unchanged(key) && unchanged(key.rdKey)
  {
    hide Mirror;
    status := SetEncryptKey(userKey, bits, key);
    if status < 0 { return; }
    ghost var e := key.rdKey[..];
    ReverseRoundKeys(key.rdKey, key.rounds);
    ghost var m := key.rdKey[..];
    InvMixRoundKeys(key.rdKey, key.rounds);
    ghost var d := key.rdKey[..];
    InverseScheduleByWords(e, d, key.rounds);
    InverseSchedulePrefix(Columns(d), Columns(e), KeyExpansion(BytesToColumns(userKey[..bits / 8])), key.rounds);
  }

  lemma InverseSchedulePrefix(dw: Schedule, w: Schedule, w': Schedule, nr: nat)
    requires 4 * nr + 4 <= |w| && 4 * nr + 4 <= |dw| && w[..4 * (nr + 1)] == w'
    requires IsInverseSchedule(dw, w, nr)
    ensures IsInverseSchedule(dw, w', nr)
  {
    forall r | 0 <= r <= nr
      ensures RoundKey(w, r) == RoundKey(w', r)
    {
    }
  }

  // ----- one block

  /** PUTU32: store a word, highest byte first. */
  method PutWord(output: array<bv8>, o: nat, w: bv32)
    requires o + 4 <= output.Length
    modifies output
    ensures output[..] == Overwrite(old(output[..]), o, ColumnToBytes(Col(w)))
  {
    hide Byte0, Byte1, Byte2, Byte3;
    output[o] := Byte3(w);
    output[o + 1] := Byte2(w);
    output[o + 2] := Byte1(w);
    output[o + 3] := Byte0(w);
  }

  /** GETU32. */
  method GetWord(input: array<bv8>, i: nat) returns (w: bv32)
    requires i + 4 <= input.Length
    ensures Col(w) == Column(input[i], input[i + 1], input[i + 2], input[i + 3])
  {
    hide Pack, Col;
    ColPack(input[i], input[i + 1], input[i + 2], input[i + 3]);
    w := Pack(input[i], input[i + 1], input[i + 2], input[i + 3]);
  }

  method PutBlock(output: array<bv8>, o: nat, s0: bv32, s1: bv32, s2: bv32, s3: bv32)
    requires o + 16 <= output.Length
    modifies output
    ensures output[..] == Overwrite(old(output[..]), o, StateToBlock(StateOf(s0, s1, s2, s3)))
  {
    hide Col, ColumnToBytes;
    ghost var was := output[..];
    ghost var b0, b1 := ColumnToBytes(Col(s0)), ColumnToBytes(Col(s1));
    ghost var b2, b3 := ColumnToBytes(Col(s2)), ColumnToBytes(Col(s3));
    PutWord(output, o, s0);
    PutWord(output, o + 4, s1);
    OverwriteTwice(was, o, b0, b1);
    PutWord(output, o + 8, s2);
    OverwriteTwice(was, o, b0 + b1, b2);
    PutWord(output, o + 12, s3);
    OverwriteTwice(was, o, b0 + b1 + b2, b3);
  }

  lemma KeyWords(k: seq<bv32>, r: nat)
    requires 4 * r + 4 <= |k|
    ensures StateOf(k[4 * r], k[4 * r + 1], k[4 * r + 2], k[4 * r + 3]) == RoundKey(Columns(k), r)
  {
    hide Col;
  }

  lemma EncStep(x: State, k: seq<bv32>, q: nat, s0: bv32, s1: bv32, s2: bv32, s3: bv32)
    requires 4 * q + 8 <= |k| && StateOf(s0, s1, s2, s3) == Rounds(x, Columns(k), q)
    ensures StateOf(EncWord(s0, s1, s2, s3, k[4 * q + 4]), EncWord(s1, s2, s3, s0, k[4 * q + 5]),
                    EncWord(s2, s3, s0, s1, k[4 * q + 6]), EncWord(s3, s0, s1, s2, k[4 * q + 7]))
         == Rounds(x, Columns(k), q + 1)
  {
    hide StateOf, EncWord, AddRoundKey, SubBytes, ShiftRows, MixColumns, RoundKey;
    KeyWords(k, q + 1);
    EncRound(s0, s1, s2, s3, k[4 * q + 4], k[4 * q + 5], k[4 * q + 6], k[4 * q + 7]);
  }

  lemma EncFinish(x: State, k: seq<bv32>, nr: nat, s0: bv32, s1: bv32, s2: bv32, s3: bv32)
    requires 1 <= nr && 4 * nr + 4 <= |k| && StateOf(s0, s1, s2, s3) == Rounds(x, Columns(k), nr - 1)
    ensures StateOf(EncLastWord(s0, s1, s2, s3, k[4 * nr]), EncLastWord(s1, s2, s3, s0, k[4 * nr + 1]),
                    EncLastWord(s2, s3, s0, s1, k[4 * nr + 2]), EncLastWord(s3, s0, s1, s2, k[4 * nr + 3]))
         == Cipher(x, Columns(k), nr)
  {
    hide StateOf, EncLastWord, AddRoundKey, SubBytes, ShiftRows, RoundKey;
    KeyWords(k, nr);
    EncLastRound(s0, s1, s2, s3, k[4 * nr], k[4 * nr + 1], k[4 * nr + 2], k[4 * nr + 3]);
  }

  lemma DecStep(y: State, k: seq<bv32>, q: nat, s0: bv32, s1: bv32, s2: bv32, s3: bv32)
    requires 4 * q + 8 <= |k| && StateOf(s0, s1, s2, s3) == EqInvRounds(y, Columns(k), q)
    ensures StateOf(DecWord(s0, s3, s2, s1, k[4 * q + 4]), DecWord(s1, s0, s3, s2, k[4 * q + 5]),
                    DecWord(s2, s1, s0, s3, k[4 * q + 6]), DecWord(s3, s2, s1, s0, k[4 * q + 7]))
         == EqInvRounds(y, Columns(k), q + 1)
  {
    hide StateOf, DecWord, AddRoundKey, InvSubBytes, InvShiftRows, InvMixColumns, RoundKey;
    KeyWords(k, q + 1);
    DecRound(s0, s1, s2, s3, k[4 * q + 4], k[4 * q + 5], k[4 * q + 6], k[4 * q + 7]);
  }

  lemma DecFinish(y: State, k: seq<bv32>, nr: nat, s0: bv32, s1: bv32, s2: bv32, s3: bv32)
    requires 1 <= nr && 4 * nr + 4 <= |k| && StateOf(s0, s1, s2, s3) == EqInvRounds(y, Columns(k), nr - 1)
    ensures StateOf(DecLastWord(s0, s3, s2, s1, k[4 * nr]), DecLastWord(s1, s0, s3, s2, k[4 * nr + 1]),
                    DecLastWord(s2, s1, s0, s3, k[4 * nr + 2]), DecLastWord(s3, s2, s1, s0, k[4 * nr + 3]))
         == EqInvCipher(y, Columns(k), nr)
  {
    hide StateOf, DecLastWord, AddRoundKey, InvSubBytes, InvShiftRows, RoundKey;
    KeyWords(k, nr);
    DecLastRound(s0, s1, s2, s3, k[4 * nr], k[4 * nr + 1], k[4 * nr + 2], k[4 * nr + 3]);
  }

  /** Map the block to the state and add the first round key. */
  method LoadBlock(input: array<bv8>, i: nat, key: AesKey) returns (s0: bv32, s1: bv32, s2: bv32, s3: bv32)
    requires i + 16 <= input.Length && key.Ready()
    ensures StateOf(s0, s1, s2, s3) == Rounds(BlockToState(input[i..i + 16]), key.Schedule(), 0)
    ensures StateOf(s0, s1, s2, s3) == EqInvRounds(BlockToState(input[i..i + 16]), key.Schedule(), 0)
  {
    hide Col, AddColumn, Xor, RoundKey, Columns;
    s0 := GetWord(input, i);
    s1 := GetWord(input, i + 4);
    s2 := GetWord(input, i + 8);
    s3 := GetWord(input, i + 12);
    assert StateOf(s0, s1, s2, s3) == BlockToState(input[i..i + 16]);
    var rk := key.rdKey;
    KeyWords(rk[..], 0);
    ColXor(s0, rk[0]);
    ColXor(s1, rk[1]);
    ColXor(s2, rk[2]);
    ColXor(s3, rk[3]);
    s0, s1, s2, s3 := Xor(s0, rk[0]), Xor(s1, rk[1]), Xor(s2, rk[2]), Xor(s3, rk[3]);
  }

  /** The Nr - 1 full rounds, two per turn, the last turn cut in half. */
  method EncryptRounds(key: AesKey, ghost x: State, i0: bv32, i1: bv32, i2: bv32, i3: bv32)
    returns (t0: bv32, t1: bv32, t2: bv32, t3: bv32)
    requires key.Ready() && StateOf(i0, i1, i2, i3) == Rounds(x, key.Schedule(), 0)
    ensures StateOf(t0, t1, t2, t3) == Rounds(x, key.Schedule(), key.rounds - 1)
  {
    hide StateOf, EncWord, Rounds, Columns;
    var rk := key.rdKey;
    ghost var k, nr := rk[..], key.rounds;
    var s0, s1, s2, s3 := i0, i1, i2, i3;
    var r, p := key.rounds / 2, 0;
    while true
      invariant 1 <= r && p == 4 * (nr - 2 * r) && p >= 0
      invariant StateOf(s0, s1, s2, s3) == Rounds(x, Columns(k), nr - 2 * r)
      decreases r
    {
      EncStep(x, k, nr - 2 * r, s0, s1, s2, s3);
      t0 := EncWord(s0, s1, s2, s3, rk[p + 4]);
      t1 := EncWord(s1, s2, s3, s0, rk[p + 5]);
      t2 := EncWord(s2, s3, s0, s1, rk[p + 6]);
      t3 := EncWord(s3, s0, s1, s2, rk[p + 7]);
      p := p + 8;
      r := r - 1;
      if r == 0 { break; }
      EncStep(x, k, nr - 2 * r - 1, t0, t1, t2, t3);
      s0 := EncWord(t0, t1, t2, t3, rk[p]);
      s1 := EncWord(t1, t2, t3, t0, rk[p + 1]);
      s2 := EncWord(t2, t3, t0, t1, rk[p + 2]);
      s3 := EncWord(t3, t0, t1, t2, rk[p + 3]);
    }
  }

  /** AES_encrypt computes Cipher() of FIPS 197 on one block; input and output may overlap. */
  method Encrypt(input: array<bv8>, i: nat, output: array<bv8>, o: nat, key: AesKey)
    requires i + 16 <= input.Length && o + 16 <= output.Length && key.Ready()
    modifies output
    ensures output[..] == Overwrite(old(output[..]), o,
                            StateToBlock(Cipher(BlockToState(old(input[i..i + 16])), key.Schedule(), key.rounds)))
  {
    hide StateOf, EncLastWord, Rounds, Cipher, Columns, StateToBlock, BlockToState;
    var rk := key.rdKey;
    ghost var x, k, nr := BlockToState(input[i..i + 16]), rk[..], key.rounds;
    var s0, s1, s2, s3 := LoadBlock(input, i, key);
    var t0, t1, t2, t3 := EncryptRounds(key, x, s0, s1, s2, s3);
    var p := 4 * key.rounds;
    EncFinish(x, k, nr, t0, t1, t2, t3);
    s0 := EncLastWord(t0, t1, t2, t3, rk[p]);
    s1 := EncLastWord(t1, t2, t3, t0, rk[p + 1]);
    s2 := EncLastWord(t2, t3, t0, t1, rk[p + 2]);
    s3 := EncLastWord(t3, t0, t1, t2, rk[p + 3]);
    PutBlock(output, o, s0, s1, s2, s3);
    assert key.rdKey[..] == k;
  }

  /** The Nr - 1 full rounds, two per turn, the last turn cut in half. */
  method DecryptRounds(key: AesKey, ghost y: State, i0: bv32, i1: bv32, i2: bv32, i3: bv32)
    returns (t0: bv32, t1: bv32, t2: bv32, t3: bv32)
    requires key.Ready() && StateOf(i0, i1, i2, i3) == EqInvRounds(y, key.Schedule(), 0)
    ensures StateOf(t0, t1, t2, t3) == EqInvRounds(y, key.Schedule(), key.rounds - 1)
  {
    hide StateOf, DecWord, EqInvRounds, Columns;
    var rk := key.rdKey;
    ghost var k, nr := rk[..], key.rounds;
    var s0, s1, s2, s3 := i0, i1, i2, i3;
    var r, p := key.rounds / 2, 0;
    while true
      invariant 1 <= r && p == 4 * (nr - 2 * r) && p >= 0
      invariant StateOf(s0, s1, s2, s3) == EqInvRounds(y, Columns(k), nr - 2 * r)
      decreases r
    {
      DecStep(y, k, nr - 2 * r, s0, s1, s2, s3);
      t0 := DecWord(s0, s3, s2, s1, rk[p + 4]);
      t1 := DecWord(s1, s0, s3, s2, rk[p + 5]);
      t2 := DecWord(s2, s1, s0, s3, rk[p + 6]);
      t3 := DecWord(s3, s2, s1, s0, rk[p + 7]);
      p := p + 8;
      r := r - 1;
      if r == 0 { break; }
      DecStep(y, k, nr - 2 * r - 1, t0, t1, t2, t3);
      s0 := DecWord(t0, t3, t2, t1, rk[p]);
      s1 := DecWord(t1, t0, t3, t2, rk[p + 1]);
      s2 := DecWord(t2, t1, t0, t3, rk[p + 2]);
      s3 := DecWord(t3, t2, t1, t0, rk[p + 3]);
    }
  }

  /** AES_decrypt computes EqInvCipher() of FIPS 197 on one block; input and output may overlap. */
  method Decrypt(input: array<bv8>, i: nat, output: array<bv8>, o: nat, key: AesKey)
    requires i + 16 <= input.Length && o + 16 <= output.Length && key.Ready()
    modifies output
    ensures output[..] == Overwrite(old(output[..]), o,
                            StateToBlock(EqInvCipher(BlockToState(old(input[i..i + 16])), key.Schedule(), key.rounds)))
  {
    hide StateOf, DecLastWord, EqInvRounds, EqInvCipher, Columns, StateToBlock, BlockToState;
    var rk := key.rdKey;
    ghost var y, k, nr := BlockToState(input[i..i + 16]), rk[..], key.rounds;
    var s0, s1, s2, s3 := LoadBlock(input, i, key);
    var t0, t1, t2, t3 := DecryptRounds(key, y, s0, s1, s2, s3);
    var p := 4 * key.rounds;
    DecFinish(y, k, nr, t0, t1, t2, t3);
    s0 := DecLastWord(t0, t3, t2, t1, rk[p]);
    s1 := DecLastWord(t1, t0, t3, t2, rk[p + 1]);
    s2 := DecLastWord(t2, t1, t0, t3, rk[p + 2]);
    s3 := DecLastWord(t3, t2, t1, t0, rk[p + 3]);
    PutBlock(output, o, s0, s1, s2, s3);
    assert key.rdKey[..] == k;
  }

  // ----- the promise of the two interfaces together

  /** The block cipher a key of 16, 24 or 32 bytes denotes. */
  ghost function EncryptBlock(key: seq<bv8>, b: seq<bv8>): (c: seq<bv8>)
    requires |key| >= 4 && |b| == 16
    ensures |c| == 16
  {
    StateToBlock(Cipher(BlockToState(b), KeyExpansion(BytesToColumns(key)), RoundsFor(|key| / 4)))
  }

  /** Its inverse by section 5.3 of FIPS 197. */
  ghost function DecryptBlock(key: seq<bv8>, c: seq<bv8>): (b: seq<bv8>)
    requires |key| >= 4 && |c| == 16
    ensures |b| == 16
  {
    StateToBlock(InvCipher(BlockToState(c), KeyExpansion(BytesToColumns(key)), RoundsFor(|key| / 4)))
  }

  /** Decryption undoes encryption for every key and block. */
  lemma DecryptBlockUndoes(key: seq<bv8>, b: seq<bv8>)
    requires |key| >= 4 && |b| == 16
    ensures DecryptBlock(key, EncryptBlock(key, b)) == b
  {
    hide KeyExpansion, BytesToColumns, Cipher, InvCipher, StateToBlock, BlockToState;
    var w, nr := KeyExpansion(BytesToColumns(key)), RoundsFor(|key| / 4);
    BlockRoundTrip(Cipher(BlockToState(b), w, nr));
    InvCipherUndoesCipher(BlockToState(b), w, nr);
    StateRoundTrip(b);
  }

  lemma {:induction false} RoundsPrefix(x: State, w: Schedule, w': Schedule, r: nat)
    requires 4 * r + 4 <= |w'| <= |w| && w[..|w'|] == w'
    ensures Rounds(x, w, r) == Rounds(x, w', r)
  {
    hide AddRoundKey, SubBytes, ShiftRows, MixColumns;
    if r > 0 {
      RoundsPrefix(x, w, w', r - 1);
    }
  }

  /** The schedule holds the expansion of userKey, as SetEncryptKey leaves it. */
  ghost predicate EncryptionKey(key: AesKey, userKey: seq<bv8>)
    reads key, key.rdKey
  {
    && |userKey| >= 4 && key.Ready() && key.rounds == RoundsFor(|userKey| / 4)
    && key.Schedule()[..4 * (key.rounds + 1)] == KeyExpansion(BytesToColumns(userKey))
  }

  /** The schedule is the decryption schedule of userKey, as SetDecryptKey leaves it. */
  ghost predicate DecryptionKey(key: AesKey, userKey: seq<bv8>)
    reads key, key.rdKey
  {
    && |userKey| >= 4 && key.Ready() && key.rounds == RoundsFor(|userKey| / 4)
    && IsInverseSchedule(key.Schedule(), KeyExpansion(BytesToColumns(userKey)), key.rounds)
  }

  lemma EncryptionKeyCipher(key: AesKey, userKey: seq<bv8>, b: seq<bv8>)
    requires EncryptionKey(key, userKey) && |b| == 16
    ensures StateToBlock(Cipher(BlockToState(b), key.Schedule(), key.rounds)) == EncryptBlock(userKey, b)
  {
    hide KeyExpansion, BytesToColumns, AddRoundKey, SubBytes, ShiftRows, Columns, StateToBlock, BlockToState, Rounds;
    var w, w' := key.Schedule(), KeyExpansion(BytesToColumns(userKey));
    RoundsPrefix(BlockToState(b), w, w', key.rounds - 1);
    assert RoundKey(w, key.rounds) == RoundKey(w', key.rounds);
  }

  lemma DecryptionKeyInvCipher(key: AesKey, userKey: seq<bv8>, c: seq<bv8>)
    requires DecryptionKey(key, userKey) && |c| == 16
    ensures StateToBlock(EqInvCipher(BlockToState(c), key.Schedule(), key.rounds)) == DecryptBlock(userKey, c)
  {
    hide KeyExpansion, BytesToColumns, Columns, StateToBlock, BlockToState, EqInvCipher, InvCipher, IsInverseSchedule;
    EqInvCipherIsInvCipher(BlockToState(c), KeyExpansion(BytesToColumns(userKey)), key.Schedule(), key.rounds);
  }

  lemma EncryptionKeyReady(aesKey: AesKey, k: seq<bv8>)
    requires EncryptionKey(aesKey, k)
    ensures aesKey.Ready()
  {
  }

  lemma DecryptionKeyReady(aesKey: AesKey, k: seq<bv8>)
    requires DecryptionKey(aesKey, k)
    ensures aesKey.Ready()
  {
  }

  method LoadEncryptionKey(userKey: array<bv8>, bits: int, aesKey: AesKey)
    requires SupportedBits(bits) && userKey.Length >= bits / 8 && aesKey.rdKey.Length == 60
    modifies aesKey, aesKey.rdKey
    ensures EncryptionKey(aesKey, userKey[..bits / 8])
  {
    hide KeyExpansion, BytesToColumns, Columns;
    var status := SetEncryptKey(userKey, bits, aesKey);
  }

  method LoadDecryptionKey(userKey: array<bv8>, bits: int, aesKey: AesKey)
    requires SupportedBits(bits) && userKey.Length >= bits / 8 && aesKey.rdKey.Length == 60
    modifies aesKey, aesKey.rdKey
    ensures DecryptionKey(aesKey, userKey[..bits / 8])
  {
    hide KeyExpansion, IsInverseSchedule, BytesToColumns, Columns;
    var status := SetDecryptKey(userKey, bits, aesKey);
  }

  /** For every key of 128, 192 or 256 bits and every block, AES_decrypt under the schedule of
      AES_set_decrypt_key undoes AES_encrypt under the schedule of AES_set_encrypt_key. */
  method EncryptThenDecrypt(userKey: array<bv8>, bits: int, block: array<bv8>) returns (back: array<bv8>)
    requires SupportedBits(bits) && userKey.Length >= bits / 8 && block.Length == 16
    ensures fresh(back) && back[..] == block[..]
  {
    hide EncryptBlock, DecryptBlock, EncryptionKey, DecryptionKey, Cipher, EqInvCipher, BlockToState, StateToBlock;
    ghost var k, b := userKey[..bits / 8], block[..];
    var ek := new AesKey();
    var dk := new AesKey();
    LoadEncryptionKey(userKey, bits, ek);
    LoadDecryptionKey(userKey, bits, dk);
    var c := new bv8[16];
    back := new bv8[16];
    EncryptionKeyReady(ek, k);
    EncryptionKeyCipher(ek, k, b);
    assert block[0..16] == b;
    Encrypt(block, 0, c, 0, ek);
    assert c[0..16] == EncryptBlock(k, b);
    DecryptionKeyReady(dk, k);
    DecryptionKeyInvCipher(dk, k, c[0..16]);
    Decrypt(c, 0, back, 0, dk);
    assert back[..] == DecryptBlock(k, c[0..16]);
    DecryptBlockUndoes(k, b);
  }
}
