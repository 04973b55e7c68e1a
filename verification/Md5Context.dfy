/** The buffered hash of server/common/libtools/MD5.cpp: MD5Init, MD5Update, MD5Final and MD5_16. */
module Md5Context {
  import opened Rfc1321
  import opened Md5Transform

  // ----- folding over blocks

  lemma {:induction false} AbsorbSplit(s: Digest, u: seq<bv8>, v: seq<bv8>)
    requires |u| % 64 == 0
    ensures Absorb(s, u + v) == Absorb(Absorb(s, u), v)
    decreases |u|
  {
    hide Compress, BlockWords;
    if |u| == 0 {
      assert u + v == v;
    } else {
      assert (u + v)[..64] == u[..64] && (u + v)[64..] == u[64..] + v;
      AbsorbSplit(Compress(s, BlockWords(u[..64])), u[64..], v);
    }
  }

  /** The bytes of the last, incomplete block. */
  function Tail(m: seq<bv8>): (t: seq<bv8>)
    ensures |t| == |m| % 64
  {
    m[|m| - |m| % 64..]
  }

  function Whole(m: seq<bv8>): (w: seq<bv8>)
    ensures |w| % 64 == 0 && w + Tail(m) == m
  {
    m[..|m| - |m| % 64]
  }

  lemma AbsorbWhole(s: Digest, m: seq<bv8>)
    ensures Absorb(s, m) == Absorb(s, Whole(m))
  {
    hide Compress, BlockWords;
    AbsorbSplit(s, Whole(m), Tail(m));
  }

  /** Filling the last block of m with `more` compresses exactly that block. */
  lemma AbsorbBlock(s: Digest, m: seq<bv8>, more: seq<bv8>)
    requires |m| % 64 + |more| == 64
    ensures Absorb(s, m + more) == Compress(Absorb(s, m), BlockWords(Tail(m) + more))
    ensures |m + more| % 64 == 0
  {
    hide Compress, BlockWords;
    var b := Tail(m) + more;
    assert m + more == Whole(m) + b;
    AbsorbSplit(s, Whole(m), b);
    AbsorbWhole(s, m);
    assert b[..64] == b && b[64..] == [];
  }

  lemma AbsorbRemainder(s: Digest, m: seq<bv8>, rest: seq<bv8>)
    requires |m| % 64 == 0 && |rest| < 64
    ensures Absorb(s, m + rest) == Absorb(s, m) && Tail(m + rest) == rest
  {
    hide Compress, BlockWords;
    AbsorbSplit(s, m, rest);
  }

  // ----- the two-word bit counter

  /** hi:lo counts 8 * n bits modulo 2^64. */
  predicate Counts(lo: nat, hi: nat, n: nat) {
    lo < WORD && hi < WORD && hi * WORD + lo == 8 * n % (WORD * WORD)
  }

  lemma ModuloBlocks(n: nat, j: nat, r: nat)
    requires r == n - 64 * j
    ensures r % 64 == n % 64
  {
  }

  /** The low word alone tells how many bytes the buffer holds. */
  lemma CountLow(lo: nat, hi: nat, n: nat)
    requires Counts(lo, hi, n)
    ensures lo / 8 % 64 == n % 64
  {
    var k := 8 * n / (WORD * WORD) * WORD + hi;
    assert 8 * n == WORD * k + lo;
    assert lo == 8 * (n - 0x2000_0000 * k);
    ModuloBlocks(n, 0x80_0000 * k, lo / 8);
  }

  lemma CountWords(lo: nat, hi: nat, n: nat)
    requires Counts(lo, hi, n)
    ensures lo == 8 * n % (WORD * WORD) % WORD && hi == 8 * n % (WORD * WORD) / WORD
  {
  }

  lemma CarryOut(lo: nat, add: nat, lo': nat)
    requires lo < WORD && add < WORD && lo' == (lo + add) % WORD
    ensures lo + add == (if lo' < lo then WORD else 0) + lo'
  {
  }

  lemma WrapHigh(n: nat, q: nat, h: nat, lo: nat, h': nat)
    requires 8 * n == q * (WORD * WORD) + h * WORD + lo && lo < WORD && h' == h % WORD
    ensures h' * WORD + lo == 8 * n % (WORD * WORD)
  {
    var q' := q + h / WORD;
    assert 8 * n == q' * (WORD * WORD) + (h' * WORD + lo);
    assert h' * WORD + lo < WORD * WORD;
  }

  lemma HighParts(hi: nat, l: nat)
    ensures ((hi + 1) % WORD + l) % WORD == (hi + 1 + l) % WORD
  {
  }

  lemma ShiftedLength(len: nat)
    ensures len * 8 == len / 0x2000_0000 * WORD + len * 8 % WORD
  {
  }

  /** The carry and the shift by 29 add the length into both words. */
  lemma CountAdd(lo: nat, hi: nat, n: nat, len: nat, lo': nat, hi': nat)
    requires Counts(lo, hi, n) && len < WORD
    requires lo' == (lo + len * 8 % WORD) % WORD
    requires hi' == ((if lo' < lo then (hi + 1) % WORD else hi) + len / 0x2000_0000) % WORD
    ensures Counts(lo', hi', n + len)
  {
    var add, l, q := len * 8 % WORD, len / 0x2000_0000, 8 * n / (WORD * WORD);
    CarryOut(lo, add, lo');
    ShiftedLength(len);
    HighParts(hi, l);
    assert 8 * n == q * (WORD * WORD) + hi * WORD + lo;
    if lo' < lo {
      WrapHigh(n + len, q, hi + 1 + l, lo', hi');
    } else {
      WrapHigh(n + len, q, hi + l, lo', hi');
    }
  }

  /** MD5_CTX. The ghost field is the concatenation of everything absorbed since MD5Init. */
  class Context {
    var buf: Digest
    var bits0: nat
    var bits1: nat
    const inp: array<bv8>
    ghost var message: seq<bv8>

    constructor ()
      ensures fresh(inp) && inp.Length == 64
    {
      inp := new bv8[64];
      buf, bits0, bits1, message := INITIAL, 0, 0, [];
    }

    /** The state is the fold over the full blocks, the buffer the tail, the counter the length in bits. */
    ghost predicate Valid()
      reads this, inp
    {
      && inp.Length == 64
      && buf == Absorb(INITIAL, message)
      && inp[..|message| % 64] == Tail(message)
      && Counts(bits0, bits1, |message|)
    }

    /** MD5Init. */
    method Init()
      requires inp.Length == 64
      modifies this
      ensures Valid() && message == []
    {
      buf := Digest(0x67452301, 0xefcdab89, 0x98badcfe, 0x10325476);
      bits0, bits1 := 0, 0;
      message := [];
    }

    /** memcpy or memset into the block buffer. */
    method Fill(at: nat, data: seq<bv8>)
      requires at + |data| <= inp.Length
      modifies inp
      ensures inp[..] == old(inp[..at]) + data + old(inp[at + |data|..])
    {
      var k := 0;
      while k < |data|
        invariant 0 <= k <= |data|
        invariant forall j :: 0 <= j < inp.Length ==>
                                inp[j] == if at <= j < at + k then data[j - at] else old(inp[j])
      {
        inp[at + k] := data[k];
        k := k + 1;
      }
    }

    /** MD5Transform on the block buffer. */
    method Process()
      requires inp.Length == 64
      modifies this`buf
      ensures buf == Compress(old(buf), BlockWords(inp[..]))
    {
      hide Compress, BlockWords;
      var r := Transform(buf, BlockWords(inp[..]));
      buf := r;
    }

    /** The bit counter of MD5Update. */
    method Count(len: nat)
      requires Counts(bits0, bits1, |message|) && len < WORD
      modifies this`bits0, this`bits1
      ensures Counts(bits0, bits1, |message| + len)
    {
      hide Counts;
      var t := bits0;
      bits0 := (t + len * 8 % WORD) % WORD;
      ghost var hi := bits1;
      if bits0 < t {
        bits1 := (bits1 + 1) % WORD;
      }
      bits1 := (bits1 + len / 0x2000_0000) % WORD;
      CountAdd(t, hi, |message|, len, bits0, bits1);
    }

    /** Process data in 64-byte chunks. */
    method ProcessBlocks(data: seq<bv8>, from: nat) returns (p: nat)
      requires inp.Length == 64 && from <= |data|
      requires |message + data[..from]| % 64 == 0 && buf == Absorb(INITIAL, message + data[..from])
      modifies this`buf, inp
      ensures from <= p <= |data| < p + 64
      ensures |message + data[..p]| % 64 == 0 && buf == Absorb(INITIAL, message + data[..p])
    {
      hide Absorb, Compress, BlockWords;
      p := from;
      while |data| - p >= 64
        invariant from <= p <= |data|
        invariant |message + data[..p]| % 64 == 0 && buf == Absorb(INITIAL, message + data[..p])
      {
        Fill(0, data[p..p + 64]);
        assert inp[..] == data[p..p + 64];
        Process();
        AbsorbNext(INITIAL, message + data[..p], data[p..p + 64]);
        assert message + data[..p] + data[p..p + 64] == message + data[..p + 64];
        p := p + 64;
      }
    }

    /** MD5Update: whatever the chunks, only their concatenation matters. */
    method Update(data: seq<bv8>)
      requires Valid() && |data| < WORD
      modifies this, inp
      ensures Valid() && message == old(message) + data
    {
      hide Absorb, Compress, BlockWords, Counts, Tail, WORD;
      ghost var m := message;
      CountLow(bits0, bits1, |m|);
      var used := bits0 / 8 % 64;
      Count(|data|);
      var p := 0;
      if used != 0 {
        var room := 64 - used;
        if |data| < room {
          Fill(used, data);
          message := m + data;
          AbsorbPartial(INITIAL, m, data);
          assert inp[..used + |data|] == Tail(m) + data;
          return;
        }
        Fill(used, data[..room]);
        assert inp[..] == Tail(m) + data[..room];
        Process();
        AbsorbBlock(INITIAL, m, data[..room]);
        p := room;
      } else {
        assert m + data[..0] == m;
      }
      p := ProcessBlocks(data, p);
      Fill(0, data[p..]);
      AbsorbRemainder(INITIAL, m + data[..p], data[p..]);
      assert m + data[..p] + data[p..] == m + data;
      message := m + data;
    }

    /** MD5Final, through either padding branch. The closing memset clears sizeof(pointer) = 8 bytes only. */
    method Final() returns (digest: seq<bv8>)
      requires Valid()
      modifies this, inp
      ensures digest == Md5(old(message))
      ensures buf.a == 0 && buf.b == 0
    {
      hide Absorb, Compress, BlockWords, Counts, Tail, WordBytes, LengthBytes, Output, Zeros, WORD;
      ghost var m := message;
      CountLow(bits0, bits1, |m|);
      LengthIsCount(bits0, bits1, |m|);
      var count := bits0 / 8 % 64;
      Fill(count, [0x80]);
      var left := 64 - 1 - count;
      ghost var first := Tail(m) + [0x80];
      assert inp[..count + 1] == first;
      if left < 8 {
        Fill(count + 1, Zeros(left));
        assert inp[..] == FilledBlock(m);
        Process();
        Fill(0, Zeros(56));
        Fill(56, WordBytes(bits0));
        Fill(60, WordBytes(bits1));
        assert inp[..] == ExtraBlock(|m|);
        Process();
        PaddedTwoBlocks(m);
      } else {
        Fill(count + 1, Zeros(left - 8));
        assert inp[..56] == first + Zeros(left - 8);
        Fill(56, WordBytes(bits0));
        Fill(60, WordBytes(bits1));
        assert inp[..] == LastBlock(m);
        Process();
        PaddedOneBlock(m);
      }
      digest := Output(buf);
      buf := buf.(a := 0, b := 0);
    }
  }

  lemma LengthIsCount(lo: nat, hi: nat, n: nat)
    requires Counts(lo, hi, n)
    ensures LengthBytes(n) == WordBytes(lo) + WordBytes(hi)
  {
    hide WordBytes;
    CountWords(lo, hi, n);
  }

  lemma ZerosNeeded(n: nat)
    ensures ZeroCount(n) == if n % 64 <= 55 then 55 - n % 64 else 63 - n % 64 + 56
  {
  }

  lemma PaddedParts(m: seq<bv8>, z: nat)
    requires z == ZeroCount(|m|)
    ensures Padded(m) == m + ([0x80] + Zeros(z) + LengthBytes(|m|))
  {
    hide LengthBytes, Zeros, ZeroCount;
  }

  /** The last block when the padding and the length still fit into it. */
  function LastBlock(m: seq<bv8>): (b: seq<bv8>)
    requires |m| % 64 <= 55
    ensures |b| == 64
  {
    Tail(m) + ([0x80] + Zeros(55 - |m| % 64) + LengthBytes(|m|))
  }

  lemma PaddedOneBlock(m: seq<bv8>)
    requires |m| % 64 <= 55
    ensures Absorb(INITIAL, Padded(m)) == Compress(Absorb(INITIAL, m), BlockWords(LastBlock(m)))
  {
    hide Absorb, Compress, BlockWords, Tail, LengthBytes, Zeros, Padded, ZeroCount, INITIAL;
    ZerosNeeded(|m|);
    var z := 55 - |m| % 64;
    var more := [0x80] + Zeros(z) + LengthBytes(|m|);
    PaddedParts(m, z);
    AbsorbBlock(INITIAL, m, more);
  }

  /** Otherwise the block is filled up with zeros and one more block takes the length. */
  function FilledBlock(m: seq<bv8>): (b: seq<bv8>)
    requires |m| % 64 > 55
    ensures |b| == 64
  {
    Tail(m) + ([0x80] + Zeros(63 - |m| % 64))
  }

  function ExtraBlock(n: nat): (b: seq<bv8>)
    ensures |b| == 64
  {
    Zeros(56) + LengthBytes(n)
  }

  lemma Regroup(m: seq<bv8>, one: seq<bv8>, y: seq<bv8>, z: seq<bv8>, l: seq<bv8>)
    ensures m + (one + (y + z) + l) == (m + (one + y)) + (z + l)
  {
  }

  lemma ZerosSplit(y: nat, z: nat)
    ensures Zeros(y + z) == Zeros(y) + Zeros(z)
  {
  }

  lemma PaddedAsTwo(m: seq<bv8>)
    requires |m| % 64 > 55
    ensures Padded(m) == (m + ([0x80] + Zeros(63 - |m| % 64))) + ExtraBlock(|m|)
  {
    hide LengthBytes, Zeros, ZeroCount, Padded;
    ZerosNeeded(|m|);
    var z := 63 - |m| % 64;
    PaddedParts(m, z + 56);
    ZerosSplit(z, 56);
    Regroup(m, [0x80], Zeros(z), Zeros(56), LengthBytes(|m|));
  }

  lemma PaddedTwoBlocks(m: seq<bv8>)
    requires |m| % 64 > 55
    ensures Absorb(INITIAL, Padded(m))
         == Compress(Compress(Absorb(INITIAL, m), BlockWords(FilledBlock(m))), BlockWords(ExtraBlock(|m|)))
  {
    hide Absorb, Compress, BlockWords, Tail, Zeros, ExtraBlock, Padded, INITIAL;
    var more := [0x80] + Zeros(63 - |m| % 64);
    PaddedAsTwo(m);
    AbsorbBlock(INITIAL, m, more);
    AbsorbNext(INITIAL, m + more, ExtraBlock(|m|));
  }

  /** MD5_16. The length passes through an unsigned int, so a message of 2^32 bytes or more is cut. */
  method Hash16(pMsg: seq<bv8>) returns (digest: seq<bv8>)
    ensures digest == Md5(pMsg[..|pMsg| % WORD])
    ensures |pMsg| < WORD ==> digest == Md5(pMsg)
  {
    hide Md5, Absorb, Tail, Counts, INITIAL;
    var ctx := new Context();
    ctx.Init();
    var len := |pMsg| % WORD;
    ctx.Update(pMsg[..len]);
    assert [] + pMsg[..len] == pMsg[..len];
    digest := ctx.Final();
    assert |pMsg| < WORD ==> pMsg[..|pMsg| % WORD] == pMsg;
  }

  /** Any split of a message into chunks yields the digest of the whole. */
  method HashChunks(chunks: seq<seq<bv8>>) returns (digest: seq<bv8>)
    requires forall k :: 0 <= k < |chunks| ==> |chunks[k]| < WORD
    ensures digest == Md5(Concatenation(chunks))
  {
    hide Md5, Absorb, Tail, Counts, INITIAL;
    var ctx := new Context();
    ctx.Init();
    var i := 0;
    while i < |chunks|
      invariant 0 <= i <= |chunks| && ctx.Valid() && fresh(ctx) && fresh(ctx.inp)
      invariant ctx.message + Concatenation(chunks[i..]) == Concatenation(chunks)
    {
      ghost var m, rest := ctx.message, Concatenation(chunks[i + 1..]);
      ctx.Update(chunks[i]);
      assert chunks[i..][1..] == chunks[i + 1..];
      assert m + (chunks[i] + rest) == (m + chunks[i]) + rest;
      i := i + 1;
    }
    assert ctx.message + [] == ctx.message;
    digest := ctx.Final();
  }

  function Concatenation(chunks: seq<seq<bv8>>): seq<bv8> {
    if chunks == [] then [] else chunks[0] + Concatenation(chunks[1..])
  }

  lemma AbsorbPartial(s: Digest, m: seq<bv8>, more: seq<bv8>)
    requires |m| % 64 + |more| < 64
    ensures Absorb(s, m + more) == Absorb(s, m) && Tail(m + more) == Tail(m) + more
  {
    hide Absorb;
    var rest := Tail(m) + more;
    assert m + more == Whole(m) + rest;
    AbsorbRemainder(s, Whole(m), rest);
    AbsorbWhole(s, m);
  }

  lemma AbsorbNext(s: Digest, m: seq<bv8>, b: seq<bv8>)
    requires |m| % 64 == 0 && |b| == 64
    ensures Absorb(s, m + b) == Compress(Absorb(s, m), BlockWords(b)) && |m + b| % 64 == 0
  {
    hide Absorb, Compress, BlockWords;
    AbsorbBlock(s, m, b);
    assert Tail(m) + b == b;
  }
}
