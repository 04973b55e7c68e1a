/** What the key derivation and the mode of operation give, byte for byte and block for block. */
module TokenExamples {
  import opened AesCore
  import opened TokenCodec
  import Rfc1321
  import Md5Examples

  /** "0123456789abcdef": high nibble first, letters in lower case. */
  lemma HexOfAllDigits()
    ensures Hex([0x01, 0x23, 0x45, 0x67, 0x89, 0xab, 0xcd, 0xef])
         == [0x30, 0x31, 0x32, 0x33, 0x34, 0x35, 0x36, 0x37, 0x38, 0x39, 0x61, 0x62, 0x63, 0x64, 0x65, 0x66]
  {
    HexOfFour(0x89, 0xab, 0xcd, 0xef);
    HexOfFour(0x01, 0x23, 0x45, 0x67);
    HexConcat([0x01, 0x23, 0x45, 0x67], [0x89, 0xab, 0xcd, 0xef]);
    assert [0x01, 0x23, 0x45, 0x67] + [0x89, 0xab, 0xcd, 0xef] == [0x01, 0x23, 0x45, 0x67, 0x89, 0xab, 0xcd, 0xef];
  }

  lemma HexOfOne(a: bv8)
    ensures Hex([a]) == [HexDigit(HighNibble(a)), HexDigit(LowNibble(a))]
  {
    hide HexDigit, HighNibble, LowNibble;
    assert [a][1..] == [];
  }

  lemma HexOfFour(a: bv8, b: bv8, c: bv8, d: bv8)
    ensures Hex([a, b, c, d]) ==
            [HexDigit(HighNibble(a)), HexDigit(LowNibble(a)), HexDigit(HighNibble(b)), HexDigit(LowNibble(b)),
             HexDigit(HighNibble(c)), HexDigit(LowNibble(c)), HexDigit(HighNibble(d)), HexDigit(LowNibble(d))]
  {
    hide Hex, HexDigit, HighNibble, LowNibble;
    HexOfOne(a);
    HexOfOne(b);
    HexOfOne(c);
    HexOfOne(d);
    HexConcat([a], [b]);
    HexConcat([a] + [b], [c]);
    HexConcat([a] + [b] + [c], [d]);
    assert [a] + [b] + [c] + [d] == [a, b, c, d];
  }

  lemma {:induction false} HexConcat(x: seq<bv8>, y: seq<bv8>)
    ensures Hex(x + y) == Hex(x) + Hex(y)
  {
    hide HexDigit, HighNibble, LowNibble;
    if x == [] {
      assert x + y == y;
    } else {
      HexConcat(x[1..], y);
      assert (x + y)[1..] == x[1..] + y;
    }
  }

  /** The key of the seed "abcdefghijklmnopqrstuvwxyz" is "c3fcd3d76192e400". */
  lemma KeyOfLetters()
    ensures KeyOf([0x61, 0x62, 0x63, 0x64, 0x65, 0x66, 0x67, 0x68, 0x69, 0x6a, 0x6b, 0x6c, 0x6d, 0x6e, 0x6f, 0x70,
                   0x71, 0x72, 0x73, 0x74, 0x75, 0x76, 0x77, 0x78, 0x79, 0x7a])
         == [0x63, 0x33, 0x66, 0x63, 0x64, 0x33, 0x64, 0x37, 0x36, 0x31, 0x39, 0x32, 0x65, 0x34, 0x30, 0x30]
  {
    hide Hex, Rfc1321.Md5, KeyOf;
    var letters: seq<bv8> := [
      0x61, 0x62, 0x63, 0x64, 0x65, 0x66, 0x67, 0x68, 0x69, 0x6a, 0x6b, 0x6c, 0x6d, 0x6e, 0x6f, 0x70,
      0x71, 0x72, 0x73, 0x74, 0x75, 0x76, 0x77, 0x78, 0x79, 0x7a];
    Md5Examples.DigestOfLetters();
    KeyOfShort(letters);
    HexOfDigest(Rfc1321.Md5(letters));
  }

  lemma KeyOfShort(seed: seq<bv8>)
    requires |seed| < 100
    ensures KeyOf(seed) == Hex(Rfc1321.Md5(seed))[..16]
  {
    hide Hex, Rfc1321.Md5;
    assert seed[..|seed| % Rfc1321.WORD] == seed;
  }

  lemma HexOfDigest(digest: seq<bv8>)
    requires digest == [0xc3, 0xfc, 0xd3, 0xd7, 0x61, 0x92, 0xe4, 0x00,
                        0x7d, 0xfb, 0x49, 0x6c, 0xca, 0x67, 0xe1, 0x3b]
    ensures Hex(digest)[..16]
         == [0x63, 0x33, 0x66, 0x63, 0x64, 0x33, 0x64, 0x37, 0x36, 0x31, 0x39, 0x32, 0x65, 0x34, 0x30, 0x30]
  {
    FrontOfDigest();
    hide Hex;
    var front := digest[..8];
    assert front == [0xc3, 0xfc, 0xd3, 0xd7] + [0x61, 0x92, 0xe4, 0x00];
    HexConcat([0xc3, 0xfc, 0xd3, 0xd7], [0x61, 0x92, 0xe4, 0x00]);
    HexConcat(front, digest[8..]);
    assert digest == front + digest[8..];
  }

  lemma FrontOfDigest()
    ensures Hex([0xc3, 0xfc, 0xd3, 0xd7]) == [0x63, 0x33, 0x66, 0x63, 0x64, 0x33, 0x64, 0x37]
    ensures Hex([0x61, 0x92, 0xe4, 0x00]) == [0x36, 0x31, 0x39, 0x32, 0x65, 0x34, 0x30, 0x30]
  {
    HexOfFour(0xc3, 0xfc, 0xd3, 0xd7);
    HexOfFour(0x61, 0x92, 0xe4, 0x00);
    hide Hex;
  }

  /** Block j of the ciphertext is the encryption of block j of the input and of nothing else. */
  lemma {:induction false} EcbBlockAt(key: seq<bv8>, b: seq<bv8>, j: nat)
    requires |key| == 16 && 16 * j + 16 <= |b|
    ensures |EcbEncryption(key, b)| >= 16 * j + 16
    ensures EcbEncryption(key, b)[16 * j..16 * j + 16] == EncryptBlock(key, b[16 * j..16 * j + 16])
  {
    hide EncryptBlock;
    if j > 0 {
      EcbBlockAt(key, b[16..], j - 1);
      assert b[16..][16 * (j - 1)..16 * (j - 1) + 16] == b[16 * j..16 * j + 16];
      var rest := EcbEncryption(key, b[16..]);
      assert EcbEncryption(key, b)[16 * j..16 * j + 16] == rest[16 * (j - 1)..16 * (j - 1) + 16];
    }
  }

  /** The last block takes what is left and zero bytes. */
  lemma {:induction false} EcbLastBlock(key: seq<bv8>, b: seq<bv8>, j: nat, zeros: seq<bv8>)
    requires |key| == 16 && 16 * j < |b| && |b| + |zeros| == 16 * j + 16
    requires forall k :: 0 <= k < |zeros| ==> zeros[k] == 0
    ensures |EcbEncryption(key, b)| == 16 * j + 16
    ensures EcbEncryption(key, b)[16 * j..] == EncryptBlock(key, b[16 * j..] + zeros)
  {
    hide EncryptBlock;
    if j > 0 {
      EcbLastBlock(key, b[16..], j - 1, zeros);
      assert b[16..][16 * (j - 1)..] == b[16 * j..];
      var rest := EcbEncryption(key, b[16..]);
      assert EcbEncryption(key, b)[16 * j..] == rest[16 * (j - 1)..];
    } else if |b| == 16 {
      assert b[16..] == [] && b[..16] == b[0..] + zeros;
    } else {
      assert ZeroPad(b) == b[0..] + zeros;
    }
  }
}
