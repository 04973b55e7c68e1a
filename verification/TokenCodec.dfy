/** Strings encrypted for the wire (server/common/libtools/AesBt.cpp): a key from the MD5 of a seed,
    zero-padded AES in ECB mode, Base64 around it. */
module TokenCodec {
  import opened Bytes
  import opened AesCore
  import Fips197
  import Base64
  import Rfc1321
  import Md5Context

  // ----- the key

  function HexDigit(n: bv8): (c: bv8)
    requires n < 16
    ensures c != 0
  {
    if n < 10 then n + 0x30 else n + 0x57
  }

  function HighNibble(b: bv8): (n: bv8)
    ensures n < 16
  {
    b >> 4
  }

  function LowNibble(b: bv8): (n: bv8)
    ensures n < 16
  {
    b & 0x0f
  }

  /** bin2hex. */
  function Hex(b: seq<bv8>): (s: seq<bv8>)
    ensures |s| == 2 * |b| && 0 !in s
  {
    if b == [] then [] else [HexDigit(HighNibble(b[0])), HexDigit(LowNibble(b[0]))] + Hex(b[1..])
  }

  /** MD5_32 as a string: the zeroed buffer of 33 characters is read back as a C string. */
  method Hash32(data: seq<bv8>) returns (s: seq<bv8>)
    ensures s == Hex(Rfc1321.Md5(data[..|data| % Rfc1321.WORD]))
  {
    var hash := Md5Context.Hash16(data);
    var out := Hex(hash) + [0];
    CStringTerminated(Hex(hash));
    s := CString(out);
  }

  /** The sixteen bytes get_key derives from a seed. */
  ghost function KeyOf(seed: seq<bv8>): (key: seq<bv8>)
    ensures |key| == 16
  {
    Hex(Rfc1321.Md5(seed[..|seed| % Rfc1321.WORD]))[..16]
  }

  method GetKey(seed: seq<bv8>) returns (key: array<bv8>)
    ensures fresh(key) && key[..] == KeyOf(seed)
  {
    hide Hex, Rfc1321.Md5;
    var hex := Hash32(seed);
    key := new bv8[16](i requires 0 <= i < 16 => hex[i]);
    assert key[..] == hex[..16];
  }

  // ----- the mode of operation

  function ZeroPad(b: seq<bv8>): (p: seq<bv8>)
    requires |b| <= 16
    ensures |p| == 16
  {
    b + Rfc1321.Zeros(16 - |b|)
  }

  ghost function EcbEncryption(key: seq<bv8>, b: seq<bv8>): (c: seq<bv8>)
    requires |key| == 16
  {
    if |b| == 0 then []
    else if |b| < 16 then EncryptBlock(key, ZeroPad(b))
    else EncryptBlock(key, b[..16]) + EcbEncryption(key, b[16..])
  }

  /** Whole blocks only; bytes after the last one are ignored. */
  ghost function EcbDecryption(key: seq<bv8>, c: seq<bv8>): (b: seq<bv8>)
    requires |key| == 16
  {
    if |c| < 16 then [] else DecryptBlock(key, c[..16]) + EcbDecryption(key, c[16..])
  }

  function CipherLength(n: nat): nat { (n / 16 + (if n % 16 != 0 then 1 else 0)) * 16 }

  lemma {:induction false} EcbEncryptionLength(key: seq<bv8>, b: seq<bv8>)
    requires |key| == 16
    ensures |EcbEncryption(key, b)| == CipherLength(|b|)
  {
    hide EncryptBlock;
    if |b| >= 16 {
      EcbEncryptionLength(key, b[16..]);
    }
  }

  lemma {:induction false} EcbDecryptionLength(key: seq<bv8>, c: seq<bv8>)
    requires |key| == 16
    ensures |EcbDecryption(key, c)| == |c| / 16 * 16
  {
    hide DecryptBlock;
    if |c| >= 16 {
      EcbDecryptionLength(key, c[16..]);
    }
  }

  /** Decryption undoes encryption up to the zero bytes that complete the last block. */
  lemma {:induction false} EcbRoundTrip(key: seq<bv8>, b: seq<bv8>)
    requires |key| == 16
    ensures EcbDecryption(key, EcbEncryption(key, b)) == b + Rfc1321.Zeros(CipherLength(|b|) - |b|)
  {
    hide EncryptBlock, DecryptBlock;
    var c := EcbEncryption(key, b);
    if |b| == 0 {
    } else if |b| < 16 {
      DecryptBlockUndoes(key, ZeroPad(b));
      assert c[..16] == c && c[16..] == [];
    } else {
      DecryptBlockUndoes(key, b[..16]);
      EcbRoundTrip(key, b[16..]);
      assert c[..16] == EncryptBlock(key, b[..16]) && c[16..] == EcbEncryption(key, b[16..]);
    }
  }

  lemma EcbNext(key: seq<bv8>, b: seq<bv8>, p: nat)
    requires |key| == 16 && p + 16 <= |b|
    ensures EcbEncryption(key, b[p..]) == EncryptBlock(key, b[p..p + 16]) + EcbEncryption(key, b[p + 16..])
  {
    hide EncryptBlock;
    assert b[p..][..16] == b[p..p + 16] && b[p..][16..] == b[p + 16..];
  }

  lemma EcbDecNext(key: seq<bv8>, c: seq<bv8>, p: nat)
    requires |key| == 16 && p + 16 <= |c|
    ensures EcbDecryption(key, c[p..]) == DecryptBlock(key, c[p..p + 16]) + EcbDecryption(key, c[p + 16..])
  {
    hide DecryptBlock;
    assert c[p..][..16] == c[p..p + 16] && c[p..][16..] == c[p + 16..];
  }

  /** One block through AES_encrypt, appended to what is done. */
  method EncryptAt(input: array<bv8>, i: nat, output: array<bv8>, o: nat, aesKey: AesKey,
                   ghost key: seq<bv8>, ghost done: seq<bv8>)
    requires i + 16 <= input.Length && o + 16 <= output.Length
    requires EncryptionKey(aesKey, key) && output[..o] == done
    modifies output
    ensures output[..o + 16] == done + EncryptBlock(key, old(input[i..i + 16]))
    ensures forall k :: o + 16 <= k < output.Length ==> output[k] == old(output[k])
    ensures EncryptionKey(aesKey, key)
  {
    hide EncryptBlock, EncryptionKey, Fips197.Cipher, BlockToState, StateToBlock;
    EncryptionKeyReady(aesKey, key);
    EncryptionKeyCipher(aesKey, key, input[i..i + 16]);
    Encrypt(input, i, output, o, aesKey);
  }

  method DecryptAt(input: array<bv8>, i: nat, output: array<bv8>, o: nat, aesKey: AesKey,
                   ghost key: seq<bv8>, ghost done: seq<bv8>)
    requires i + 16 <= input.Length && o + 16 <= output.Length
    requires DecryptionKey(aesKey, key) && output[..o] == done
    modifies output
    ensures output[..o + 16] == done + DecryptBlock(key, old(input[i..i + 16]))
    ensures forall k :: o + 16 <= k < output.Length ==> output[k] == old(output[k])
    ensures DecryptionKey(aesKey, key)
  {
    hide DecryptBlock, DecryptionKey, Fips197.EqInvCipher, BlockToState, StateToBlock;
    DecryptionKeyReady(aesKey, key);
    DecryptionKeyInvCipher(aesKey, key, input[i..i + 16]);
    Decrypt(input, i, output, o, aesKey);
  }

  lemma EcbRest(key: seq<bv8>, b: seq<bv8>)
    requires |key| == 16 && |b| < 16
    ensures EcbEncryption(key, b) == if |b| == 0 then [] else EncryptBlock(key, ZeroPad(b))
  {
    hide EncryptBlock;
  }

  /** The bytes after the last whole block, in a zeroed block of their own. */
  method EncryptRest(rest: seq<bv8>, output: array<bv8>, o: nat, aesKey: AesKey,
                     ghost key: seq<bv8>, ghost done: seq<bv8>)
    requires 0 < |rest| < 16 && o + 16 <= output.Length
    requires EncryptionKey(aesKey, key) && output[..o] == done
    modifies output
    ensures output[..o + 16] == done + EncryptBlock(key, ZeroPad(rest))
    ensures forall k :: o + 16 <= k < output.Length ==> output[k] == old(output[k])
  {
    hide EncryptBlock, EncryptionKey;
    var buf := new bv8[16](j => 0);
    forall j | 0 <= j < |rest| { buf[j] := rest[j]; }
    assert buf[0..16] == ZeroPad(rest);
    EncryptAt(buf, 0, output, o, aesKey, key, done);
  }

  /** AES_ecb128_encrypt over raw buffers: every whole block, then the zero-padded rest. */
  method EcbEncrypt(input: array<bv8>, output: array<bv8>, key: array<bv8>)
    requires output.Length >= CipherLength(input.Length) && key.Length >= 16
    modifies output
    ensures output[..CipherLength(input.Length)] == old(EcbEncryption(key[..16], input[..]))
    ensures forall j :: CipherLength(input.Length) <= j < output.Length ==> output[j] == old(output[j])
  {
    hide EncryptBlock, EncryptionKey, EcbEncryption;
    var aesKey := new AesKey();
    ghost var k, b := key[..16], input[..];
    LoadEncryptionKey(key, 128, aesKey);
    var round, left := input.Length / 16, input.Length % 16;
    var i := 0;
    ghost var done: seq<bv8> := [];
    assert b[0..] == b;
    while i < round
      invariant 0 <= i <= round && output[..16 * i] == done
      invariant done + EcbEncryption(k, b[16 * i..]) == EcbEncryption(k, b)
      invariant EncryptionKey(aesKey, k)
      invariant forall j :: 16 * i <= j < input.Length ==> input[j] == b[j]
      invariant forall j :: 16 * i <= j < output.Length ==> output[j] == old(output[j])
    {
      EcbNext(k, b, 16 * i);
      assert input[16 * i..16 * i + 16] == b[16 * i..16 * i + 16];
      EncryptAt(input, 16 * i, output, 16 * i, aesKey, k, done);
      ghost var c := EncryptBlock(k, b[16 * i..16 * i + 16]);
      assert done + (c + EcbEncryption(k, b[16 * (i + 1)..])) == (done + c) + EcbEncryption(k, b[16 * (i + 1)..]);
      done := done + c;
      i := i + 1;
    }
    EcbRest(k, b[16 * i..]);
    assert input[16 * i..] == b[16 * i..];
    if left != 0 {
      EncryptRest(input[16 * i..], output, 16 * i, aesKey, k, done);
    } else {
      assert done + [] == done;
    }
  }

  /** AES_ecb128_decrypt over raw buffers: every whole block, nothing for a rest. */
  method EcbDecrypt(input: array<bv8>, length: nat, output: array<bv8>, key: array<bv8>)
    requires length <= input.Length && output.Length >= length && key.Length >= 16
    modifies output
    ensures output[..length / 16 * 16] == old(EcbDecryption(key[..16], input[..length]))
    ensures forall j :: length / 16 * 16 <= j < output.Length ==> output[j] == old(output[j])
  {
    hide DecryptBlock, DecryptionKey, EcbDecryption;
    var aesKey := new AesKey();
    ghost var k, c := key[..16], input[..length];
    LoadDecryptionKey(key, 128, aesKey);
    var round := length / 16;
    var i := 0;
    ghost var done: seq<bv8> := [];
    assert c[0..] == c;
    while i < round
      invariant 0 <= i <= round && output[..16 * i] == done
      invariant done + EcbDecryption(k, c[16 * i..]) == EcbDecryption(k, c)
      invariant DecryptionKey(aesKey, k)
      invariant forall j :: 16 * i <= j < output.Length ==> output[j] == old(output[j])
      invariant forall j :: 16 * i <= j < length ==> input[j] == c[j]
    {
      EcbDecNext(k, c, 16 * i);
      assert input[16 * i..16 * i + 16] == c[16 * i..16 * i + 16];
      DecryptAt(input, 16 * i, output, 16 * i, aesKey, k, done);
      ghost var b := DecryptBlock(k, c[16 * i..16 * i + 16]);
      assert done + (b + EcbDecryption(k, c[16 * (i + 1)..])) == (done + b) + EcbDecryption(k, c[16 * (i + 1)..]);
      done := done + b;
      i := i + 1;
    }
    EcbDecRest(k, c[16 * i..]);
    assert done + [] == done;
  }

  lemma EcbDecRest(key: seq<bv8>, c: seq<bv8>)
    requires |key| == 16 && |c| < 16
    ensures EcbDecryption(key, c) == []
  {
  }

  // ----- strings

  method ToBuffer(s: seq<bv8>) returns (a: array<bv8>)
    ensures fresh(a) && a[..] == s
  {
    a := new bv8[|s|](i requires 0 <= i < |s| => s[i]);
  }

  /** AES_ecb128_encrypt on strings. */
  method EncryptString(input: seq<bv8>, keySeed: seq<bv8>) returns (text: seq<bv8>)
    ensures text == Base64.Encode(EcbEncryption(KeyOf(keySeed), input))
  {
    hide KeyOf, EcbEncryption, Base64.Encode;
    var key := GetKey(keySeed);
    var encodeLength := (|input| / 16 + (if |input| % 16 != 0 then 1 else 0)) * 16;
    var buffer := new bv8[encodeLength];
    var plain := ToBuffer(input);
    EcbEncrypt(plain, buffer, key);
    assert key[..16] == key[..] && buffer[..encodeLength] == buffer[..];
    text := Base64.EncodeString(buffer[..]);
  }

  /** What a C string read from a terminated output buffer says of the ciphertext c: the bytes of a rest
      shorter than a block are never written, so only what precedes them is determined. */
  ghost predicate DecryptionOf(plain: seq<bv8>, key: seq<bv8>, c: seq<bv8>)
    requires |key| == 16
  {
    var d := EcbDecryption(key, c);
    && |plain| <= |c| && CString(d) <= plain
    && (0 in d || |c| % 16 == 0 ==> plain == CString(d))
  }

  /** AES_ecb128_decrypt on strings: both the text and the result pass through C strings. On any text it
      decrypts the units as Unit_Decode writes them, the bytes a padded unit skips being whatever the new
      buffer b held; on well-formed text of any length that is the decoding. */
  method DecryptString(text: seq<bv8>, keySeed: seq<bv8>, nullPos: bv8) returns (plain: seq<bv8>)
    ensures var t := CString(text);
            exists b :: Base64.UnitsWritten(b, t, |t| / 4, nullPos) && |b| == |t| / 4 * 3
                        && DecryptionOf(plain, KeyOf(keySeed), b[..Base64.DecodedLength(t)])
    ensures var t := CString(text);
            Base64.WellFormed(t) ==> DecryptionOf(plain, KeyOf(keySeed), Base64.Decode(t))
  {
    hide KeyOf, EcbDecryption, Base64.Decode, Base64.WellFormed, Base64.UnitsWritten, CString;
    var key := GetKey(keySeed);
    var t := CString(text);
    var buf, length := Base64.DecodeString(t, 0, nullPos);
    var binOut := new bv8[length + 1];
    ghost var b: seq<bv8> := [];
    if buf != null {
      EcbDecrypt(buf, length, binOut, key);
      b := buf[..];
      assert key[..16] == key[..] && buf[..length] == b[..length];
    } else {
      DecodeEmpty(KeyOf(keySeed), nullPos);
      assert b[..length] == [];
    }
    binOut[length] := 0;
    plain := CString(binOut[..]);
    ghost var d := EcbDecryption(KeyOf(keySeed), b[..length]);
    EcbDecryptionLength(KeyOf(keySeed), b[..length]);
    assert binOut[..|d|] == d;
    CStringOfBuffer(binOut[..], d);
    if Base64.WellFormed(t) { Base64.DecodeLength(t); }
  }

  lemma DecodeEmpty(key: seq<bv8>, nullPos: bv8)
    requires |key| == 16
    ensures Base64.UnitsWritten([], [], 0, nullPos) && Base64.WellFormed([]) && Base64.Decode([]) == []
    ensures EcbDecryption(key, []) == []
  {
  }

  lemma CStringWhole(s: seq<bv8>)
    requires 0 !in s
    ensures CString(s) == s
  {
    CStringOfPrefix(s, []);
    assert s + [] == s;
  }

  lemma WholeBlocks(n: nat)
    ensures CipherLength(n) % 16 == 0
  {
  }

  /** What the string functions promise: decrypting what was encrypted returns the text up to its
      first NUL, for every text and every seed. */
  lemma StringRoundTrip(s: seq<bv8>, keySeed: seq<bv8>)
    ensures var text := Base64.Encode(EcbEncryption(KeyOf(keySeed), s));
            && CString(text) == text
            && Base64.WellFormed(text) && |Base64.Decode(text)| % 16 == 0
            && CString(EcbDecryption(KeyOf(keySeed), Base64.Decode(text))) == CString(s)
    ensures CString(s) == s <==> 0 !in s
  {
    hide KeyOf, EcbEncryption, EcbDecryption, CString, CipherLength, Rfc1321.Zeros,
         Base64.Encode, Base64.Decode, Base64.WellFormed;
    var key := KeyOf(keySeed);
    var c := EcbEncryption(key, s);
    CStringWhole(Base64.Encode(c));
    Base64.DecodeUndoesEncode(c);
    EcbEncryptionLength(key, s);
    WholeBlocks(|s|);
    EcbRoundTrip(key, s);
    CStringPadded(s, Rfc1321.Zeros(CipherLength(|s|) - |s|));
    if 0 !in s { CStringWhole(s); }
  }

  /** The two string functions one after the other. */
  method EncryptThenDecrypt(s: seq<bv8>, keySeed: seq<bv8>, nullPos: bv8) returns (r: seq<bv8>)
    ensures r == CString(s)
    ensures r == s <==> 0 !in s
  {
    hide KeyOf, EcbEncryption, EcbDecryption, CString, Base64.Encode, Base64.Decode, Base64.WellFormed;
    StringRoundTrip(s, keySeed);
    var text := EncryptString(s, keySeed);
    r := DecryptString(text, keySeed, nullPos);
  }
}
