/** The encoders and decoders of server/common/libtools/Base64.cpp (section 4 of RFC 4648). */
module Base64 {
  import opened Bytes

  const PAD: bv8 := 0x3d

  /** BASE64_TAB: digit to character. */
  function Tab(i: bv8): (c: bv8)
    requires i < 64
    ensures c != 0 && c != PAD && c < 0x80
  {
    if i < 26 then i + 65 else if i < 52 then i + 71 else if i < 62 then i - 4 else if i == 62 then 43 else 47
  }

  predicate InTab(c: bv8) {
    65 <= c <= 90 || 97 <= c <= 122 || 48 <= c <= 57 || c == 43 || c == 47
  }

  /** Character to digit. */
  function ChPos(c: bv8): (i: bv8)
    requires InTab(c)
    ensures i < 64 && Tab(i) == c
  {
    if 65 <= c <= 90 then c - 65 else if 97 <= c <= 122 then c - 71 else if 48 <= c <= 57 then c + 4
    else if c == 43 then 62 else 63
  }

  lemma ChPosTab(i: bv8)
    requires i < 64
    ensures InTab(Tab(i)) && ChPos(Tab(i)) == i
  {
  }

  // ----- one unit, as the code shifts it

  function Digit0(a: bv8): (d: bv8)
    ensures d < 64
  {
    a >> 2
  }

  function Digit1(a: bv8, b: bv8): (d: bv8)
    ensures d < 64
  {
    ((a << 4) & 0x3F) | (b >> 4)
  }

  function Digit2(b: bv8, c: bv8): (d: bv8)
    ensures d < 64
  {
    ((b << 2) & 0x3F) | (c >> 6)
  }

  function Digit3(c: bv8): (d: bv8)
    ensures d < 64
  {
    c & 0x3F
  }

  function Byte0(p: bv8, q: bv8): bv8 { (p << 2) | (q >> 4) }

  function Byte1(q: bv8, r: bv8): bv8 { (q << 4) | (r >> 2) }

  function Byte2(r: bv8, s: bv8): bv8 { (r << 6) | s }

  /** The 24-bit group of section 4 of RFC 4648. */
  function Group(a: bv8, b: bv8, c: bv8): bv24 { (a as bv24 << 16) | (b as bv24 << 8) | c as bv24 }

  /** The shifted bytes are the four sextets of the 24-bit group, highest first. */
  lemma DigitsAreSextets(a: bv8, b: bv8, c: bv8)
    ensures Digit0(a) as bv24 == Group(a, b, c) >> 18
    ensures Digit1(a, b) as bv24 == (Group(a, b, c) >> 12) & 0x3F
    ensures Digit2(b, c) as bv24 == (Group(a, b, c) >> 6) & 0x3F
    ensures Digit3(c) as bv24 == Group(a, b, c) & 0x3F
  {
  }

  lemma BytesOfDigits(a: bv8, b: bv8, c: bv8)
    ensures Byte0(Digit0(a), Digit1(a, b)) == a
    ensures Byte1(Digit1(a, b), Digit2(b, c)) == b
    ensures Byte2(Digit2(b, c), Digit3(c)) == c
  {
  }

  lemma DigitsOfBytes(p: bv8, q: bv8, r: bv8, s: bv8)
    requires p < 64 && q < 64 && r < 64 && s < 64
    ensures Digit0(Byte0(p, q)) == p
    ensures Digit1(Byte0(p, q), Byte1(q, r)) == q
    ensures Digit2(Byte1(q, r), Byte2(r, s)) == r
    ensures Digit3(Byte2(r, s)) == s
    ensures Digit1(Byte0(p, q), 0) == q & 0x30
    ensures Digit2(Byte1(q, r), 0) == r & 0x3C
  {
  }

  // ----- the block encoder

  /** Unit_Code. */
  function UnitCode(a: bv8, b: bv8, c: bv8): (u: seq<bv8>)
    ensures |u| == 4
  {
    [Tab(Digit0(a)), Tab(Digit1(a, b)), Tab(Digit2(b, c)), Tab(Digit3(c))]
  }

  /** Fill_Code on the one or two bytes left. */
  function FillCode(left: seq<bv8>): (u: seq<bv8>)
    requires 1 <= |left| <= 2
    ensures |u| == 4
  {
    if |left| == 2 then [Tab(Digit0(left[0])), Tab(Digit1(left[0], left[1])), Tab(Digit2(left[1], 0)), PAD]
    else [Tab(Digit0(left[0])), Tab(Digit1(left[0], 0)), PAD, PAD]
  }

  function EncodedLength(n: nat): nat { (n / 3 + (if n % 3 != 0 then 1 else 0)) * 4 }

  function Encode(b: seq<bv8>): (t: seq<bv8>)
    ensures |t| == EncodedLength(|b|)
    ensures 0 !in t
  {
    if |b| == 0 then []
    else if |b| < 3 then FillCode(b)
    else UnitCode(b[0], b[1], b[2]) + Encode(b[3..])
  }

  lemma EncodeUnit(b: seq<bv8>, i: nat)
    requires 3 * i + 3 <= |b|
    ensures Encode(b[3 * i..]) == UnitCode(b[3 * i], b[3 * i + 1], b[3 * i + 2]) + Encode(b[3 * (i + 1)..])
  {
    hide UnitCode;
    assert b[3 * i..][3..] == b[3 * (i + 1)..];
  }

  /** Write a unit of four characters after the n characters of done. */
  method PutUnit(dest: array<bv8>, n: nat, u: seq<bv8>, ghost done: seq<bv8>)
    requires |u| == 4 && n + 4 <= dest.Length && dest[..n] == done
    modifies dest
    ensures dest[..n + 4] == done + u
    ensures forall k :: n + 4 <= k < dest.Length ==> dest[k] == old(dest[k])
  {
    dest[n], dest[n + 1], dest[n + 2], dest[n + 3] := u[0], u[1], u[2], u[3];
    assert dest[..n] == done;
  }

  /** Base64Encode over buffers: the first encodeLength bytes are the encoding, the rest is untouched. */
  method EncodeBuffer(src: seq<bv8>, dest: array<bv8>) returns (encodeLength: nat)
    requires EncodedLength(|src|) <= dest.Length
    modifies dest
    ensures encodeLength == EncodedLength(|src|)
    ensures dest[..encodeLength] == Encode(src)
    ensures forall k :: encodeLength <= k < dest.Length ==> dest[k] == old(dest[k])
  {
    hide UnitCode, FillCode, Encode;
    var left, unitCount := |src| % 3, |src| / 3;
    encodeLength := (unitCount + (if left != 0 then 1 else 0)) * 4;
    var i := 0;
    ghost var done := [];
    assert src[0..] == src;
    while i < unitCount
      invariant 0 <= i <= unitCount && dest[..4 * i] == done
      invariant done + Encode(src[3 * i..]) == Encode(src)
      invariant forall k :: 4 * i <= k < dest.Length ==> dest[k] == old(dest[k])
    {
      EncodeUnit(src, i);
      var u := UnitCode(src[3 * i], src[3 * i + 1], src[3 * i + 2]);
      PutUnit(dest, 4 * i, u, done);
      assert done + (u + Encode(src[3 * (i + 1)..])) == (done + u) + Encode(src[3 * (i + 1)..]);
      done := done + u;
      i := i + 1;
    }
    EncodeRest(src[3 * i..]);
    if left == 0 { return; }
    PutUnit(dest, 4 * i, FillCode(src[3 * i..]), done);
  }

  lemma EncodeRest(left: seq<bv8>)
    requires |left| < 3
    ensures Encode(left) == if |left| == 0 then [] else FillCode(left)
  {
  }

  /** Base64Encode to a string: the terminated buffer read back as a C string loses nothing. */
  method EncodeString(src: seq<bv8>) returns (s: seq<bv8>)
    ensures s == Encode(src)
  {
    var encodeLength := EncodedLength(|src|);
    var buf := new bv8[encodeLength + 1];
    var n := EncodeBuffer(src, buf);
    buf[encodeLength] := 0;
    assert buf[..] == Encode(src) + [0];
    CStringTerminated(Encode(src));
    s := CString(buf[..]);
  }

  // ----- the block decoder

  /** Base64ChPos of any character: strchr finds the terminator of the table for NUL, and nullPos stands
      for the byte that subtracting the table's address from a null result leaves. */
  function Position(c: bv8, nullPos: bv8): bv8 {
    if InTab(c) then ChPos(c) else if c == 0 then 64 else nullPos
  }

  /** Unit_Decode: three bytes, or two or one before padding. */
  function UnitBytes(u: seq<bv8>, nullPos: bv8): (b: seq<bv8>)
    requires |u| == 4
    ensures |b| == UnitSize(u)
  {
    var p, q := Position(u[0], nullPos), Position(u[1], nullPos);
    var r, s := Position(u[2], nullPos), Position(u[3], nullPos);
    if u[3] != PAD then [Byte0(p, q), Byte1(q, r), Byte2(r, s)]
    else if u[2] == PAD then [Byte0(p, q)]
    else [Byte0(p, q), Byte1(q, r)]
  }

  /** The characters Unit_Decode looks up are all in the table. */
  predicate Decodable(u: seq<bv8>) {
    && |u| == 4 && InTab(u[0]) && InTab(u[1])
    && (u[3] != PAD ==> InTab(u[2]) && InTab(u[3]))
    && (u[3] == PAD && u[2] != PAD ==> InTab(u[2]))
  }

  /** The bytes such a unit stands for. */
  function UnitDecode(u: seq<bv8>): (b: seq<bv8>)
    requires Decodable(u)
    ensures |b| == if u[3] != PAD then 3 else if u[2] == PAD then 1 else 2
  {
    var p, q := ChPos(u[0]), ChPos(u[1]);
    if u[3] != PAD then [Byte0(p, q), Byte1(q, ChPos(u[2])), Byte2(ChPos(u[2]), ChPos(u[3]))]
    else if u[2] == PAD then [Byte0(p, q)]
    else [Byte0(p, q), Byte1(q, ChPos(u[2]))]
  }

  lemma UnitBytesOfDigits(u: seq<bv8>, nullPos: bv8)
    requires Decodable(u)
    ensures UnitBytes(u, nullPos) == UnitDecode(u)
  {
    hide InTab, ChPos, Byte0, Byte1, Byte2;
  }

  function UnitAt(t: seq<bv8>, k: nat): (u: seq<bv8>)
    requires 4 * k + 4 <= |t|
    ensures |u| == 4
  {
    t[4 * k..4 * k + 4]
  }

  /** Well-formed text: whole units over the alphabet, padding in the last one only. */
  predicate WellFormed(t: seq<bv8>) {
    |t| % 4 == 0
    && (|t| > 0 ==> Decodable(t[..4]) && (|t| > 4 ==> t[3] != PAD && WellFormed(t[4..])))
  }

  function Decode(t: seq<bv8>): (b: seq<bv8>)
    requires WellFormed(t)
  {
    if |t| == 0 then [] else UnitDecode(t[..4]) + Decode(t[4..])
  }

  /** The padding the decoder counts at the end of its input. */
  function Padding(t: seq<bv8>): (n: nat)
    ensures n <= 2
  {
    if |t| >= 2 && t[|t| - 1] == PAD then (if t[|t| - 2] == PAD then 2 else 1) else 0
  }

  /** The length the decoder reports, from a counter that starts at zero. */
  function DecodedLength(t: seq<bv8>): (n: nat)
    ensures n <= |t| / 4 * 3
  {
    if |t| < 4 then 0 else |t| / 4 * 3 - Padding(t)
  }

  lemma {:induction false} DecodeLength(t: seq<bv8>)
    requires WellFormed(t)
    ensures |Decode(t)| == |t| / 4 * 3 - Padding(t)
  {
    if |t| > 4 {
      DecodeLength(t[4..]);
      assert t[4..][|t| - 5] == t[|t| - 1] && t[4..][|t| - 6] == t[|t| - 2];
    } else if |t| == 4 {
      assert t[4..] == [];
    }
  }

  /** The first n units of t stand decoded in d, three bytes apart. */
  ghost predicate UnitsWritten(d: seq<bv8>, t: seq<bv8>, n: nat, nullPos: bv8)
  {
    3 * n <= |d| && 4 * n <= |t|
    && forall k :: 0 <= k < n ==> UnitBytes(UnitAt(t, k), nullPos) <= d[3 * k..3 * k + 3]
  }

  /** How many bytes Unit_Decode writes. */
  function UnitSize(u: seq<bv8>): (n: nat)
    requires |u| == 4
    ensures 1 <= n <= 3
  {
    if u[3] != PAD then 3 else if u[2] == PAD then 1 else 2
  }

  /** What a padded unit does not write is left as it was. */
  ghost predicate GapsKept(before: seq<bv8>, after: seq<bv8>, t: seq<bv8>, n: nat)
  {
    |before| == |after| && 3 * n <= |after| && 4 * n <= |t|
    && forall k :: 0 <= k < n ==> GapKept(before, after, 3 * k, UnitSize(UnitAt(t, k)))
  }

  ghost predicate GapKept(before: seq<bv8>, after: seq<bv8>, at: nat, size: nat)
    requires at + 3 <= |before| == |after|
  {
    forall j :: at + size <= j < at + 3 ==> after[j] == before[j]
  }

  method PutDecoded(dest: array<bv8>, at: nat, b: seq<bv8>)
    requires 1 <= |b| <= 3 && at + 3 <= dest.Length
    modifies dest
    ensures b <= dest[at..at + 3]
    ensures forall k :: 0 <= k < dest.Length && !(at <= k < at + |b|) ==> dest[k] == old(dest[k])
  {
    dest[at] := b[0];
    if |b| > 1 { dest[at + 1] := b[1]; }
    if |b| > 2 { dest[at + 2] := b[2]; }
  }

  lemma NoUnitWritten(d: seq<bv8>, t: seq<bv8>, nullPos: bv8)
    ensures UnitsWritten(d, t, 0, nullPos) && GapsKept(d, d, t, 0)
  {
  }

  lemma NextUnitWritten(before: seq<bv8>, was: seq<bv8>, now: seq<bv8>, t: seq<bv8>, i: nat, nullPos: bv8)
    requires UnitsWritten(was, t, i, nullPos) && GapsKept(before, was, t, i)
    requires 4 * i + 4 <= |t| && 3 * i + 3 <= |was| == |now|
    requires UnitBytes(UnitAt(t, i), nullPos) <= now[3 * i..3 * i + 3]
    requires forall k :: 0 <= k < |now| && !(3 * i <= k < 3 * i + UnitSize(UnitAt(t, i))) ==> now[k] == was[k]
    requires forall k :: 3 * i <= k < |was| ==> was[k] == before[k]
    ensures UnitsWritten(now, t, i + 1, nullPos) && GapsKept(before, now, t, i + 1)
  {
    hide UnitBytes, UnitAt, UnitSize;
    assert forall k :: 0 <= k < i ==> now[3 * k..3 * k + 3] == was[3 * k..3 * k + 3];
    forall k | 0 <= k < i
      ensures GapKept(before, now, 3 * k, UnitSize(UnitAt(t, k)))
    {
      assert GapKept(before, was, 3 * k, UnitSize(UnitAt(t, k)));
    }
  }

  /** Base64Decode over buffers, on any text. A source shorter than one unit leaves the length as it was. */
  method DecodeBuffer(src: seq<bv8>, dest: array<bv8>, lengthBefore: nat, nullPos: bv8) returns (length: nat)
    requires |src| / 4 * 3 <= dest.Length
    modifies dest
    ensures length == if |src| < 4 then lengthBefore else |src| / 4 * 3 - Padding(src)
    ensures UnitsWritten(dest[..], src, |src| / 4, nullPos)
    ensures GapsKept(old(dest[..]), dest[..], src, |src| / 4)
    ensures forall k :: |src| / 4 * 3 <= k < dest.Length ==> dest[k] == old(dest[k])
    ensures WellFormed(src) ==> |Decode(src)| <= dest.Length && dest[..|Decode(src)|] == Decode(src)
  {
    hide UnitBytes, UnitAt, Decode, WellFormed, UnitsWritten, GapsKept;
    NoUnitWritten(dest[..], src, nullPos);
    if |src| < 4 {
      DecodeFromUnits(dest[..], src, nullPos);
      return lengthBefore;
    }
    var padding := 0;
    if src[|src| - 1] == PAD {
      padding := padding + 1;
      if src[|src| - 2] == PAD {
        padding := padding + 1;
      }
    }
    var unitCount := |src| / 4;
    var i := 0;
    while i < unitCount
      invariant 0 <= i <= unitCount
      invariant UnitsWritten(dest[..], src, i, nullPos) && GapsKept(old(dest[..]), dest[..], src, i)
      invariant forall k :: 3 * i <= k < dest.Length ==> dest[k] == old(dest[k])
    {
      ghost var was := dest[..];
      var b := UnitBytes(UnitAt(src, i), nullPos);
      UnitBytesSize(UnitAt(src, i), nullPos);
      PutDecoded(dest, 3 * i, b);
      assert dest[..][3 * i..3 * i + 3] == dest[3 * i..3 * i + 3];
      NextUnitWritten(old(dest[..]), was, dest[..], src, i, nullPos);
      i := i + 1;
    }
    length := unitCount * 3 - padding;
    DecodeFromUnits(dest[..], src, nullPos);
  }

  lemma UnitBytesSize(u: seq<bv8>, nullPos: bv8)
    requires |u| == 4
    ensures 1 <= |UnitBytes(u, nullPos)| <= 3
  {
  }

  /** On well-formed text the units line up without gaps. */
  lemma {:induction false} DecodeFromUnits(d: seq<bv8>, t: seq<bv8>, nullPos: bv8)
    requires UnitsWritten(d, t, |t| / 4, nullPos)
    ensures WellFormed(t) ==> |Decode(t)| <= |d| && d[..|Decode(t)|] == Decode(t)
  {
    hide Decodable, UnitDecode, UnitBytes;
    if WellFormed(t) && |t| > 0 {
      var u, rest := t[..4], t[4..];
      assert UnitAt(t, 0) == u;
      UnitBytesOfDigits(u, nullPos);
      if |t| == 4 {
        assert Decode(t) == UnitDecode(u);
      } else {
        forall k | 0 <= k < |rest| / 4
          ensures UnitBytes(UnitAt(rest, k), nullPos) <= d[3..][3 * k..3 * k + 3]
        {
          assert UnitAt(rest, k) == UnitAt(t, k + 1);
          assert d[3..][3 * k..3 * k + 3] == d[3 * (k + 1)..3 * (k + 1) + 3];
        }
        DecodeFromUnits(d[3..], rest, nullPos);
        UnitDecodeLength(u);
        assert d[..3] == UnitDecode(u);
        assert d[..3 + |Decode(rest)|] == d[..3] + d[3..][..|Decode(rest)|];
      }
    }
  }

  // ----- round trips

  lemma UnitRoundTrip(a: bv8, b: bv8, c: bv8)
    ensures Decodable(UnitCode(a, b, c)) && UnitDecode(UnitCode(a, b, c)) == [a, b, c]
  {
    hide Digit0, Digit1, Digit2, Digit3, Byte0, Byte1, Byte2, InTab, Tab, ChPos;
    TabFacts(Digit0(a));
    TabFacts(Digit1(a, b));
    TabFacts(Digit2(b, c));
    TabFacts(Digit3(c));
    BytesOfDigits(a, b, c);
  }

  lemma TabFacts(i: bv8)
    requires i < 64
    ensures InTab(Tab(i)) && ChPos(Tab(i)) == i && Tab(i) != PAD
  {
    ChPosTab(i);
  }

  lemma FillRoundTrip(left: seq<bv8>)
    requires 1 <= |left| <= 2
    ensures Decodable(FillCode(left)) && UnitDecode(FillCode(left)) == left
  {
    hide Digit0, Digit1, Digit2, Digit3, Byte0, Byte1, Byte2, InTab, Tab, ChPos;
    var a := left[0];
    TabFacts(Digit0(a));
    if |left| == 2 {
      TabFacts(Digit1(a, left[1]));
      TabFacts(Digit2(left[1], 0));
      BytesOfDigits(a, left[1], 0);
    } else {
      TabFacts(Digit1(a, 0));
      BytesOfDigits(a, 0, 0);
    }
  }

  lemma DecodeHead(u: seq<bv8>, rest: seq<bv8>)
    requires |u| == 4 && Decodable(u) && WellFormed(rest) && (u[3] == PAD ==> rest == [])
    ensures WellFormed(u + rest) && Decode(u + rest) == UnitDecode(u) + Decode(rest)
  {
    hide Decodable, UnitDecode;
    assert (u + rest)[..4] == u && (u + rest)[4..] == rest;
  }

  /** Decoding undoes encoding on every byte sequence. */
  lemma {:induction false} DecodeUndoesEncode(b: seq<bv8>)
    ensures WellFormed(Encode(b)) && Decode(Encode(b)) == b
  {
    hide UnitCode, FillCode, Decodable, UnitDecode, WellFormed, Decode;
    EmptyText();
    if |b| == 0 {
    } else if |b| < 3 {
      FillRoundTrip(b);
      DecodeHead(FillCode(b), []);
      assert FillCode(b) + [] == FillCode(b) && b + [] == b;
    } else {
      UnitRoundTrip(b[0], b[1], b[2]);
      DecodeUndoesEncode(b[3..]);
      UnitCodeUnpadded(b[0], b[1], b[2]);
      DecodeHead(UnitCode(b[0], b[1], b[2]), Encode(b[3..]));
      assert b == [b[0], b[1], b[2]] + b[3..];
    }
  }

  lemma EmptyText()
    ensures WellFormed([]) && Decode([]) == []
  {
  }

  lemma HeadDecoded(t: seq<bv8>)
    requires WellFormed(t) && t != []
    ensures |t| >= 4 && Decodable(t[..4]) && WellFormed(t[4..]) && (t[3] == PAD ==> t[4..] == [])
    ensures Decode(t) == UnitDecode(t[..4]) + Decode(t[4..])
  {
    hide Decodable, UnitDecode;
    if |t| == 4 { assert t[4..] == []; }
  }

  lemma UnitCodeUnpadded(a: bv8, b: bv8, c: bv8)
    ensures UnitCode(a, b, c)[3] != PAD
  {
  }

  /** The bits of the last digit that no byte uses are zero (section 3.5 of RFC 4648). */
  predicate CanonicalUnit(u: seq<bv8>)
    requires Decodable(u)
  {
    if u[3] != PAD then true
    else if u[2] == PAD then ChPos(u[1]) & 0xF == 0
    else ChPos(u[2]) & 0x3 == 0
  }

  predicate Canonical(t: seq<bv8>)
    requires WellFormed(t)
  {
    if |t| == 0 then true else if |t| == 4 then CanonicalUnit(t[..4]) else Canonical(t[4..])
  }

  lemma TabInjective(i: bv8, c: bv8)
    requires i < 64 && InTab(c)
    ensures Tab(i) == c <==> i == ChPos(c)
  {
    ChPosTab(i);
  }

  lemma PadBits(q: bv8)
    requires q < 64
    ensures q & 0x30 == q <==> q & 0xF == 0
    ensures q & 0x3C == q <==> q & 0x3 == 0
  {
  }

  /** Encoding the bytes of one unit: the unit itself exactly when its pad bits are zero. */
  lemma UnitReencodes(u: seq<bv8>)
    requires Decodable(u)
    ensures Encode(UnitDecode(u)) == u <==> CanonicalUnit(u)
  {
    hide Digit0, Digit1, Digit2, Digit3, Byte0, Byte1, Byte2, InTab, Tab, ChPos;
    var p, q := ChPos(u[0]), ChPos(u[1]);
    assert u == [u[0], u[1], u[2], u[3]];
    if u[3] != PAD {
      var r, s := ChPos(u[2]), ChPos(u[3]);
      DigitsOfBytes(p, q, r, s);
      var b := UnitDecode(u);
      assert Encode(b[3..]) == [];
      assert Encode(b) == UnitCode(b[0], b[1], b[2]);
    } else if u[2] == PAD {
      DigitsOfBytes(p, q, 0, 0);
      TabInjective(Digit1(Byte0(p, q), 0), u[1]);
      PadBits(q);
      assert Encode(UnitDecode(u)) == [u[0], Tab(q & 0x30), PAD, PAD];
    } else {
      var r := ChPos(u[2]);
      DigitsOfBytes(p, q, r, 0);
      TabInjective(Digit2(Byte1(q, r), 0), u[2]);
      PadBits(r);
      assert Encode(UnitDecode(u)) == [u[0], u[1], Tab(r & 0x3C), PAD];
    }
  }

  /** Encoding undoes decoding exactly on canonical text. */
  lemma {:induction false} EncodeUndoesDecodeIff(t: seq<bv8>)
    requires WellFormed(t)
    ensures Encode(Decode(t)) == t <==> Canonical(t)
  {
    hide UnitCode, FillCode, Decodable, UnitDecode, CanonicalUnit;
    if |t| == 0 {
    } else {
      var u, rest := t[..4], t[4..];
      UnitReencodes(u);
      if |t| == 4 {
        assert Decode(rest) == [];
        assert t == u && Decode(t) == UnitDecode(u);
      } else {
        EncodeUndoesDecodeIff(rest);
        FullUnitReencodes(u);
        var b := UnitDecode(u);
        assert Decode(t)[3..] == Decode(rest);
        assert Encode(Decode(t)) == u + Encode(Decode(rest));
        assert t == u + rest;
      }
    }
  }

  const QR_PAD_PAD: seq<bv8> := [0x51, 0x52, 0x3d, 0x3d]

  /** Well-formed text that is not what its own bytes encode to. */
  lemma NotReencoded()
    ensures WellFormed(QR_PAD_PAD) && Encode(Decode(QR_PAD_PAD)) != QR_PAD_PAD
  {
    assert WellFormed(QR_PAD_PAD) && !Canonical(QR_PAD_PAD) by { assert QR_PAD_PAD[..4] == QR_PAD_PAD; }
    EncodeUndoesDecodeIff(QR_PAD_PAD);
  }

  lemma FullUnitReencodes(u: seq<bv8>)
    requires Decodable(u) && u[3] != PAD
    ensures |UnitDecode(u)| == 3
    ensures var b := UnitDecode(u); UnitCode(b[0], b[1], b[2]) == u
  {
    hide UnitCode, UnitDecode;
    UnitReencodes(u);
    UnitDecodeLength(u);
    var b := UnitDecode(u);
    assert b[3..] == [];
  }

  lemma UnitDecodeLength(u: seq<bv8>)
    requires Decodable(u)
    ensures |UnitDecode(u)| == if u[3] != PAD then 3 else if u[2] == PAD then 1 else 2
  {
  }

  /** Base64Decode from a string: no buffer for the empty string, else one of three bytes per unit. */
  method DecodeString(strEn: seq<bv8>, lengthBefore: nat, nullPos: bv8) returns (buf: array?<bv8>, length: nat)
    ensures buf == null <==> strEn == []
    ensures buf != null ==> fresh(buf) && buf.Length == |strEn| / 4 * 3
    ensures length == if strEn == [] then 0 else if |strEn| < 4 then lengthBefore else |strEn| / 4 * 3 - Padding(strEn)
    ensures buf != null ==> UnitsWritten(buf[..], strEn, |strEn| / 4, nullPos)
    ensures WellFormed(strEn) && buf != null ==>
              length == |Decode(strEn)| <= buf.Length && buf[..length] == Decode(strEn)
  {
    hide UnitsWritten, Decode, WellFormed;
    if strEn == [] {
      return null, 0;
    }
    buf := new bv8[|strEn| / 4 * 3];
    length := DecodeBuffer(strEn, buf, lengthBefore, nullPos);
    if WellFormed(strEn) {
      DecodeLength(strEn);
      WellFormedLength(strEn);
    }
  }

  lemma WellFormedLength(t: seq<bv8>)
    requires WellFormed(t)
    ensures |t| % 4 == 0
  {
  }
}
