/** The older encoder and decoder of server/common/libtools/Base64.cpp that take a character set,
    with the normal one (BASE64_CH_NORMAL). Plain `char` is signed: bytes of 0x80 and above are
    sign-extended into the accumulator. */
module Base64Legacy {
  import opened Base64

  /** A signed char converted to unsigned long. */
  function SignExtend(b: bv8): bv64 {
    if b < 0x80 then b as bv64 else 0xFFFFFFFF_FFFFFF00 | b as bv64
  }

  /** m = (m << 8) | s[i]. */
  function Push(m: bv64, b: bv8): bv64 { (m << 8) | SignExtend(b) }

  function Shl8(m: bv64): bv64 { m << 8 }

  function Shr6(m: bv64): bv64 { m >> 6 }

  function Sextet(m: bv64): (d: bv8)
    ensures d < 64
  {
    (m & 0x3F) as bv8
  }

  /** The four low sextets of m, highest first. */
  function Digits(m: bv64): (d: seq<bv8>)
    ensures |d| == 4
  {
    [Tab(Sextet(Shr6(Shr6(Shr6(m))))), Tab(Sextet(Shr6(Shr6(m)))), Tab(Sextet(Shr6(m))), Tab(Sextet(m))]
  }

  function UnitDigits(a: bv8, b: bv8, c: bv8): (d: seq<bv8>)
    ensures |d| == 4
  {
    Digits(Push(Push(SignExtend(a), b), c))
  }

  /** What is appended for the one or two bytes left: all four digits, the unused ones overwritten. */
  function LeftDigits(left: seq<bv8>): (d: seq<bv8>)
    requires 1 <= |left| <= 2
    ensures |d| == 4
  {
    if |left| == 2 then Digits(Shl8(Push(Push(0, left[0]), left[1])))[..3] + [PAD]
    else Digits(Shl8(Shl8(Push(0, left[0]))))[..2] + [PAD, PAD]
  }

  function EncodeSigned(b: seq<bv8>): (t: seq<bv8>) {
    if |b| == 0 then []
    else if |b| < 3 then LeftDigits(b)
    else UnitDigits(b[0], b[1], b[2]) + EncodeSigned(b[3..])
  }

  /** The loop that fills d from its end while it shifts m down. */
  method FillBackwards(m0: bv64) returns (d: seq<bv8>)
    ensures d == Digits(m0)
  {
    hide Tab, Sextet, Shr6;
    d := [0, 0, 0, 0];
    var i, m := 4, m0;
    while i > 0
      invariant 0 <= i <= 4 && |d| == 4
      invariant m == if i == 4 then m0 else if i == 3 then Shr6(m0) else if i == 2 then Shr6(Shr6(m0))
                     else if i == 1 then Shr6(Shr6(Shr6(m0))) else Shr6(Shr6(Shr6(Shr6(m0))))
      invariant forall k :: i <= k < 4 ==> d[k] == Digits(m0)[k]
    {
      i := i - 1;
      d := d[i := Tab(Sextet(m))];
      m := Shr6(m);
    }
  }

  /** Base64Encode with a character set. */
  method EncodeChars(s: seq<bv8>) returns (strOutput: seq<bv8>)
    ensures strOutput == EncodeSigned(s)
  {
    hide Digits, SignExtend, Push, Shl8;
    strOutput := [];
    var at, n := 0, |s|;
    assert s[0..] == s;
    while n > 2
      invariant 0 <= at && at + n == |s| && n >= 0
      invariant strOutput + EncodeSigned(s[at..]) == EncodeSigned(s)
    {
      var m := SignExtend(s[at]);
      m := Push(m, s[at + 1]);
      m := Push(m, s[at + 2]);
      var d := FillBackwards(m);
      assert s[at..][3..] == s[at + 3..];
      assert strOutput + (d + EncodeSigned(s[at + 3..])) == (strOutput + d) + EncodeSigned(s[at + 3..]);
      strOutput := strOutput + d;
      n, at := n - 3, at + 3;
    }
    if n > 0 {
      var d := EncodeLeft(s[at..]);
      strOutput := strOutput + d;
    }
  }

  /** The last one or two bytes. */
  method EncodeLeft(left: seq<bv8>) returns (d: seq<bv8>)
    requires 1 <= |left| <= 2
    ensures d == LeftDigits(left)
  {
    hide Digits, SignExtend, Push, Shl8;
    var n := |left|;
    var m: bv64 := 0;
    m := Push(m, left[0]);
    if n == 2 {
      m := Push(m, left[1]);
      m := Shl8(m);
    } else {
      m := Shl8(m);
      m := Shl8(m);
    }
    d := FillBackwards(m);
    var i := 3;
    while i > n
      invariant n <= i <= 3 && |d| == 4
      invariant forall k :: 0 <= k < 4 ==> d[k] == if k <= i then Digits(m)[k] else PAD
    {
      d := d[i := PAD];
      i := i - 1;
    }
  }

  // ----- agreement with the block encoder

  /** A byte after the sign extension of a later one has been ored over it. */
  function Smear(a: bv8, later: bv8): bv8 { if later < 0x80 then a else 0xFF }

  /** The bytes the older encoder really encodes: each one disturbed by the later ones of its unit. */
  function Smeared(b: seq<bv8>): (r: seq<bv8>)
    ensures |r| == |b|
  {
    if |b| < 2 then b
    else if |b| == 2 then [Smear(b[0], b[1]), b[1]]
    else [Smear(Smear(b[0], b[1]), b[2]), Smear(b[1], b[2]), b[2]] + Smeared(b[3..])
  }

  /** No byte of 0x80 or more follows, in its unit, a byte other than 0xFF. */
  predicate Undisturbed(b: seq<bv8>) {
    if |b| < 2 then true
    else if |b| == 2 then b[1] >= 0x80 ==> b[0] == 0xFF
    else (b[1] >= 0x80 ==> b[0] == 0xFF) && (b[2] >= 0x80 ==> b[0] == 0xFF && b[1] == 0xFF) && Undisturbed(b[3..])
  }

  lemma SextetsSmeared(a: bv8, b: bv8, c: bv8)
    ensures var m := Push(Push(SignExtend(a), b), c);
            Sextet(m) == Digit3(c) && Sextet(Shr6(m)) == Digit2(Smear(b, c), c)
  {
  }

  lemma HighSextetsSmeared(a: bv8, b: bv8, c: bv8)
    ensures var m := Push(Push(SignExtend(a), b), c);
            && Sextet(Shr6(Shr6(m))) == Digit1(Smear(Smear(a, b), c), Smear(b, c))
            && Sextet(Shr6(Shr6(Shr6(m)))) == Digit0(Smear(Smear(a, b), c))
  {
  }

  lemma PushNothing(a: bv8, m: bv64)
    ensures Push(0, a) == SignExtend(a) && Shl8(m) == Push(m, 0) && Smear(a, 0) == a
  {
  }

  lemma UnitSmeared(a: bv8, b: bv8, c: bv8)
    ensures UnitDigits(a, b, c) == UnitCode(Smear(Smear(a, b), c), Smear(b, c), c)
  {
    hide Tab, Sextet, Shr6, Push, SignExtend, Smear, Digit0, Digit1, Digit2, Digit3;
    SextetsSmeared(a, b, c);
    HighSextetsSmeared(a, b, c);
  }

  lemma PairSmeared(a: bv8, b: bv8)
    ensures LeftDigits([a, b]) == FillCode([Smear(a, b), b])
  {
    hide Tab, Sextet, Shr6, Shl8, Push, SignExtend, Smear, Digit0, Digit1, Digit2, Digit3;
    PushNothing(a, Push(Push(0, a), b));
    PushNothing(Smear(a, b), 0);
    PushNothing(b, 0);
    SextetsSmeared(a, b, 0);
    HighSextetsSmeared(a, b, 0);
  }

  lemma SingleUnchanged(a: bv8)
    ensures LeftDigits([a]) == FillCode([a])
  {
    hide Tab, Sextet, Shr6, Shl8, Push, SignExtend, Smear, Digit0, Digit1, Digit2, Digit3;
    PushNothing(a, Push(0, a));
    PushNothing(a, Shl8(Push(0, a)));
    PushNothing(0, 0);
    SextetsSmeared(a, 0, 0);
    HighSextetsSmeared(a, 0, 0);
  }

  /** On every input the older encoder is the block encoder applied to the smeared bytes. */
  lemma {:induction false} EncodesSmeared(b: seq<bv8>)
    ensures EncodeSigned(b) == Encode(Smeared(b))
  {
    hide UnitDigits, LeftDigits, UnitCode, FillCode, Smear;
    if |b| == 0 {
    } else if |b| == 1 {
      SingleUnchanged(b[0]);
      assert b == [b[0]];
    } else if |b| == 2 {
      PairSmeared(b[0], b[1]);
      assert b == [b[0], b[1]];
    } else {
      UnitSmeared(b[0], b[1], b[2]);
      EncodesSmeared(b[3..]);
      assert Smeared(b)[3..] == Smeared(b[3..]);
    }
  }

  lemma SmearHarmless(a: bv8, b: bv8)
    ensures Smear(a, b) == a <==> (b >= 0x80 ==> a == 0xFF)
  {
  }

  lemma UnitHarmless(a: bv8, b: bv8, c: bv8)
    ensures Smear(Smear(a, b), c) == a && Smear(b, c) == b
       <==> (b >= 0x80 ==> a == 0xFF) && (c >= 0x80 ==> a == 0xFF && b == 0xFF)
  {
  }

  lemma {:induction false} SmearedIff(b: seq<bv8>)
    ensures Smeared(b) == b <==> Undisturbed(b)
  {
    hide Smear;
    if |b| == 2 {
      SmearHarmless(b[0], b[1]);
      assert Smeared(b)[0] == Smear(b[0], b[1]) && Smeared(b)[1] == b[1];
    } else if |b| > 2 {
      UnitHarmless(b[0], b[1], b[2]);
      SmearedIff(b[3..]);
      var head := [Smear(Smear(b[0], b[1]), b[2]), Smear(b[1], b[2]), b[2]];
      ConcatSame(head, Smeared(b[3..]), b[..3], b[3..]);
      assert b == b[..3] + b[3..];
      assert head == b[..3] <==> head[0] == b[0] && head[1] == b[1];
    }
  }

  lemma ConcatSame(u: seq<bv8>, x: seq<bv8>, v: seq<bv8>, y: seq<bv8>)
    requires |u| == |v|
    ensures u + x == v + y <==> u == v && x == y
  {
    if u + x == v + y {
      assert u == (u + x)[..|u|] && v == (v + y)[..|v|];
      assert x == (u + x)[|u|..] && y == (v + y)[|v|..];
    }
  }

  /** The two encoders agree exactly when no sign extension reaches an earlier byte. */
  lemma AgreesIffUndisturbed(b: seq<bv8>)
    ensures EncodeSigned(b) == Encode(b) <==> Undisturbed(b)
  {
    EncodesSmeared(b);
    SmearedIff(b);
    DecodeUndoesEncode(b);
    DecodeUndoesEncode(Smeared(b));
  }

  /** Two bytes on which they differ. */
  lemma EncodersDiffer()
    ensures EncodeSigned([0x41, 0x80]) != Encode([0x41, 0x80])
  {
    AgreesIffUndisturbed([0x41, 0x80]);
  }

  lemma {:induction false} SevenBitUndisturbed(b: seq<bv8>)
    requires SevenBit(b)
    ensures Undisturbed(b)
  {
    if |b| > 2 {
      SevenBitUndisturbed(b[3..]);
    }
  }

  // ----- the older decoder

  /** base64i: 0xFF (-1) outside the table. */
  function Lookup(c: bv8): bv8
    requires c < 0x80
  {
    if InTab(c) then ChPos(c) else 0xFF
  }

  lemma LookupValid(c: bv8)
    requires c < 0x80
    ensures Lookup(c) == 0xFF <==> !InTab(c)
    ensures InTab(c) ==> Lookup(c) == ChPos(c) < 64
  {
  }

  datatype Outcome = Decoded(bytes: seq<bv8>) | Rejected | OutOfRange

  predicate SevenBit(t: seq<bv8>) { forall k :: 0 <= k < |t| ==> t[k] < 0x80 }

  /** Where the next digit stands, or the end of the text. */
  function FirstDigit(t: seq<bv8>, from: nat): (i: nat)
    requires from <= |t|
    ensures from <= i <= |t| && (i < |t| ==> InTab(t[i]))
    ensures forall k :: from <= k < i ==> !InTab(t[k])
    decreases |t| - from
  {
    if from == |t| || InTab(t[from]) then from else FirstDigit(t, from + 1)
  }

  /** The same for a digit or an end mark. */
  function FirstDigitOrEnd(t: seq<bv8>, from: nat): (i: nat)
    requires from <= |t|
    ensures from <= i <= |t| && (i < |t| ==> InTab(t[i]) || t[i] == PAD)
    ensures forall k :: from <= k < i ==> !InTab(t[k]) && t[k] != PAD
    decreases |t| - from
  {
    if from == |t| || InTab(t[from]) || t[from] == PAD then from else FirstDigitOrEnd(t, from + 1)
  }

  /** Read the next digit, passing over characters outside the table. */
  method NextDigit(t: seq<bv8>, from: nat) returns (c: bv8, i: nat)
    requires SevenBit(t) && from < |t|
    ensures from < i <= |t|
    ensures c == 0xFF <==> FirstDigit(t, from) == |t|
    ensures c != 0xFF ==> i == FirstDigit(t, from) + 1 && c == ChPos(t[i - 1])
  {
    hide InTab, ChPos, Lookup;
    LookupValid(t[from]);
    c, i := Lookup(t[from]), from + 1;
    while i < |t| && c == 0xFF
      invariant from < i <= |t|
      invariant if c == 0xFF then FirstDigit(t, from) == FirstDigit(t, i)
                else FirstDigit(t, from) == i - 1 && InTab(t[i - 1]) && c == ChPos(t[i - 1])
    {
      LookupValid(t[i]);
      c, i := Lookup(t[i]), i + 1;
    }
  }

  /** The same for a third or fourth digit, which an end mark may replace. */
  method NextDigitOrEnd(t: seq<bv8>, from: nat) returns (ended: bool, c: bv8, i: nat)
    requires SevenBit(t) && from < |t|
    ensures from < i <= |t|
    ensures ended <==> FirstDigitOrEnd(t, from) < |t| && t[FirstDigitOrEnd(t, from)] == PAD
    ensures !ended ==> (c == 0xFF <==> FirstDigitOrEnd(t, from) == |t|)
    ensures !ended && c != 0xFF ==> i == FirstDigitOrEnd(t, from) + 1 && c == ChPos(t[i - 1])
  {
    hide InTab, ChPos, Lookup;
    PadNotInTab();
    i, c, ended := from, 0xFF, false;
    while true
      invariant from <= i < |t|
      invariant FirstDigitOrEnd(t, from) == FirstDigitOrEnd(t, i)
      decreases |t| - i
    {
      var ch := t[i];
      i := i + 1;
      if ch == PAD { return true, 0xFF, i; }
      LookupValid(ch);
      c := Lookup(ch);
      if !(i < |t| && c == 0xFF) { break; }
    }
  }

  function First(c1: bv8, c2: bv8): bv8 { (c1 << 2) | ((c2 & 0x30) >> 4) }

  function Second(c2: bv8, c3: bv8): bv8 { ((c2 & 0xF) << 4) | ((c3 & 0x3C) >> 2) }

  function Third(c3: bv8, c4: bv8): bv8 { ((c3 & 0x03) << 6) | c4 }

  /** How the scan of one unit ends: four digits read, an end mark met, no digit where one must come, or
      the text exhausted inside the unit, which is the exception of std::string::at. The last two carry
      the number of bytes already stored for the unit. */
  datatype UnitScan =
    | Whole(bytes: seq<bv8>, next: nat)
    | Ended(bytes: seq<bv8>)
    | NoDigit(stored: nat)
    | Exhausted(stored: nat)

  /** One unit read from `from`. Only the second digit must follow at once: the others may come after
      any number of characters outside the table. */
  function Scan(t: seq<bv8>, from: nat): (r: UnitScan)
    requires from < |t|
    ensures r.Whole? ==> |r.bytes| == 3 && from + 4 <= r.next <= |t|
    ensures r.Ended? ==> 1 <= |r.bytes| <= 2
  {
    var a := FirstDigit(t, from);
    if a == |t| then NoDigit(0)
    else if a + 1 == |t| then Exhausted(0)
    else if !InTab(t[a + 1]) then NoDigit(0)
    else if a + 2 == |t| then Exhausted(1)
    else
      var b0 := First(ChPos(t[a]), ChPos(t[a + 1]));
      var c := FirstDigitOrEnd(t, a + 2);
      if c == |t| then NoDigit(1)
      else if t[c] == PAD then Ended([b0])
      else if c + 1 == |t| then Exhausted(2)
      else
        var b1 := Second(ChPos(t[a + 1]), ChPos(t[c]));
        var d := FirstDigitOrEnd(t, c + 1);
        if d == |t| then NoDigit(2)
        else if t[d] == PAD then Ended([b0, b1])
        else Whole([b0, b1, Third(ChPos(t[c]), ChPos(t[d]))], d + 1)
  }

  /** The outcome of decoding t from `from` after the bytes of out, and how many bytes are stored in the
      buffer by then. */
  function DecodingFrom(t: seq<bv8>, from: nat, out: seq<bv8>): (Outcome, nat)
    requires from <= |t|
    decreases |t| - from
  {
    if from == |t| then (Decoded(out), |out|)
    else
      match Scan(t, from)
      case Whole(bytes, next) => DecodingFrom(t, next, out + bytes)
      case Ended(bytes) => (Decoded(out + bytes), |out| + |bytes|)
      case NoDigit(stored) => (Rejected, |out| + stored)
      case Exhausted(stored) => (OutOfRange, |out| + stored)
  }

  /** The bytes allocated for the result. */
  function BufferSize(t: seq<bv8>): nat { |t| / 4 * 3 + 1 }

  function Decoding(t: seq<bv8>): (Outcome, nat) {
    if BufferSize(t) <= 1 then (Rejected, 0) else DecodingFrom(t, 0, [])
  }

  /** One turn of the decoding loop. */
  method ScanUnit(t: seq<bv8>, from: nat) returns (r: UnitScan)
    requires SevenBit(t) && from < |t|
    ensures r == Scan(t, from)
  {
    hide InTab, ChPos, First, Second, Third, Lookup;
    PadNotInTab();
    var c1, c2, c3, c4, ended, i;
    c1, i := NextDigit(t, from);
    if c1 == 0xFF { return NoDigit(0); }
    if i == |t| { return Exhausted(0); }
    LookupValid(t[i]);
    c2, i := Lookup(t[i]), i + 1;
    if c2 == 0xFF { return NoDigit(0); }
    var bytes := [First(c1, c2)];
    if i == |t| { return Exhausted(1); }
    ended, c3, i := NextDigitOrEnd(t, i);
    if ended { return Ended(bytes); }
    if c3 == 0xFF { return NoDigit(1); }
    bytes := bytes + [Second(c2, c3)];
    if i == |t| { return Exhausted(2); }
    ended, c4, i := NextDigitOrEnd(t, i);
    if ended { return Ended(bytes); }
    if c4 == 0xFF { return NoDigit(2); }
    bytes := bytes + [Third(c3, c4)];
    r := Whole(bytes, i);
  }

  /** Base64Decode with a character set, on any seven-bit text, with the number of bytes it stores. */
  method DecodeChars(strEn: seq<bv8>) returns (r: Outcome, stored: nat)
    requires SevenBit(strEn)
    ensures (r, stored) == Decoding(strEn)
    ensures WellFormed(strEn) && strEn != [] ==> r == Decoded(Decode(strEn))
    ensures r.Decoded? ==> r.bytes != []
    ensures stored <= BufferSize(strEn) <==> !(4 <= |strEn| && |strEn| % 4 == 3 && DigitsFrom(strEn, 0))
  {
    hide Scan, Decode, WellFormed, DigitsFrom;
    if WellFormed(strEn) && strEn != [] { DecodesWellFormed(strEn); }
    DecodedNonEmpty(strEn);
    FitsBufferIff(strEn);
    if |strEn| / 4 * 3 + 1 <= 1 { return Rejected, 0; }
    var buf := [];
    var i := 0;
    while i < |strEn|
      invariant 0 <= i <= |strEn|
      invariant DecodingFrom(strEn, i, buf) == Decoding(strEn)
      decreases |strEn| - i
    {
      var unit := ScanUnit(strEn, i);
      match unit {
        case Whole(bytes, next) =>
          buf, i := buf + bytes, next;
        case Ended(bytes) => return Decoded(buf + bytes), |buf| + |bytes|;
        case NoDigit(n) => return Rejected, |buf| + n;
        case Exhausted(n) => return OutOfRange, |buf| + n;
      }
    }
    return Decoded(buf), |buf|;
  }

  // ----- well-formed text

  lemma PadNotInTab()
    ensures !InTab(PAD)
  {
  }

  /** What the scan of one unit of well-formed text meets and must append. */
  lemma HeadUnit(t: seq<bv8>)
    requires WellFormed(t) && t != []
    ensures |t| >= 4 && InTab(t[0]) && InTab(t[1]) && !InTab(PAD)
    ensures t[3] != PAD ==>
              InTab(t[2]) && InTab(t[3]) && WellFormed(t[4..])
              && Decode(t) == [First(ChPos(t[0]), ChPos(t[1])), Second(ChPos(t[1]), ChPos(t[2])),
                               Third(ChPos(t[2]), ChPos(t[3]))] + Decode(t[4..])
    ensures t[3] == PAD && t[2] != PAD ==>
              InTab(t[2])
              && Decode(t) == [First(ChPos(t[0]), ChPos(t[1])), Second(ChPos(t[1]), ChPos(t[2]))]
    ensures t[3] == PAD && t[2] == PAD ==> Decode(t) == [First(ChPos(t[0]), ChPos(t[1]))]
  {
    hide Tab, ChPos, InTab, First, Second, Third, Byte0, Byte1, Byte2, WellFormed, Decode;
    HeadDecoded(t);
    EmptyText();
    var u := t[..4];
    PadNotInTab();
    SameBytes(ChPos(u[0]), ChPos(u[1]));
    if u[2] != PAD { SameBytes(ChPos(u[1]), ChPos(u[2])); }
    if u[3] != PAD { SameBytes(ChPos(u[2]), ChPos(u[3])); }
  }

  /** The masks of the older decoder change nothing on digits below 64. */
  lemma SameBytes(p: bv8, q: bv8)
    requires p < 64 && q < 64
    ensures First(p, q) == Byte0(p, q) && Second(p, q) == Byte1(p, q) && Third(p, q) == Byte2(p, q)
  {
  }

  /** One unit of well-formed text is scanned as the block decoder reads it. */
  lemma ScanWellFormed(t: seq<bv8>, from: nat)
    requires from < |t| && WellFormed(t[from..])
    ensures match Scan(t, from)
            case Whole(bytes, next) =>
              next == from + 4 && WellFormed(t[next..]) && Decode(t[from..]) == bytes + Decode(t[next..])
            case Ended(bytes) => Decode(t[from..]) == bytes
            case NoDigit(_) => false
            case Exhausted(_) => false
  {
    hide Decode, WellFormed, InTab, ChPos, First, Second, Third;
    var rest := t[from..];
    HeadUnit(rest);
    assert rest[0] == t[from] && rest[1] == t[from + 1] && rest[2] == t[from + 2] && rest[3] == t[from + 3];
    assert rest[4..] == t[from + 4..];
    assert FirstDigit(t, from) == from;
    assert FirstDigitOrEnd(t, from + 2) == from + 2;
  }

  lemma {:induction false} DecodesFrom(t: seq<bv8>, from: nat, out: seq<bv8>)
    requires from <= |t| && WellFormed(t[from..])
    ensures DecodingFrom(t, from, out).0 == Decoded(out + Decode(t[from..]))
    decreases |t| - from
  {
    hide Scan, Decode, WellFormed;
    EmptyText();
    if from == |t| {
      assert t[from..] == [] && out + [] == out;
    } else {
      ScanWellFormed(t, from);
      match Scan(t, from)
      case Whole(bytes, next) =>
        DecodesFrom(t, next, out + bytes);
        assert out + (bytes + Decode(t[next..])) == (out + bytes) + Decode(t[next..]);
      case Ended(_) =>
    }
  }

  /** On well-formed text the older decoder agrees with the block decoder, except that it refuses the
      empty text. */
  lemma DecodesWellFormed(t: seq<bv8>)
    requires WellFormed(t)
    ensures Decoding(t).0 == if t == [] then Rejected else Decoded(Decode(t))
  {
    hide DecodingFrom, Decode, WellFormed;
    WellFormedLength(t);
    assert t[0..] == t;
    DecodesFrom(t, 0, []);
    if t != [] { assert [] + Decode(t) == Decode(t); }
  }

  lemma {:induction false} DecodedFromNonEmpty(t: seq<bv8>, from: nat, out: seq<bv8>)
    requires from < |t| || (from == |t| && out != [])
    ensures DecodingFrom(t, from, out).0.Decoded? ==> DecodingFrom(t, from, out).0.bytes != []
    decreases |t| - from
  {
    hide Scan;
    if from < |t| && Scan(t, from).Whole? {
      DecodedFromNonEmpty(t, Scan(t, from).next, out + Scan(t, from).bytes);
    }
  }

  /** A successful call has something in its buffer, so the final test for a length of zero never turns
      a success into a refusal. */
  lemma DecodedNonEmpty(t: seq<bv8>)
    ensures Decoding(t).0.Decoded? ==> Decoding(t).0.bytes != []
  {
    hide DecodingFrom;
    if |t| >= 4 { DecodedFromNonEmpty(t, 0, []); }
  }

  // ----- the size of the buffer

  predicate DigitsFrom(t: seq<bv8>, from: nat) { forall k :: from <= k < |t| ==> InTab(t[k]) }

  /** How far a scan has come by the way it ends, and what that says of the characters it met. */
  lemma ScanReach(t: seq<bv8>, from: nat)
    requires from < |t|
    ensures match Scan(t, from)
            case Whole(_, next) => DigitsFrom(t, from) <==> next == from + 4 && DigitsFrom(t, next)
            case Ended(bytes) => !DigitsFrom(t, from) && from + |bytes| + 2 <= |t|
            case NoDigit(stored) => !DigitsFrom(t, from) && stored <= 2 && from + 2 * stored <= |t|
            case Exhausted(stored) =>
              stored <= 2 && from + stored + 1 <= |t| && (DigitsFrom(t, from) <==> from + stored + 1 == |t|)
  {
    hide InTab, ChPos, First, Second, Third;
    PadNotInTab();
  }

  /** With 3k bytes stored from at least 4k characters, the rest overruns the buffer exactly when no
      character was passed over and the text is digits to its end, three past a whole unit. */
  lemma {:induction false} OverrunsFromIff(t: seq<bv8>, from: nat, out: seq<bv8>, k: nat)
    requires 4 * k <= from <= |t| && |out| == 3 * k
    ensures DecodingFrom(t, from, out).1 > BufferSize(t) <==> from == 4 * k && |t| % 4 == 3 && DigitsFrom(t, from)
    decreases |t| - from
  {
    hide Scan, DigitsFrom;
    if from < |t| {
      ScanReach(t, from);
      match Scan(t, from)
      case Whole(bytes, next) => OverrunsFromIff(t, next, out + bytes, k + 1);
      case Ended(_) =>
      case NoDigit(_) =>
      case Exhausted(_) =>
    }
  }

  /** The stores stay inside the buffer exactly when the text is not made of digits alone, three past a
      whole number of units. */
  lemma FitsBufferIff(t: seq<bv8>)
    ensures Decoding(t).1 <= BufferSize(t) <==> !(4 <= |t| && |t| % 4 == 3 && DigitsFrom(t, 0))
  {
    hide DecodingFrom, DigitsFrom;
    if |t| >= 4 {
      OverrunsFromIff(t, 0, [], 0);
    }
  }

  const SEVEN_DIGITS: seq<bv8> := [0x41, 0x41, 0x41, 0x41, 0x41, 0x41, 0x41]

  /** Seven digits: five bytes are stored in a buffer of four before the text runs out. */
  lemma SevenDigitsOverrun()
    ensures BufferSize(SEVEN_DIGITS) == 4 && Decoding(SEVEN_DIGITS) == (OutOfRange, 5)
  {
    var t := SEVEN_DIGITS;
    assert FirstDigit(t, 0) == 0 && FirstDigitOrEnd(t, 2) == 2 && FirstDigitOrEnd(t, 3) == 3;
    assert FirstDigit(t, 4) == 4 && FirstDigitOrEnd(t, 6) == 6;
    assert Scan(t, 4) == Exhausted(2);
    assert DecodingFrom(t, 4, Scan(t, 0).bytes) == (OutOfRange, 5);
  }

  // ----- the older pair

  /** What the older encoder writes is well-formed and stands for the smeared bytes. */
  lemma OlderEncoding(b: seq<bv8>)
    ensures WellFormed(EncodeSigned(b)) && SevenBit(EncodeSigned(b))
    ensures Decode(EncodeSigned(b)) == Smeared(b)
    ensures EncodeSigned(b) == [] <==> b == []
  {
    EncodesSmeared(b);
    DecodeUndoesEncode(Smeared(b));
    EncodeSevenBit(Smeared(b));
  }

  /** The older encoder followed by the older decoder: the empty text is refused, any other comes back
      smeared, so unchanged exactly when no sign extension reaches an earlier byte. The stores fit. */
  lemma OlderRoundTripIff(b: seq<bv8>)
    ensures Decoding(EncodeSigned(b)).0 == if b == [] then Rejected else Decoded(Smeared(b))
    ensures Decoding(EncodeSigned(b)).0 == Decoded(b) <==> b != [] && Undisturbed(b)
    ensures Decoding(EncodeSigned(b)).1 <= BufferSize(EncodeSigned(b))
    ensures SevenBit(b) ==> Undisturbed(b)
  {
    hide Decode, WellFormed, Smeared, Undisturbed, EncodeSigned, Decoding;
    OlderEncoding(b);
    var t := EncodeSigned(b);
    DecodesWellFormed(t);
    SmearedIff(b);
    FitsBufferIff(t);
    WellFormedLength(t);
    if SevenBit(b) { SevenBitUndisturbed(b); }
  }

  /** The two functions of the source composed. */
  method OlderRoundTrip(b: seq<bv8>) returns (r: Outcome)
    ensures b == [] ==> r == Rejected
    ensures b != [] ==> r == Decoded(Smeared(b))
    ensures r == Decoded(b) <==> b != [] && Undisturbed(b)
  {
    hide Decoding, Smeared, Undisturbed, WellFormed, Decode;
    OlderEncoding(b);
    OlderRoundTripIff(b);
    var t := EncodeChars(b);
    var stored;
    r, stored := DecodeChars(t);
  }

  lemma {:induction false} EncodeSevenBit(b: seq<bv8>)
    ensures SevenBit(Base64.Encode(b))
  {
    hide Tab;
    if |b| >= 3 {
      EncodeSevenBit(b[3..]);
    }
  }
}
