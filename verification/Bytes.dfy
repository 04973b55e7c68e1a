/** C strings held in byte buffers. */
module Bytes {
  /** The bytes before the first NUL: what std::string(const char*) takes from a buffer. */
  function CString(b: seq<bv8>): (s: seq<bv8>)
    ensures s <= b && 0 !in s
    ensures s == b || b[|s|] == 0
  {
    if b == [] || b[0] == 0 then [] else [b[0]] + CString(b[1..])
  }

  lemma {:induction false} CStringOfPrefix(s: seq<bv8>, rest: seq<bv8>)
    requires 0 !in s
    ensures CString(s + rest) == s + CString(rest)
  {
    if s == [] {
      assert s + rest == rest;
    } else {
      assert (s + rest)[1..] == s[1..] + rest;
      CStringOfPrefix(s[1..], rest);
    }
  }

  lemma CStringTerminated(s: seq<bv8>)
    requires 0 !in s
    ensures CString(s + [0]) == s
  {
    CStringOfPrefix(s, [0]);
  }

  /** Zero bytes after the text change nothing. */
  lemma {:induction false} CStringPadded(s: seq<bv8>, zeros: seq<bv8>)
    requires forall k :: 0 <= k < |zeros| ==> zeros[k] == 0
    ensures CString(s + zeros) == CString(s)
  {
    if s == [] {
      assert s + zeros == zeros;
    } else if s[0] != 0 {
      assert (s + zeros)[1..] == s[1..] + zeros;
      CStringPadded(s[1..], zeros);
    }
  }

  /** Bytes that follow matter only where no NUL comes before them. */
  lemma {:induction false} CStringSplit(s: seq<bv8>, rest: seq<bv8>)
    ensures CString(s) <= CString(s + rest)
    ensures 0 in s ==> CString(s + rest) == CString(s)
  {
    if s != [] && s[0] != 0 {
      assert (s + rest)[1..] == s[1..] + rest;
      CStringSplit(s[1..], rest);
    }
  }

  /** A buffer that begins with d and ends with a NUL, read as a C string. */
  lemma CStringOfBuffer(b: seq<bv8>, d: seq<bv8>)
    requires d < b && b[|b| - 1] == 0
    ensures |CString(b)| < |b| && CString(d) <= CString(b)
    ensures 0 in d || |d| + 1 == |b| ==> CString(b) == CString(d)
  {
    hide CString;
    var rest := b[|d|..];
    assert b == d + rest;
    CStringSplit(d, rest);
    if |rest| == 1 { CStringPadded(d, rest); }
  }
}
