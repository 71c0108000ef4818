/** std::string as the source uses it: a sequence of 8-bit characters, written
    to a stream byte for byte, plus the two string operations the core relies
    on, `std::to_string` of a non-negative int and the C-string view that
    stops at the first NUL. */
module Text {
  import opened Bytes

  /** A C++ `char`: one byte. */
  type Char8 = c: char | c as int < 256

  type CppString = seq<Char8>

  const NUL: Char8 := '\0'

  function StringBytes(s: CppString): (r: seq<byte>)
    ensures |r| == |s|
    ensures forall i :: 0 <= i < |s| ==> r[i] == s[i] as int
  {
    seq(|s|, i requires 0 <= i < |s| => s[i] as int)
  }

  function BytesString(b: seq<byte>): (r: CppString)
    ensures |r| == |b|
    ensures forall i :: 0 <= i < |b| ==> r[i] as int == b[i]
  {
    seq(|b|, i requires 0 <= i < |b| => b[i] as char)
  }

  lemma BytesStringRoundTrip(s: CppString)
    ensures BytesString(StringBytes(s)) == s
  {
  }

  /** The same, for bytes known to be those of s. */
  lemma BytesStringOf(b: seq<byte>, s: CppString)
    requires b == StringBytes(s)
    ensures BytesString(b) == s
  {
    BytesStringRoundTrip(s);
  }

  /** `std::string(buffer)` for a NUL-terminated buffer holding s: the longest
      prefix of s without NUL. */
  function UntilNul(s: CppString): (r: CppString)
    ensures r <= s
    ensures NUL !in r
    ensures |r| < |s| ==> s[|r|] == NUL
  {
    if s == [] || s[0] == NUL then [] else [s[0]] + UntilNul(s[1..])
  }

  lemma UntilNulIdentity(s: CppString)
    requires NUL !in s
    ensures UntilNul(s) == s
  {
  }

  // ---------------------------------------------------------------------
  // UTF-8, as nlohmann::json's dump checks every string it writes

  /** The character at index i exists and its code lies in lo..hi. */
  predicate CodeIn(s: CppString, i: nat, lo: int, hi: int) {
    i < |s| && lo <= s[i] as int <= hi
  }

  /** The number of bytes in the well-formed UTF-8 sequence at the head of
      s, or 0 when s starts with an ill-formed one. The ranges are those of
      the table of well-formed byte sequences in the Unicode Standard
      (table 3-7): no overlong forms, no surrogates, nothing above U+10FFFF. */
  function Utf8HeadLength(s: CppString): (n: nat)
    requires s != []
    ensures n <= |s| && n <= 4
    ensures s[0] as int < 0x80 ==> n == 1
    ensures 0x80 <= s[0] as int <= 0xC1 || 0xF5 <= s[0] as int ==> n == 0
    ensures forall k :: 1 <= k < n ==> 0x80 <= s[k] as int <= 0xBF
  {
    var b := s[0] as int;
    if b < 0x80 then 1
    else if 0xC2 <= b <= 0xDF then
      if CodeIn(s, 1, 0x80, 0xBF) then 2 else 0
    else if 0xE0 <= b <= 0xEF then
      var lo := if b == 0xE0 then 0xA0 else 0x80;
      var hi := if b == 0xED then 0x9F else 0xBF;
      if CodeIn(s, 1, lo, hi) && CodeIn(s, 2, 0x80, 0xBF) then 3 else 0
    else if 0xF0 <= b <= 0xF4 then
      var lo := if b == 0xF0 then 0x90 else 0x80;
      var hi := if b == 0xF4 then 0x8F else 0xBF;
      if CodeIn(s, 1, lo, hi) && CodeIn(s, 2, 0x80, 0xBF) && CodeIn(s, 3, 0x80, 0xBF) then 4 else 0
    else 0
  }

  /** s is a sequence of well-formed UTF-8 characters. */
  predicate ValidUtf8(s: CppString)
    decreases |s|
  {
    s == [] || (Utf8HeadLength(s) > 0 && ValidUtf8(s[Utf8HeadLength(s)..]))
  }

  /** A plain ASCII string (every code below 0x80) is valid UTF-8. */
  lemma {:induction false} AsciiIsUtf8(s: CppString)
    requires forall i :: 0 <= i < |s| ==> s[i] as int < 0x80
    ensures ValidUtf8(s)
  {
    if s != [] {
      assert Utf8HeadLength(s) == 1;
      AsciiIsUtf8(s[1..]);
    }
  }

  /** A string holding a Latin-1 (or CP1252) "é", the single byte 0xE9, is
      not valid UTF-8, nor is any string holding a byte 0xC0, 0xC1 or
      0xF5..0xFF. */
  lemma {:induction false} StrayByteNotUtf8(s: CppString, i: nat)
    requires i < |s| && (s[i] as int == 0xC0 || s[i] as int == 0xC1 || 0xF5 <= s[i] as int)
    ensures !ValidUtf8(s)
    decreases |s|
  {
    if i == 0 {
      assert Utf8HeadLength(s) == 0;
    } else if ValidUtf8(s) {
      // A stray byte is no continuation byte, so it starts a later sequence.
      var n := Utf8HeadLength(s);
      if n <= i {
        StrayByteNotUtf8(s[n..], i - n);
      }
    }
  }

  /** The path "caf\xE9" of a Latin-1 file system. */
  lemma Latin1NotUtf8()
    ensures !ValidUtf8(['c', 'a', 'f', 0xE9 as char])
  {
    var s: CppString := ['c', 'a', 'f', 0xE9 as char];
    var t: CppString := [0xE9 as char];
    assert Utf8HeadLength(t) == 0;
    assert s[1..][1..][1..] == t;
    assert !ValidUtf8(s[1..][1..]);
    assert !ValidUtf8(s[1..]);
  }

  function Digit(d: nat): (c: Char8)
    requires d < 10
  {
    ('0' as int + d) as char
  }

  /** `std::to_string(n)` for n >= 0: decimal digits, no leading zeros. */
  function DecimalString(n: nat): (r: CppString)
    ensures |r| >= 1
    ensures forall i :: 0 <= i < |r| ==> '0' <= r[i] <= '9'
  {
    if n < 10 then [Digit(n)] else DecimalString(n / 10) + [Digit(n % 10)]
  }

  /** The number a string of decimal digits denotes. */
  function DecimalValue(s: CppString): nat
    requires forall i :: 0 <= i < |s| ==> '0' <= s[i] <= '9'
  {
    if s == [] then 0
    else 10 * DecimalValue(s[..|s| - 1]) + (s[|s| - 1] as int - '0' as int)
  }

  lemma {:induction false} DecimalRoundTrip(n: nat)
    ensures DecimalValue(DecimalString(n)) == n
  {
    if n >= 10 {
      var s := DecimalString(n);
      assert s[..|s| - 1] == DecimalString(n / 10);
      DecimalRoundTrip(n / 10);
    }
  }

  lemma DecimalInjective(a: nat, b: nat)
    requires DecimalString(a) == DecimalString(b)
    ensures a == b
  {
    DecimalRoundTrip(a);
    DecimalRoundTrip(b);
  }
}
