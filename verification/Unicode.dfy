/** The two encodings of a string of Unicode scalar values, as RFC 3629 and RFC 2781 define them. */
module Unicode {
  import opened Basics

  type Unit = u: int | 0 <= u < 0x1_0000

  type Scalar = c: int | 0 <= c < 0xD800 || 0xE000 <= c <= 0x10FFFF

  // ------------------------------------------------------------------- UTF-8

  /** Section 3 of RFC 3629. */
  function EncodeChar(c: Scalar): Bytes {
    if c <= 0x7F then [c]
    else if c <= 0x7FF then [0xC0 + c / 64, 0x80 + c % 64]
    else if c <= 0xFFFF then [0xE0 + c / 4096, 0x80 + c / 64 % 64, 0x80 + c % 64]
    else [0xF0 + c / 262144, 0x80 + c / 4096 % 64, 0x80 + c / 64 % 64, 0x80 + c % 64]
  }

  function EncodeUtf8(text: seq<Scalar>): Bytes {
    if text == [] then [] else EncodeChar(text[0]) + EncodeUtf8(text[1..])
  }

  /** The grammar of section 4 of RFC 3629. */
  predicate Tail(b: Byte) {
    0x80 <= b <= 0xBF
  }

  predicate Char1(s: Bytes) {
    |s| == 1 && s[0] <= 0x7F
  }

  predicate Char2(s: Bytes) {
    |s| == 2 && 0xC2 <= s[0] <= 0xDF && Tail(s[1])
  }

  predicate Char3(s: Bytes) {
    && |s| == 3
    && (|| (s[0] == 0xE0 && 0xA0 <= s[1] <= 0xBF && Tail(s[2]))
        || (0xE1 <= s[0] <= 0xEC && Tail(s[1]) && Tail(s[2]))
        || (s[0] == 0xED && 0x80 <= s[1] <= 0x9F && Tail(s[2]))
        || (0xEE <= s[0] <= 0xEF && Tail(s[1]) && Tail(s[2])))
  }

  predicate Char4(s: Bytes) {
    && |s| == 4
    && (|| (s[0] == 0xF0 && 0x90 <= s[1] <= 0xBF && Tail(s[2]) && Tail(s[3]))
        || (0xF1 <= s[0] <= 0xF3 && Tail(s[1]) && Tail(s[2]) && Tail(s[3]))
        || (s[0] == 0xF4 && 0x80 <= s[1] <= 0x8F && Tail(s[2]) && Tail(s[3])))
  }

  predicate IsChar(s: Bytes) {
    Char1(s) || Char2(s) || Char3(s) || Char4(s)
  }

  predicate Octets(s: Bytes)
    decreases |s|
  {
    s == [] || exists n :: 1 <= n <= |s| && IsChar(s[..n]) && Octets(s[n..])
  }

  /** Six more bits. */
  function Join(high: int, low: int): int {
    high * 64 + low
  }

  function CharValue(s: Bytes): Scalar
    requires IsChar(s)
  {
    if |s| == 1 then s[0]
    else if |s| == 2 then Join(s[0] - 0xC0, s[1] - 0x80)
    else if |s| == 3 then Join(Join(s[0] - 0xE0, s[1] - 0x80), s[2] - 0x80)
    else Join(Join(Join(s[0] - 0xF0, s[1] - 0x80), s[2] - 0x80), s[3] - 0x80)
  }

  lemma JoinSplits(high: int, low: int)
    requires 0 <= low < 64
    ensures Join(high, low) / 64 == high && Join(high, low) % 64 == low
  {
  }

  lemma ShiftsAdd(c: int)
    ensures c / 4096 == c / 64 / 64 && c / 262144 == c / 4096 / 64
  {
  }

  lemma JoinSplitsTwice(high: int, mid: int, low: int)
    requires 0 <= mid < 64 && 0 <= low < 64
    ensures var c := Join(Join(high, mid), low); c / 4096 == high && c / 64 % 64 == mid && c % 64 == low
  {
    JoinSplits(high, mid);
    JoinSplits(Join(high, mid), low);
    ShiftsAdd(Join(Join(high, mid), low));
  }

  lemma Char3Encodes(s: Bytes)
    requires Char3(s)
    ensures EncodeChar(CharValue(s)) == s
  {
    JoinSplitsTwice(s[0] - 0xE0, s[1] - 0x80, s[2] - 0x80);
  }

  lemma Char4Encodes(s: Bytes)
    requires Char4(s)
    ensures EncodeChar(CharValue(s)) == s
  {
    JoinSplits(s[0] - 0xF0, s[1] - 0x80);
    JoinSplitsTwice(Join(s[0] - 0xF0, s[1] - 0x80), s[2] - 0x80, s[3] - 0x80);
    ShiftsAdd(CharValue(s));
  }

  lemma CharsEncode(s: Bytes)
    requires IsChar(s)
    ensures EncodeChar(CharValue(s)) == s
  {
    if |s| == 2 {
      JoinSplits(s[0] - 0xC0, s[1] - 0x80);
    } else if |s| == 3 {
      Char3Encodes(s);
    } else if |s| == 4 {
      Char4Encodes(s);
    }
  }

  /** The grammar's characters are exactly the encodings of scalar values, one each. */
  lemma CharsAreEncodings(c: Scalar)
    ensures IsChar(EncodeChar(c)) && CharValue(EncodeChar(c)) == c
  {
    assert Join(c / 64, c % 64) == c;
    ShiftsAdd(c);
    assert Join(c / 4096, c / 64 % 64) == c / 64;
    assert Join(c / 262144, c / 4096 % 64) == c / 4096;
    if c <= 0x7FF {
    } else if c <= 0xFFFF {
      assert c / 4096 == 0 ==> c / 64 % 64 >= 0x20;
      assert c / 4096 == 0xD ==> c / 64 % 64 < 0x20;
    } else {
      assert c / 262144 == 0 ==> c / 4096 % 64 >= 0x10;
      assert c / 262144 == 4 ==> c / 4096 % 64 < 0x10;
    }
  }

  /** No character is a proper prefix of another. */
  lemma CharsArePrefixFree(s: Bytes, m: nat, n: nat)
    requires 1 <= m <= |s| && 1 <= n <= |s| && IsChar(s[..m]) && IsChar(s[..n])
    ensures m == n
  {
    assert s[..m][0] == s[0] && s[..n][0] == s[0];
  }

  lemma OctetsAfter(s: Bytes, n: nat)
    requires 1 <= n <= |s| && IsChar(s[..n])
    ensures Octets(s) <==> Octets(s[n..])
  {
    if Octets(s) {
      var m :| 1 <= m <= |s| && IsChar(s[..m]) && Octets(s[m..]);
      CharsArePrefixFree(s, m, n);
    }
  }

  lemma {:induction false} AsciiIsText(s: Bytes)
    requires forall i | 0 <= i < |s| :: s[i] < 0x80
    ensures Octets(s)
    decreases |s|
  {
    if s != [] {
      assert IsChar(s[..1]);
      AsciiIsText(s[1..]);
      OctetsAfter(s, 1);
    }
  }

  ghost function DecodeUtf8(s: Bytes): (text: seq<Scalar>)
    requires Octets(s)
    ensures EncodeUtf8(text) == s
    decreases |s|
  {
    if s == [] then []
    else
      var n :| 1 <= n <= |s| && IsChar(s[..n]) && Octets(s[n..]);
      CharsEncode(s[..n]);
      assert s == s[..n] + s[n..];
      [CharValue(s[..n])] + DecodeUtf8(s[n..])
  }

  /** Whatever is encoded is in the grammar and decodes to itself; with `DecodeUtf8` this makes the
      grammar and the encodings the same set, and encoding injective. */
  lemma {:induction false} Utf8RoundTrip(text: seq<Scalar>)
    ensures Octets(EncodeUtf8(text)) && DecodeUtf8(EncodeUtf8(text)) == text
    decreases |text|
  {
    if text != [] {
      var s := EncodeUtf8(text);
      var first := EncodeChar(text[0]);
      var n := |first|;
      CharsAreEncodings(text[0]);
      Utf8RoundTrip(text[1..]);
      assert s[..n] == first && s[n..] == EncodeUtf8(text[1..]);
      OctetsAfter(s, n);
      DecodeStep(s, n);
    }
  }

  lemma DecodeStep(s: Bytes, n: nat)
    requires Octets(s) && 1 <= n <= |s| && IsChar(s[..n]) && Octets(s[n..])
    ensures DecodeUtf8(s) == [CharValue(s[..n])] + DecodeUtf8(s[n..])
  {
    forall m | 1 <= m <= |s| && IsChar(s[..m]) ensures m == n {
      CharsArePrefixFree(s, m, n);
    }
  }

  // ------------------------------------------------------------------ UTF-16

  /** Section 2.1 of RFC 2781. */
  function CharUnits(c: Scalar): seq<Unit> {
    if c < 0x1_0000 then [c] else [0xD800 + (c - 0x1_0000) / 1024, 0xDC00 + (c - 0x1_0000) % 1024]
  }

  function EncodeUtf16(text: seq<Scalar>): seq<Unit> {
    if text == [] then [] else CharUnits(text[0]) + EncodeUtf16(text[1..])
  }

  predicate High(u: Unit) {
    0xD800 <= u <= 0xDBFF
  }

  predicate Low(u: Unit) {
    0xDC00 <= u <= 0xDFFF
  }

  function JoinPair(high: int, low: int): int {
    0x1_0000 + high * 1024 + low
  }

  /** Section 2.2 of RFC 2781: the first character of a nonempty unit sequence, with the number of
      units it takes. */
  function DecodeUnit(units: seq<Unit>): Option<(Scalar, nat)>
    requires units != []
  {
    if !High(units[0]) && !Low(units[0]) then Some((units[0], 1))
    else if High(units[0]) && |units| > 1 && Low(units[1])
    then Some((JoinPair(units[0] - 0xD800, units[1] - 0xDC00), 2))
    else None
  }

  function DecodeUtf16(units: seq<Unit>): Option<seq<Scalar>>
    decreases |units|
  {
    if units == [] then Some([])
    else
      match DecodeUnit(units)
      case None => None
      case Some((c, n)) =>
        match DecodeUtf16(units[n..])
        case None => None
        case Some(text) => Some([c] + text)
  }

  lemma PairSplits(high: int, low: int)
    requires 0 <= high < 1024 && 0 <= low < 1024
    ensures (JoinPair(high, low) - 0x1_0000) / 1024 == high && (JoinPair(high, low) - 0x1_0000) % 1024 == low
  {
  }

  lemma UnitEncodes(units: seq<Unit>)
    requires units != [] && DecodeUnit(units).Some?
    ensures var (c, n) := DecodeUnit(units).value; n <= |units| && CharUnits(c) == units[..n]
  {
    if High(units[0]) {
      PairSplits(units[0] - 0xD800, units[1] - 0xDC00);
    }
  }

  /** Decoding succeeds exactly on the encodings of scalar strings, and undoes them. */
  lemma {:induction false} Utf16Decodes(units: seq<Unit>)
    ensures DecodeUtf16(units).Some? ==> EncodeUtf16(DecodeUtf16(units).value) == units
    decreases |units|
  {
    hide CharUnits;
    hide JoinPair;
    if units != [] && DecodeUtf16(units).Some? {
      var (c, n) := DecodeUnit(units).value;
      UnitEncodes(units);
      Utf16Decodes(units[n..]);
      assert units == units[..n] + units[n..];
    }
  }

  lemma {:induction false} Utf16RoundTrip(text: seq<Scalar>)
    ensures DecodeUtf16(EncodeUtf16(text)) == Some(text)
    decreases |text|
  {
    if text != [] {
      var units := EncodeUtf16(text);
      var first := CharUnits(text[0]);
      Utf16RoundTrip(text[1..]);
      assert units[|first|..] == EncodeUtf16(text[1..]);
      assert DecodeUnit(units) == Some((text[0], |first|));
      assert [text[0]] + text[1..] == text;
    }
  }

  /** The examples of section 7 of RFC 3629 and section 5 of RFC 2781. */
  lemma KnownEncodings()
    ensures EncodeUtf8([0x41, 0x2262, 0x391, 0x2E]) == [0x41, 0xE2, 0x89, 0xA2, 0xCE, 0x91, 0x2E]
    ensures EncodeUtf8([0x233B4]) == [0xF0, 0xA3, 0x8E, 0xB4]
    ensures EncodeUtf16([0x12345, 0x3D]) == [0xD808, 0xDF45, 0x3D]
  {
    assert EncodeUtf8([0x2E]) == [0x2E];
    assert EncodeUtf8([0x391, 0x2E]) == [0xCE, 0x91, 0x2E];
    assert EncodeUtf8([0x2262, 0x391, 0x2E]) == [0xE2, 0x89, 0xA2, 0xCE, 0x91, 0x2E];
    assert EncodeUtf16([0x3D]) == [0x3D];
  }

  predicate WellFormedUtf16(units: seq<Unit>) {
    DecodeUtf16(units).Some?
  }
}
