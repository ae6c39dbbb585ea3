/** The text conversions of the native stub, and the length the batch facade computes on its own. */
module StubText {
  import opened Basics
  import opened Unicode

  // --------------------------------------------------------------- valid_utf8

  /** The width the lead byte announces, or 0. */
  function LeadWidth(first: Byte): nat {
    if first <= 0x7F then 1
    else if 0xC2 <= first <= 0xDF then 2
    else if 0xE0 <= first <= 0xEF then 3
    else if 0xF0 <= first <= 0xF4 then 4
    else 0
  }

  function LeadBits(first: Byte): nat {
    if LeadWidth(first) == 2 then first % 32 else if LeadWidth(first) == 3 then first % 16 else first % 8
  }

  /** The code point the stub computes from the first `n` bytes of a character. */
  function CodePoint(s: Bytes, n: nat): nat
    requires 1 <= n <= |s|
  {
    if n == 1 then LeadBits(s[0]) else Join(CodePoint(s, n - 1), s[n - 1] % 64)
  }

  predicate InRange(width: nat, codepoint: nat) {
    && !(width == 2 && codepoint < 0x80)
    && !(width == 3 && codepoint < 0x800)
    && !(width == 4 && codepoint < 0x1_0000)
    && !(0xD800 <= codepoint <= 0xDFFF)
    && codepoint <= 0x10FFFF
  }

  /** The tests on one character of several bytes: lead range, continuation bits, computed value. */
  predicate Accepts(s: Bytes) {
    && |s| > 1 && LeadWidth(s[0]) == |s|
    && (forall j | 1 <= j < |s| :: s[j] / 64 == 2)
    && InRange(|s|, CodePoint(s, |s|))
  }

  lemma ContinuationBits(b: Byte)
    ensures b / 64 == 2 <==> Tail(b)
    ensures Tail(b) ==> b % 64 == b - 0x80
  {
  }

  lemma ThreeInRange(high: nat, mid: nat, low: nat)
    requires high < 16 && mid < 64 && low < 64
    ensures InRange(3, Join(Join(high, mid), low)) <==> (high == 0 ==> mid >= 0x20) && (high == 0xD ==> mid < 0x20)
  {
  }

  lemma FourInRange(high: nat, mid: nat, low: nat, last: nat)
    requires high < 8 && mid < 64 && low < 64 && last < 64
    ensures InRange(4, Join(Join(Join(high, mid), low), last))
       <==> (high == 0 ==> mid >= 0x10) && (high == 4 ==> mid < 0x10) && high <= 4
  {
  }

  lemma AcceptsThree(s: Bytes)
    requires |s| == 3
    ensures Accepts(s) <==> Char3(s)
  {
    ContinuationBits(s[1]);
    ContinuationBits(s[2]);
    if 0xE0 <= s[0] <= 0xEF && Tail(s[1]) && Tail(s[2]) {
      assert CodePoint(s, 2) == Join(LeadBits(s[0]), s[1] % 64);
      ThreeInRange(s[0] % 16, s[1] % 64, s[2] % 64);
    }
  }

  lemma AcceptsFour(s: Bytes)
    requires |s| == 4
    ensures Accepts(s) <==> Char4(s)
  {
    ContinuationBits(s[1]);
    ContinuationBits(s[2]);
    ContinuationBits(s[3]);
    if 0xF0 <= s[0] <= 0xF4 && Tail(s[1]) && Tail(s[2]) && Tail(s[3]) {
      assert CodePoint(s, 2) == Join(LeadBits(s[0]), s[1] % 64);
      assert CodePoint(s, 3) == Join(CodePoint(s, 2), s[2] % 64);
      FourInRange(s[0] % 8, s[1] % 64, s[2] % 64, s[3] % 64);
    }
  }

  /** Testing the computed value is testing the second byte's range, as the grammar does. */
  lemma AcceptsTheGrammar(s: Bytes)
    requires |s| > 1
    ensures Accepts(s) <==> IsChar(s)
  {
    if |s| == 2 {
      assert CodePoint(s, 2) == Join(LeadBits(s[0]), s[1] % 64);
    } else if |s| == 3 {
      AcceptsThree(s);
    } else if |s| == 4 {
      AcceptsFour(s);
    }
  }

  /** Only the announced width can make a character. */
  lemma AnnouncedWidth(s: Bytes, n: nat)
    requires 1 <= n <= |s| && IsChar(s[..n])
    ensures LeadWidth(s[0]) == n
  {
    assert s[..n][0] == s[0];
  }

  lemma RejectedIsNoText(s: Bytes)
    requires s != []
    requires var n := LeadWidth(s[0]); n == 0 || |s| < n || !IsChar(s[..n])
    ensures !Octets(s)
  {
    forall n | 1 <= n <= |s| ensures !IsChar(s[..n]) {
      if IsChar(s[..n]) {
        AnnouncedWidth(s, n);
      }
    }
  }

  /** Accepts exactly the byte strings of the grammar in section 4 of RFC 3629. A null pointer is
      accepted only with length zero. */
  method ValidUtf8(data: Option<Bytes>, length: nat) returns (ok: bool)
    requires data.Some? ==> |data.value| == length
    ensures ok <==> if data.Some? then Octets(data.value) else length == 0
  {
    if length != 0 && data.None? {
      return false;
    }
    var i := 0;
    ghost var s := if data.Some? then data.value else [];
    assert s[0..] == s;
    while i < length
      invariant i <= length == |s|
      invariant Octets(s) <==> Octets(s[i..])
    {
      var width := LeadWidth(data.value[i]);
      if width == 0 || width > length - i {
        RejectedIsNoText(s[i..]);
        return false;
      }
      if width > 1 {
        var good := ValidCharacter(data.value, i, width);
        assert s[i..][..width] == s[i..i + width];
        AcceptsTheGrammar(s[i..i + width]);
        if !good {
          RejectedIsNoText(s[i..]);
          return false;
        }
      }
      OctetsAfter(s[i..], width);
      assert s[i..][width..] == s[i + width..];
      i := i + width;
    }
    assert s[i..] == [];
    return true;
  }

  /** The inner loop: continuation bytes shifted into the code point, then its range. */
  method ValidCharacter(data: Bytes, i: nat, width: nat) returns (ok: bool)
    requires i + width <= |data| && width > 1 && LeadWidth(data[i]) == width
    ensures ok <==> Accepts(data[i..i + width])
  {
    ghost var s := data[i..i + width];
    var codepoint: nat := LeadBits(data[i]);
    var j := 1;
    while j < width
      invariant 1 <= j <= width
      invariant codepoint == CodePoint(s, j)
      invariant forall k | 1 <= k < j :: s[k] / 64 == 2
    {
      var next := data[i + j];
      assert s[j] == next;
      if next / 64 != 2 {
        return false;
      }
      codepoint := Join(codepoint, next % 64);
      j := j + 1;
    }
    return InRange(width, codepoint);
  }

  // ------------------------------------------------------------ utf16_to_utf8

  /** Transcoding through the scalar values. */
  function Transcode(units: seq<Unit>): Option<Bytes> {
    match DecodeUtf16(units)
    case None => None
    case Some(text) => Some(EncodeUtf8(text))
  }

  function Prepend(s: Bytes, more: Option<Bytes>): Option<Bytes> {
    if more.None? then None else Some(s + more.value)
  }

  lemma TranscodeStep(units: seq<Unit>)
    requires units != []
    ensures match DecodeUnit(units)
            case None => Transcode(units).None?
            case Some((c, n)) => Transcode(units) == Prepend(EncodeChar(c), Transcode(units[n..]))
  {
  }

  lemma TranscodeNothing()
    ensures Transcode([]) == Some([])
  {
  }

  lemma TranscodeDecides(units: seq<Unit>)
    ensures Transcode(units).Some? <==> WellFormedUtf16(units)
  {
  }

  datatype Utf16Status = Utf16Ok | Utf16Invalid | Utf16NoMemory

  predicate OutOfMemory(units: seq<Unit>, sizeMax: nat, allocates: bool) {
    3 * |units| > sizeMax || (units != [] && !allocates)
  }

  /** Succeeds exactly on well-formed UTF-16 for which memory can be had; then the bytes written are
      the UTF-8 encoding of the same scalar values, in a buffer of three bytes per unit. `allocates`
      is the outcome of malloc. A string tells its length on its own, and a negative one is refused. */
  method Utf16ToUtf8(input: Option<seq<Unit>>, inputLength: int, sizeMax: nat, allocates: bool)
    returns (status: Utf16Status, data: array?<Byte>, length: nat)
    requires input.Some? && inputLength >= 0 ==> |input.value| == inputLength
    ensures status == match input
                      case None => Utf16Invalid
                      case Some(units) => if inputLength < 0 then Utf16Invalid
                                          else if OutOfMemory(units, sizeMax, allocates) then Utf16NoMemory
                                          else if WellFormedUtf16(units) then Utf16Ok else Utf16Invalid
    ensures status != Utf16Ok ==> data == null && length == 0
    ensures status == Utf16Ok ==>
              && (data == null <==> input.value == [])
              && (data != null ==> data.Length == 3 * |input.value| && length <= data.Length)
              && Transcode(input.value) == Some(if data == null then [] else data[..length])
  {
    hide Transcode;
    TranscodeNothing();
    data, length := null, 0;
    if input.None? {
      return Utf16Invalid, data, length;
    }
    if inputLength < 0 {
      return Utf16Invalid, data, length;
    }
    var units := input.value;
    TranscodeDecides(units);
    if 3 * |units| > sizeMax {
      return Utf16NoMemory, data, length;
    }
    if |units| == 0 {
      return Utf16Ok, data, length;
    }
    if !allocates {
      return Utf16NoMemory, data, length;
    }
    var buffer := new Byte[3 * |units|];
    var i: nat, written: nat := 0, 0;
    assert units[0..] == units;
    PrependNothing(Transcode(units));
    assert buffer[..0] == [];
    while i < |units|
      invariant i <= |units| && written <= 3 * i
      invariant Transcode(units) == Prepend(buffer[..written], Transcode(units[i..]))
    {
      ghost var rest := units[i..];
      TranscodeStep(rest);
      var codepoint: int := units[i];
      var start := i;
      if 0xD800 <= codepoint <= 0xDBFF {
        if i + 1 >= |units| || units[i + 1] < 0xDC00 || units[i + 1] > 0xDFFF {
          return Utf16Invalid, null, 0;
        }
        codepoint := 0x1_0000 + (codepoint - 0xD800) * 1024 + (units[i + 1] - 0xDC00);
        i := i + 1;
      } else if 0xDC00 <= codepoint <= 0xDFFF {
        return Utf16Invalid, null, 0;
      }
      i := i + 1;
      assert DecodeUnit(rest) == Some((codepoint, i - start)) && rest[i - start..] == units[i..];
      ghost var done := buffer[..written];
      written := PutChar(buffer, written, codepoint);
      PrependTwice(done, EncodeChar(codepoint), Transcode(units[i..]));
    }
    assert units[i..] == [];
    assert buffer[..written] + [] == buffer[..written];
    return Utf16Ok, buffer, written;
  }

  lemma PrependNothing(more: Option<Bytes>)
    ensures Prepend([], more) == more
  {
    if more.Some? {
      assert [] + more.value == more.value;
    }
  }

  lemma PrependTwice(a: Bytes, b: Bytes, more: Option<Bytes>)
    ensures Prepend(a, Prepend(b, more)) == Prepend(a + b, more)
  {
    if more.Some? {
      assert a + (b + more.value) == a + b + more.value;
    }
  }

  /** The four branches that write one code point; the buffer has room for three bytes a unit. */
  method PutChar(buffer: array<Byte>, at: nat, codepoint: Scalar) returns (written: nat)
    requires at + (if codepoint < 0x1_0000 then 3 else 4) <= buffer.Length
    modifies buffer
    ensures written <= buffer.Length && written == at + |EncodeChar(codepoint)|
    ensures buffer[..written] == old(buffer[..at]) + EncodeChar(codepoint)
  {
    written := at;
    if codepoint <= 0x7F {
      buffer[written] := codepoint;
      written := written + 1;
    } else if codepoint <= 0x7FF {
      buffer[written] := 0xC0 + codepoint / 64;
      buffer[written + 1] := 0x80 + codepoint % 64;
      written := written + 2;
    } else if codepoint <= 0xFFFF {
      buffer[written] := 0xE0 + codepoint / 4096;
      buffer[written + 1] := 0x80 + codepoint / 64 % 64;
      buffer[written + 2] := 0x80 + codepoint % 64;
      written := written + 3;
    } else {
      buffer[written] := 0xF0 + codepoint / 262144;
      buffer[written + 1] := 0x80 + codepoint / 4096 % 64;
      buffer[written + 2] := 0x80 + codepoint / 64 % 64;
      buffer[written + 3] := 0x80 + codepoint % 64;
      written := written + 4;
    }
  }

  /** What the converter writes is valid UTF-8 of the same scalar values, and determines its input. */
  lemma TranscodeMeans(units: seq<Unit>)
    requires WellFormedUtf16(units)
    ensures var bytes := Transcode(units).value;
            Octets(bytes) && EncodeUtf16(DecodeUtf8(bytes)) == units
  {
    Utf16Decodes(units);
    Utf8RoundTrip(DecodeUtf16(units).value);
  }

  lemma TranscodeInjective(a: seq<Unit>, b: seq<Unit>)
    requires WellFormedUtf16(a) && Transcode(a) == Transcode(b)
    ensures a == b
  {
    TranscodeMeans(a);
    TranscodeMeans(b);
  }

  /** Every valid UTF-8 string is the output for some input. */
  lemma TranscodeOnto(bytes: Bytes)
    requires Octets(bytes)
    ensures Transcode(EncodeUtf16(DecodeUtf8(bytes))) == Some(bytes)
  {
    Utf16RoundTrip(DecodeUtf8(bytes));
  }

  // --------------------------------------------------- delete_path_utf8_length

  /** Refuses exactly the strings the converter calls invalid, and otherwise returns the length of
      what the converter writes, without converting. */
  method DeletePathUtf8Length(path: seq<Unit>) returns (result: Option<nat>)
    ensures result == match Transcode(path)
                      case None => None
                      case Some(bytes) => Some(|bytes|)
  {
    hide Transcode;
    var index, bytes := 0, 0;
    ghost var written: Bytes := [];
    assert path[0..] == path;
    PrependNothing(Transcode(path));
    while index < |path|
      invariant index <= |path| && bytes == |written|
      invariant Transcode(path) == Prepend(written, Transcode(path[index..]))
    {
      ghost var rest := path[index..];
      TranscodeStep(rest);
      var unit := path[index];
      var start := index;
      if unit <= 0x7F {
        index, bytes := index + 1, bytes + 1;
      } else if unit <= 0x7FF {
        index, bytes := index + 1, bytes + 2;
      } else if 0xD800 <= unit <= 0xDBFF {
        if index + 1 >= |path| || path[index + 1] < 0xDC00 || path[index + 1] > 0xDFFF {
          return None;
        }
        index, bytes := index + 2, bytes + 4;
      } else if 0xDC00 <= unit <= 0xDFFF {
        return None;
      } else {
        index, bytes := index + 1, bytes + 3;
      }
      ghost var c := DecodeUnit(rest).value.0;
      assert rest[index - start..] == path[index..];
      PrependTwice(written, EncodeChar(c), Transcode(path[index..]));
      written := written + EncodeChar(c);
    }
    assert path[index..] == [];
    TranscodeNothing();
    assert written + [] == written;
    return Some(bytes);
  }
}
