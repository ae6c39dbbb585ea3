/** The ODM1 metadata snapshot: the bridge's encoder and the decoder of the browser runtime. */
module MetadataSnapshot {
  import opened Basics
  import opened BridgeTypes
  import opened Unicode
  import opened LittleEndian

  const MAX_SNAPSHOT: nat := 67108864
  const HEADER: nat := 84
  const SCHEMA: nat := 1
  const MAGIC: Bytes := [0x4F, 0x44, 0x4D, 0x31]
  const MAGIC_WORD: nat := 0x314D444F
  const MIN_I64: int := -0x8000_0000_0000_0000
  const MAX_I64: int := 0x7FFF_FFFF_FFFF_FFFF
  const BILLION: int := 1_000_000_000

  datatype Mode = Unknown | File | Directory

  /** An instant as whole seconds, rounded down, and the nanoseconds after them. */
  datatype Moment = Moment(seconds: int, nanos: nat)

  type Strings = seq<Option<Bytes>>

  /** What a snapshot carries. `strings` are cache control, content disposition, encoding, MD5 and
      type, ETag and version. */
  datatype Record = Record(
    mode: Mode,
    isCurrent: Option<bool>,
    isDeleted: bool,
    contentLength: nat,
    modified: Option<Moment>,
    strings: Strings)

  ghost predicate Typed(r: Record) {
    && r.contentLength < U64 && |r.strings| == 7
    && (r.modified.Some? ==> MIN_I64 <= r.modified.value.seconds <= MAX_I64 && r.modified.value.nanos < BILLION)
    && (forall i | 0 <= i < 7 && r.strings[i].Some? :: Octets(r.strings[i].value))
  }

  // ------------------------------------------------------------------- layout

  function Text(s: Option<Bytes>): Bytes {
    if s.Some? then s.value else []
  }

  function Payload(strings: Strings): Bytes {
    if strings == [] then [] else Text(strings[0]) + Payload(strings[1..])
  }

  function Lengths(strings: Strings): seq<nat> {
    seq(|strings|, i requires 0 <= i < |strings| => |Text(strings[i])|)
  }

  function Flags(r: Record): seq<bool> {
    [r.isCurrent.Some?, r.modified.Some?] + seq(|r.strings|, i requires 0 <= i < |r.strings| => r.strings[i].Some?)
  }

  function ModeCode(mode: Mode): nat {
    match mode case Unknown => 0 case File => 1 case Directory => 2
  }

  function Word(b: bool): nat {
    if b then 1 else 0
  }

  /** The two's complement of a 64-bit signed integer. */
  function Signed(v: int): int {
    if v < 0 then v + U64 else v
  }

  function Seconds(r: Record): int {
    if r.modified.Some? then r.modified.value.seconds else 0
  }

  function Nanos(r: Record): nat {
    if r.modified.Some? then r.modified.value.nanos else 0
  }

  const WIDTHS: seq<nat> := [4, 4, 8, 4, 4, 4, 4, 8, 8, 4, 4, 4, 4, 4, 4, 4, 4, 4]

  /** The header after the magic and the schema. */
  datatype Head = Head(
    present: nat, mode: nat, current: nat, deleted: nat, reserved: nat, contentLength: nat, seconds: nat, nanos: nat, spare: nat)

  /** Absent values are zero; so are the two reserved words. */
  function HeadOf(r: Record): Head
    requires Signed(Seconds(r)) >= 0
  {
    Head(PackBits(Flags(r)), ModeCode(r.mode), Word(r.isCurrent == Some(true)), Word(r.isDeleted), 0,
         r.contentLength, Signed(Seconds(r)), Nanos(r), 0)
  }

  function Values(h: Head, lengths: seq<nat>): seq<nat> {
    [MAGIC_WORD, SCHEMA, h.present, h.mode, h.current, h.deleted, h.reserved, h.contentLength, h.seconds, h.nanos, h.spare]
    + lengths
  }

  ghost function Layout(r: Record): Bytes
    requires Typed(r)
  {
    Fields(WIDTHS, Values(HeadOf(r), Lengths(r.strings)), 18) + Payload(r.strings)
  }

  predicate Fits(r: Record) {
    HEADER + |Payload(r.strings)| <= MAX_SNAPSHOT
  }

  lemma FieldOffsets()
    ensures Offset(WIDTHS, 0) == 0 && Offset(WIDTHS, 1) == 4 && Offset(WIDTHS, 2) == 8 && Offset(WIDTHS, 3) == 16 && Offset(WIDTHS, 4) == 20
    ensures Offset(WIDTHS, 5) == 24 && Offset(WIDTHS, 6) == 28 && Offset(WIDTHS, 7) == 32 && Offset(WIDTHS, 8) == 40
    ensures Offset(WIDTHS, 9) == 48 && Offset(WIDTHS, 10) == 52
    ensures forall i | 11 <= i <= 18 :: Offset(WIDTHS, i) == 56 + (i - 11) * 4
  {
    assert Offset(WIDTHS, 1) == 4;
    assert Offset(WIDTHS, 2) == 8;
    assert Offset(WIDTHS, 3) == 16;
    assert Offset(WIDTHS, 4) == 20;
    assert Offset(WIDTHS, 5) == 24;
    assert Offset(WIDTHS, 6) == 28;
    assert Offset(WIDTHS, 7) == 32;
    assert Offset(WIDTHS, 8) == 40;
    assert Offset(WIDTHS, 9) == 48;
    assert Offset(WIDTHS, 10) == 52;
    assert Offset(WIDTHS, 11) == 56;
    assert Offset(WIDTHS, 12) == 60;
    assert Offset(WIDTHS, 13) == 64;
    assert Offset(WIDTHS, 14) == 68;
    assert Offset(WIDTHS, 15) == 72;
    assert Offset(WIDTHS, 16) == 76;
    assert Offset(WIDTHS, 17) == 80;
  }

  lemma MagicWord()
    ensures Le(MAGIC_WORD, 4) == MAGIC && FromLe(MAGIC) == MAGIC_WORD
  {
    assert Le(0x31, 1) == [0x31];
    assert Le(0x314D, 2) == [0x4D, 0x31];
    assert Le(0x314D44, 3) == [0x44, 0x4D, 0x31];
    PowConstants();
    LeRoundTrip(MAGIC_WORD, 4);
  }

  lemma {:induction false} PayloadAppend(strings: Strings, s: Option<Bytes>)
    ensures Payload(strings + [s]) == Payload(strings) + Text(s)
  {
    if strings == [] {
      assert strings + [s] == [s];
    } else {
      assert (strings + [s])[1..] == strings[1..] + [s];
      PayloadAppend(strings[1..], s);
    }
  }

  lemma {:induction false} PayloadPrefix(strings: Strings, n: nat)
    requires n <= |strings|
    ensures |Payload(strings[..n])| <= |Payload(strings)|
    decreases |strings|
  {
    if n == |strings| {
      assert strings[..n] == strings;
    } else {
      var last := |strings| - 1;
      assert strings == strings[..last] + [strings[last]];
      PayloadAppend(strings[..last], strings[last]);
      assert strings[..last][..n] == strings[..n];
      PayloadPrefix(strings[..last], n);
    }
  }

  // ------------------------------------------------------------------ encoder

  /** Metadata as the backend reports it; `lastModified` in nanoseconds since the epoch. */
  datatype Metadata = Metadata(
    mode: Mode,
    isCurrent: Option<bool>,
    isDeleted: bool,
    contentLength: nat,
    lastModified: Option<int>,
    strings: Strings)

  /** Whole seconds, rounded toward zero as the time library rounds them. */
  function WholeSeconds(nanos: int): int {
    if nanos < 0 then -(-nanos / BILLION) else nanos / BILLION
  }

  ghost predicate TypedMetadata(m: Metadata) {
    && m.contentLength < U64 && |m.strings| == 7
    && (m.lastModified.Some? ==> MIN_I64 <= WholeSeconds(m.lastModified.value) <= MAX_I64)
    && (forall i | 0 <= i < 7 && m.strings[i].Some? :: Octets(m.strings[i].value))
  }

  /** Borrows one second for an instant whose sub-second part is negative. */
  function Normalise(nanos: int): Option<Moment> {
    var seconds := WholeSeconds(nanos);
    var subseconds := nanos - seconds * BILLION;
    if subseconds < 0 then (if seconds == MIN_I64 then None else Some(Moment(seconds - 1, BILLION + subseconds)))
    else Some(Moment(seconds, subseconds))
  }

  /** Normalising keeps the instant, negative ones too, and fails only when the borrowed second
      would not fit. */
  lemma NormaliseKeepsInstant(nanos: int)
    requires MIN_I64 <= WholeSeconds(nanos) <= MAX_I64
    ensures Normalise(nanos).None? <==> nanos < MIN_I64 * BILLION
    ensures Normalise(nanos).Some? ==>
              var m := Normalise(nanos).value;
              m.seconds * BILLION + m.nanos == nanos && m.nanos < BILLION && MIN_I64 <= m.seconds <= MAX_I64
  {
  }

  function RecordOf(m: Metadata, modified: Option<Moment>): Record {
    Record(m.mode, m.isCurrent, m.isDeleted, m.contentLength, modified, m.strings)
  }

  function Normalised(m: Metadata): Record {
    RecordOf(m, if m.lastModified.Some? then Normalise(m.lastModified.value) else None)
  }

  /** What the encoder makes of metadata. */
  ghost function Encoded(m: Metadata, allocates: bool): Result<Bytes>
    requires TypedMetadata(m)
  {
    if m.lastModified.Some? && Normalise(m.lastModified.value).None? then Err(LengthOverflow)
    else
      var r := Normalised(m);
      if !Fits(r) then Err(BufferTooLarge)
      else if !allocates then Err(AllocationFailed)
      else Ok(Layout(r))
  }

  /** The computed header values, as the source collects them before it writes. */
  datatype View = View(
    presentBits: nat, mode: nat, isCurrent: nat, isDeleted: nat, contentLength: nat, seconds: int, nanos: nat,
    strings: Strings, lengths: seq<nat>, encodedLength: nat)

  ghost predicate Describes(v: View, r: Record)
    requires Typed(r)
  {
    && Signed(v.seconds) >= 0
    && Head(v.presentBits, v.mode, v.isCurrent, v.isDeleted, 0, v.contentLength, Signed(v.seconds), v.nanos, 0) == HeadOf(r)
    && v.strings == r.strings && v.lengths == Lengths(r.strings)
    && v.encodedLength == |Layout(r)|
  }

  lemma LayoutLength(r: Record)
    requires Typed(r)
    ensures |Layout(r)| == HEADER + |Payload(r.strings)|
  {
    FieldOffsets();
  }

  ghost function HeaderValues(r: Record): (v: seq<nat>)
    requires Typed(r)
    ensures |v| == 18
  {
    Values(HeadOf(r), Lengths(r.strings))
  }

  /** Header field `k` of a snapshot, which starts at `at`. */
  lemma SnapshotField(r: Record, k: nat, at: nat, width: nat)
    requires Typed(r) && k < 18 && at == Offset(WIDTHS, k) && width == WIDTHS[k]
    ensures at + width <= |Layout(r)| && Layout(r)[at..at + width] == Le(HeaderValues(r)[k], width)
  {
    hide Le;
    hide Fields;
    hide Offset;
    FieldBytes(WIDTHS, HeaderValues(r), 18, k, Payload(r.strings));
  }

  lemma WordValues(r: Record)
    requires Typed(r)
    ensures var v := HeaderValues(r);
            && v[0] == MAGIC_WORD && v[1] == 1 && v[6] == 0 && v[10] == 0
            && v[3] == (match r.mode case Unknown => 0 case File => 1 case Directory => 2)
            && v[4] == (if r.isCurrent == Some(true) then 1 else 0) && v[5] == (if r.isDeleted then 1 else 0)
  {
    hide Flags;
    hide PackBits;
  }

  lemma NumberValues(r: Record)
    requires Typed(r)
    ensures var v := HeaderValues(r);
            && v[2] == PackBits(Flags(r)) && v[7] == r.contentLength && v[9] == Nanos(r)
            && v[8] == (if Seconds(r) < 0 then 0x1_0000_0000_0000_0000 + Seconds(r) else Seconds(r))
            && (forall i | 0 <= i < 7 :: v[11 + i] == |Text(r.strings[i])|)
  {
    hide Flags;
    hide PackBits;
  }

  /** How a snapshot starts, and the words that tell mode and flags. */
  lemma SnapshotWords(r: Record)
    requires Typed(r)
    ensures |Layout(r)| >= 84
    ensures Layout(r)[0..4] == [0x4F, 0x44, 0x4D, 0x31] && Layout(r)[4..8] == [1, 0, 0, 0]
    ensures Layout(r)[16..20] == (match r.mode
                                  case Unknown => [0, 0, 0, 0]
                                  case File => [1, 0, 0, 0]
                                  case Directory => [2, 0, 0, 0])
    ensures Layout(r)[20..24] == [if r.isCurrent == Some(true) then 1 else 0, 0, 0, 0]
    ensures Layout(r)[24..28] == [if r.isDeleted then 1 else 0, 0, 0, 0]
    ensures Layout(r)[28..32] == [0, 0, 0, 0] && Layout(r)[52..56] == [0, 0, 0, 0]
  {
    hide Layout;
    hide Offset;
    hide Le;
    hide HeaderValues;
    hide Typed;
    FieldOffsets();
    LayoutLength(r);
    MagicWord();
    WordValues(r);
    SmallWord(0);
    SmallWord(1);
    SmallWord(2);
    SnapshotField(r, 0, 0, 4);
    SnapshotField(r, 1, 4, 4);
    SnapshotField(r, 3, 16, 4);
    SnapshotField(r, 4, 20, 4);
    SnapshotField(r, 5, 24, 4);
    SnapshotField(r, 6, 28, 4);
    SnapshotField(r, 10, 52, 4);
  }

  /** The presence bits and the numbers. */
  lemma SnapshotNumbers(r: Record)
    requires Typed(r)
    ensures |Layout(r)| >= 84
    ensures Layout(r)[8..16] == Le(PackBits(Flags(r)), 8)
    ensures Layout(r)[32..40] == Le(r.contentLength, 8)
    ensures Layout(r)[40..48] == Le(if Seconds(r) < 0 then 0x1_0000_0000_0000_0000 + Seconds(r) else Seconds(r), 8)
    ensures Layout(r)[48..52] == Le(Nanos(r), 4)
  {
    LayoutLength(r);
    FieldOffsets();
    NumberValues(r);
    hide Layout;
    hide Offset;
    hide Le;
    hide HeaderValues;
    hide PackBits;
    hide Flags;
    SnapshotField(r, 2, 8, 8);
    SnapshotField(r, 7, 32, 8);
    SnapshotField(r, 8, 40, 8);
    SnapshotField(r, 9, 48, 4);
  }

  /** The lengths of the strings, and the strings one after the other. */
  lemma SnapshotTexts(r: Record)
    requires Typed(r)
    ensures |Layout(r)| >= 84 && Layout(r)[84..] == Payload(r.strings)
    ensures forall i | 0 <= i < 7 :: Layout(r)[56 + 4 * i..60 + 4 * i] == Le(|Text(r.strings[i])|, 4)
  {
    FieldOffsets();
    LayoutLength(r);
    NumberValues(r);
    assert Layout(r)[84..] == Payload(r.strings);
    hide Layout;
    hide Offset;
    hide Le;
    hide HeaderValues;
    hide PackBits;
    hide Flags;
    forall i | 0 <= i < 7 ensures Layout(r)[56 + 4 * i..60 + 4 * i] == Le(|Text(r.strings[i])|, 4) {
      SnapshotField(r, 11 + i, 56 + 4 * i, 4);
    }
  }

  const STRING_BITS: seq<nat> := [4, 8, 16, 32, 64, 128, 256]

  lemma StringBit(i: nat)
    requires i < 7
    ensures STRING_BITS[i] == Pow2(i + 2)
  {
    assert Pow2(2) == 4 && Pow2(4) == 16 && Pow2(6) == 64 && Pow2(8) == 256;
  }

  /** One more string: its flag, its length and the bytes so far. */
  lemma MeasureStep(r: Record, index: nat)
    requires |r.strings| == 7 && index < 7
    ensures var more := r.strings[index];
            && PackBits(Flags(r)[..index + 3]) == PackBits(Flags(r)[..index + 2]) + (if more.Some? then STRING_BITS[index] else 0)
            && Lengths(r.strings)[..index + 1] == Lengths(r.strings)[..index] + [|Text(more)|]
            && |Payload(r.strings[..index + 1])| == |Payload(r.strings[..index])| + |Text(more)|
            && |Payload(r.strings[..index + 1])| <= |Payload(r.strings)|
  {
    hide PackBits;
    hide Payload;
    var more := r.strings[index];
    StringBit(index);
    assert Flags(r)[..index + 3] == Flags(r)[..index + 2] + [more.Some?];
    PackAppend(Flags(r)[..index + 2], more.Some?);
    assert r.strings[..index + 1] == r.strings[..index] + [more];
    PayloadAppend(r.strings[..index], more);
    PayloadPrefix(r.strings, index + 1);
  }

  lemma MeasureEnds(r: Record)
    requires |r.strings| == 7
    ensures PackBits(Flags(r)[..2]) == (if r.isCurrent.Some? then 1 else 0) + (if r.modified.Some? then 2 else 0)
    ensures Flags(r)[..9] == Flags(r) && Lengths(r.strings)[..7] == Lengths(r.strings) && r.strings[..7] == r.strings
  {
    assert Flags(r)[..2] == [r.isCurrent.Some?] + [r.modified.Some?];
    PackAppend([r.isCurrent.Some?], r.modified.Some?);
    assert PackBits([r.isCurrent.Some?]) == if r.isCurrent.Some? then 1 else 0;
    assert Pow2(1) == 2;
  }

  function Bit(present: bool, bit: nat): nat {
    if present then bit else 0
  }

  lemma PackHead(flag: bool, more: seq<bool>)
    ensures PackBits([flag] + more) == Bit(flag, 1) + 2 * PackBits(more)
  {
    assert ([flag] + more)[1..] == more;
  }

  lemma PackFour(a: bool, b: bool, c: bool, d: bool, more: seq<bool>)
    ensures PackBits([a, b, c, d] + more) == Bit(a, 1) + Bit(b, 2) + Bit(c, 4) + Bit(d, 8) + 16 * PackBits(more)
  {
    hide PackBits;
    assert [a, b, c, d] + more == [a] + ([b] + ([c] + ([d] + more)));
    PackHead(d, more);
    PackHead(c, [d] + more);
    PackHead(b, [c] + ([d] + more));
    PackHead(a, [b] + ([c] + ([d] + more)));
  }

  /** Bit by bit: is-current, last-modified, cache control, content disposition, encoding, MD5 and type,
      ETag, version. */
  lemma PresenceBits(r: Record)
    requires |r.strings| == 7
    ensures var t := r.strings;
            PackBits(Flags(r)) == Bit(r.isCurrent.Some?, 1) + Bit(r.modified.Some?, 2)
                                  + Bit(t[0].Some?, 4) + Bit(t[1].Some?, 8) + Bit(t[2].Some?, 16) + Bit(t[3].Some?, 32)
                                  + Bit(t[4].Some?, 64) + Bit(t[5].Some?, 128) + Bit(t[6].Some?, 256)
  {
    var f := Flags(r);
    assert f == [f[0], f[1], f[2], f[3]] + ([f[4], f[5], f[6], f[7]] + [f[8]]);
    PackFour(f[0], f[1], f[2], f[3], [f[4], f[5], f[6], f[7]] + [f[8]]);
    PackFour(f[4], f[5], f[6], f[7], [f[8]]);
    assert PackBits([f[8]]) == Bit(f[8], 1);
    hide PackBits;
  }

  /** The loop over the seven strings: presence bits, lengths and the length of the whole. */
  method Measure(r: Record) returns (result: Result<(nat, seq<nat>, nat)>)
    requires Typed(r)
    ensures result == if Fits(r) then Ok((PackBits(Flags(r)), Lengths(r.strings), HEADER + |Payload(r.strings)|))
                      else Err(BufferTooLarge)
  {
    var present := (if r.isCurrent.Some? then 1 else 0) + (if r.modified.Some? then 2 else 0);
    var lengths: seq<nat> := [];
    var encodedLength: nat := HEADER;
    MeasureEnds(r);
    for index := 0 to 7
      invariant present == PackBits(Flags(r)[..index + 2])
      invariant lengths == Lengths(r.strings)[..index]
      invariant encodedLength == HEADER + |Payload(r.strings[..index])| <= MAX_SNAPSHOT
    {
      MeasureStep(r, index);
      if r.strings[index].Some? {
        var length := |r.strings[index].value|;
        if length >= U32 || encodedLength + length > MAX_SNAPSHOT {
          return Err(BufferTooLarge);
        }
        present := present + STRING_BITS[index];
        lengths := lengths + [length];
        encodedLength := encodedLength + length;
      } else {
        lengths := lengths + [0];
      }
    }
    return Ok((present, lengths, encodedLength));
  }

  method NewView(m: Metadata) returns (result: Result<View>)
    requires TypedMetadata(m)
    ensures match Encoded(m, true)
            case Err(e) => result == Err(e)
            case Ok(_) =>
              var r := Normalised(m);
              Typed(r) && result.Ok? && Describes(result.value, r)
  {
    var modified: Option<Moment> := None;
    if m.lastModified.Some? {
      NormaliseKeepsInstant(m.lastModified.value);
      modified := Normalise(m.lastModified.value);
      if modified.None? {
        return Err(LengthOverflow);
      }
    }
    var r := RecordOf(m, modified);
    var measured := Measure(r);
    if measured.Err? {
      return Err(measured.error);
    }
    var (present, lengths, encodedLength) := measured.value;
    LayoutLength(r);
    return Ok(View(present, ModeCode(m.mode), Word(m.isCurrent == Some(true)), Word(m.isDeleted), m.contentLength,
                   Seconds(r), Nanos(r), m.strings, lengths, encodedLength));
  }

  /** Writes the header field by field, then the strings that are present. */
  method Encode(v: View, allocates: bool, ghost r: Record) returns (result: Result<Bytes>)
    requires Typed(r) && Describes(v, r)
    ensures result == if allocates then Ok(Layout(r)) else Err(AllocationFailed)
  {
    hide Fields;
    hide Payload;
    if !allocates {
      return Err(AllocationFailed);
    }
    ghost var values := Values(HeadOf(r), Lengths(r.strings));
    var snapshot := EncodeScalars(v, values);
    snapshot := AppendLengths(snapshot, v.lengths, values);
    snapshot := AppendStrings(snapshot, v.strings);
    return Ok(snapshot);
  }

  method AppendLengths(header: Bytes, lengths: seq<nat>, ghost values: seq<nat>) returns (snapshot: Bytes)
    requires |values| == 18 && lengths == values[11..] && header == Fields(WIDTHS, values, 11)
    ensures snapshot == Fields(WIDTHS, values, 18)
  {
    snapshot := header;
    for i := 0 to 7
      invariant snapshot == Fields(WIDTHS, values, 11 + i)
    {
      snapshot := PutField(snapshot, lengths[i], 4, WIDTHS, values, 11 + i);
    }
  }

  method AppendStrings(header: Bytes, strings: Strings) returns (snapshot: Bytes)
    ensures snapshot == header + Payload(strings)
  {
    snapshot := header;
    for i := 0 to |strings|
      invariant snapshot == header + Payload(strings[..i])
    {
      assert strings[..i + 1] == strings[..i] + [strings[i]];
      PayloadAppend(strings[..i], strings[i]);
      if strings[i].Some? {
        snapshot := snapshot + strings[i].value;
      }
    }
    assert strings[..|strings|] == strings;
  }

  method PutMagic(ghost values: seq<nat>) returns (s: Bytes)
    requires |values| == 18 && values[0] == MAGIC_WORD
    ensures s == Fields(WIDTHS, values, 1)
  {
    MagicWord();
    s := MAGIC;
  }

  method EncodeScalars(v: View, ghost values: seq<nat>) returns (snapshot: Bytes)
    requires |values| == 18 && Signed(v.seconds) >= 0
    requires values[0] == MAGIC_WORD && values[1] == SCHEMA && values[2] == v.presentBits && values[3] == v.mode
    requires values[4] == v.isCurrent && values[5] == v.isDeleted && values[6] == 0 && values[7] == v.contentLength
    requires values[8] == Signed(v.seconds) && values[9] == v.nanos && values[10] == 0
    ensures snapshot == Fields(WIDTHS, values, 11)
  {
    hide Fields;
    hide Le;
    snapshot := PutMagic(values);
    snapshot := PutField(snapshot, SCHEMA, 4, WIDTHS, values, 1);
    snapshot := PutField(snapshot, v.presentBits, 8, WIDTHS, values, 2);
    snapshot := PutField(snapshot, v.mode, 4, WIDTHS, values, 3);
    snapshot := PutField(snapshot, v.isCurrent, 4, WIDTHS, values, 4);
    snapshot := PutField(snapshot, v.isDeleted, 4, WIDTHS, values, 5);
    snapshot := PutField(snapshot, 0, 4, WIDTHS, values, 6);
    snapshot := PutField(snapshot, v.contentLength, 8, WIDTHS, values, 7);
    snapshot := PutField(snapshot, Signed(v.seconds), 8, WIDTHS, values, 8);
    snapshot := PutField(snapshot, v.nanos, 4, WIDTHS, values, 9);
    snapshot := PutField(snapshot, 0, 4, WIDTHS, values, 10);
  }

  method MetadataSnapshotBytes(m: Metadata, allocates: bool) returns (result: Result<Bytes>)
    requires TypedMetadata(m)
    ensures result == Encoded(m, allocates)
  {
    var view := NewView(m);
    if view.Err? {
      return Err(view.error);
    }
    result := Encode(view.value, allocates, Normalised(m));
  }
}
