/** Decoding ODM1 snapshots in the browser runtime, and that it inverts the bridge's encoder. */
module MetadataDecoder {
  import opened Basics
  import opened BridgeTypes
  import opened Unicode
  import opened LittleEndian
  import opened MetadataSnapshot
  import ErrorSnapshot

  /** The string of `length` bytes at `cursor`: absent, present, or malformed. */
  function ReadString(s: Bytes, cursor: nat, length: nat, present: bool): Option<Option<Bytes>> {
    if (!present && length != 0) || cursor + length > |s| then None
    else if !present then Some(None)
    else if Octets(s[cursor..cursor + length]) then Some(Some(s[cursor..cursor + length]))
    else None
  }

  /** The strings from `index` on, read from `cursor`; nothing may be left over. */
  function ParseStrings(s: Bytes, cursor: nat, flags: seq<bool>, lengths: seq<nat>, index: nat): Option<Strings>
    requires |lengths| == |flags| && index <= |flags|
    decreases |flags| - index
  {
    if index == |flags| then (if cursor == |s| then Some([]) else None)
    else
      match ReadString(s, cursor, lengths[index], flags[index])
      case None => None
      case Some(first) => Ahead(first, ParseStrings(s, cursor + lengths[index], flags, lengths, index + 1))
  }

  function Presence(bits: nat): seq<bool> {
    seq(7, i requires 0 <= i < 7 => BitSet(bits, i + 2))
  }

  function Ahead(first: Option<Bytes>, more: Option<Strings>): Option<Strings> {
    if more.None? then None else Some([first] + more.value)
  }

  function StringLengths(s: Bytes): seq<nat> {
    seq(7, i requires 0 <= i < 7 => Field(s, WIDTHS, 11 + i))
  }

  function ModeOf(code: nat): Mode {
    if code == 0 then Unknown else if code == 1 then File else Directory
  }

  function FromSigned(v: nat): int {
    if v > MAX_I64 then v - U64 else v
  }

  function ReadHead(s: Bytes): Head {
    Head(Field(s, WIDTHS, 2), Field(s, WIDTHS, 3), Field(s, WIDTHS, 4), Field(s, WIDTHS, 5), Field(s, WIDTHS, 6),
         Field(s, WIDTHS, 7), Field(s, WIDTHS, 8), Field(s, WIDTHS, 9), Field(s, WIDTHS, 10))
  }

  /** The checks on the header's values. */
  predicate HeadOk(h: Head) {
    && h.present < 512 && h.mode <= 2 && h.current <= 1 && h.deleted <= 1
    && h.reserved == 0 && h.spare == 0
    && (!BitSet(h.present, 0) ==> h.current == 0)
    && h.nanos < BILLION
    && (!BitSet(h.present, 1) ==> h.seconds == 0 && h.nanos == 0)
  }

  predicate HeaderOk(s: Bytes) {
    && HEADER <= |s| <= MAX_SNAPSHOT && s[..4] == MAGIC && Field(s, WIDTHS, 1) == SCHEMA
    && HeadOk(ReadHead(s))
  }

  function RecordFrom(h: Head, strings: Strings): Record {
    Record(ModeOf(h.mode),
           if BitSet(h.present, 0) then Some(h.current == 1) else None,
           h.deleted == 1,
           h.contentLength,
           if BitSet(h.present, 1) then Some(Moment(FromSigned(h.seconds), h.nanos)) else None,
           strings)
  }

  /** The record a snapshot stands for, with its text kept whole. */
  function Parse(s: Bytes): Option<Record> {
    if !HeaderOk(s) then None
    else
      match ParseStrings(s, HEADER, Presence(Field(s, WIDTHS, 2)), StringLengths(s), 0)
      case None => None
      case Some(strings) => Some(RecordFrom(ReadHead(s), strings))
  }

  // ------------------------------------------------------ decoding what was encoded

  lemma {:induction false} LengthInPayload(strings: Strings, i: nat)
    requires i < |strings|
    ensures |Text(strings[i])| <= |Payload(strings)|
  {
    if i > 0 {
      LengthInPayload(strings[1..], i - 1);
    }
  }

  lemma FlagBits(r: Record)
    requires |r.strings| == 7
    ensures PackBits(Flags(r)) < 512
    ensures forall i | 0 <= i < 9 :: BitSet(PackBits(Flags(r)), i) == Flags(r)[i]
  {
    assert Pow2(3) == 8 && Pow2(6) == 64 && Pow2(9) == 512;
    PackedFits(Flags(r));
    forall i | 0 <= i < 9 ensures BitSet(PackBits(Flags(r)), i) == Flags(r)[i] {
      PackedBit(Flags(r), i);
    }
  }

  /** Every header value fits its field. */
  lemma ValueFits(r: Record, k: nat)
    requires Typed(r) && Fits(r) && k < 18
    ensures var values := Values(HeadOf(r), Lengths(r.strings)); values[k] < Pow256(WIDTHS[k])
  {
    hide BitSet;
    hide Flags;
    PowConstants();
    FlagBits(r);
    if k >= 11 {
      LengthInPayload(r.strings, k - 11);
    }
  }

  lemma LayoutField(r: Record, s: Bytes, k: nat)
    requires Typed(r) && Fits(r) && s == Layout(r) && k < 18
    ensures Field(s, WIDTHS, k) == Values(HeadOf(r), Lengths(r.strings))[k]
  {
    var values := Values(HeadOf(r), Lengths(r.strings));
    ValueFits(r, k);
    FieldOf(WIDTHS, values, 18, k);
    OffsetGrows(WIDTHS, k + 1, 18);
    var h := Fields(WIDTHS, values, 18);
    assert s[Offset(WIDTHS, k)..Offset(WIDTHS, k + 1)] == h[Offset(WIDTHS, k)..Offset(WIDTHS, k + 1)];
  }

  lemma LayoutScalars(r: Record, s: Bytes)
    requires Typed(r) && Fits(r) && s == Layout(r)
    ensures ReadHead(s) == HeadOf(r) && Field(s, WIDTHS, 1) == SCHEMA
    ensures StringLengths(s) == Lengths(r.strings)
    ensures |s| == HEADER + |Payload(r.strings)| && s[HEADER..] == Payload(r.strings) && s[..4] == MAGIC
  {
    LayoutLength(r);
    forall k | 0 <= k < 18 ensures Field(s, WIDTHS, k) == Values(HeadOf(r), Lengths(r.strings))[k] {
      LayoutField(r, s, k);
    }
    FieldOffsets();
    MagicWord();
    FromLeRoundTrip(s[..4]);
    assert s[0..4] == s[..4];
    assert Field(s, WIDTHS, 0) == MAGIC_WORD;
  }

  predicate StringOk(x: Option<Bytes>, present: bool, length: nat) {
    x.Some? == present && |Text(x)| == length && (x.Some? ==> Octets(x.value))
  }

  /** The strings from `index` on are those the flags and lengths announce. */
  predicate StringsOk(strings: Strings, flags: seq<bool>, lengths: seq<nat>, index: nat)
    requires |lengths| == |flags| && index <= |flags|
    decreases |flags| - index
  {
    if index == |flags| then strings == []
    else strings != [] && StringOk(strings[0], flags[index], lengths[index]) && StringsOk(strings[1..], flags, lengths, index + 1)
  }

  lemma {:induction false} StringsOkAt(strings: Strings, flags: seq<bool>, lengths: seq<nat>, index: nat, k: nat)
    requires |lengths| == |flags| && index <= k < |flags| && StringsOk(strings, flags, lengths, index)
    ensures |strings| == |flags| - index && StringOk(strings[k - index], flags[k], lengths[k])
    decreases |flags| - index
  {
    if index < k {
      StringsOkAt(strings[1..], flags, lengths, index + 1, k);
    } else if index + 1 < |flags| {
      StringsOkAt(strings[1..], flags, lengths, index + 1, index + 1);
    }
  }

  lemma {:induction false} StringsOkFrom(strings: Strings, flags: seq<bool>, lengths: seq<nat>, index: nat)
    requires |lengths| == |flags| == |strings| && index <= |flags|
    requires forall k | 0 <= k < |flags| :: StringOk(strings[k], flags[k], lengths[k])
    ensures StringsOk(strings[index..], flags, lengths, index)
    decreases |flags| - index
  {
    if index < |flags| {
      StringsOkFrom(strings, flags, lengths, index + 1);
      assert strings[index..][1..] == strings[index + 1..];
    }
  }

  lemma ReadStringAhead(s: Bytes, cursor: nat, x: Option<Bytes>, tail: Bytes)
    requires cursor <= |s| && s[cursor..] == Text(x) + tail && (x.Some? ==> Octets(x.value))
    ensures var end := cursor + |Text(x)|; end <= |s| && s[end..] == tail
    ensures ReadString(s, cursor, |Text(x)|, x.Some?) == Some(x)
  {
    assert s[cursor..cursor + |Text(x)|] == s[cursor..][..|Text(x)|];
    assert s[cursor + |Text(x)|..] == s[cursor..][|Text(x)|..];
  }

  lemma {:induction false} StringsRoundTrip(s: Bytes, cursor: nat, flags: seq<bool>, lengths: seq<nat>, strings: Strings, index: nat)
    requires |lengths| == |flags| && index <= |flags| && cursor <= |s|
    requires s[cursor..] == Payload(strings) && StringsOk(strings, flags, lengths, index)
    ensures ParseStrings(s, cursor, flags, lengths, index) == Some(strings)
    decreases |flags| - index
  {
    hide Octets;
    hide ReadString;
    if index < |flags| {
      ReadStringAhead(s, cursor, strings[0], Payload(strings[1..]));
      StringsRoundTrip(s, cursor + lengths[index], flags, lengths, strings[1..], index + 1);
      assert [strings[0]] + strings[1..] == strings;
    }
  }

  lemma HeadRoundTrip(r: Record)
    requires Typed(r)
    ensures HeadOk(HeadOf(r)) && RecordFrom(HeadOf(r), r.strings) == r
  {
    FlagBits(r);
    var h := HeadOf(r);
    assert BitSet(h.present, 0) == Flags(r)[0] && BitSet(h.present, 1) == Flags(r)[1];
    assert FromSigned(h.seconds) == Seconds(r);
    assert RecordFrom(h, r.strings).modified == r.modified;
    match r.isCurrent
    case None =>
    case Some(b) => assert h.current == Word(b);
  }

  /** Decoding what was encoded returns the record: absent stays apart from empty and `None` from
      `Some(false)`. */
  lemma ParseEncoded(r: Record)
    requires Typed(r) && Fits(r)
    ensures Parse(Layout(r)) == Some(r)
  {
    var s := Layout(r);
    LayoutScalars(r, s);
    HeadRoundTrip(r);
    AnnouncedStrings(r);
    StringsRoundTrip(s, HEADER, Presence(PackBits(Flags(r))), Lengths(r.strings), r.strings, 0);
  }

  lemma AnnouncedStrings(r: Record)
    requires Typed(r)
    ensures StringsOk(r.strings, Presence(PackBits(Flags(r))), Lengths(r.strings), 0)
  {
    FlagBits(r);
    forall i | 0 <= i < 7 ensures Presence(PackBits(Flags(r)))[i] == r.strings[i].Some? {
      assert BitSet(PackBits(Flags(r)), i + 2) == Flags(r)[i + 2];
    }
    StringsOkFrom(r.strings, Presence(PackBits(Flags(r))), Lengths(r.strings), 0);
    assert r.strings[0..] == r.strings;
  }

  // ------------------------------------------------------ encoding what was decoded

  lemma ReadStringBehind(s: Bytes, cursor: nat, length: nat, present: bool)
    requires cursor <= |s| && ReadString(s, cursor, length, present).Some?
    ensures var x := ReadString(s, cursor, length, present).value;
            && StringOk(x, present, length) && cursor + length <= |s|
            && s[cursor..] == Text(x) + s[cursor + length..]
  {
    assert s[cursor..] == s[cursor..cursor + length] + s[cursor + length..];
  }

  lemma {:induction false} ParsedStrings(s: Bytes, cursor: nat, flags: seq<bool>, lengths: seq<nat>, index: nat)
    requires |lengths| == |flags| && index <= |flags| && cursor <= |s|
    requires ParseStrings(s, cursor, flags, lengths, index).Some?
    ensures var strings := ParseStrings(s, cursor, flags, lengths, index).value;
            Payload(strings) == s[cursor..] && StringsOk(strings, flags, lengths, index)
    decreases |flags| - index
  {
    hide Octets;
    if index < |flags| {
      ReadStringBehind(s, cursor, lengths[index], flags[index]);
      ParsedStrings(s, cursor + lengths[index], flags, lengths, index + 1);
      var first := ReadString(s, cursor, lengths[index], flags[index]).value;
      var more := ParseStrings(s, cursor + lengths[index], flags, lengths, index + 1).value;
      assert ([first] + more)[1..] == more;
    }
  }

  lemma FieldFits(s: Bytes, k: nat)
    requires HEADER <= |s| && k < 18
    ensures Field(s, WIDTHS, k) < Pow256(WIDTHS[k])
  {
    FieldOffsets();
    OffsetGrows(WIDTHS, k + 1, 18);
    FromLeRoundTrip(s[Offset(WIDTHS, k)..Offset(WIDTHS, k + 1)]);
  }

  /** The presence bits are those of what was read. */
  lemma ParsedFlags(r: Record, bits: nat, lengths: seq<nat>)
    requires |lengths| == 7 && bits < 512
    requires r.isCurrent.Some? == BitSet(bits, 0) && r.modified.Some? == BitSet(bits, 1)
    requires StringsOk(r.strings, Presence(bits), lengths, 0)
    ensures PackBits(Flags(r)) == bits && Lengths(r.strings) == lengths && |r.strings| == 7
  {
    forall k | 0 <= k < 7 ensures |r.strings| == 7 && StringOk(r.strings[k], Presence(bits)[k], lengths[k]) {
      StringsOkAt(r.strings, Presence(bits), lengths, 0, k);
    }
    assert |r.strings| == 7 by { StringsOkAt(r.strings, Presence(bits), lengths, 0, 0); }
    assert Pow2(3) == 8 && Pow2(6) == 64 && Pow2(9) == 512;
    forall k | 0 <= k < 9 ensures Flags(r)[k] == BitSet(bits, k) {
      assert k >= 2 ==> r.strings[k - 2].Some? == Presence(bits)[k - 2];
    }
    BitsPack(bits, Flags(r));
  }

  /** A checked head is the head of the record it describes. */
  lemma ParsedHead(h: Head, strings: Strings, lengths: seq<nat>)
    requires HeadOk(h) && h.contentLength < U64 && h.seconds < U64 && |lengths| == 7
    requires StringsOk(strings, Presence(h.present), lengths, 0)
    ensures var r := RecordFrom(h, strings);
            Typed(r) && HeadOf(r) == h && Lengths(strings) == lengths
  {
    var r := RecordFrom(h, strings);
    ParsedFlags(r, h.present, lengths);
    forall i | 0 <= i < 7 ensures StringOk(strings[i], Presence(h.present)[i], lengths[i]) {
      StringsOkAt(strings, Presence(h.present), lengths, 0, i);
    }
  }

  lemma ParsedShape(s: Bytes)
    requires Parse(s).Some?
    ensures var r := Parse(s).value;
            && Typed(r) && HeadOf(r) == ReadHead(s) && Lengths(r.strings) == StringLengths(s)
            && Payload(r.strings) == s[HEADER..]
  {
    hide Octets;
    hide StringsOk;
    var h := ReadHead(s);
    ParsedStrings(s, HEADER, Presence(h.present), StringLengths(s), 0);
    PowConstants();
    FieldFits(s, 7);
    FieldFits(s, 8);
    ParsedHead(h, Parse(s).value.strings, StringLengths(s));
  }

  lemma ReadValue(s: Bytes, k: nat)
    requires HeaderOk(s) && k < 18
    ensures Values(ReadHead(s), StringLengths(s))[k] == Field(s, WIDTHS, k)
  {
    if k == 0 {
      FieldOffsets();
      MagicWord();
      assert s[0..4] == s[..4];
    } else if k >= 11 {
      assert Values(ReadHead(s), StringLengths(s))[k] == StringLengths(s)[k - 11];
    } else {
      assert k == 1 || k == 2 || k == 3 || k == 4 || k == 5 || k == 6 || k == 7 || k == 8 || k == 9 || k == 10;
    }
  }

  /** Snapshots are canonical: whatever is accepted is the encoding of what it decodes to. */
  lemma EncodeParsed(s: Bytes)
    requires Parse(s).Some?
    ensures Typed(Parse(s).value) && Fits(Parse(s).value) && Layout(Parse(s).value) == s
  {
    var r := Parse(s).value;
    ParsedShape(s);
    FieldOffsets();
    var values := Values(HeadOf(r), Lengths(r.strings));
    forall k | 0 <= k < 18 ensures values[k] == Field(s, WIDTHS, k) {
      ReadValue(s, k);
    }
    FieldsOf(s, WIDTHS, values, 18);
    assert s == s[..HEADER] + s[HEADER..];
  }

  lemma RecordsDetermine(a: Metadata, b: Metadata)
    requires TypedMetadata(a) && TypedMetadata(b) && Encoded(a, true).Ok? && Encoded(b, true).Ok?
    requires Normalised(a) == Normalised(b)
    ensures a == b
  {
    if a.lastModified.Some? && b.lastModified.Some? {
      NormaliseKeepsInstant(a.lastModified.value);
      NormaliseKeepsInstant(b.lastModified.value);
    }
  }

  lemma EncodedParses(m: Metadata)
    requires TypedMetadata(m) && Encoded(m, true).Ok?
    ensures Parse(Encoded(m, true).value) == Some(Normalised(m))
  {
    if m.lastModified.Some? {
      NormaliseKeepsInstant(m.lastModified.value);
    }
    ParseEncoded(Normalised(m));
  }

  /** Equal snapshots come from equal metadata. */
  lemma EncodingIsInjective(a: Metadata, b: Metadata)
    requires TypedMetadata(a) && TypedMetadata(b) && Encoded(a, true).Ok? && Encoded(a, true) == Encoded(b, true)
    ensures a == b
  {
    EncodedParses(a);
    EncodedParses(b);
    RecordsDetermine(a, b);
  }

  // ---------------------------------------------------------------- browser decoder

  function UnmarkedText(s: Option<Bytes>): Option<Bytes> {
    if s.Some? then Some(ErrorSnapshot.StripMark(s.value)) else None
  }

  function UnmarkedAll(strings: Strings): (r: Strings)
    ensures |r| == |strings| && forall i | 0 <= i < |r| :: r[i] == UnmarkedText(strings[i])
  {
    seq(|strings|, i requires 0 <= i < |strings| => UnmarkedText(strings[i]))
  }

  function Unmarked(r: Record): Record {
    r.(strings := UnmarkedAll(r.strings))
  }

  predicate AnyMark(strings: Strings) {
    exists i :: 0 <= i < |strings| && strings[i].Some? && ErrorSnapshot.BOM <= strings[i].value
  }

  function Joined(whole: Strings, more: Option<Strings>): Option<Strings> {
    if more.None? then None else Some(whole + more.value)
  }

  lemma JoinedAhead(whole: Strings, first: Option<Bytes>, more: Option<Strings>)
    ensures Joined(whole, Ahead(first, more)) == Joined(whole + [first], more)
    ensures UnmarkedAll(whole + [first]) == UnmarkedAll(whole) + [UnmarkedText(first)]
    ensures Joined([], more) == more
  {
    if more.Some? {
      assert whole + ([first] + more.value) == whole + [first] + more.value;
      assert [] + more.value == more.value;
    }
  }

  /** One string of the loop: absent, or decoded, or a reason to stop. */
  method DecodeString(s: Bytes, cursor: nat, length: nat, isPresent: bool) returns (result: Option<Option<Bytes>>)
    requires cursor <= |s|
    ensures result == match ReadString(s, cursor, length, isPresent)
                      case None => None
                      case Some(whole) => Some(UnmarkedText(whole))
  {
    if !isPresent && length != 0 {
      return None;
    }
    var end := cursor + length;
    if end > |s| {
      return None;
    }
    if !isPresent {
      return Some(None);
    }
    var text := ErrorSnapshot.DecodeText(s[cursor..end]);
    return if text.None? then None else Some(text);
  }

  /** The loop over the strings: a cursor that must end where the bytes end. */
  method DecodeStrings(s: Bytes, present: nat, lengths: seq<nat>) returns (result: Option<Strings>)
    requires HEADER <= |s| && |lengths| == 7
    ensures result == match ParseStrings(s, HEADER, Presence(present), lengths, 0)
                      case None => None
                      case Some(strings) => Some(UnmarkedAll(strings))
  {
    var cursor: nat := HEADER;
    var strings: Strings := [];
    ghost var whole: Strings := [];
    ghost var flags := Presence(present);
    ghost var parsed := ParseStrings(s, HEADER, flags, lengths, 0);
    JoinedAhead([], None, parsed);
    for index := 0 to 7
      invariant cursor <= |s| && strings == UnmarkedAll(whole)
      invariant parsed == Joined(whole, ParseStrings(s, cursor, flags, lengths, index))
    {
      var isPresent := BitSet(present, index + 2);
      var decoded := DecodeString(s, cursor, lengths[index], isPresent);
      if decoded.None? {
        return None;
      }
      var end := cursor + lengths[index];
      ghost var first := ReadString(s, cursor, lengths[index], isPresent).value;
      JoinedAhead(whole, first, ParseStrings(s, end, flags, lengths, index + 1));
      strings := strings + [decoded.value];
      whole := whole + [first];
      cursor := end;
    }
    if cursor != |s| {
      return None;
    }
    assert whole + [] == whole;
    return Some(strings);
  }

  /** The runtime's decoder is the canonical parser, except that it drops a leading mark from each
      text. */
  method DecodeMetadataSnapshot(s: Bytes) returns (result: Option<Record>)
    ensures result == match Parse(s)
                      case None => None
                      case Some(r) => Some(Unmarked(r))
  {
    FieldOffsets();
    if |s| < HEADER || |s| > MAX_SNAPSHOT || s[..4] != MAGIC || FromLe(s[4..8]) != SCHEMA {
      return None;
    }
    var present := FromLe(s[8..16]);
    var mode, current, deleted := FromLe(s[16..20]), FromLe(s[20..24]), FromLe(s[24..28]);
    if present >= 512 || mode > 2 || current > 1 || deleted > 1 || FromLe(s[28..32]) != 0 || FromLe(s[52..56]) != 0 {
      return None;
    }
    if !BitSet(present, 0) && current != 0 {
      return None;
    }
    var seconds, nanos := FromLe(s[40..48]), FromLe(s[48..52]);
    if nanos >= BILLION || (!BitSet(present, 1) && (seconds != 0 || nanos != 0)) {
      return None;
    }
    var lengths := StringLengths(s);
    var strings := DecodeStrings(s, present, lengths);
    if strings.None? {
      return None;
    }
    return Some(Record(ModeOf(mode), if BitSet(present, 0) then Some(current == 1) else None, deleted == 1, FromLe(s[32..40]),
                       if BitSet(present, 1) then Some(Moment(FromSigned(seconds), nanos)) else None, strings.value));
  }

  /** Metadata reaches the browser unchanged exactly when none of its texts starts with the mark. */
  lemma BrowserSeesRecord(r: Record)
    requires Typed(r) && Fits(r)
    ensures Parse(Layout(r)) == Some(r)
    ensures Unmarked(r) == r <==> !AnyMark(r.strings)
  {
    ParseEncoded(r);
    if !AnyMark(r.strings) {
      assert UnmarkedAll(r.strings) == r.strings;
    }
    if Unmarked(r) == r {
      forall i | 0 <= i < |r.strings| && r.strings[i].Some? ensures !(ErrorSnapshot.BOM <= r.strings[i].value) {
        assert UnmarkedAll(r.strings)[i] == r.strings[i];
      }
    }
  }
}
