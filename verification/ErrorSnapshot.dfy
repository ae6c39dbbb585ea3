/** The ODE1 error snapshot: the bridge's encoder, its reference decoder and the decoder of the
    browser runtime. Text is kept as its UTF-8 bytes. */
module ErrorSnapshot {
  import opened Basics
  import opened BridgeTypes
  import opened Unicode
  import opened LittleEndian

  const MAX_SNAPSHOT: nat := 67108864
  const HEADER: nat := 24
  const SCHEMA: nat := 1
  const MAGIC: Bytes := [0x4F, 0x44, 0x45, 0x31]
  const MAGIC_WORD: nat := 0x3145444F

  datatype ErrorInfo = ErrorInfo(kind: nat, status: nat, name: Bytes, message: Bytes)

  /** What the types of the source guarantee: 32-bit words and UTF-8 text. */
  ghost predicate Typed(e: ErrorInfo) {
    e.kind < U32 && e.status < U32 && Octets(e.name) && Octets(e.message)
  }

  const WORDS: seq<nat> := [4, 4, 4, 4, 4, 4]

  function Header(e: ErrorInfo): seq<nat> {
    [MAGIC_WORD, SCHEMA, e.kind, e.status, |e.name|, |e.message|]
  }

  /** Six words, then the name, then the message. */
  function Layout(e: ErrorInfo): Bytes {
    Fields(WORDS, Header(e), 6) + e.name + e.message
  }

  predicate Fits(e: ErrorInfo) {
    HEADER + |e.name| + |e.message| <= MAX_SNAPSHOT
  }

  lemma WordOffsets()
    ensures Offset(WORDS, 0) == 0 && Offset(WORDS, 1) == 4 && Offset(WORDS, 2) == 8 && Offset(WORDS, 3) == 12
    ensures Offset(WORDS, 4) == 16 && Offset(WORDS, 5) == 20 && Offset(WORDS, 6) == 24
  {
    assert Offset(WORDS, 1) == 4;
    assert Offset(WORDS, 2) == 8;
    assert Offset(WORDS, 3) == 12;
    assert Offset(WORDS, 4) == 16;
  }

  lemma MagicWord()
    ensures Le(MAGIC_WORD, 4) == MAGIC && FromLe(MAGIC) == MAGIC_WORD
  {
    assert Le(0x31, 1) == [0x31];
    assert Le(0x3145, 2) == [0x45, 0x31];
    assert Le(0x314544, 3) == [0x44, 0x45, 0x31];
    PowConstants();
    LeRoundTrip(MAGIC_WORD, 4);
  }

  lemma SnapshotField(e: ErrorInfo, k: nat, at: nat)
    requires k < 6 && at == Offset(WORDS, k)
    ensures at + 4 <= |Layout(e)| && Layout(e)[at..at + 4] == Le(Header(e)[k], 4)
  {
    hide Le;
    hide Fields;
    hide Offset;
    FieldBytes(WORDS, Header(e), 6, k, e.name + e.message);
    assert Layout(e) == Fields(WORDS, Header(e), 6) + (e.name + e.message);
    assert WORDS[k] == 4;
  }

  /** The bytes of a snapshot, at their places. */
  lemma SnapshotWords(e: ErrorInfo)
    ensures |Layout(e)| == 24 + |e.name| + |e.message|
    ensures Layout(e)[0..4] == [0x4F, 0x44, 0x45, 0x31] && Layout(e)[4..8] == [1, 0, 0, 0]
    ensures Layout(e)[8..12] == Le(e.kind, 4) && Layout(e)[12..16] == Le(e.status, 4)
    ensures Layout(e)[16..20] == Le(|e.name|, 4) && Layout(e)[20..24] == Le(|e.message|, 4)
    ensures Layout(e)[24..24 + |e.name|] == e.name && Layout(e)[24 + |e.name|..] == e.message
  {
    WordOffsets();
    MagicWord();
    SmallWord(1);
    assert Layout(e)[24..24 + |e.name|] == e.name && Layout(e)[24 + |e.name|..] == e.message;
    assert |Layout(e)| == 24 + |e.name| + |e.message|;
    hide Layout;
    hide Offset;
    hide Le;
    SnapshotField(e, 0, 0);
    SnapshotField(e, 1, 4);
    SnapshotField(e, 2, 8);
    SnapshotField(e, 3, 12);
    SnapshotField(e, 4, 16);
    SnapshotField(e, 5, 20);
  }

  method PutMagic(ghost header: seq<nat>) returns (s: Bytes)
    requires |header| == 6 && header[0] == MAGIC_WORD
    ensures s == Fields(WORDS, header, 1)
  {
    MagicWord();
    s := MAGIC;
  }

  /** Refuses exactly the errors whose snapshot would pass the buffer limit. */
  method ErrorSnapshotBytes(e: ErrorInfo, allocates: bool) returns (result: Result<Bytes>)
    ensures result == if !Fits(e) then Err(BufferTooLarge)
                      else if !allocates then Err(AllocationFailed)
                      else Ok(Layout(e))
  {
    if |e.name| >= U32 || |e.message| >= U32 {
      return Err(BufferTooLarge);
    }
    if HEADER + |e.name| + |e.message| > MAX_SNAPSHOT {
      return Err(BufferTooLarge);
    }
    if !allocates {
      return Err(AllocationFailed);
    }
    ghost var header := Header(e);
    var snapshot := PutMagic(header);
    snapshot := PutField(snapshot, SCHEMA, 4, WORDS, header, 1);
    snapshot := PutField(snapshot, e.kind, 4, WORDS, header, 2);
    snapshot := PutField(snapshot, e.status, 4, WORDS, header, 3);
    snapshot := PutField(snapshot, |e.name|, 4, WORDS, header, 4);
    snapshot := PutField(snapshot, |e.message|, 4, WORDS, header, 5);
    snapshot := snapshot + e.name;
    snapshot := snapshot + e.message;
    return Ok(snapshot);
  }

  function Word(s: Bytes, offset: nat): nat
    requires offset + 4 <= |s|
  {
    FromLe(s[offset..offset + 4])
  }

  /** The bridge's own decoder. */
  function Decode(s: Bytes): Option<ErrorInfo> {
    if |s| < 4 || s[..4] != MAGIC then None
    else if |s| < 8 || Word(s, 4) != SCHEMA then None
    else if |s| < HEADER then None
    else
      var nameEnd := HEADER + Word(s, 16);
      var messageEnd := nameEnd + Word(s, 20);
      if messageEnd != |s| then None
      else if !Octets(s[HEADER..nameEnd]) || !Octets(s[nameEnd..messageEnd]) then None
      else Some(ErrorInfo(Word(s, 8), Word(s, 12), s[HEADER..nameEnd], s[nameEnd..messageEnd]))
  }

  lemma HeaderField(e: ErrorInfo, k: nat)
    requires Typed(e) && Fits(e) && k < 6
    ensures Field(Fields(WORDS, Header(e), 6), WORDS, k) == Header(e)[k]
  {
    PowConstants();
    FieldOf(WORDS, Header(e), 6, k);
  }

  lemma LayoutField(e: ErrorInfo, s: Bytes, k: nat)
    requires Typed(e) && Fits(e) && s == Layout(e) && k < 6
    ensures Offset(WORDS, k + 1) <= |s|
    ensures FromLe(s[Offset(WORDS, k)..Offset(WORDS, k + 1)]) == Header(e)[k]
  {
    hide Fields;
    hide FromLe;
    hide Typed;
    hide Fits;
    var h := Fields(WORDS, Header(e), 6);
    OffsetGrows(WORDS, k + 1, 6);
    HeaderField(e, k);
    assert s == h + (e.name + e.message);
    assert s[Offset(WORDS, k)..Offset(WORDS, k + 1)] == h[Offset(WORDS, k)..Offset(WORDS, k + 1)];
  }

  lemma HeaderWords(e: ErrorInfo, s: Bytes)
    requires Typed(e) && Fits(e) && s == Layout(e)
    ensures |s| == HEADER + |e.name| + |e.message|
    ensures s[..4] == MAGIC && Word(s, 4) == SCHEMA
    ensures Word(s, 8) == e.kind && Word(s, 12) == e.status && Word(s, 16) == |e.name| && Word(s, 20) == |e.message|
  {
    WordOffsets();
    LayoutField(e, s, 0);
    LayoutField(e, s, 1);
    LayoutField(e, s, 2);
    LayoutField(e, s, 3);
    LayoutField(e, s, 4);
    LayoutField(e, s, 5);
    assert s[0..4] == s[..4];
    MagicWord();
    FromLeRoundTrip(s[..4]);
  }

  lemma LayoutTexts(e: ErrorInfo, s: Bytes)
    requires s == Layout(e)
    ensures |s| == HEADER + |e.name| + |e.message|
    ensures s[HEADER..HEADER + |e.name|] == e.name && s[HEADER + |e.name|..|s|] == e.message
  {
    WordOffsets();
  }

  /** Decoding what was encoded returns the error. */
  lemma DecodeEncoded(e: ErrorInfo)
    requires Typed(e) && Fits(e)
    ensures Decode(Layout(e)) == Some(e)
  {
    HeaderWords(e, Layout(e));
    LayoutTexts(e, Layout(e));
  }

  lemma DecodedField(s: Bytes, k: nat)
    requires Decode(s).Some? && k < 6
    ensures Header(Decode(s).value)[k] == Field(s, WORDS, k)
  {
    WordOffsets();
    MagicWord();
    assert s[0..4] == s[..4];
    assert k == 0 || k == 1 || k == 2 || k == 3 || k == 4 || k == 5;
  }

  /** Whatever the decoder accepts is the encoding of what it returns. */
  lemma EncodeDecoded(s: Bytes)
    requires Decode(s).Some?
    ensures Typed(Decode(s).value) && Layout(Decode(s).value) == s
    ensures Fits(Decode(s).value) <==> |s| <= MAX_SNAPSHOT
  {
    var e := Decode(s).value;
    WordOffsets();
    PowConstants();
    FromLeRoundTrip(s[8..12]);
    FromLeRoundTrip(s[12..16]);
    forall k | 0 <= k < 6 ensures Header(e)[k] == Field(s, WORDS, k) {
      DecodedField(s, k);
    }
    FieldsOf(s, WORDS, Header(e), 6);
    var nameEnd := HEADER + |e.name|;
    assert e.name == s[HEADER..nameEnd] && e.message == s[nameEnd..];
    assert s == s[..HEADER] + s[HEADER..nameEnd] + s[nameEnd..];
  }

  // ------------------------------------------------------------ browser runtime

  /** U+FEFF, which a text decoder drops from the front of what it decodes. */
  const BOM: Bytes := [0xEF, 0xBB, 0xBF]

  function StripMark(s: Bytes): Bytes {
    if BOM <= s then s[3..] else s
  }

  /** A fatal UTF-8 text decoder that does not keep the mark. */
  function DecodeText(s: Bytes): Option<Bytes> {
    if Octets(s) then Some(StripMark(s)) else None
  }

  function BrowserDecode(s: Bytes): Option<ErrorInfo> {
    if |s| < HEADER || s[..4] != MAGIC then None
    else if Word(s, 4) != SCHEMA then None
    else
      var nameEnd := HEADER + Word(s, 16);
      var messageEnd := nameEnd + Word(s, 20);
      if nameEnd < HEADER || messageEnd < nameEnd || messageEnd != |s| || messageEnd > MAX_SNAPSHOT then None
      else
        match (DecodeText(s[HEADER..nameEnd]), DecodeText(s[nameEnd..messageEnd]))
        case (Some(name), Some(message)) => Some(ErrorInfo(Word(s, 8), Word(s, 12), name, message))
        case _ => None
  }

  function Unmarked(e: ErrorInfo): ErrorInfo {
    e.(name := StripMark(e.name), message := StripMark(e.message))
  }

  /** The two decoders accept the same snapshots within the limit, and differ only in the mark. */
  lemma BrowserAgrees(s: Bytes)
    ensures BrowserDecode(s) == if Decode(s).Some? && |s| <= MAX_SNAPSHOT then Some(Unmarked(Decode(s).value)) else None
  {
  }

  /** The error reaches the browser unchanged exactly when neither text starts with the mark. */
  lemma BrowserDecodesEncoded(e: ErrorInfo)
    requires Typed(e) && Fits(e)
    ensures BrowserDecode(Layout(e)) == Some(Unmarked(e))
    ensures BrowserDecode(Layout(e)) == Some(e) <==> !(BOM <= e.name) && !(BOM <= e.message)
  {
    HeaderWords(e, Layout(e));
    LayoutTexts(e, Layout(e));
    BrowserAgrees(Layout(e));
  }

  /** The name of the kind with code 1. */
  const UNEXPECTED: Bytes := [0x55, 0x6E, 0x65, 0x78, 0x70, 0x65, 0x63, 0x74, 0x65, 0x64]

  /** An unexpected error whose message is just the mark arrives with an empty message. */
  lemma MarkIsLost()
    ensures var e := ErrorInfo(1, 1, UNEXPECTED, BOM);
            Typed(e) && Fits(e) && BrowserDecode(Layout(e)) == Some(e.(message := []))
  {
    hide Layout;
    hide BrowserDecode;
    var e := ErrorInfo(1, 1, UNEXPECTED, BOM);
    AsciiIsText(UNEXPECTED);
    assert IsChar(BOM[..3]);
    OctetsAfter(BOM, 3);
    assert BOM[3..] == [];
    BrowserDecodesEncoded(e);
  }
}
