/** From the driver's arguments over the script's document to the normaliser: a character limit for the
    writer, a byte limit for the reader. */
module CodeMapPipeline {
  import opened CodeMapBytes
  import opened CodeMapDocument
  import opened CodeMapNormaliser
  import opened JsonText
  import opened NativeCodeMap
  import opened Results
  import opened Utf8

  // ---- what the script is made to write ----------------------------------------------------

  /** The document for the limits of an operation. */
  function PreparedDocument(p: Program, maxRecords: nat, maxOutputBytes: nat): Document
    requires maxRecords > 0
  {
    ScriptDocument(p, PreparedRecords(maxRecords), PreparedJson(maxOutputBytes))
  }

  function PreparedText(p: Program, maxRecords: nat, maxOutputBytes: nat): string
    requires maxRecords > 0
  {
    Render(DocumentJson(PreparedDocument(p, maxRecords, maxOutputBytes)))
  }

  /** The text is within the script's character limit. */
  predicate Written(p: Program, maxRecords: nat, maxOutputBytes: nat)
    requires maxRecords > 0
  {
    |PreparedText(p, maxRecords, maxOutputBytes)| <= PreparedJson(maxOutputBytes)
  }

  /** The file is within the reader's byte limit. */
  predicate Readable(p: Program, maxRecords: nat, maxOutputBytes: nat)
    requires maxRecords > 0
  {
    Utf8Length(PreparedText(p, maxRecords, maxOutputBytes)) <= maxOutputBytes
  }

  // ---- the least limit under which all that is written can be read -------------------------

  const ENOUGH_BYTES := 2212

  /** Every ASCII character of the metadata lowers the limit that is enough by two bytes. */
  lemma WrittenIsReadable(p: Program, maxRecords: nat, maxOutputBytes: nat)
    requires maxRecords > 0 && Written(p, maxRecords, maxOutputBytes)
    requires maxOutputBytes + 2 * MetaAscii(p.meta) >= ENOUGH_BYTES
    ensures Readable(p, maxRecords, maxOutputBytes)
  {
    DocumentBytes(PreparedDocument(p, maxRecords, maxOutputBytes));
    MetaSpares(p.meta);
  }

  /** Below the frame and the metadata nothing is readable, whatever the program holds. */
  lemma FrameIsTooLarge(p: Program, maxRecords: nat, maxOutputBytes: nat)
    requires maxRecords > 0 && maxOutputBytes < 430 + MetaBytes(p.meta)
    ensures !Readable(p, maxRecords, maxOutputBytes)
  {
    DocumentBytes(PreparedDocument(p, maxRecords, maxOutputBytes));
  }

  /** Characters of three bytes each. */
  function WideName(n: nat): (name: string)
    ensures |name| == n && Wide(name)
  {
    seq(n, i => '\U{4E2D}')
  }

  function LongName(): (name: string)
    ensures |name| == 200
  {
    seq(200, i => 'f')
  }

  /** What the loader and the processor module say of a program. */
  datatype Origin = Origin(format: string, language: string, compilerSpec: string, imageBase: string)

  predicate PlainOrigin(o: Origin) {
    Plain(o.format) && Plain(o.language) && Plain(o.compilerSpec) && Plain(o.imageBase)
  }

  function OriginLength(o: Origin): nat {
    |o.format| + |o.language| + |o.compilerSpec| + |o.imageBase|
  }

  predicate HasOrigin(m: Meta, o: Origin) {
    m == Meta(m.name, o.format, o.language, o.compilerSpec, o.imageBase)
  }

  /** A program with a wide name, a function too long for the buffer of functions, and one string. */
  function WideProgram(o: Origin, n: nat): (p: Program)
    ensures ProgramOk(p) && HasOrigin(p.meta, o) && p.meta.name == WideName(n)
  {
    Program(Meta(WideName(n), o.format, o.language, o.compilerSpec, o.imageBase), 1,
      [Function(LongName(), "", "e", "", 0, false, false, Decompilation("", None), [])],
      [DefinedString("a", "", 0, Some(""), [])])
  }

  lemma {:induction false} EscapedIsLonger(s: string)
    ensures |EscapeAll(s)| >= |s|
  {
    if s != [] {
      EscapedIsLonger(s[1..]);
    }
  }

  /** A record is at least as long as its first text. */
  lemma RecordIsLonger(key: string, value: string, more: seq<Field>)
    ensures |Render(JObject([Field(key, JString(value))] + more))| >= |value|
  {
    var fields := [Field(key, JString(value))] + more;
    ObjectText(fields);
    EscapedIsLonger(value);
    assert FieldTexts(fields)[0] == FieldText(fields[0]);
  }

  lemma LongRecordIsCut(f: Function, w: Writers, caps: Caps)
    requires w.ofFunction == FunctionJson && |f.name| > caps.functions.characters
    ensures TakeFunctions([f], 1, w, caps) == Harvest([], [], true, false)
  {
    var r := RecordOf(f, caps.code);
    var fields := FunctionJson(r).fields;
    assert fields == [fields[0]] + fields[1..];
    RecordIsLonger("name", r.name, fields[1..]);
    TakeFunctionsNext([f], 0, w, caps);
  }

  lemma NoStringFits(s: DefinedString, w: Writers, caps: Caps)
    requires s.value.Some? && caps.strings.records == 0
    ensures TakeStrings([s], 1, w, caps) == StringHarvest([], [], true, false)
  {
    assert TakeStrings([s], 0, w, caps) == NO_STRINGS;
    assert NextString(NO_STRINGS, [s][0], w, caps) == NO_STRINGS.(stringsCut := true);
  }

  lemma WideDocument(o: Origin, n: nat, maxOutputBytes: nat) returns (p: Program, maxRecords: nat)
    requires maxOutputBytes < ENOUGH_BYTES
    ensures ProgramOk(p) && HasOrigin(p.meta, o) && p.meta.name == WideName(n) && maxRecords > 0
    ensures var d := PreparedDocument(p, maxRecords, maxOutputBytes); Bare(d) && d.meta == p.meta
  {
    p, maxRecords := WideProgram(o, n), 1;
    var w, caps := DocumentWriters(), CapsOf(1, 1024);
    LongRecordIsCut(p.functions[0], w, caps);
    NoStringFits(p.strings[0], w, caps);
  }

  lemma PlainText(s: string)
    requires Plain(s)
    ensures |EscapeAll(s)| == Utf8Length(EscapeAll(s)) == |s|
  {
    UnescapedIsKept(s);
    AsciiMeasure(s, DoubleWidth);
    LengthAndSpare(s);
  }

  predicate Wide(s: string) {
    forall i :: 0 <= i < |s| ==> s[i] == '\U{4E2D}'
  }

  lemma WideIsUnescaped(s: string)
    requires Wide(s)
    ensures EscapeAll(s) == s
  {
    UnescapedIsKept(s);
  }

  lemma WideLength(s: string)
    requires Wide(s)
    ensures Utf8Length(s) == 3 * |s|
  {
    Repeated(s, '\U{4E2D}', Utf8Width);
  }

  lemma WideText(name: string, n: nat)
    requires name == WideName(n)
    ensures |EscapeAll(name)| == n && Utf8Length(EscapeAll(name)) == 3 * n
  {
    WideIsUnescaped(name);
    WideLength(name);
  }

  lemma WideMeta(m: Meta, o: Origin, n: nat)
    requires PlainOrigin(o) && HasOrigin(m, o) && m.name == WideName(n)
    ensures MetaCharacters(m) == n + OriginLength(o) && MetaBytes(m) == 3 * n + OriginLength(o)
  {
    WideText(m.name, n);
    PlainText(o.format);
    PlainText(o.language);
    PlainText(o.compilerSpec);
    PlainText(o.imageBase);
  }

  lemma WideBytes(d: Document, o: Origin, n: nat)
    requires PlainOrigin(o) && HasOrigin(d.meta, o) && d.meta.name == WideName(n) && Bare(d)
             && n + OriginLength(o) == 594
    ensures |Render(DocumentJson(d))| == 1024
            && Utf8Length(Render(DocumentJson(d))) == ENOUGH_BYTES - 2 * OriginLength(o)
  {
    DocumentBytes(d);
    WideMeta(d.meta, o, n);
  }

  /** Wherever a program of `k` plain characters of origin comes from: under every limit below 2212 - 2k bytes
      there is one whose text is written, with 1024 characters, and is too large, with 2212 - 2k bytes. */
  lemma WideTextIsTooLarge(o: Origin, maxOutputBytes: nat) returns (p: Program, maxRecords: nat)
    requires PlainOrigin(o) && OriginLength(o) <= 594 && maxOutputBytes + 2 * OriginLength(o) < ENOUGH_BYTES
    ensures ProgramOk(p) && HasOrigin(p.meta, o) && p.meta.name == WideName(594 - OriginLength(o)) && maxRecords > 0
    ensures |PreparedText(p, maxRecords, maxOutputBytes)| == 1024
    ensures Written(p, maxRecords, maxOutputBytes) && !Readable(p, maxRecords, maxOutputBytes)
  {
    p, maxRecords := WideDocument(o, 594 - OriginLength(o), maxOutputBytes);
    WideBytes(PreparedDocument(p, maxRecords, maxOutputBytes), o, 594 - OriginLength(o));
  }

  ghost predicate AllReadableFrom(o: Origin, maxOutputBytes: nat) {
    forall p: Program, maxRecords: nat {:trigger Written(p, maxRecords, maxOutputBytes)} ::
      ProgramOk(p) && HasOrigin(p.meta, o) && maxRecords > 0 && Written(p, maxRecords, maxOutputBytes)
      ==> Readable(p, maxRecords, maxOutputBytes)
  }

  /** Whatever the script writes for programs of one origin can be read, exactly when the operation allows
      2212 bytes of output, less two for every character of the origin. */
  lemma ReadableExactlyFromOrigin(o: Origin, maxOutputBytes: nat)
    requires PlainOrigin(o) && OriginLength(o) <= 594
    ensures AllReadableFrom(o, maxOutputBytes) <==> maxOutputBytes + 2 * OriginLength(o) >= ENOUGH_BYTES
  {
    if maxOutputBytes + 2 * OriginLength(o) >= ENOUGH_BYTES {
      forall p: Program, maxRecords: nat | HasOrigin(p.meta, o) && maxRecords > 0
        && Written(p, maxRecords, maxOutputBytes)
        ensures Readable(p, maxRecords, maxOutputBytes)
      {
        WrittenIsReadable(p, maxRecords, maxOutputBytes);
      }
    } else {
      var p, maxRecords := WideTextIsTooLarge(o, maxOutputBytes);
    }
  }

  ghost predicate AllWrittenIsReadable(maxOutputBytes: nat) {
    forall p: Program, maxRecords: nat {:trigger Written(p, maxRecords, maxOutputBytes)} ::
      ProgramOk(p) && maxRecords > 0 && Written(p, maxRecords, maxOutputBytes) ==>
          Readable(p, maxRecords, maxOutputBytes)
  }

  /** The same over programs of every origin: exactly from 2212 bytes on. */
  lemma ReadableExactlyFromThreshold(maxOutputBytes: nat)
    ensures AllWrittenIsReadable(maxOutputBytes) <==> maxOutputBytes >= ENOUGH_BYTES
  {
    if maxOutputBytes >= ENOUGH_BYTES {
      forall p: Program, maxRecords: nat | maxRecords > 0 && Written(p, maxRecords, maxOutputBytes)
        ensures Readable(p, maxRecords, maxOutputBytes)
      {
        WrittenIsReadable(p, maxRecords, maxOutputBytes);
      }
    } else {
      var p, maxRecords := WideTextIsTooLarge(Origin("", "", "", ""), maxOutputBytes);
    }
  }

  // ---- the pipeline ------------------------------------------------------------------------

  /** The content checks accept every document the script writes, once it has been read back from its text. */
  lemma ScriptOutputIsAccepted(p: Program, maxRecords: nat, maxOutputBytes: nat)
    requires ProgramOk(p) && maxRecords > 0
    ensures var d := PreparedDocument(p, maxRecords, maxOutputBytes);
            && Parse(PreparedText(p, maxRecords, maxOutputBytes)) == Some(DocumentJson(d))
            && ReadDocument(DocumentJson(d)) == Some(d) && Accepts(d, maxRecords)
  {
    var d := PreparedDocument(p, maxRecords, maxOutputBytes);
    ScriptDocumentIsAccepted(p, PreparedRecords(maxRecords), PreparedJson(maxOutputBytes));
    RoundTrip(DocumentJson(d));
    DocumentIsRead(d);
  }

  /** From the driver's arguments to the normalised result: what is written is accepted, unless the file is
      too large for the reader. */
  method MapAndNormalise(p: Program, maxRecords: nat, maxOutputBytes: nat, wallSeconds: nat, cpuSeconds: nat)
    returns (written: bool, accepted: bool)
    requires ProgramOk(p) && maxRecords > 0 && maxOutputBytes > 0 && wallSeconds > 0 && cpuSeconds > 0
    ensures written <==> Written(p, maxRecords, maxOutputBytes)
    ensures accepted <==> written && Readable(p, maxRecords, maxOutputBytes)
    ensures maxOutputBytes + 2 * MetaAscii(p.meta) >= ENOUGH_BYTES ==> accepted == written
    ensures maxOutputBytes < 430 + MetaBytes(p.meta) ==> !accepted
  {
    PreparedArgumentsAreAccepted(maxRecords, maxOutputBytes, wallSeconds, cpuSeconds);
    var text := Run(p, PreparedRecords(maxRecords), PreparedJson(maxOutputBytes),
      PreparedSeconds(wallSeconds, cpuSeconds));
    if text.None? {
      return false, false;
    }
    ScriptOutputIsAccepted(p, maxRecords, maxOutputBytes);
    var result := NormaliseText(text.value, maxOutputBytes, maxRecords);
    if maxOutputBytes + 2 * MetaAscii(p.meta) >= ENOUGH_BYTES {
      WrittenIsReadable(p, maxRecords, maxOutputBytes);
    }
    if maxOutputBytes < 430 + MetaBytes(p.meta) {
      FrameIsTooLarge(p, maxRecords, maxOutputBytes);
    }
    return true, result.Some?;
  }
}
