/** How long the text of a code map document is, in characters and in bytes: the frame every document has,
    and what its values add. */
module CodeMapBytes {
  import opened CodeMapDocument
  import opened JsonText
  import opened Utf8

  // ---- the weight of a document's frame ----------------------------------------------------

  /** Nothing in the text is escaped. */
  predicate Unescaped(s: string) {
    forall i :: 0 <= i < |s| ==> s[i] >= ' ' && s[i] != '"' && s[i] != '\\'
  }

  predicate Plain(s: string) {
    Unescaped(s) && Ascii(s)
  }

  lemma {:induction false} UnescapedIsKept(s: string)
    requires Unescaped(s)
    ensures EscapeAll(s) == s
  {
    if s != [] {
      UnescapedIsKept(s[1..]);
      assert Escape(s[0]) == [s[0]];
    }
  }

  lemma QuotedMeasure(s: string, w: char -> nat)
    requires FlatOnAscii(w)
    ensures Measure(Quoted(s), w) == 4 + Measure(EscapeAll(s), w)
    ensures Plain(s) ==> Measure(Quoted(s), w) == 4 + 2 * |s|
  {
    MeasureJoins("\"" + EscapeAll(s), "\"", w);
    MeasureJoins("\"", EscapeAll(s), w);
    Single('"', w);
    if Plain(s) {
      UnescapedIsKept(s);
      AsciiMeasure(s, w);
    }
  }

  lemma Single(c: char, w: char -> nat)
    ensures Measure([c], w) == w(c)
  {
    assert [c][..0] == [];
  }

  lemma FieldMeasure(key: string, value: Json, w: char -> nat)
    requires FlatOnAscii(w) && Plain(key)
    ensures Measure(FieldText(Field(key, value)), w) == 6 + 2 * |key| + Measure(Render(value), w)
  {
    QuotedMeasure(key, w);
    UnescapedIsKept(key);
    MeasureJoins(Quoted(key) + ":", Render(value), w);
    MeasureJoins(Quoted(key), ":", w);
    Single(':', w);
  }

  lemma ArrayMeasure(items: seq<Json>, w: char -> nat)
    requires FlatOnAscii(w)
    ensures Measure(Render(JArray(items)), w) == 4 + Measure(Join(ItemTexts(items)), w)
  {
    var body := Join(ItemTexts(items));
    assert Render(JArray(items)) == "[" + body + "]";
    MeasureJoins("[" + body, "]", w);
    MeasureJoins("[", body, w);
    Single('[', w);
    Single(']', w);
  }

  // ---- the same, with the measure of a value behind a function ------------------------------

  /** Marks the values whose text is looked into. */
  predicate Opened(j: Json) {
    true
  }

  /** The function measures the text of a value. */
  ghost predicate Sizes(size: Json -> nat, w: char -> nat) {
    && FlatOnAscii(w)
    && forall j {:trigger Opened(j)} :: Opened(j) ==> size(j) == Measure(Render(j), w)
  }

  lemma TextSize(s: string, size: Json -> nat, w: char -> nat)
    requires Sizes(size, w)
    ensures size(JString(s)) == 4 + Measure(EscapeAll(s), w)
  {
    assert Opened(JString(s));
    QuotedMeasure(s, w);
  }

  lemma PlainSize(s: string, size: Json -> nat, w: char -> nat)
    requires Sizes(size, w) && Plain(s)
    ensures size(JString(s)) == 4 + 2 * |s|
  {
    TextSize(s, size, w);
    UnescapedIsKept(s);
    AsciiMeasure(s, w);
  }

  lemma FieldSize(f: Field, size: Json -> nat, w: char -> nat)
    requires Sizes(size, w) && Plain(f.key)
    ensures Measure(FieldText(f), w) == 6 + 2 * |f.key| + size(f.value)
  {
    assert Opened(f.value);
    FieldMeasure(f.key, f.value, w);
  }

  lemma IntSize(i: int, size: Json -> nat, w: char -> nat)
    requires Sizes(size, w)
    ensures size(JInt(i)) == Measure(IntText(i), w)
  {
    assert Opened(JInt(i));
  }

  lemma ArraySize(items: seq<Json>, size: Json -> nat, w: char -> nat)
    requires Sizes(size, w)
    ensures size(JArray(items)) == 4 + Measure(Join(ItemTexts(items)), w)
  {
    assert Opened(JArray(items));
    ArrayMeasure(items, w);
  }

  /** The first `n` members: quotes, colon and comma of each, its key and its value. */
  function MembersSize(fields: seq<Field>, size: Json -> nat, n: nat): nat
    requires n <= |fields|
    decreases n
  {
    if n == 0 then 0
    else MembersSize(fields, size, n - 1) + 8 + 2 * |fields[n - 1].key| + size(fields[n - 1].value)
  }

  ghost predicate PlainKeys(fields: seq<Field>) {
    forall i :: 0 <= i < |fields| ==> Plain(fields[i].key)
  }

  lemma JoinNext(texts: seq<string>, n: nat, w: char -> nat)
    requires FlatOnAscii(w) && 0 < n < |texts|
    ensures Measure(Join(texts[..n + 1]), w) == Measure(Join(texts[..n]), w) + 2 + Measure(texts[n], w)
  {
    assert texts[..n + 1] == texts[..n] + [texts[n]];
    JoinAppend(texts[..n], texts[n]);
    MeasureJoins(Join(texts[..n]) + ",", texts[n], w);
    MeasureJoins(Join(texts[..n]), ",", w);
    Single(',', w);
  }

  /** The first `n` texts, each with a comma. */
  function TextsMeasure(texts: seq<string>, n: nat, w: char -> nat): nat
    requires n <= |texts|
  {
    if n == 0 then 0 else TextsMeasure(texts, n - 1, w) + Measure(texts[n - 1], w) + 2
  }

  lemma {:induction false} JoinMeasure(texts: seq<string>, n: nat, w: char -> nat)
    requires FlatOnAscii(w) && 0 < n <= |texts|
    ensures Measure(Join(texts[..n]), w) + 2 == TextsMeasure(texts, n, w)
  {
    if n == 1 {
      assert texts[..1] == [texts[0]];
    } else {
      JoinMeasure(texts, n - 1, w);
      JoinNext(texts, n - 1, w);
    }
  }

  /** Each text weighs what its member does. */
  ghost predicate Weighed(texts: seq<string>, fields: seq<Field>, size: Json -> nat, w: char -> nat) {
    && |texts| == |fields|
    && forall i :: 0 <= i < |texts| ==> Measure(texts[i], w) == 6 + 2 * |fields[i].key| + size(fields[i].value)
  }

  lemma {:induction false} MembersMeasure(
    texts: seq<string>, fields: seq<Field>, n: nat, size: Json -> nat, w: char -> nat)
    requires Weighed(texts, fields, size, w) && n <= |fields|
    ensures TextsMeasure(texts, n, w) == MembersSize(fields, size, n)
  {
    if n > 0 {
      MembersMeasure(texts, fields, n - 1, size, w);
    }
  }

  lemma FieldsAreWeighed(fields: seq<Field>, size: Json -> nat, w: char -> nat)
    requires Sizes(size, w) && PlainKeys(fields)
    ensures Weighed(FieldTexts(fields), fields, size, w)
  {
    forall i | 0 <= i < |fields|
      ensures Measure(FieldTexts(fields)[i], w) == 6 + 2 * |fields[i].key| + size(fields[i].value)
    {
      FieldSize(fields[i], size, w);
    }
  }

  lemma MembersAreJoined(fields: seq<Field>, size: Json -> nat, w: char -> nat)
    requires Sizes(size, w) && PlainKeys(fields) && fields != []
    ensures Measure(Join(FieldTexts(fields)), w) + 2 == MembersSize(fields, size, |fields|)
  {
    var texts := FieldTexts(fields);
    FieldsAreWeighed(fields, size, w);
    assert texts[..|fields|] == texts;
    JoinMeasure(texts, |fields|, w);
    MembersMeasure(texts, fields, |fields|, size, w);
  }

  lemma BracesMeasure(body: string, w: char -> nat)
    requires FlatOnAscii(w)
    ensures Measure("{" + body + "}", w) == 4 + Measure(body, w)
  {
    MeasureJoins("{" + body, "}", w);
    MeasureJoins("{", body, w);
    Single('{', w);
    Single('}', w);
  }

  /** An object: its members between braces. */
  lemma ObjectSize(fields: seq<Field>, size: Json -> nat, w: char -> nat)
    requires Sizes(size, w) && PlainKeys(fields) && fields != []
    ensures size(JObject(fields)) == 2 + MembersSize(fields, size, |fields|)
  {
    MembersAreJoined(fields, size, w);
    BracesMeasure(Join(FieldTexts(fields)), w);
    assert Opened(JObject(fields));
    ObjectText(fields);
  }

  // ---- the frame of a document -------------------------------------------------------------

  lemma MetaKeysArePlain()
    ensures Plain("name") && Plain("format") && Plain("language")
  {
  }

  lemma MoreMetaKeysArePlain()
    ensures Plain("compiler_spec") && Plain("image_base")
  {
  }

  /** The five texts as they are written. */
  function MetaMeasure(m: Meta, w: char -> nat): nat {
    Measure(EscapeAll(m.name), w) + Measure(EscapeAll(m.format), w) + Measure(EscapeAll(m.language), w)
    + Measure(EscapeAll(m.compilerSpec), w) + Measure(EscapeAll(m.imageBase), w)
  }

  lemma MetaIsPlain(m: Meta)
    ensures PlainKeys(MetaJson(m).fields)
  {
    MetaKeysArePlain();
    MoreMetaKeysArePlain();
  }

  lemma MetaMembers(m: Meta, size: Json -> nat)
    ensures |MetaJson(m).fields| == 5
    ensures MembersSize(MetaJson(m).fields, size, 5)
         == 122 + size(JString(m.name)) + size(JString(m.format)) + size(JString(m.language))
            + size(JString(m.compilerSpec)) + size(JString(m.imageBase))
  {
  }

  lemma MetaSize(m: Meta, size: Json -> nat, w: char -> nat)
    requires Sizes(size, w)
    ensures size(MetaJson(m)) == 144 + MetaMeasure(m, w)
  {
    MetaIsPlain(m);
    MetaMembers(m, size);
    TextSize(m.name, size, w);
    TextSize(m.format, size, w);
    TextSize(m.language, size, w);
    TextSize(m.compilerSpec, size, w);
    TextSize(m.imageBase, size, w);
    ObjectSize(MetaJson(m).fields, size, w);
  }

  lemma FailuresKeyIsPlain()
    ensures Plain("decompile_failures")
  {
  }

  lemma CharactersKeyIsPlain()
    ensures Plain("decompiled_characters")
  {
  }

  lemma TruncatedKeyIsPlain()
    ensures Plain("code_truncated_functions")
  {
  }

  lemma AnalysisIsPlain(a: Analysis)
    ensures PlainKeys(AnalysisJson(a).fields)
  {
    FailuresKeyIsPlain();
    TruncatedKeyIsPlain();
    CharactersKeyIsPlain();
  }

  lemma AnalysisMembers(a: Analysis, size: Json -> nat)
    ensures |AnalysisJson(a).fields| == 3
    ensures MembersSize(AnalysisJson(a).fields, size, 3)
         == 150 + size(JInt(a.failures)) + size(JInt(a.codeTruncated)) + size(JInt(a.characters))
  {
  }

  lemma AnalysisSize(a: Analysis, size: Json -> nat, w: char -> nat)
    requires Sizes(size, w)
    ensures size(AnalysisJson(a))
         == 152 + Measure(IntText(a.failures), w) + Measure(IntText(a.codeTruncated), w)
           + Measure(IntText(a.characters), w)
  {
    AnalysisIsPlain(a);
    AnalysisMembers(a, size);
    IntSize(a.failures, size, w);
    IntSize(a.codeTruncated, size, w);
    IntSize(a.characters, size, w);
    ObjectSize(AnalysisJson(a).fields, size, w);
  }

  lemma SectionKeysArePlain()
    ensures Plain("returned") && Plain("truncated") && Plain("items") && Plain("total")
  {
  }

  /** The members of a section apart from its frame: counter, flag and items. */
  function SectionBody<T>(s: Section<T>, write: T -> Json, size: Json -> nat, w: char -> nat): nat {
    Measure(IntText(s.returned), w) + size(JBool(s.truncated)) + Measure(Join(ItemTexts(Jsons(s.items, write))), w)
  }

  lemma SectionSize<T>(s: Section<T>, write: T -> Json, size: Json -> nat, w: char -> nat)
    requires Sizes(size, w)
    ensures size(JObject(SectionFields(s, write))) == 74 + SectionBody(s, write, size, w)
  {
    SectionKeysArePlain();
    var fields := SectionFields(s, write);
    IntSize(s.returned, size, w);
    ArraySize(Jsons(s.items, write), size, w);
    ObjectSize(fields, size, w);
    assert MembersSize(fields, size, 3)
        == 68 + size(JInt(s.returned)) + size(JBool(s.truncated)) + size(fields[2].value);
  }

  /** The section of functions has one member more. */
  lemma TotalInFront(total: int, s: Section<FunctionRecord>, fields: seq<Field>, size: Json -> nat, w: char -> nat)
    requires Sizes(size, w) && fields == [Field("total", JInt(total))] + SectionFields(s, FunctionJson)
    ensures size(JObject(fields)) == 18 + size(JInt(total)) + size(JObject(SectionFields(s, FunctionJson)))
  {
    SectionKeysArePlain();
    var items := JArray(Jsons(s.items, FunctionJson));
    assert fields == [Field("total", JInt(total)), Field("returned", JInt(s.returned)),
                      Field("truncated", JBool(s.truncated)), Field("items", items)];
    ObjectSize(fields, size, w);
    ObjectSize(SectionFields(s, FunctionJson), size, w);
    var rest := size(JInt(s.returned)) + size(JBool(s.truncated)) + size(items);
    assert MembersSize(fields, size, 4) == 86 + size(JInt(total)) + rest;
    assert MembersSize(SectionFields(s, FunctionJson), size, 3) == 68 + rest;
  }

  lemma FunctionSectionSize(d: Document, size: Json -> nat, w: char -> nat)
    requires Sizes(size, w)
    ensures size(FunctionSection(d))
         == 92 + Measure(IntText(d.total), w) + SectionBody(d.functions, FunctionJson, size, w)
  {
    IntSize(d.total, size, w);
    TotalInFront(d.total, d.functions, FunctionSection(d).fields, size, w);
    SectionSize(d.functions, FunctionJson, size, w);
  }

  lemma DocumentKeysArePlain()
    ensures Plain("schema_version") && Plain("program") && Plain("analysis")
  {
  }

  lemma FunctionKeysArePlain()
    ensures Plain("functions") && Plain("call_edges")
  {
  }

  lemma StringKeysArePlain()
    ensures Plain("strings") && Plain("string_xrefs")
  {
  }

  lemma VersionIsPlain()
    ensures Plain("1.0")
  {
  }

  lemma DocumentIsPlain(d: Document)
    ensures PlainKeys(DocumentJson(d).fields)
  {
    DocumentKeysArePlain();
    FunctionKeysArePlain();
    StringKeysArePlain();
  }

  lemma DocumentMembers(d: Document, size: Json -> nat)
    ensures |DocumentJson(d).fields| == 7
    ensures MembersSize(DocumentJson(d).fields, size, 7)
         == 190 + size(JString("1.0")) + size(MetaJson(d.meta)) + size(AnalysisJson(d.analysis))
            + size(FunctionSection(d)) + size(JObject(SectionFields(d.calls, EdgeJson)))
            + size(JObject(SectionFields(d.strings, StringJson))) + size(JObject(SectionFields(d.xrefs, XrefJson)))
  {
  }

  /** The frame of every document has 406 ASCII characters. */
  lemma DocumentSize(d: Document, size: Json -> nat, w: char -> nat)
    requires Sizes(size, w)
    ensures size(DocumentJson(d))
         == 202 + size(MetaJson(d.meta)) + size(AnalysisJson(d.analysis)) + size(FunctionSection(d))
            + size(JObject(SectionFields(d.calls, EdgeJson))) + size(JObject(SectionFields(d.strings, StringJson)))
            + size(JObject(SectionFields(d.xrefs, XrefJson)))
  {
    DocumentIsPlain(d);
    DocumentMembers(d, size);
    VersionIsPlain();
    PlainSize("1.0", size, w);
    ObjectSize(DocumentJson(d).fields, size, w);
  }

  // ---- what every document spares ----------------------------------------------------------

  lemma IntTextIsAscii(i: int, w: char -> nat)
    requires FlatOnAscii(w)
    ensures Measure(IntText(i), w) == 2 * |IntText(i)| && |IntText(i)| >= 1
  {
    AsciiMeasure(IntText(i), w);
  }

  lemma FlagSize(b: bool, size: Json -> nat, w: char -> nat)
    requires Sizes(size, w)
    ensures size(JBool(b)) == if b then 8 else 10
  {
    assert Opened(JBool(b));
    AsciiMeasure(Render(JBool(b)), w);
  }

  lemma SectionIsAtLeast<T>(s: Section<T>, write: T -> Json, size: Json -> nat, w: char -> nat)
    requires Sizes(size, w)
    ensures size(JObject(SectionFields(s, write))) >= 84
    ensures s.returned == 0 && s.truncated && s.items == [] ==> size(JObject(SectionFields(s, write))) == 84
  {
    SectionSize(s, write, size, w);
    IntTextIsAscii(s.returned, w);
    FlagSize(s.truncated, size, w);
  }

  lemma FunctionSectionIsAtLeast(d: Document, size: Json -> nat, w: char -> nat)
    requires Sizes(size, w)
    ensures size(FunctionSection(d)) >= 104
    ensures 0 <= d.total < 10 && d.functions == Section(0, true, []) ==> size(FunctionSection(d)) == 104
  {
    FunctionSectionSize(d, size, w);
    IntTextIsAscii(d.total, w);
    IntTextIsAscii(d.functions.returned, w);
    FlagSize(d.functions.truncated, size, w);
  }

  lemma AnalysisIsAtLeast(a: Analysis, size: Json -> nat, w: char -> nat)
    requires Sizes(size, w)
    ensures size(AnalysisJson(a)) >= 158
    ensures a == Analysis(0, 0, 0) ==> size(AnalysisJson(a)) == 158
  {
    AnalysisSize(a, size, w);
    IntTextIsAscii(a.failures, w);
    IntTextIsAscii(a.codeTruncated, w);
    IntTextIsAscii(a.characters, w);
  }

  /** A document without items, with no counter over nine, and everything cut. */
  predicate Bare(d: Document) {
    && d.analysis == Analysis(0, 0, 0) && 0 <= d.total < 10
    && d.functions == Section(0, true, []) && d.calls == Section(0, true, [])
    && d.strings == Section(0, true, []) && d.xrefs == Section(0, true, [])
  }

  lemma DocumentIsAtLeast(d: Document, size: Json -> nat, w: char -> nat)
    requires Sizes(size, w)
    ensures size(DocumentJson(d)) >= 860 + MetaMeasure(d.meta, w)
    ensures Bare(d) ==> size(DocumentJson(d)) == 860 + MetaMeasure(d.meta, w)
  {
    DocumentSize(d, size, w);
    MetaSize(d.meta, size, w);
    AnalysisIsAtLeast(d.analysis, size, w);
    FunctionSectionIsAtLeast(d, size, w);
    SectionIsAtLeast(d.calls, EdgeJson, size, w);
    SectionIsAtLeast(d.strings, StringJson, size, w);
    SectionIsAtLeast(d.xrefs, XrefJson, size, w);
  }

  function MetaBytes(m: Meta): nat {
    Utf8Length(EscapeAll(m.name)) + Utf8Length(EscapeAll(m.format)) + Utf8Length(EscapeAll(m.language))
    + Utf8Length(EscapeAll(m.compilerSpec)) + Utf8Length(EscapeAll(m.imageBase))
  }

  function MetaCharacters(m: Meta): nat {
    |EscapeAll(m.name)| + |EscapeAll(m.format)| + |EscapeAll(m.language)| + |EscapeAll(m.compilerSpec)|
    + |EscapeAll(m.imageBase)|
  }

  lemma MetaMeasures(m: Meta)
    ensures MetaMeasure(m, DoubleWidth) == 2 * MetaBytes(m) && MetaMeasure(m, Pair) == 2 * MetaCharacters(m)
    ensures MetaMeasure(m, Spare) + MetaBytes(m) == 3 * MetaCharacters(m)
  {
    LengthAndSpare(EscapeAll(m.name));
    LengthAndSpare(EscapeAll(m.format));
    LengthAndSpare(EscapeAll(m.language));
    LengthAndSpare(EscapeAll(m.compilerSpec));
    LengthAndSpare(EscapeAll(m.imageBase));
  }

  function MetaAscii(m: Meta): nat {
    AsciiCount(m.name) + AsciiCount(m.format) + AsciiCount(m.language) + AsciiCount(m.compilerSpec)
    + AsciiCount(m.imageBase)
  }

  lemma EscapeSpares(c: char)
    ensures c < '\U{80}' ==> Measure(Escape(c), Spare) >= 2
  {
    if c < '\U{80}' {
      AsciiMeasure(Escape(c), Spare);
    }
  }

  /** However it is escaped, an ASCII character spares two bytes at least. */
  lemma {:induction false} EscapedSpares(s: string)
    ensures Measure(EscapeAll(s), Spare) >= 2 * AsciiCount(s)
  {
    if s != [] {
      EscapedSpares(s[1..]);
      MeasureJoins(Escape(s[0]), EscapeAll(s[1..]), Spare);
      EscapeSpares(s[0]);
    }
  }

  lemma MetaSpares(m: Meta)
    ensures MetaMeasure(m, Spare) >= 2 * MetaAscii(m)
  {
    EscapedSpares(m.name);
    EscapedSpares(m.format);
    EscapedSpares(m.language);
    EscapedSpares(m.compilerSpec);
    EscapedSpares(m.imageBase);
  }

  lemma MeasuredBy(j: Json, w: char -> nat) returns (size: Json -> nat)
    requires FlatOnAscii(w)
    ensures Sizes(size, w) && size(j) == Measure(Render(j), w)
  {
    size := (j: Json) => Measure(Render(j), w);
  }

  /** A document's text takes at least 430 bytes beside its metadata, and at least 430 more of its characters
      take one byte and not three. A bare document has nothing beside the two. */
  lemma DocumentBytes(d: Document)
    ensures var text := Render(DocumentJson(d));
            && Utf8Length(text) >= 430 + MetaBytes(d.meta)
            && Utf8Length(text) + 860 + MetaMeasure(d.meta, Spare) <= 3 * |text|
            && (Bare(d) ==> |text| == 430 + MetaCharacters(d.meta) && Utf8Length(text) == 430 + MetaBytes(d.meta))
  {
    var spare := MeasuredBy(DocumentJson(d), Spare);
    var pairs := MeasuredBy(DocumentJson(d), Pair);
    var widths := MeasuredBy(DocumentJson(d), DoubleWidth);
    DocumentIsAtLeast(d, spare, Spare);
    DocumentIsAtLeast(d, pairs, Pair);
    DocumentIsAtLeast(d, widths, DoubleWidth);
    LengthAndSpare(Render(DocumentJson(d)));
    MetaMeasures(d.meta);
  }
}
