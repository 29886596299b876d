/** The document the native code map consists of: its JSON form, the shape checks that read it back, and
    the conditions the normaliser puts on it. */
module CodeMapDocument {
  import opened JsonText
  import opened Results

  datatype FunctionRecord = FunctionRecord(
    name: string, namespace: string, entry: string, signature: string, bodyAddresses: int, isExternal: bool,
    thunk: bool, status: string, message: string, codeTruncated: bool, code: string)

  datatype EdgeRecord = EdgeRecord(
    fromEntry: string, fromName: string, callsite: string, toAddress: string, toEntry: string, toName: string,
    referenceType: string, isExternal: bool)

  datatype StringRecord = StringRecord(
    address: string, dataType: string, byteLength: int, valueTruncated: bool, value: string)

  datatype XrefRecord = XrefRecord(
    fromAddress: string, toAddress: string, referenceType: string, operandIndex: int,
    sourceEntry: string, sourceName: string)

  datatype Section<T> = Section(returned: int, truncated: bool, items: seq<T>)

  datatype Meta = Meta(name: string, format: string, language: string, compilerSpec: string, imageBase: string)

  datatype Analysis = Analysis(failures: int, codeTruncated: int, characters: int)

  datatype Document = Document(
    meta: Meta, analysis: Analysis, total: int, functions: Section<FunctionRecord>, calls: Section<EdgeRecord>,
    strings: Section<StringRecord>, xrefs: Section<XrefRecord>)

  // ---- JSON form ---------------------------------------------------------------------------

  function FunctionJson(r: FunctionRecord): Json {
    JObject([
      Field("name", JString(r.name)), Field("namespace", JString(r.namespace)), Field("entry", JString(r.entry)),
      Field("signature", JString(r.signature)), Field("body_addresses", JInt(r.bodyAddresses)),
      Field("external", JBool(r.isExternal)), Field("thunk", JBool(r.thunk)),
      Field("decompile_status", JString(r.status)), Field("decompiler_message", JString(r.message)),
      Field("code_truncated", JBool(r.codeTruncated)), Field("code", JString(r.code))])
  }

  function EdgeJson(r: EdgeRecord): Json {
    JObject([
      Field("from_entry", JString(r.fromEntry)), Field("from_name", JString(r.fromName)),
      Field("callsite", JString(r.callsite)), Field("to_address", JString(r.toAddress)),
      Field("to_entry", JString(r.toEntry)), Field("to_name", JString(r.toName)),
      Field("reference_type", JString(r.referenceType)), Field("external", JBool(r.isExternal))])
  }

  function StringJson(r: StringRecord): Json {
    JObject([
      Field("address", JString(r.address)), Field("data_type", JString(r.dataType)),
      Field("byte_length", JInt(r.byteLength)), Field("value_truncated", JBool(r.valueTruncated)),
      Field("value", JString(r.value))])
  }

  function XrefJson(r: XrefRecord): Json {
    JObject([
      Field("from_address", JString(r.fromAddress)), Field("to_address", JString(r.toAddress)),
      Field("reference_type", JString(r.referenceType)), Field("operand_index", JInt(r.operandIndex)),
      Field("source_function_entry", JString(r.sourceEntry)), Field("source_function_name", JString(r.sourceName))])
  }

  function Jsons<T>(items: seq<T>, write: T -> Json): (js: seq<Json>)
    ensures |js| == |items| && forall i :: 0 <= i < |items| ==> js[i] == write(items[i])
  {
    seq(|items|, i requires 0 <= i < |items| => write(items[i]))
  }

  function SectionFields<T>(s: Section<T>, write: T -> Json): seq<Field> {
    [Field("returned", JInt(s.returned)), Field("truncated", JBool(s.truncated)),
      Field("items", JArray(Jsons(s.items, write)))]
  }

  function MetaJson(m: Meta): Json {
    JObject([
      Field("name", JString(m.name)), Field("format", JString(m.format)), Field("language", JString(m.language)),
      Field("compiler_spec", JString(m.compilerSpec)), Field("image_base", JString(m.imageBase))])
  }

  function AnalysisJson(a: Analysis): Json {
    JObject([
      Field("decompile_failures", JInt(a.failures)), Field("code_truncated_functions", JInt(a.codeTruncated)),
      Field("decompiled_characters", JInt(a.characters))])
  }

  function FunctionSection(d: Document): Json {
    JObject([Field("total", JInt(d.total))] + SectionFields(d.functions, FunctionJson))
  }

  function DocumentJson(d: Document): Json {
    JObject([
      Field("schema_version", JString("1.0")), Field("program", MetaJson(d.meta)),
      Field("analysis", AnalysisJson(d.analysis)),
      Field("functions", FunctionSection(d)), Field("call_edges", JObject(SectionFields(d.calls, EdgeJson))),
      Field("strings", JObject(SectionFields(d.strings, StringJson))),
      Field("string_xrefs", JObject(SectionFields(d.xrefs, XrefJson)))])
  }

  // ---- reading the shape back --------------------------------------------------------------

  /** A dictionary entry; the last of several equal keys counts. */
  function Get(fields: seq<Field>, key: string): Option<Json> {
    if fields == [] then None
    else if fields[|fields| - 1].key == key then Some(fields[|fields| - 1].value)
    else Get(fields[..|fields| - 1], key)
  }

  function Keys(fields: seq<Field>): (ks: seq<string>)
    ensures |ks| == |fields| && forall i :: 0 <= i < |fields| ==> ks[i] == fields[i].key
  {
    seq(|fields|, i requires 0 <= i < |fields| => fields[i].key)
  }

  /** `set(dictionary) == expected` */
  predicate HasKeys(j: Json, expected: seq<string>) {
    && j.JObject?
    && (forall k :: k in expected ==> k in Keys(j.fields))
    && (forall k :: k in Keys(j.fields) ==> k in expected)
  }

  function GetText(j: Json, key: string): Option<string>
    requires j.JObject?
  {
    var v := Get(j.fields, key);
    if v.Some? && v.value.JString? then Some(v.value.text) else None
  }

  function GetInt(j: Json, key: string): Option<int>
    requires j.JObject?
  {
    var v := Get(j.fields, key);
    if v.Some? && v.value.JInt? then Some(v.value.value) else None
  }

  function GetFlag(j: Json, key: string): Option<bool>
    requires j.JObject?
  {
    var v := Get(j.fields, key);
    if v.Some? && v.value.JBool? then Some(v.value.flag) else None
  }

  const FUNCTION_KEYS: seq<string> := [
    "name", "namespace", "entry", "signature", "body_addresses", "external", "thunk", "decompile_status",
    "decompiler_message", "code_truncated", "code"]

  const EDGE_KEYS: seq<string> := [
    "from_entry", "from_name", "callsite", "to_address", "to_entry", "to_name", "reference_type", "external"]

  const STRING_KEYS: seq<string> := ["address", "data_type", "byte_length", "value_truncated", "value"]

  const XREF_KEYS: seq<string> := [
    "from_address", "to_address", "reference_type", "operand_index", "source_function_entry", "source_function_name"]

  const META_KEYS: seq<string> := ["name", "format", "language", "compiler_spec", "image_base"]

  const ANALYSIS_KEYS: seq<string> := ["decompile_failures", "code_truncated_functions", "decompiled_characters"]

  const SECTION_KEYS: seq<string> := ["returned", "truncated", "items"]

  const FUNCTION_SECTION_KEYS: seq<string> := ["total", "returned", "truncated", "items"]

  const DOCUMENT_KEYS: seq<string> := [
    "schema_version", "program", "analysis", "functions", "call_edges", "strings", "string_xrefs"]

  function ReadFunction(j: Json): Option<FunctionRecord> {
    if !HasKeys(j, FUNCTION_KEYS) then None
    else
      var name, namespace, entry, signature :=
        GetText(j, "name"), GetText(j, "namespace"), GetText(j, "entry"), GetText(j, "signature");
      var body, isExternal, thunk := GetInt(j, "body_addresses"), GetFlag(j, "external"), GetFlag(j, "thunk");
      var status, message := GetText(j, "decompile_status"), GetText(j, "decompiler_message");
      var truncated, code := GetFlag(j, "code_truncated"), GetText(j, "code");
      if name.None? || namespace.None? || entry.None? || signature.None? || body.None? || isExternal.None?
        || thunk.None?
         || status.None? || message.None? || truncated.None? || code.None? then None
      else Some(FunctionRecord(name.value, namespace.value, entry.value, signature.value, body.value, isExternal.value,
                               thunk.value, status.value, message.value, truncated.value, code.value))
  }

  function ReadEdge(j: Json): Option<EdgeRecord> {
    if !HasKeys(j, EDGE_KEYS) then None
    else
      var fromEntry, fromName, callsite := GetText(j, "from_entry"), GetText(j, "from_name"), GetText(j, "callsite");
      var toAddress, toEntry, toName := GetText(j, "to_address"), GetText(j, "to_entry"), GetText(j, "to_name");
      var kind, isExternal := GetText(j, "reference_type"), GetFlag(j, "external");
      if fromEntry.None? || fromName.None? || callsite.None? || toAddress.None? || toEntry.None? || toName.None?
         || kind.None? || isExternal.None? then None
      else Some(EdgeRecord(fromEntry.value, fromName.value, callsite.value, toAddress.value, toEntry.value,
        toName.value,
                           kind.value, isExternal.value))
  }

  function ReadString(j: Json): Option<StringRecord> {
    if !HasKeys(j, STRING_KEYS) then None
    else
      var address, dataType, length := GetText(j, "address"), GetText(j, "data_type"), GetInt(j, "byte_length");
      var truncated, value := GetFlag(j, "value_truncated"), GetText(j, "value");
      if address.None? || dataType.None? || length.None? || truncated.None? || value.None? then None
      else Some(StringRecord(address.value, dataType.value, length.value, truncated.value, value.value))
  }

  function ReadXref(j: Json): Option<XrefRecord> {
    if !HasKeys(j, XREF_KEYS) then None
    else
      var fromAddress, toAddress, kind := GetText(j, "from_address"), GetText(j, "to_address"),
        GetText(j, "reference_type");
      var operand := GetInt(j, "operand_index");
      var entry, name := GetText(j, "source_function_entry"), GetText(j, "source_function_name");
      if fromAddress.None? || toAddress.None? || kind.None? || operand.None? || entry.None? || name.None? then None
      else Some(XrefRecord(fromAddress.value, toAddress.value, kind.value, operand.value, entry.value, name.value))
  }

  function ReadMeta(j: Json): Option<Meta> {
    if !HasKeys(j, META_KEYS) then None
    else
      var name, format, language := GetText(j, "name"), GetText(j, "format"), GetText(j, "language");
      var compiler, base := GetText(j, "compiler_spec"), GetText(j, "image_base");
      if name.None? || format.None? || language.None? || compiler.None? || base.None? then None
      else Some(Meta(name.value, format.value, language.value, compiler.value, base.value))
  }

  function ReadAnalysis(j: Json): Option<Analysis> {
    if !HasKeys(j, ANALYSIS_KEYS) then None
    else
      var failures, truncated := GetInt(j, "decompile_failures"), GetInt(j, "code_truncated_functions");
      var characters := GetInt(j, "decompiled_characters");
      if failures.None? || truncated.None? || characters.None? then None
      else Some(Analysis(failures.value, truncated.value, characters.value))
  }

  function ReadAll<T>(items: seq<Json>, read: Json -> Option<T>): Option<seq<T>> {
    if items == [] then Some([])
    else
      var before, last := ReadAll(items[..|items| - 1], read), read(items[|items| - 1]);
      if before.None? || last.None? then None else Some(before.value + [last.value])
  }

  function ReadSection<T>(j: Json, keys: seq<string>, read: Json -> Option<T>): Option<Section<T>> {
    if !HasKeys(j, keys) then None
    else
      var returned, truncated, items := GetInt(j, "returned"), GetFlag(j, "truncated"), Get(j.fields, "items");
      if returned.None? || truncated.None? || items.None? || !items.value.JArray? then None
      else
        var records := ReadAll(items.value.items, read);
        if records.None? then None else Some(Section(returned.value, truncated.value, records.value))
  }

  function GetIn(j: Json, key: string): Json
    requires j.JObject?
  {
    var v := Get(j.fields, key);
    if v.Some? then v.value else JBool(false)
  }

  /** The shape checks of the normaliser: exact key sets everywhere, and the right type of every value. */
  function ReadDocument(j: Json): Option<Document> {
    if !HasKeys(j, DOCUMENT_KEYS) || GetText(j, "schema_version") != Some("1.0") then None
    else
      var meta, analysis := ReadMeta(GetIn(j, "program")), ReadAnalysis(GetIn(j, "analysis"));
      var functions := ReadSection(GetIn(j, "functions"), FUNCTION_SECTION_KEYS, ReadFunction);
      var calls := ReadSection(GetIn(j, "call_edges"), SECTION_KEYS, ReadEdge);
      var strings := ReadSection(GetIn(j, "strings"), SECTION_KEYS, ReadString);
      var xrefs := ReadSection(GetIn(j, "string_xrefs"), SECTION_KEYS, ReadXref);
      if meta.None? || analysis.None? || functions.None? || calls.None? || strings.None? || xrefs.None? then None
      else
        var total := GetInt(GetIn(j, "functions"), "total");
        if total.None? then None
        else Some(Document(meta.value, analysis.value, total.value, functions.value, calls.value, strings.value,
          xrefs.value))
  }

  // ---- the shape survives the round trip ---------------------------------------------------

  predicate Distinct(ks: seq<string>) {
    forall i, j :: 0 <= i < j < |ks| ==> ks[i] != ks[j]
  }

  lemma {:induction false} GetLast(fields: seq<Field>, i: nat)
    requires i < |fields| && forall j :: i < j < |fields| ==> fields[j].key != fields[i].key
    ensures Get(fields, fields[i].key) == Some(fields[i].value)
  {
    if i < |fields| - 1 {
      GetLast(fields[..|fields| - 1], i);
    }
  }

  /** Looking a key up in an object whose keys are `keys`. */
  lemma GetAt(fields: seq<Field>, keys: seq<string>, i: nat)
    requires Keys(fields) == keys && Distinct(keys) && i < |keys|
    ensures Get(fields, keys[i]) == Some(fields[i].value)
  {
    forall j | i < j < |fields|
      ensures fields[j].key != fields[i].key
    {
      assert keys[i] != keys[j];
    }
    GetLast(fields, i);
  }

  lemma FunctionKeysAreDistinct()
    ensures Distinct(FUNCTION_KEYS)
  {
  }

  lemma OtherKeysAreDistinct()
    ensures Distinct(STRING_KEYS) && Distinct(XREF_KEYS) && Distinct(META_KEYS) && Distinct(ANALYSIS_KEYS)
    ensures Distinct(SECTION_KEYS) && Distinct(FUNCTION_SECTION_KEYS) && Distinct(DOCUMENT_KEYS)
  {
  }

  lemma FieldsAreFound(fields: seq<Field>, keys: seq<string>)
    requires Keys(fields) == keys && Distinct(keys)
    ensures HasKeys(JObject(fields), keys)
    ensures forall i :: 0 <= i < |keys| ==> Get(fields, keys[i]) == Some(fields[i].value)
  {
    forall i | 0 <= i < |keys|
      ensures Get(fields, keys[i]) == Some(fields[i].value)
    {
      GetAt(fields, keys, i);
    }
  }

  lemma FunctionIsRead(r: FunctionRecord)
    ensures ReadFunction(FunctionJson(r)) == Some(r)
  {
    var fields := FunctionJson(r).fields;
    FunctionKeysAreDistinct();
    FieldsAreFound(fields, FUNCTION_KEYS);
    assert Get(fields, FUNCTION_KEYS[0]) == Some(fields[0].value);
    assert Get(fields, FUNCTION_KEYS[1]) == Some(fields[1].value);
    assert Get(fields, FUNCTION_KEYS[2]) == Some(fields[2].value);
    assert Get(fields, FUNCTION_KEYS[3]) == Some(fields[3].value);
    assert Get(fields, FUNCTION_KEYS[4]) == Some(fields[4].value);
    assert Get(fields, FUNCTION_KEYS[5]) == Some(fields[5].value);
    assert Get(fields, FUNCTION_KEYS[6]) == Some(fields[6].value);
    assert Get(fields, FUNCTION_KEYS[7]) == Some(fields[7].value);
    assert Get(fields, FUNCTION_KEYS[8]) == Some(fields[8].value);
    assert Get(fields, FUNCTION_KEYS[9]) == Some(fields[9].value);
    assert Get(fields, FUNCTION_KEYS[10]) == Some(fields[10].value);
  }

  lemma EdgeIsRead(r: EdgeRecord)
    ensures ReadEdge(EdgeJson(r)) == Some(r)
  {
    var fields := EdgeJson(r).fields;
    FieldsAreFound(fields, EDGE_KEYS);
    assert Get(fields, EDGE_KEYS[0]) == Some(fields[0].value);
    assert Get(fields, EDGE_KEYS[1]) == Some(fields[1].value);
    assert Get(fields, EDGE_KEYS[2]) == Some(fields[2].value);
    assert Get(fields, EDGE_KEYS[3]) == Some(fields[3].value);
    assert Get(fields, EDGE_KEYS[4]) == Some(fields[4].value);
    assert Get(fields, EDGE_KEYS[5]) == Some(fields[5].value);
    assert Get(fields, EDGE_KEYS[6]) == Some(fields[6].value);
    assert Get(fields, EDGE_KEYS[7]) == Some(fields[7].value);
  }

  lemma StringIsRead(r: StringRecord)
    ensures ReadString(StringJson(r)) == Some(r)
  {
    var fields := StringJson(r).fields;
    OtherKeysAreDistinct();
    FieldsAreFound(fields, STRING_KEYS);
    assert Get(fields, STRING_KEYS[0]) == Some(fields[0].value);
    assert Get(fields, STRING_KEYS[1]) == Some(fields[1].value);
    assert Get(fields, STRING_KEYS[2]) == Some(fields[2].value);
    assert Get(fields, STRING_KEYS[3]) == Some(fields[3].value);
    assert Get(fields, STRING_KEYS[4]) == Some(fields[4].value);
  }

  lemma XrefIsRead(r: XrefRecord)
    ensures ReadXref(XrefJson(r)) == Some(r)
  {
    var fields := XrefJson(r).fields;
    OtherKeysAreDistinct();
    FieldsAreFound(fields, XREF_KEYS);
    assert Get(fields, XREF_KEYS[0]) == Some(fields[0].value);
    assert Get(fields, XREF_KEYS[1]) == Some(fields[1].value);
    assert Get(fields, XREF_KEYS[2]) == Some(fields[2].value);
    assert Get(fields, XREF_KEYS[3]) == Some(fields[3].value);
    assert Get(fields, XREF_KEYS[4]) == Some(fields[4].value);
    assert Get(fields, XREF_KEYS[5]) == Some(fields[5].value);
  }

  lemma MetaIsRead(r: Meta)
    ensures ReadMeta(MetaJson(r)) == Some(r)
  {
    var fields := MetaJson(r).fields;
    OtherKeysAreDistinct();
    FieldsAreFound(fields, META_KEYS);
    assert Get(fields, META_KEYS[0]) == Some(fields[0].value);
    assert Get(fields, META_KEYS[1]) == Some(fields[1].value);
    assert Get(fields, META_KEYS[2]) == Some(fields[2].value);
    assert Get(fields, META_KEYS[3]) == Some(fields[3].value);
    assert Get(fields, META_KEYS[4]) == Some(fields[4].value);
  }

  lemma AnalysisIsRead(r: Analysis)
    ensures ReadAnalysis(AnalysisJson(r)) == Some(r)
  {
    var fields := AnalysisJson(r).fields;
    OtherKeysAreDistinct();
    FieldsAreFound(fields, ANALYSIS_KEYS);
    assert Get(fields, ANALYSIS_KEYS[0]) == Some(fields[0].value);
    assert Get(fields, ANALYSIS_KEYS[1]) == Some(fields[1].value);
    assert Get(fields, ANALYSIS_KEYS[2]) == Some(fields[2].value);
  }

  lemma {:induction false} AllAreRead<T>(items: seq<T>, write: T -> Json, read: Json -> Option<T>)
    requires forall r :: r in items ==> read(write(r)) == Some(r)
    ensures ReadAll(Jsons(items, write), read) == Some(items)
  {
    if items != [] {
      var n := |items| - 1;
      assert Jsons(items, write)[..n] == Jsons(items[..n], write);
      AllAreRead(items[..n], write, read);
      assert items[n] in items;
      assert items == items[..n] + [items[n]];
    }
  }

  lemma SectionIsRead<T>(s: Section<T>, write: T -> Json, read: Json -> Option<T>)
    requires forall r :: r in s.items ==> read(write(r)) == Some(r)
    ensures ReadSection(JObject(SectionFields(s, write)), SECTION_KEYS, read) == Some(s)
  {
    var fields := SectionFields(s, write);
    OtherKeysAreDistinct();
    FieldsAreFound(fields, SECTION_KEYS);
    assert Get(fields, SECTION_KEYS[0]) == Some(fields[0].value);
    assert Get(fields, SECTION_KEYS[1]) == Some(fields[1].value);
    assert Get(fields, SECTION_KEYS[2]) == Some(fields[2].value);
    AllAreRead(s.items, write, read);
  }

  lemma FunctionSectionIsRead(d: Document)
    ensures ReadSection(FunctionSection(d), FUNCTION_SECTION_KEYS, ReadFunction) == Some(d.functions)
    ensures GetInt(FunctionSection(d), "total") == Some(d.total)
  {
    var fields := FunctionSection(d).fields;
    OtherKeysAreDistinct();
    FieldsAreFound(fields, FUNCTION_SECTION_KEYS);
    assert Get(fields, FUNCTION_SECTION_KEYS[0]) == Some(fields[0].value);
    assert Get(fields, FUNCTION_SECTION_KEYS[1]) == Some(fields[1].value);
    assert Get(fields, FUNCTION_SECTION_KEYS[2]) == Some(fields[2].value);
    assert Get(fields, FUNCTION_SECTION_KEYS[3]) == Some(fields[3].value);
    forall r | r in d.functions.items
      ensures ReadFunction(FunctionJson(r)) == Some(r)
    {
      FunctionIsRead(r);
    }
    AllAreRead(d.functions.items, FunctionJson, ReadFunction);
  }

  lemma RecordSectionsAreRead(d: Document)
    ensures ReadSection(JObject(SectionFields(d.calls, EdgeJson)), SECTION_KEYS, ReadEdge) == Some(d.calls)
    ensures ReadSection(JObject(SectionFields(d.strings, StringJson)), SECTION_KEYS, ReadString) == Some(d.strings)
    ensures ReadSection(JObject(SectionFields(d.xrefs, XrefJson)), SECTION_KEYS, ReadXref) == Some(d.xrefs)
  {
    forall r | r in d.calls.items
      ensures ReadEdge(EdgeJson(r)) == Some(r)
    {
      EdgeIsRead(r);
    }
    SectionIsRead(d.calls, EdgeJson, ReadEdge);
    forall r | r in d.strings.items
      ensures ReadString(StringJson(r)) == Some(r)
    {
      StringIsRead(r);
    }
    SectionIsRead(d.strings, StringJson, ReadString);
    forall r | r in d.xrefs.items
      ensures ReadXref(XrefJson(r)) == Some(r)
    {
      XrefIsRead(r);
    }
    SectionIsRead(d.xrefs, XrefJson, ReadXref);
  }

  /** Every document passes the shape checks and is read back unchanged. */
  lemma DocumentIsRead(d: Document)
    ensures ReadDocument(DocumentJson(d)) == Some(d)
  {
    var fields := DocumentJson(d).fields;
    OtherKeysAreDistinct();
    FieldsAreFound(fields, DOCUMENT_KEYS);
    assert Get(fields, DOCUMENT_KEYS[0]) == Some(fields[0].value);
    assert Get(fields, DOCUMENT_KEYS[1]) == Some(fields[1].value);
    assert Get(fields, DOCUMENT_KEYS[2]) == Some(fields[2].value);
    assert Get(fields, DOCUMENT_KEYS[3]) == Some(fields[3].value);
    assert Get(fields, DOCUMENT_KEYS[4]) == Some(fields[4].value);
    assert Get(fields, DOCUMENT_KEYS[5]) == Some(fields[5].value);
    assert Get(fields, DOCUMENT_KEYS[6]) == Some(fields[6].value);
    MetaIsRead(d.meta);
    AnalysisIsRead(d.analysis);
    FunctionSectionIsRead(d);
    RecordSectionsAreRead(d);
  }
}
