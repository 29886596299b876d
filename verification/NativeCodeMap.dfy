/** The script that writes the native code map: four bounded categories filled in nested loops, and the
    text of the document assembled from them. The program under analysis is a value; the decompiler's
    answer is part of each function. */
module NativeCodeMap {
  import opened Basics
  import opened CodeMapDocument
  import opened CodeMapNormaliser
  import opened JsonText
  import opened Results

  // ---- the analysed program ----------------------------------------------------------------

  datatype Target = Target(entry: string, name: string, isExternal: bool)

  datatype Reference = Reference(isCall: bool, callsite: string, toAddress: string, target: Option<Target>,
      kind: string)

  /** What the decompiler says: a message, and the code if it completed. */
  datatype Decompilation = Decompilation(message: string, code: Option<string>)

  datatype Function = Function(
    name: string, namespace: string, entry: string, signature: string, bodyAddresses: nat, isExternal: bool,
    thunk: bool, decompilation: Decompilation, instructions: seq<seq<Reference>>)

  datatype StringXref = StringXref(
    fromAddress: string, toAddress: string, kind: string, operandIndex: int, source: Option<(string, string)>)

  datatype DefinedString = DefinedString(
    address: string, dataType: string, byteLength: nat, value: Option<string>, xrefs: seq<StringXref>)

  datatype Program = Program(meta: Meta, total: nat, functions: seq<Function>, strings: seq<DefinedString>)

  /** What the analysis framework guarantees: entries and addresses identify functions and strings, the
      references it lists for a string lead to it, and the function count covers the functions it lists. */
  predicate ProgramOk(p: Program) {
    && p.total >= |p.functions|
    && (forall i :: 0 <= i < |p.functions| ==> p.functions[i].entry != [])
    && (forall i, j :: 0 <= i < j < |p.functions| ==> p.functions[i].entry != p.functions[j].entry)
    && (forall i :: 0 <= i < |p.strings| ==> p.strings[i].address != [])
    && (forall i, j :: 0 <= i < j < |p.strings| ==> p.strings[i].address != p.strings[j].address)
    && forall i :: 0 <= i < |p.strings| ==>
         forall k :: 0 <= k < |p.strings[i].xrefs| ==> p.strings[i].xrefs[k].toAddress == p.strings[i].address
  }

  // ---- limits ------------------------------------------------------------------------------

  datatype Limits = Limits(functions: nat, calls: nat, strings: nat, xrefs: nat)

  function RecordLimits(recordLimit: nat): (l: Limits)
    requires recordLimit >= 1
    ensures l.functions + l.calls + l.strings + l.xrefs == recordLimit
    ensures l.functions >= 1 && (recordLimit > 1 ==> 2 * l.functions <= recordLimit < 2 * l.functions + 2)
    ensures var rest := recordLimit - l.functions;
            2 * l.calls <= rest < 2 * l.calls + 2
            && 3 * l.strings <= 2 * (rest - l.calls) < 3 * l.strings + 3
  {
    var functions := Max(1, recordLimit / 2);
    var remaining := recordLimit - functions;
    var calls := remaining / 2;
    var rest := remaining - calls;
    var strings := rest * 2 / 3;
    Limits(functions, calls, strings, rest - strings)
  }

  /** The shares of the characters the items may take, and that they add up. */
  function CharacterLimits(jsonLimit: nat): (l: Limits)
    ensures l.functions + l.calls + l.strings + l.xrefs == Max(256, jsonLimit - 4096)
    ensures var items := Max(256, jsonLimit - 4096);
            4 * l.functions <= 3 * items < 4 * l.functions + 4
            && 10 * l.calls <= items < 10 * l.calls + 10 && l.strings == l.calls
  {
    var items := Max(256, jsonLimit - 4096);
    var functions, calls, strings := items * 3 / 4, items / 10, items / 10;
    Limits(functions, calls, strings, items - functions - calls - strings)
  }

  function CodeLimit(jsonLimit: nat, functionLimit: nat): (n: nat)
    ensures 256 <= n <= 64_000
    ensures var characters, functions := CharacterLimits(jsonLimit).functions, Max(1, functionLimit);
            && (n == 256 || n * functions <= characters)
            && (n == 64_000 || characters < (n + 1) * functions)
  {
    var share := CharacterLimits(jsonLimit).functions / Max(1, functionLimit);
    Max(256, Min(MAX_CODE, share))
  }

  function BoundedText(value: string, limit: nat): (s: string)
    ensures |s| <= limit && s <= value
    ensures s == value <==> |value| <= limit
  {
    if |value| <= limit then value else value[..limit]
  }

  const MAX_RECORDS := 25_000
  const MAX_JSON := 16_000_000
  const MAX_DECOMPILE_SECONDS := 60

  /** `boundedInteger` for the three numeric arguments. */
  predicate ArgumentsOk(recordLimit: int, jsonLimit: int, decompileSeconds: int) {
    1 <= recordLimit <= MAX_RECORDS && 1024 <= jsonLimit <= MAX_JSON && 1 <= decompileSeconds <= MAX_DECOMPILE_SECONDS
  }

  /** The arguments the driver prepares from the operation's limits. */
  function PreparedRecords(maxRecords: nat): (r: int)
    ensures r <= maxRecords && r <= 25_000 && r in {maxRecords, 25_000}
  {
    Min(maxRecords, MAX_RECORDS)
  }

  function PreparedJson(maxOutputBytes: nat): (r: int)
    ensures 1024 <= r <= 16_000_000
    ensures r == 1024 || 8 * r <= maxOutputBytes
    ensures r == 16_000_000 || maxOutputBytes < 8 * (r + 1)
  {
    Max(1024, Min(MAX_JSON, maxOutputBytes / 8))
  }

  function PreparedSeconds(wallSeconds: nat, cpuSeconds: nat): (r: int)
    ensures 1 <= r <= 30
    ensures r == 1 || (r <= wallSeconds - 5 && r <= cpuSeconds)
    ensures r == 30 || r >= wallSeconds - 5 || r >= cpuSeconds
  {
    var analysis := Max(1, Min(Min(wallSeconds - 5, cpuSeconds), 900));
    Max(1, Min(Min(30, analysis), cpuSeconds))
  }

  /** The script accepts every argument list the driver prepares. */
  lemma PreparedArgumentsAreAccepted(maxRecords: nat, maxOutputBytes: nat, wallSeconds: nat, cpuSeconds: nat)
    requires maxRecords > 0 && maxOutputBytes > 0 && wallSeconds > 0 && cpuSeconds > 0
    ensures ArgumentsOk(PreparedRecords(maxRecords), PreparedJson(maxOutputBytes),
            PreparedSeconds(wallSeconds, cpuSeconds))
    ensures PreparedRecords(maxRecords) <= maxRecords
  {
  }

  // ---- writing text ------------------------------------------------------------------------

  /** The switch of `string`: what is appended for one character. */
  method AppendCharacter(target: string, c: char) returns (text: string)
    ensures text == target + Escape(c)
  {
    if c == '"' {
      text := target + "\\\"";
    } else if c == '\\' {
      text := target + "\\\\";
    } else if c == BACKSPACE {
      text := target + "\\b";
    } else if c == FORMFEED {
      text := target + "\\f";
    } else if c == '\n' {
      text := target + "\\n";
    } else if c == '\r' {
      text := target + "\\r";
    } else if c == '\t' {
      text := target + "\\t";
    } else if c < ' ' {
      text := target + ("\\u00" + [HexDigit(c as nat / 16), HexDigit(c as nat % 16)]);
    } else {
      text := target + [c];
    }
  }

  /** The character loop of `string`. */
  method AppendString(target: string, value: string) returns (text: string)
    ensures text == target + Quoted(value)
  {
    text := target + "\"";
    for i := 0 to |value|
      invariant text + EscapeAll(value[i..]) == target + "\"" + EscapeAll(value)
    {
      ghost var before := text;
      text := AppendCharacter(text, value[i]);
      Associate(before, Escape(value[i]), EscapeAll(value[i + 1..]));
    }
    assert value[|value|..] == [];
    assert text == target + "\"" + EscapeAll(value);
    text := text + "\"";
    assert text == target + ("\"" + EscapeAll(value) + "\"");
  }

  class CategoryBuffer {
    const recordLimit: nat
    const characterLimit: nat
    var items: string
    var returned: nat
    var truncated: bool
    /** The records behind the text. */
    ghost var records: seq<Json>

    /** The text is exactly the comma-separated list of `returned` records, within both limits. */
    ghost predicate Valid()
      reads this
    {
      && returned == |records| && returned <= recordLimit
      && items == Join(ItemTexts(records)) && |items| <= characterLimit
    }

    constructor (recordLimit: nat, characterLimit: nat)
      ensures Valid() && records == [] && !truncated
      ensures this.recordLimit == recordLimit && this.characterLimit == characterLimit
    {
      this.recordLimit, this.characterLimit := recordLimit, characterLimit;
      items, returned, truncated, records := [], 0, false, [];
    }

    method Append(record: string, ghost j: Json) returns (ok: bool)
      requires Valid() && record == Render(j)
      modifies this
      ensures Valid() && records == (if ok then old(records) + [j] else old(records))
      ensures ok <==> old(returned) < recordLimit
                      && |old(items)| + (if old(returned) == 0 then 0 else 1) + |record| <= characterLimit
      ensures truncated == (old(truncated) || !ok)
    {
      var separator := if returned == 0 then 0 else 1;
      if returned >= recordLimit || |items| + separator + |record| > characterLimit {
        truncated := true;
        return false;
      }
      JoinAppend(ItemTexts(records), record);
      assert ItemTexts(records + [j]) == ItemTexts(records) + [record];
      if separator == 1 {
        items := items + ",";
      }
      items := items + record;
      returned := returned + 1;
      records := records + [j];
      return true;
    }

    function Full(): bool
      reads this
    {
      returned >= recordLimit || |items| >= characterLimit
    }
  }

  // ---- records -----------------------------------------------------------------------------

  function RecordOf(f: Function, codeLimit: nat): FunctionRecord {
    var completed := !f.isExternal && f.decompilation.code.Some?;
    var full := if completed then f.decompilation.code.value else "";
    FunctionRecord(
      f.name, f.namespace, f.entry, f.signature, f.bodyAddresses, f.isExternal, f.thunk,
      if f.isExternal then "skipped-external" else if completed then "completed" else "failed",
      if f.isExternal then "" else BoundedText(f.decompilation.message, MAX_MESSAGE),
      |full| > codeLimit, BoundedText(full, codeLimit))
  }

  function EdgeOf(f: Function, r: Reference): EdgeRecord {
    EdgeRecord(
      f.entry, f.name, r.callsite, r.toAddress,
      if r.target.Some? then r.target.value.entry else "", if r.target.Some? then r.target.value.name else "",
      r.kind, r.target.Some? && r.target.value.isExternal)
  }

  function StringOf(s: DefinedString): StringRecord
    requires s.value.Some?
  {
    StringRecord(s.address, s.dataType, s.byteLength, |s.value.value| > MAX_STRING,
      BoundedText(s.value.value, MAX_STRING))
  }

  function XrefOf(x: StringXref): XrefRecord {
    XrefRecord(
      x.fromAddress, x.toAddress, x.kind, x.operandIndex,
      if x.source.Some? then x.source.value.0 else "", if x.source.Some? then x.source.value.1 else "")
  }

  function RecordsOf(fs: seq<Function>, codeLimit: nat): (rs: seq<FunctionRecord>)
    ensures |rs| == |fs| && forall i :: 0 <= i < |fs| ==> rs[i] == RecordOf(fs[i], codeLimit)
  {
    seq(|fs|, i requires 0 <= i < |fs| => RecordOf(fs[i], codeLimit))
  }

  // ---- records as text ---------------------------------------------------------------------

  /** An object being written: everything up to and including its first `k` fields. */
  ghost predicate Writing(text: string, fields: seq<Field>, k: nat) {
    k <= |fields| && text == "{" + Join(FieldTexts(fields[..k]))
  }

  lemma OneMoreField(text: string, fields: seq<Field>, k: nat)
    requires Writing(text, fields, k) && k < |fields|
    ensures Writing(text + (if k == 0 then FieldText(fields[k]) else "," + FieldText(fields[k])), fields, k + 1)
  {
    var before, item := FieldTexts(fields[..k]), FieldText(fields[k]);
    assert fields[..k + 1] == fields[..k] + [fields[k]];
    assert FieldTexts(fields[..k + 1]) == before + [item];
    JoinAppend(before, item);
    if k > 0 {
      Regroup("{", Join(before), ",", item);
      Associate(text, ",", item);
    } else {
      assert Join(before) == [];
    }
  }

  lemma Closed(text: string, fields: seq<Field>)
    requires Writing(text, fields, |fields|)
    ensures text + "}" == Render(JObject(fields))
  {
    assert fields[..|fields|] == fields;
    ObjectText(fields);
  }

  /** A comma where needed, the key and its value's text. */
  method AppendField(text: string, ghost fields: seq<Field>, k: nat, key: string, value: string)
    returns (longer: string)
    requires Writing(text, fields, k) && k < |fields| && fields[k].key == key && Render(fields[k].value) == value
    ensures Writing(longer, fields, k + 1)
  {
    var name := AppendString("", key);
    var item := name + ":" + value;
    assert item == FieldText(fields[k]);
    longer := text + (if k == 0 then item else "," + item);
    OneMoreField(text, fields, k);
  }

  predicate Scalar(j: Json) {
    j.JString? || j.JInt? || j.JBool?
  }

  /** Writes a record: its fields in order, with `field` for texts and plain appends for numbers and flags. */
  method WriteRecord(fields: seq<Field>) returns (text: string)
    requires forall i :: 0 <= i < |fields| ==> Scalar(fields[i].value)
    ensures text == Render(JObject(fields))
  {
    text := "{";
    for k := 0 to |fields|
      invariant Writing(text, fields, k)
    {
      var value: string;
      match fields[k].value {
        case JString(t) => value := AppendString("", t);
        case JInt(n) => value := IntText(n);
        case JBool(flag) => value := if flag then "true" else "false";
      }
      text := AppendField(text, fields, k, fields[k].key, value);
    }
    Closed(text, fields);
    text := text + "}";
  }

  // ---- what the loops offer ----------------------------------------------------------------

  function ReferenceEdges(f: Function, refs: seq<Reference>): seq<EdgeRecord> {
    if refs == [] then []
    else
      var before, r := ReferenceEdges(f, refs[..|refs| - 1]), refs[|refs| - 1];
      if r.isCall then before + [EdgeOf(f, r)] else before
  }

  function InstructionEdges(f: Function, instructions: seq<seq<Reference>>): seq<EdgeRecord> {
    if instructions == [] then []
    else InstructionEdges(f, instructions[..|instructions| - 1]) + ReferenceEdges(f, instructions[|instructions| - 1])
  }

  /** All call edges of some functions, in the order the script meets them. */
  function AllEdges(fs: seq<Function>): seq<EdgeRecord> {
    if fs == [] then [] else AllEdges(fs[..|fs| - 1]) + InstructionEdges(fs[|fs| - 1], fs[|fs| - 1].instructions)
  }

  function StringRecords(ss: seq<DefinedString>): seq<StringRecord> {
    if ss == [] then []
    else
      var before, s := StringRecords(ss[..|ss| - 1]), ss[|ss| - 1];
      if s.value.Some? then before + [StringOf(s)] else before
  }

  function XrefRecords(xs: seq<StringXref>): (rs: seq<XrefRecord>)
    ensures |rs| == |xs| && forall i :: 0 <= i < |xs| ==> rs[i] == XrefOf(xs[i])
  {
    seq(|xs|, i requires 0 <= i < |xs| => XrefOf(xs[i]))
  }

  function AllXrefs(ss: seq<DefinedString>): seq<XrefRecord> {
    if ss == [] then []
    else
      var before, s := AllXrefs(ss[..|ss| - 1]), ss[|ss| - 1];
      if s.value.Some? then before + XrefRecords(s.xrefs) else before
  }

  // ---- what the buffers take ---------------------------------------------------------------

  /** The limits of one buffer. */
  datatype Cap = Cap(records: nat, characters: nat)

  predicate Fits<T>(items: seq<T>, item: T, write: T -> Json, cap: Cap) {
    && |items| < cap.records
    && |Join(ItemTexts(Jsons(items, write)))| + (if |items| == 0 then 0 else 1)
       + |Render(write(item))| <= cap.characters
  }

  predicate IsFull<T>(items: seq<T>, write: T -> Json, cap: Cap) {
    |items| >= cap.records || |Join(ItemTexts(Jsons(items, write)))| >= cap.characters
  }

  /** A loop over the first `n` items that is left once the state says so. */
  function Until<S, T>(s: S, xs: seq<T>, n: nat, stop: S -> bool, step: (S, T) -> S): S
    requires n <= |xs|
  {
    if n == 0 then s
    else
      var t := Until(s, xs, n - 1, stop, step);
      if stop(t) then t else step(t, xs[n - 1])
  }

  /** Once the loop is left, what else there is makes no difference. */
  lemma {:induction false} UntilStops<S, T>(s: S, xs: seq<T>, n: nat, m: nat, stop: S -> bool, step: (S, T) -> S)
    requires n <= m <= |xs| && stop(Until(s, xs, n, stop, step))
    ensures Until(s, xs, m, stop, step) == Until(s, xs, n, stop, step)
    decreases m
  {
    if n < m {
      UntilStops(s, xs, n, m - 1, stop, step);
    }
  }

  ghost predicate KeptBy<S(!new), T>(xs: seq<T>, stop: S -> bool, step: (S, T) -> S, inv: (nat, S) -> bool) {
    forall i: nat, t {:trigger inv(i, t)} ::
      i < |xs| && inv(i, t) ==> inv(i + 1, if stop(t) then t else step(t, xs[i]))
  }

  /** What every pass keeps, whether the loop goes on or has been left, holds at the end. */
  lemma {:induction false} UntilKeeps<S(!new), T>(
    s: S, xs: seq<T>, n: nat, stop: S -> bool, step: (S, T) -> S, inv: (nat, S) -> bool)
    requires n <= |xs| && inv(0, s) && KeptBy(xs, stop, step, inv)
    ensures inv(n, Until(s, xs, n, stop, step))
  {
    if n > 0 {
      UntilKeeps(s, xs, n - 1, stop, step, inv);
    }
  }

  /** The items after some were offered, and whether one was turned away. */
  datatype Taken<T> = Taken(items: seq<T>, cut: bool)

  /** Takes what is offered in order, up to the first item that does not fit. */
  function Take<T>(offered: seq<T>, items: seq<T>, write: T -> Json, cap: Cap): (t: Taken<T>)
    ensures items <= t.items <= items + offered
    ensures !t.cut ==> t.items == items + offered
    ensures |items| <= cap.records ==> |t.items| <= cap.records
  {
    if |offered| == 0 then Taken(items, false)
    else
      var n := |offered| - 1;
      var t := Take(offered[..n], items, write, cap);
      if t.cut || !Fits(t.items, offered[n], write, cap) then Taken(t.items, true)
        else Taken(t.items + [offered[n]], false)
  }

  /** Once an item is turned away, what else is offered makes no difference. */
  lemma {:induction false} CutStays<T>(offered: seq<T>, more: seq<T>, items: seq<T>, write: T -> Json, cap: Cap)
    requires offered <= more && Take(offered, items, write, cap).cut
    ensures Take(more, items, write, cap) == Take(offered, items, write, cap)
    decreases |more|
  {
    if offered != more {
      var n := |more| - 1;
      assert offered <= more[..n];
      CutStays(offered, more[..n], items, write, cap);
    }
  }

  /** The call edges after some instructions; `full` if the loop has stopped. */
  datatype Walked = Walked(edges: seq<EdgeRecord>, cut: bool, full: bool)

  /** An edge that does not fit ends its instruction; a full buffer ends the function. */
  function NextWalked(f: Function, w: Walked, refs: seq<Reference>, write: EdgeRecord -> Json, cap: Cap): (v: Walked)
    ensures |w.edges| <= cap.records ==> |v.edges| <= cap.records
  {
    var t := Take(ReferenceEdges(f, refs), w.edges, write, cap);
    var full := IsFull(t.items, write, cap);
    Walked(t.items, w.cut || t.cut || full, full)
  }

  function WalkStops(): Walked -> bool {
    (w: Walked) => w.full
  }

  function WalkStep(f: Function, write: EdgeRecord -> Json, cap: Cap): (Walked, seq<Reference>) -> Walked {
    (w, refs) => NextWalked(f, w, refs, write, cap)
  }

  function Walk(f: Function, n: nat, es: seq<EdgeRecord>, write: EdgeRecord -> Json, cap: Cap): Walked
    requires n <= |f.instructions|
  {
    Until(Walked(es, false, false), f.instructions, n, WalkStops(), WalkStep(f, write, cap))
  }

  lemma FullStays(f: Function, n: nat, es: seq<EdgeRecord>, write: EdgeRecord -> Json, cap: Cap)
    requires n <= |f.instructions| && Walk(f, n, es, write, cap).full
    ensures Walk(f, |f.instructions|, es, write, cap) == Walk(f, n, es, write, cap)
  {
    UntilStops(Walked(es, false, false), f.instructions, n, |f.instructions|, WalkStops(), WalkStep(f, write, cap));
  }

  /** The call edges after one function. */
  function TakeCalls(f: Function, es: seq<EdgeRecord>, write: EdgeRecord -> Json, cap: Cap): Taken<EdgeRecord> {
    if IsFull(es, write, cap) then Taken(es, true)
    else
      var w := Walk(f, |f.instructions|, es, write, cap);
      Taken(w.edges, w.cut)
  }

  /** How the records are written. */
  datatype Writers = Writers(
    ofFunction: FunctionRecord -> Json, ofEdge: EdgeRecord -> Json, ofString: StringRecord -> Json,
    ofXref: XrefRecord -> Json)

  /** The limits of a run. */
  datatype Caps = Caps(code: nat, functions: Cap, calls: Cap, strings: Cap, xrefs: Cap)

  /** What the function loop has collected. */
  datatype Harvest = Harvest(functions: seq<FunctionRecord>, calls: seq<EdgeRecord>, functionsCut: bool, callsCut: bool)

  const NO_HARVEST: Harvest := Harvest([], [], false, false)

  /** Nothing is stored for a function whose record does not fit. */
  function NextFunction(h: Harvest, f: Function, w: Writers, caps: Caps): Harvest {
    var r := RecordOf(f, caps.code);
    if !Fits(h.functions, r, w.ofFunction, caps.functions) then h.(functionsCut := true)
    else
      var t := TakeCalls(f, h.calls, w.ofEdge, caps.calls);
      Harvest(h.functions + [r], t.items, false, h.callsCut || t.cut)
  }

  function FunctionsStop(): Harvest -> bool {
    (h: Harvest) => h.functionsCut
  }

  function FunctionStep(w: Writers, caps: Caps): (Harvest, Function) -> Harvest {
    (h, f) => NextFunction(h, f, w, caps)
  }

  /** The first `n` functions, up to the first whose record does not fit, with their call edges. */
  function TakeFunctions(fs: seq<Function>, n: nat, w: Writers, caps: Caps): Harvest
    requires n <= |fs|
  {
    Until(NO_HARVEST, fs, n, FunctionsStop(), FunctionStep(w, caps))
  }

  lemma TakeFunctionsNext(fs: seq<Function>, n: nat, w: Writers, caps: Caps)
    requires n < |fs|
    ensures var h := TakeFunctions(fs, n, w, caps);
            TakeFunctions(fs, n + 1, w, caps) == if h.functionsCut then h else NextFunction(h, fs[n], w, caps)
  {
  }

  lemma FunctionsCutStays(fs: seq<Function>, n: nat, w: Writers, caps: Caps)
    requires n <= |fs| && TakeFunctions(fs, n, w, caps).functionsCut
    ensures TakeFunctions(fs, |fs|, w, caps) == TakeFunctions(fs, n, w, caps)
  {
    UntilStops(NO_HARVEST, fs, n, |fs|, FunctionsStop(), FunctionStep(w, caps));
  }

  /** The cross-references after one string. */
  function TakeXrefs(s: DefinedString, xs: seq<XrefRecord>, write: XrefRecord -> Json, cap: Cap): (t: Taken<XrefRecord>)
    ensures |xs| <= cap.records ==> |t.items| <= cap.records
  {
    if IsFull(xs, write, cap) then Taken(xs, true) else Take(XrefRecords(s.xrefs), xs, write, cap)
  }

  /** What the string loop has collected. */
  datatype StringHarvest = StringHarvest(
    strings: seq<StringRecord>, xrefs: seq<XrefRecord>, stringsCut: bool, xrefsCut: bool)

  const NO_STRINGS: StringHarvest := StringHarvest([], [], false, false)

  /** A string without a value is passed over. */
  function NextString(h: StringHarvest, s: DefinedString, w: Writers, caps: Caps): StringHarvest {
    if s.value.None? then h
    else if IsFull(h.strings, w.ofString, caps.strings) || !Fits(h.strings, StringOf(s), w.ofString, caps.strings) then
      h.(stringsCut := true)
    else
      var t := TakeXrefs(s, h.xrefs, w.ofXref, caps.xrefs);
      StringHarvest(h.strings + [StringOf(s)], t.items, false, h.xrefsCut || t.cut)
  }

  function StringsStop(): StringHarvest -> bool {
    (h: StringHarvest) => h.stringsCut
  }

  function StringStep(w: Writers, caps: Caps): (StringHarvest, DefinedString) -> StringHarvest {
    (h, s) => NextString(h, s, w, caps)
  }

  /** The first `n` strings, up to the first with a value whose record does not fit, with their references. */
  function TakeStrings(ss: seq<DefinedString>, n: nat, w: Writers, caps: Caps): StringHarvest
    requires n <= |ss|
  {
    Until(NO_STRINGS, ss, n, StringsStop(), StringStep(w, caps))
  }

  lemma StringsCutStays(ss: seq<DefinedString>, n: nat, w: Writers, caps: Caps)
    requires n <= |ss| && TakeStrings(ss, n, w, caps).stringsCut
    ensures TakeStrings(ss, |ss|, w, caps) == TakeStrings(ss, n, w, caps)
  {
    UntilStops(NO_STRINGS, ss, n, |ss|, StringsStop(), StringStep(w, caps));
  }

  // ---- what the buffers hold ---------------------------------------------------------------

  /** The edges added are edges of `f`. */
  ghost predicate EdgesFrom(es: seq<EdgeRecord>, more: seq<EdgeRecord>, f: Function) {
    es <= more && forall i :: |es| <= i < |more| ==> more[i].fromEntry == f.entry
  }

  lemma {:induction false} ReferenceEdgesStart(f: Function, refs: seq<Reference>)
    ensures forall i :: 0 <= i < |ReferenceEdges(f, refs)| ==> ReferenceEdges(f, refs)[i].fromEntry == f.entry
  {
    if refs != [] {
      ReferenceEdgesStart(f, refs[..|refs| - 1]);
    }
  }

  lemma InstructionEdgesNext(f: Function, n: nat, es: seq<EdgeRecord>)
    requires n < |f.instructions|
    ensures (es + InstructionEdges(f, f.instructions[..n])) + ReferenceEdges(f, f.instructions[n])
         == es + InstructionEdges(f, f.instructions[..n + 1])
  {
    assert f.instructions[..n + 1][..n] == f.instructions[..n];
  }

  /** The edges a function adds start at it; unless some were cut, they are all of its edges. */
  ghost predicate GoodWalk(f: Function, n: nat, es: seq<EdgeRecord>, cap: Cap, w: Walked) {
    && n <= |f.instructions| && EdgesFrom(es, w.edges, f)
    && (!w.cut ==> w.edges == es + InstructionEdges(f, f.instructions[..n]))
    && (|es| <= cap.records ==> |w.edges| <= cap.records) && (w.full ==> w.cut)
  }

  lemma NextWalkIsGood(f: Function, n: nat, es: seq<EdgeRecord>, write: EdgeRecord -> Json, cap: Cap, w: Walked)
    requires n < |f.instructions| && GoodWalk(f, n, es, cap, w)
    ensures GoodWalk(f, n + 1, es, cap, NextWalked(f, w, f.instructions[n], write, cap))
  {
    ReferenceEdgesStart(f, f.instructions[n]);
    InstructionEdgesNext(f, n, es);
  }

  lemma WalkedEdges(f: Function, es: seq<EdgeRecord>, write: EdgeRecord -> Json, cap: Cap)
    ensures GoodWalk(f, |f.instructions|, es, cap, Walk(f, |f.instructions|, es, write, cap))
  {
    var inv := (n: nat, w: Walked) => GoodWalk(f, n, es, cap, w);
    forall n: nat, w | n < |f.instructions| && inv(n, w)
      ensures inv(n + 1, if WalkStops()(w) then w else WalkStep(f, write, cap)(w, f.instructions[n]))
    {
      if !w.full {
        NextWalkIsGood(f, n, es, write, cap, w);
      }
    }
    UntilKeeps(Walked(es, false, false), f.instructions, |f.instructions|, WalkStops(), WalkStep(f, write, cap), inv);
  }

  lemma TakenCalls(f: Function, es: seq<EdgeRecord>, write: EdgeRecord -> Json, cap: Cap)
    ensures var t := TakeCalls(f, es, write, cap);
            && EdgesFrom(es, t.items, f) && (!t.cut ==> t.items == es + InstructionEdges(f, f.instructions))
            && (|es| <= cap.records ==> |t.items| <= cap.records)
  {
    WalkedEdges(f, es, write, cap);
    assert f.instructions[..|f.instructions|] == f.instructions;
  }

  /** Every edge starts at one of the functions. */
  ghost predicate EdgesStartIn(es: seq<EdgeRecord>, fs: seq<FunctionRecord>) {
    forall i :: 0 <= i < |es| ==> FromEmitted(fs, es[i])
  }

  lemma RecordsNext(fs: seq<Function>, n: nat, codeLimit: nat)
    requires n < |fs|
    ensures RecordsOf(fs[..n + 1], codeLimit) == RecordsOf(fs[..n], codeLimit) + [RecordOf(fs[n], codeLimit)]
  {
  }

  lemma AllEdgesNext(fs: seq<Function>, n: nat)
    requires n < |fs|
    ensures AllEdges(fs[..n + 1]) == AllEdges(fs[..n]) + InstructionEdges(fs[n], fs[n].instructions)
  {
    assert fs[..n + 1][..n] == fs[..n];
  }

  /** What the function loop has collected after `n` functions: the records of a prefix, a proper one exactly
      if the loop was left, and edges that start there; unless some were cut, all the edges of that prefix. */
  ghost predicate GoodHarvest(fs: seq<Function>, n: nat, caps: Caps, h: Harvest) {
    && |h.functions| <= n <= |fs| && h.functions == RecordsOf(fs[..|h.functions|], caps.code)
    && (h.functionsCut <==> |h.functions| < n)
    && EdgesStartIn(h.calls, h.functions) && (!h.callsCut ==> h.calls == AllEdges(fs[..|h.functions|]))
    && |h.functions| <= caps.functions.records && |h.calls| <= caps.calls.records
  }

  lemma NextHarvestIsGood(fs: seq<Function>, n: nat, w: Writers, caps: Caps, h: Harvest)
    requires n < |fs| && GoodHarvest(fs, n, caps, h) && !h.functionsCut
    ensures GoodHarvest(fs, n + 1, caps, NextFunction(h, fs[n], w, caps))
  {
    TakenCalls(fs[n], h.calls, w.ofEdge, caps.calls);
    var t := TakeCalls(fs[n], h.calls, w.ofEdge, caps.calls);
    OneMoreFunction(fs, n, caps.code, h.functions, h.calls, h.callsCut, t);
  }

  lemma HarvestedFunctions(fs: seq<Function>, w: Writers, caps: Caps)
    ensures GoodHarvest(fs, |fs|, caps, TakeFunctions(fs, |fs|, w, caps))
  {
    var inv := (n: nat, h: Harvest) => GoodHarvest(fs, n, caps, h);
    forall n: nat, h | n < |fs| && inv(n, h)
      ensures inv(n + 1, if FunctionsStop()(h) then h else FunctionStep(w, caps)(h, fs[n]))
    {
      if !h.functionsCut {
        NextHarvestIsGood(fs, n, w, caps, h);
      }
    }
    UntilKeeps(NO_HARVEST, fs, |fs|, FunctionsStop(), FunctionStep(w, caps), inv);
  }

  lemma OneMoreFunction(
    fs: seq<Function>, n: nat, codeLimit: nat, rs: seq<FunctionRecord>, es: seq<EdgeRecord>, cut: bool,
    t: Taken<EdgeRecord>)
    requires n < |fs| && rs == RecordsOf(fs[..n], codeLimit) && EdgesStartIn(es, rs)
    requires !cut ==> es == AllEdges(fs[..n])
    requires EdgesFrom(es, t.items, fs[n]) && (!t.cut ==> t.items == es + InstructionEdges(fs[n], fs[n].instructions))
    ensures var r := RecordOf(fs[n], codeLimit);
            && rs + [r] == RecordsOf(fs[..n + 1], codeLimit) && EdgesStartIn(t.items, rs + [r])
            && (!cut && !t.cut ==> t.items == AllEdges(fs[..n + 1]))
  {
    RecordsNext(fs, n, codeLimit);
    AllEdgesNext(fs, n);
  }

  /** The cross-references added lead to `address`. */
  ghost predicate XrefsTo(xs: seq<XrefRecord>, more: seq<XrefRecord>, address: string) {
    xs <= more && forall i :: |xs| <= i < |more| ==> more[i].toAddress == address
  }

  lemma TakenXrefs(s: DefinedString, xs: seq<XrefRecord>, write: XrefRecord -> Json, cap: Cap)
    requires forall k :: 0 <= k < |s.xrefs| ==> s.xrefs[k].toAddress == s.address
    ensures var t := TakeXrefs(s, xs, write, cap);
            XrefsTo(xs, t.items, s.address) && (!t.cut ==> t.items == xs + XrefRecords(s.xrefs))
  {
  }

  ghost predicate XrefsEndIn(xs: seq<XrefRecord>, ss: seq<StringRecord>) {
    forall i :: 0 <= i < |xs| ==> ToEmitted(ss, xs[i])
  }

  lemma XrefsStillEnd(xs: seq<XrefRecord>, more: seq<XrefRecord>, ss: seq<StringRecord>, r: StringRecord)
    requires XrefsEndIn(xs, ss) && XrefsTo(xs, more, r.address)
    ensures XrefsEndIn(more, ss + [r])
  {
    forall i | 0 <= i < |more|
      ensures ToEmitted(ss + [r], more[i])
    {
      if i < |xs| {
        assert ToEmitted(ss, xs[i]);
        var s :| s in ss && s.address == xs[i].toAddress;
        assert s in ss + [r];
      } else {
        assert r in ss + [r];
      }
    }
  }

  lemma StringsNext(ss: seq<DefinedString>, n: nat)
    requires n < |ss|
    ensures StringRecords(ss[..n + 1])
         == if ss[n].value.Some? then StringRecords(ss[..n]) + [StringOf(ss[n])] else StringRecords(ss[..n])
    ensures AllXrefs(ss[..n + 1])
         == if ss[n].value.Some? then AllXrefs(ss[..n]) + XrefRecords(ss[n].xrefs) else AllXrefs(ss[..n])
  {
    assert ss[..n + 1][..n] == ss[..n];
  }

  /** What the string loop has collected after `n` strings: the records of the first `k`, all of them unless
      the loop was left, and references that end there; unless some were cut, all the references to them. */
  ghost predicate GoodStrings(ss: seq<DefinedString>, n: nat, k: nat, caps: Caps, h: StringHarvest) {
    && k <= n <= |ss| && h.strings == StringRecords(ss[..k]) && (h.stringsCut <==> k < n)
    && XrefsEndIn(h.xrefs, h.strings) && (!h.xrefsCut ==> h.xrefs == AllXrefs(ss[..k]))
    && |h.strings| <= caps.strings.records && |h.xrefs| <= caps.xrefs.records
  }

  lemma NextStringsAreGood(ss: seq<DefinedString>, n: nat, w: Writers, caps: Caps, h: StringHarvest)
    requires n < |ss| && GoodStrings(ss, n, n, caps, h)
    requires forall j :: 0 <= j < |ss[n].xrefs| ==> ss[n].xrefs[j].toAddress == ss[n].address
    ensures var g := NextString(h, ss[n], w, caps); GoodStrings(ss, n + 1, if g.stringsCut then n else n + 1, caps, g)
  {
    var s := ss[n];
    StringsNext(ss, n);
    if s.value.Some? {
      TakenXrefs(s, h.xrefs, w.ofXref, caps.xrefs);
      XrefsStillEnd(h.xrefs, TakeXrefs(s, h.xrefs, w.ofXref, caps.xrefs).items, h.strings, StringOf(s));
    }
  }

  lemma {:induction false} HarvestedStrings(ss: seq<DefinedString>, n: nat, w: Writers, caps: Caps) returns (k: nat)
    requires n <= |ss|
    requires forall i :: 0 <= i < |ss| ==> forall j :: 0 <= j < |ss[i].xrefs| ==>
               ss[i].xrefs[j].toAddress == ss[i].address
    ensures GoodStrings(ss, n, k, caps, TakeStrings(ss, n, w, caps))
  {
    k := 0;
    if n > 0 {
      k := HarvestedStrings(ss, n - 1, w, caps);
      var h := TakeStrings(ss, n - 1, w, caps);
      if !h.stringsCut {
        NextStringsAreGood(ss, n - 1, w, caps, h);
        k := if NextString(h, ss[n - 1], w, caps).stringsCut then n - 1 else n;
      }
    }
  }

  lemma AddressStays(p: Program, n: nat, address: string)
    requires ProgramOk(p) && n < |p.strings| && AddressBefore(p, n, address)
    ensures AddressBefore(p, n + 1, address) && address != p.strings[n].address
  {
  }

  /** The records of the first `n` strings: their addresses are those of distinct strings. */
  ghost predicate FromStrings(p: Program, n: nat, ss: seq<StringRecord>)
    requires n <= |p.strings|
  {
    && (forall i :: 0 <= i < |ss| ==> StringOk(ss[i])) && DistinctAddresses(ss)
    && forall i :: 0 <= i < |ss| ==> AddressBefore(p, n, ss[i].address)
  }

  lemma OneMoreString(p: Program, n: nat, ss: seq<StringRecord>, r: StringRecord)
    requires ProgramOk(p) && n < |p.strings| && FromStrings(p, n, ss) && r.address == p.strings[n].address
             && StringOk(r)
    ensures FromStrings(p, n + 1, ss) && FromStrings(p, n + 1, ss + [r])
  {
    forall i | 0 <= i < |ss|
      ensures AddressBefore(p, n + 1, ss[i].address) && ss[i].address != r.address
    {
      AddressStays(p, n, ss[i].address);
    }
  }

  lemma {:induction false} StringRecordsAreOk(p: Program, n: nat)
    requires ProgramOk(p) && n <= |p.strings|
    ensures FromStrings(p, n, StringRecords(p.strings[..n]))
  {
    if n > 0 {
      var s := p.strings[n - 1];
      StringRecordsAreOk(p, n - 1);
      StringsNext(p.strings, n - 1);
      OneMoreString(p, n - 1, StringRecords(p.strings[..n - 1]),
                    if s.value.Some? then StringOf(s) else StringRecord(s.address, "", 0, false, ""));
    }
  }

  predicate AddressBefore(p: Program, n: nat, address: string)
    requires n <= |p.strings|
  {
    exists j :: 0 <= j < n && p.strings[j].address == address
  }

  // ---- the nested loops --------------------------------------------------------------------

  /** A buffer that holds exactly these records. */
  ghost predicate Lists<T>(buffer: CategoryBuffer, items: seq<T>, write: T -> Json)
    reads buffer
  {
    buffer.Valid() && buffer.records == Jsons(items, write)
  }

  /** A buffer with these limits that holds exactly these records. */
  ghost predicate Holds<T>(buffer: CategoryBuffer, items: seq<T>, write: T -> Json, cap: Cap)
    reads buffer
  {
    Lists(buffer, items, write) && cap == Cap(buffer.recordLimit, buffer.characterLimit)
  }

  lemma JsonsAppend<T>(items: seq<T>, item: T, write: T -> Json)
    ensures Jsons(items + [item], write) == Jsons(items, write) + [write(item)]
  {
  }

  /** A record: an object of texts, numbers and flags. */
  predicate Flat(j: Json) {
    j.JObject? && forall i :: 0 <= i < |j.fields| ==> Scalar(j.fields[i].value)
  }

  ghost predicate FlatWriter<T(!new)>(write: T -> Json) {
    forall x :: Flat(write(x))
  }

  ghost predicate FlatWriters(w: Writers) {
    FlatWriter(w.ofFunction) && FlatWriter(w.ofEdge) && FlatWriter(w.ofString) && FlatWriter(w.ofXref)
  }

  method AppendRecord<T(!new)>(buffer: CategoryBuffer, item: T, write: T -> Json, ghost items: seq<T>, ghost cap: Cap)
    returns (ok: bool)
    requires Holds(buffer, items, write, cap) && FlatWriter(write)
    modifies buffer
    ensures ok <==> Fits(items, item, write, cap)
    ensures Holds(buffer, if ok then items + [item] else items, write, cap)
    ensures buffer.truncated == (old(buffer.truncated) || !ok)
  {
    var j := write(item);
    var record := WriteRecord(j.fields);
    JsonsAppend(items, item, write);
    ok := buffer.Append(record, j);
  }

  /** The references of one instruction, until an edge does not fit. */
  method MapReferences(
    f: Function, refs: seq<Reference>, buffer: CategoryBuffer, write: EdgeRecord -> Json, ghost es: seq<EdgeRecord>,
    ghost cap: Cap)
    returns (cut: bool, ghost t: Taken<EdgeRecord>)
    requires Holds(buffer, es, write, cap) && FlatWriter(write)
    modifies buffer
    ensures t == Take(ReferenceEdges(f, refs), es, write, cap) && cut == t.cut
    ensures Holds(buffer, t.items, write, cap) && buffer.truncated == (old(buffer.truncated) || cut)
  {
    t := Taken(es, false);
    for i := 0 to |refs|
      invariant t == Take(ReferenceEdges(f, refs[..i]), es, write, cap) && !t.cut
      invariant Holds(buffer, t.items, write, cap) && buffer.truncated == old(buffer.truncated)
    {
      ReferenceEdgesNext(f, refs, i);
      if !refs[i].isCall {
        continue;
      }
      var edge := EdgeOf(f, refs[i]);
      var ok := AppendRecord(buffer, edge, write, t.items, cap);
      t := Take(ReferenceEdges(f, refs[..i + 1]), es, write, cap);
      if !ok {
        CutStays(ReferenceEdges(f, refs[..i + 1]), ReferenceEdges(f, refs), es, write, cap);
        return true, t;
      }
    }
    assert refs[..|refs|] == refs;
    cut := false;
  }

  lemma TakeOneMore<T>(offered: seq<T>, i: nat, items: seq<T>, write: T -> Json, cap: Cap)
    requires i < |offered| && !Take(offered[..i], items, write, cap).cut
    ensures var t := Take(offered[..i], items, write, cap);
            Take(offered[..i + 1], items, write, cap)
            == if Fits(t.items, offered[i], write, cap) then Taken(t.items + [offered[i]], false)
              else Taken(t.items, true)
  {
    assert offered[..i + 1] == offered[..i] + [offered[i]];
  }

  lemma ReferenceEdgesNext(f: Function, refs: seq<Reference>, i: nat)
    requires i < |refs|
    ensures ReferenceEdges(f, refs[..i + 1])
         == if refs[i].isCall then ReferenceEdges(f, refs[..i]) + [EdgeOf(f, refs[i])] else ReferenceEdges(f, refs[..i])
    ensures ReferenceEdges(f, refs[..i + 1]) <= ReferenceEdges(f, refs)
  {
    assert refs[..i + 1][..i] == refs[..i];
    ReferenceEdgesOfPrefix(f, refs, i + 1);
  }

  lemma {:induction false} ReferenceEdgesOfPrefix(f: Function, refs: seq<Reference>, i: nat)
    requires i <= |refs|
    ensures ReferenceEdges(f, refs[..i]) <= ReferenceEdges(f, refs)
    decreases |refs|
  {
    if i == |refs| {
      assert refs[..i] == refs;
    } else {
      var n := |refs| - 1;
      assert refs[..n][..i] == refs[..i];
      ReferenceEdgesOfPrefix(f, refs[..n], i);
    }
  }

  /** The instructions of one function; stops when the buffer is full, but not when one edge was too long. */
  method MapInstructions(
    f: Function, buffer: CategoryBuffer, write: EdgeRecord -> Json, ghost es: seq<EdgeRecord>, ghost cap: Cap)
    returns (cut: bool, ghost w: Walked)
    requires Holds(buffer, es, write, cap) && FlatWriter(write)
    modifies buffer
    ensures w == Walk(f, |f.instructions|, es, write, cap) && cut == w.cut
    ensures Holds(buffer, w.edges, write, cap) && (buffer.truncated ==> old(buffer.truncated) || cut)
  {
    cut, w := false, Walked(es, false, false);
    for i := 0 to |f.instructions|
      invariant w == Walk(f, i, es, write, cap) && cut == w.cut && !w.full
      invariant Holds(buffer, w.edges, write, cap) && (buffer.truncated ==> old(buffer.truncated) || cut)
    {
      var stopped;
      ghost var t;
      stopped, t := MapReferences(f, f.instructions[i], buffer, write, w.edges, cap);
      w := NextWalked(f, w, f.instructions[i], write, cap);
      cut := cut || stopped;
      if buffer.Full() {
        FullStays(f, i + 1, es, write, cap);
        return true, w;
      }
    }
  }

  /** The call edges of one function, unless the buffer is already full. */
  method MapCalls(f: Function, buffer: CategoryBuffer, write: EdgeRecord -> Json, ghost es: seq<EdgeRecord>,
      ghost cap: Cap)
    returns (cut: bool, ghost t: Taken<EdgeRecord>)
    requires Holds(buffer, es, write, cap) && FlatWriter(write)
    modifies buffer
    ensures t == TakeCalls(f, es, write, cap) && cut == t.cut
    ensures Holds(buffer, t.items, write, cap) && (buffer.truncated ==> old(buffer.truncated) || cut)
  {
    if buffer.Full() {
      return true, Taken(es, true);
    }
    ghost var w;
    cut, w := MapInstructions(f, buffer, write, es, cap);
    t := Taken(w.edges, w.cut);
  }

  /** The counters of the analysis over the records written. */
  function CountersOf(fs: seq<FunctionRecord>): Analysis {
    Analysis(Failures(fs), CodeTruncations(fs), CodeCharacters(fs))
  }

  /** The counters after one more function. */
  function Counted(a: Analysis, r: FunctionRecord): Analysis {
    Analysis(a.failures + (if r.status == "failed" then 1 else 0), a.codeTruncated + (if r.codeTruncated then 1 else 0),
             a.characters + |r.code|)
  }

  lemma CountAppended(fs: seq<FunctionRecord>, r: FunctionRecord)
    ensures CountersOf(fs + [r]) == Counted(CountersOf(fs), r)
  {
    assert (fs + [r])[..|fs|] == fs;
  }

  /** The buffers of the function loop hold what has been collected, and know nothing the flags do not. */
  ghost predicate HoldHarvest(functionItems: CategoryBuffer, callItems: CategoryBuffer, h: Harvest, w: Writers,
      caps: Caps)
    reads functionItems, callItems
  {
    && Holds(functionItems, h.functions, w.ofFunction, caps.functions)
       && Holds(callItems, h.calls, w.ofEdge, caps.calls)
    && (functionItems.truncated ==> h.functionsCut) && (callItems.truncated ==> h.callsCut)
  }

  /** The loop body for function `n`: nothing is stored when its record does not fit. */
  method MapFunction(
    fs: seq<Function>, n: nat, functionItems: CategoryBuffer, callItems: CategoryBuffer, functionLimit: nat,
    codeLimit: nat,
    w: Writers, callsCut: bool, before: Analysis, ghost h: Harvest, ghost caps: Caps)
    returns (stored: bool, cut: bool, counted: Analysis, ghost h': Harvest)
    requires functionItems != callItems && HoldHarvest(functionItems, callItems, h, w, caps) && FlatWriters(w)
    requires n < |fs| && h == TakeFunctions(fs, n, w, caps) && !h.functionsCut && callsCut == h.callsCut
    requires functionLimit == caps.functions.records && codeLimit == caps.code && before == CountersOf(h.functions)
    modifies functionItems, callItems
    ensures h' == TakeFunctions(fs, n + 1, w, caps) && HoldHarvest(functionItems, callItems, h', w, caps)
    ensures stored == !h'.functionsCut && cut == h'.callsCut && counted == CountersOf(h'.functions)
  {
    TakeFunctionsNext(fs, n, w, caps);
    cut, counted, h' := callsCut, before, NextFunction(h, fs[n], w, caps);
    if functionItems.returned >= functionLimit {
      return false, cut, counted, h';
    }
    var r := RecordOf(fs[n], codeLimit);
    stored := AppendRecord(functionItems, r, w.ofFunction, h.functions, caps.functions);
    if stored {
      var callCut;
      ghost var t;
      callCut, t := MapCalls(fs[n], callItems, w.ofEdge, h.calls, caps.calls);
      CountAppended(h.functions, r);
      cut, counted := callsCut || callCut, Counted(before, r);
    }
  }

  /** The function loop: the functions up to the first that does not fit. */
  method MapFunctions(
    fs: seq<Function>, functionItems: CategoryBuffer, callItems: CategoryBuffer, functionLimit: nat, codeLimit: nat,
    w: Writers, ghost caps: Caps)
    returns (functionsCut: bool, callsCut: bool, counted: Analysis, ghost h: Harvest)
    requires functionItems != callItems && FlatWriters(w)
    requires HoldHarvest(functionItems, callItems, Harvest([], [], false, false), w, caps)
    requires functionLimit == caps.functions.records && codeLimit == caps.code
    modifies functionItems, callItems
    ensures h == TakeFunctions(fs, |fs|, w, caps) && HoldHarvest(functionItems, callItems, h, w, caps)
    ensures functionsCut == h.functionsCut && callsCut == h.callsCut && counted == CountersOf(h.functions)
  {
    functionsCut, callsCut := false, false;
    counted, h := Analysis(0, 0, 0), Harvest([], [], false, false);
    for n := 0 to |fs|
      invariant h == TakeFunctions(fs, n, w, caps) && HoldHarvest(functionItems, callItems, h, w, caps)
      invariant !functionsCut && !h.functionsCut && callsCut == h.callsCut && counted == CountersOf(h.functions)
    {
      var stored;
      stored, callsCut, counted, h :=
        MapFunction(fs, n, functionItems, callItems, functionLimit, codeLimit, w, callsCut, counted, h, caps);
      if !stored {
        FunctionsCutStays(fs, n + 1, w, caps);
        functionsCut := true;
        return;
      }
    }
  }

  /** The references to one string, until one does not fit. */
  method MapXrefs(
    s: DefinedString, buffer: CategoryBuffer, write: XrefRecord -> Json, ghost xs: seq<XrefRecord>, ghost cap: Cap)
    returns (cut: bool, ghost t: Taken<XrefRecord>)
    requires Holds(buffer, xs, write, cap) && FlatWriter(write)
    modifies buffer
    ensures t == TakeXrefs(s, xs, write, cap) && cut == t.cut
    ensures Holds(buffer, t.items, write, cap) && (buffer.truncated ==> old(buffer.truncated) || cut)
  {
    if buffer.Full() {
      return true, Taken(xs, true);
    }
    ghost var offered := XrefRecords(s.xrefs);
    t := Taken(xs, false);
    for i := 0 to |s.xrefs|
      invariant t == Take(offered[..i], xs, write, cap) && !t.cut
      invariant Holds(buffer, t.items, write, cap) && buffer.truncated == old(buffer.truncated)
    {
      var ok := AppendRecord(buffer, XrefOf(s.xrefs[i]), write, t.items, cap);
      TakeOneMore(offered, i, xs, write, cap);
      t := Take(offered[..i + 1], xs, write, cap);
      if !ok {
        CutStays(offered[..i + 1], offered, xs, write, cap);
        return true, t;
      }
    }
    assert offered[..|s.xrefs|] == offered;
    cut := false;
  }

  ghost predicate HoldStrings(stringItems: CategoryBuffer, xrefItems: CategoryBuffer, h: StringHarvest, w: Writers,
      caps: Caps)
    reads stringItems, xrefItems
  {
    && Holds(stringItems, h.strings, w.ofString, caps.strings) && Holds(xrefItems, h.xrefs, w.ofXref, caps.xrefs)
    && (stringItems.truncated ==> h.stringsCut) && (xrefItems.truncated ==> h.xrefsCut)
  }

  /** The loop body for string `n`, which has a value. */
  method MapString(
    ss: seq<DefinedString>, n: nat, stringItems: CategoryBuffer, xrefItems: CategoryBuffer, w: Writers, xrefsCut: bool,
    ghost h: StringHarvest, ghost caps: Caps)
    returns (stored: bool, cut: bool, ghost h': StringHarvest)
    requires stringItems != xrefItems && HoldStrings(stringItems, xrefItems, h, w, caps) && FlatWriters(w)
    requires n < |ss| && ss[n].value.Some?
    requires h == TakeStrings(ss, n, w, caps) && !h.stringsCut && xrefsCut == h.xrefsCut
    modifies stringItems, xrefItems
    ensures h' == TakeStrings(ss, n + 1, w, caps) && HoldStrings(stringItems, xrefItems, h', w, caps)
    ensures stored == !h'.stringsCut && cut == h'.xrefsCut
  {
    cut, h' := xrefsCut, NextString(h, ss[n], w, caps);
    if stringItems.Full() {
      return false, cut, h';
    }
    stored := AppendRecord(stringItems, StringOf(ss[n]), w.ofString, h.strings, caps.strings);
    if stored {
      var xrefCut;
      ghost var t;
      xrefCut, t := MapXrefs(ss[n], xrefItems, w.ofXref, h.xrefs, caps.xrefs);
      cut := xrefsCut || xrefCut;
    }
  }

  /** The string loop: the strings that have a value, up to the first that does not fit. */
  method MapStrings(
    ss: seq<DefinedString>, stringItems: CategoryBuffer, xrefItems: CategoryBuffer, w: Writers, ghost caps: Caps)
    returns (stringsCut: bool, xrefsCut: bool, ghost h: StringHarvest)
    requires stringItems != xrefItems && FlatWriters(w)
    requires HoldStrings(stringItems, xrefItems, StringHarvest([], [], false, false), w, caps)
    modifies stringItems, xrefItems
    ensures h == TakeStrings(ss, |ss|, w, caps) && HoldStrings(stringItems, xrefItems, h, w, caps)
    ensures stringsCut == h.stringsCut && xrefsCut == h.xrefsCut
  {
    stringsCut, xrefsCut, h := false, false, StringHarvest([], [], false, false);
    for n := 0 to |ss|
      invariant h == TakeStrings(ss, n, w, caps) && HoldStrings(stringItems, xrefItems, h, w, caps)
      invariant !stringsCut && !h.stringsCut && xrefsCut == h.xrefsCut
    {
      if ss[n].value.None? {
        continue;
      }
      var stored;
      stored, xrefsCut, h := MapString(ss, n, stringItems, xrefItems, w, xrefsCut, h, caps);
      if !stored {
        StringsCutStays(ss, n + 1, w, caps);
        stringsCut := true;
        return;
      }
    }
  }

  // ---- the document ------------------------------------------------------------------------

  /** Writes an object from its keys and the texts of its values. */
  method WriteObject(keys: seq<string>, texts: seq<string>, ghost fields: seq<Field>) returns (text: string)
    requires |keys| == |texts| == |fields|
    requires forall i :: 0 <= i < |fields| ==> fields[i].key == keys[i] && Render(fields[i].value) == texts[i]
    ensures text == Render(JObject(fields))
  {
    text := "{";
    for k := 0 to |keys|
      invariant Writing(text, fields, k)
    {
      text := AppendField(text, fields, k, keys[k], texts[k]);
    }
    Closed(text, fields);
    text := text + "}";
  }

  /** `appendSection`, for sections without a total. */
  method WriteSection<T>(buffer: CategoryBuffer, truncated: bool, write: T -> Json, ghost section: Section<T>)
    returns (text: string)
    requires Lists(buffer, section.items, write) && section.returned == |section.items|
             && section.truncated == truncated
    ensures text == Render(JObject(SectionFields(section, write)))
  {
    text := WriteObject(SECTION_KEYS,
      [IntText(buffer.returned), if truncated then "true" else "false", "[" + buffer.items + "]"],
                        SectionFields(section, write));
  }

  /** The functions section, which also carries the program's total. */
  method WriteFunctionSection(buffer: CategoryBuffer, truncated: bool, total: nat, ghost d: Document)
    returns (text: string)
    requires Lists(buffer, d.functions.items, FunctionJson) && d.functions.returned == |d.functions.items|
    requires d.functions.truncated == truncated && d.total == total
    ensures text == Render(FunctionSection(d))
  {
    text := WriteObject(
      FUNCTION_SECTION_KEYS,
      [IntText(total), IntText(buffer.returned), if truncated then "true" else "false", "[" + buffer.items + "]"],
      FunctionSection(d).fields);
  }

  function DocumentWriters(): Writers {
    Writers(FunctionJson, EdgeJson, StringJson, XrefJson)
  }

  /** What the loops hand to the final assembly. */
  datatype Outcome = Outcome(
    functions: seq<FunctionRecord>, calls: seq<EdgeRecord>, strings: seq<StringRecord>, xrefs: seq<XrefRecord>)

  /** The truncation flags of the four sections. */
  datatype Cuts = Cuts(functions: bool, calls: bool, strings: bool, xrefs: bool)

  function DocumentOf(p: Program, o: Outcome, counted: Analysis, cuts: Cuts): Document {
    Document(p.meta, counted, p.total,
             Section(|o.functions|, cuts.functions, o.functions), Section(|o.calls|, cuts.calls, o.calls),
             Section(|o.strings|, cuts.strings, o.strings), Section(|o.xrefs|, cuts.xrefs, o.xrefs))
  }

  /** The top-level object from the texts of its seven members. */
  method WriteMembers(
    meta: string, analysis: string, functions: string, calls: string, strings: string, xrefs: string,
    ghost js: seq<Json>, ghost fields: seq<Field>)
    returns (text: string)
    requires |js| == |fields| == |DOCUMENT_KEYS|
    requires forall i :: 0 <= i < |js| ==> fields[i] == Field(DOCUMENT_KEYS[i], js[i])
    requires js[0] == JString("1.0") && meta == Render(js[1]) && analysis == Render(js[2]) && functions == Render(js[3])
    requires calls == Render(js[4]) && strings == Render(js[5]) && xrefs == Render(js[6])
    ensures text == Render(JObject(fields))
  {
    var version := AppendString("", "1.0");
    text := WriteObject(DOCUMENT_KEYS, [version, meta, analysis, functions, calls, strings, xrefs], fields);
  }

  /** The values of the document's members. */
  lemma Members(d: Document) returns (js: seq<Json>, fields: seq<Field>)
    ensures DocumentJson(d) == JObject(fields) && |js| == |fields| == |DOCUMENT_KEYS|
    ensures forall i :: 0 <= i < |js| ==> fields[i] == Field(DOCUMENT_KEYS[i], js[i])
    ensures js[0] == JString("1.0") && js[1] == MetaJson(d.meta) && js[2] == AnalysisJson(d.analysis)
    ensures js[3] == FunctionSection(d) && js[4] == JObject(SectionFields(d.calls, EdgeJson))
    ensures js[5] == JObject(SectionFields(d.strings, StringJson)) && js[6] == JObject(SectionFields(d.xrefs, XrefJson))
  {
    js := [JString("1.0"), MetaJson(d.meta), AnalysisJson(d.analysis), FunctionSection(d),
           JObject(SectionFields(d.calls, EdgeJson)), JObject(SectionFields(d.strings, StringJson)),
           JObject(SectionFields(d.xrefs, XrefJson))];
    fields := DocumentJson(d).fields;
  }

  method WriteHeader(p: Program, counted: Analysis) returns (meta: string, analysis: string)
    ensures meta == Render(MetaJson(p.meta)) && analysis == Render(AnalysisJson(counted))
  {
    meta := WriteRecord(MetaJson(p.meta).fields);
    analysis := WriteRecord(AnalysisJson(counted).fields);
  }

  method WriteDocument(
    meta: string, analysis: string, functions: string, calls: string, strings: string, xrefs: string,
    ghost d: Document)
    returns (text: string)
    requires meta == Render(MetaJson(d.meta)) && analysis == Render(AnalysisJson(d.analysis))
    requires functions == Render(FunctionSection(d)) && calls == Render(JObject(SectionFields(d.calls, EdgeJson)))
    requires strings == Render(JObject(SectionFields(d.strings, StringJson)))
    requires xrefs == Render(JObject(SectionFields(d.xrefs, XrefJson)))
    ensures text == Render(DocumentJson(d))
  {
    ghost var js, fields := Members(d);
    text := WriteMembers(meta, analysis, functions, calls, strings, xrefs, js, fields);
  }

  method WriteSections(
    functionItems: CategoryBuffer, callItems: CategoryBuffer, stringItems: CategoryBuffer, xrefItems: CategoryBuffer,
    total: nat, cuts: Cuts, ghost d: Document)
    returns (functions: string, calls: string, strings: string, xrefs: string)
    requires Lists(functionItems, d.functions.items, FunctionJson) && Lists(callItems, d.calls.items, EdgeJson)
    requires Lists(stringItems, d.strings.items, StringJson) && Lists(xrefItems, d.xrefs.items, XrefJson)
    requires SectionCounts(d.functions) && SectionCounts(d.calls) && SectionCounts(d.strings) && SectionCounts(d.xrefs)
    requires d.total == total
    requires cuts == Cuts(d.functions.truncated, d.calls.truncated, d.strings.truncated, d.xrefs.truncated)
    ensures functions == Render(FunctionSection(d)) && calls == Render(JObject(SectionFields(d.calls, EdgeJson)))
    ensures strings == Render(JObject(SectionFields(d.strings, StringJson)))
    ensures xrefs == Render(JObject(SectionFields(d.xrefs, XrefJson)))
  {
    functions := WriteFunctionSection(functionItems, cuts.functions, total, d);
    calls := WriteSection(callItems, cuts.calls, EdgeJson, d.calls);
    strings := WriteSection(stringItems, cuts.strings, StringJson, d.strings);
    xrefs := WriteSection(xrefItems, cuts.xrefs, XrefJson, d.xrefs);
  }

  method Assemble(
    p: Program, counted: Analysis, cuts: Cuts, functionItems: CategoryBuffer, callItems: CategoryBuffer,
    stringItems: CategoryBuffer, xrefItems: CategoryBuffer, ghost d: Document)
    returns (text: string)
    requires p.meta == d.meta && counted == d.analysis && p.total == d.total
    requires cuts == Cuts(d.functions.truncated, d.calls.truncated, d.strings.truncated, d.xrefs.truncated)
    requires Lists(functionItems, d.functions.items, FunctionJson) && Lists(callItems, d.calls.items, EdgeJson)
    requires Lists(stringItems, d.strings.items, StringJson) && Lists(xrefItems, d.xrefs.items, XrefJson)
    requires SectionCounts(d.functions) && SectionCounts(d.calls) && SectionCounts(d.strings) && SectionCounts(d.xrefs)
    ensures text == Render(DocumentJson(d))
  {
    var meta, analysis := WriteHeader(p, counted);
    var functions, calls, strings, xrefs := WriteSections(
      functionItems, callItems, stringItems, xrefItems, p.total, cuts, d);
    text := WriteDocument(meta, analysis, functions, calls, strings, xrefs, d);
  }

  // ---- the whole script --------------------------------------------------------------------

  /** The functions are marked truncated exactly if the program has more, and a section that is not marked
      truncated is complete. */
  ghost predicate Complete(p: Program, d: Document, codeLimit: nat) {
    && (d.functions.truncated <==> d.total > d.functions.returned)
    && (!d.functions.truncated ==> d.functions.items == RecordsOf(p.functions, codeLimit))
    && (!d.calls.truncated ==> d.calls.items == AllEdges(p.functions))
    && (!d.strings.truncated ==> d.strings.items == StringRecords(p.strings))
    && (!d.xrefs.truncated ==> d.xrefs.items == AllXrefs(p.strings))
  }

  lemma MappedFunctionsAreOk(p: Program, n: nat, codeLimit: nat, fs: seq<FunctionRecord>)
    requires ProgramOk(p) && n <= |p.functions| && fs == RecordsOf(p.functions[..n], codeLimit) && codeLimit <= MAX_CODE
    ensures (forall i :: 0 <= i < |fs| ==> FunctionOk(fs[i])) && DistinctEntries(fs)
  {
  }

  function CapsOf(recordLimit: nat, jsonLimit: nat): Caps
    requires recordLimit >= 1
  {
    var r, c := RecordLimits(recordLimit), CharacterLimits(jsonLimit);
    Caps(CodeLimit(jsonLimit, r.functions), Cap(r.functions, c.functions), Cap(r.calls, c.calls),
         Cap(r.strings, c.strings), Cap(r.xrefs, c.xrefs))
  }

  function DocumentFrom(p: Program, h: Harvest, s: StringHarvest): Document {
    var functionsCut := h.functionsCut || p.total > |h.functions|;
    DocumentOf(p, Outcome(h.functions, h.calls, s.strings, s.xrefs), CountersOf(h.functions),
               Cuts(functionsCut, h.callsCut || functionsCut, s.stringsCut, s.xrefsCut || s.stringsCut))
  }

  /** The document the script builds for a program. */
  function ScriptDocument(p: Program, recordLimit: nat, jsonLimit: nat): Document
    requires recordLimit >= 1
  {
    var w, caps := DocumentWriters(), CapsOf(recordLimit, jsonLimit);
    DocumentFrom(p, TakeFunctions(p.functions, |p.functions|, w, caps), TakeStrings(p.strings, |p.strings|, w, caps))
  }

  lemma HarvestIsAccepted(p: Program, h: Harvest, s: StringHarvest, k: nat, m: nat, codeLimit: nat, recordLimit: nat)
    requires ProgramOk(p) && codeLimit <= MAX_CODE && k <= |p.functions| && m <= |p.strings|
    requires h.functions == RecordsOf(p.functions[..k], codeLimit) && EdgesStartIn(h.calls, h.functions)
    requires s.strings == StringRecords(p.strings[..m]) && XrefsEndIn(s.xrefs, s.strings)
    requires |h.functions| + |h.calls| + |s.strings| + |s.xrefs| <= recordLimit
    ensures Accepts(DocumentFrom(p, h, s), recordLimit)
  {
    MappedFunctionsAreOk(p, k, codeLimit, h.functions);
    StringRecordsAreOk(p, m);
    forall e | e in h.calls
      ensures FromEmitted(h.functions, e)
    {
      var i :| 0 <= i < |h.calls| && h.calls[i] == e;
    }
    forall x | x in s.xrefs
      ensures ToEmitted(s.strings, x)
    {
      var i :| 0 <= i < |s.xrefs| && s.xrefs[i] == x;
    }
  }

  lemma HarvestIsComplete(p: Program, h: Harvest, s: StringHarvest, m: nat, caps: Caps)
    requires ProgramOk(p) && GoodHarvest(p.functions, |p.functions|, caps, h)
             && GoodStrings(p.strings, |p.strings|, m, caps, s)
    ensures Complete(p, DocumentFrom(p, h, s), caps.code)
  {
    assert p.functions[..|p.functions|] == p.functions;
    assert p.strings[..|p.strings|] == p.strings;
  }

  /** The normaliser accepts the document, and its truncation flags tell the truth. */
  lemma ScriptDocumentIsAccepted(p: Program, recordLimit: nat, jsonLimit: nat)
    requires ProgramOk(p) && recordLimit >= 1
    ensures var d := ScriptDocument(p, recordLimit, jsonLimit);
            Accepts(d, recordLimit) && Complete(p, d, CapsOf(recordLimit, jsonLimit).code)
  {
    DocumentIsAccepted(p, recordLimit, DocumentWriters(), CapsOf(recordLimit, jsonLimit));
  }

  lemma DocumentIsAccepted(p: Program, recordLimit: nat, w: Writers, caps: Caps)
    requires ProgramOk(p) && caps.code <= MAX_CODE
    requires caps.functions.records + caps.calls.records + caps.strings.records + caps.xrefs.records == recordLimit
    ensures var d := DocumentFrom(p, TakeFunctions(p.functions, |p.functions|, w, caps),
            TakeStrings(p.strings, |p.strings|, w, caps));
            Accepts(d, recordLimit) && Complete(p, d, caps.code)
  {
    var h, s := TakeFunctions(p.functions, |p.functions|, w, caps), TakeStrings(p.strings, |p.strings|, w, caps);
    HarvestedFunctions(p.functions, w, caps);
    var m := HarvestedStrings(p.strings, |p.strings|, w, caps);
    HarvestIsAccepted(p, h, s, |h.functions|, m, caps.code, recordLimit);
    HarvestIsComplete(p, h, s, m, caps);
  }

  /** Runs the two loops over fresh buffers and computes the truncation flags. */
  method Collect(p: Program, records: Limits, characters: Limits, codeLimit: nat, w: Writers, ghost caps: Caps)
    returns (functionItems: CategoryBuffer, callItems: CategoryBuffer, stringItems: CategoryBuffer,
             xrefItems: CategoryBuffer, counted: Analysis, cuts: Cuts, ghost d: Document)
    requires FlatWriters(w)
    requires caps == Caps(codeLimit, Cap(records.functions, characters.functions), Cap(records.calls, characters.calls),
                          Cap(records.strings, characters.strings), Cap(records.xrefs, characters.xrefs))
    ensures d == DocumentFrom(p, TakeFunctions(p.functions, |p.functions|, w, caps),
            TakeStrings(p.strings, |p.strings|, w, caps))
    ensures Lists(functionItems, d.functions.items, w.ofFunction) && Lists(callItems, d.calls.items, w.ofEdge)
    ensures Lists(stringItems, d.strings.items, w.ofString) && Lists(xrefItems, d.xrefs.items, w.ofXref)
    ensures counted == d.analysis
    ensures cuts == Cuts(d.functions.truncated, d.calls.truncated, d.strings.truncated, d.xrefs.truncated)
  {
    functionItems := new CategoryBuffer(records.functions, characters.functions);
    callItems := new CategoryBuffer(records.calls, characters.calls);
    stringItems := new CategoryBuffer(records.strings, characters.strings);
    xrefItems := new CategoryBuffer(records.xrefs, characters.xrefs);
    var functionsCut, callsCut, stringsCut, xrefsCut;
    ghost var h, s;
    functionsCut, callsCut, counted, h :=
      MapFunctions(p.functions, functionItems, callItems, records.functions, codeLimit, w, caps);
    stringsCut, xrefsCut, s := MapStrings(p.strings, stringItems, xrefItems, w, caps);
    d := DocumentFrom(p, h, s);
    var functionsTruncated := functionsCut || functionItems.truncated || p.total > functionItems.returned;
    var stringsTruncated := stringsCut || stringItems.truncated;
    cuts := Cuts(functionsTruncated, callsCut || callItems.truncated || functionsTruncated,
                 stringsTruncated, xrefsCut || xrefItems.truncated || stringsTruncated);
  }

  /** The text of the whole document. */
  method WriteMap(p: Program, recordLimit: nat, jsonLimit: nat) returns (json: string)
    requires recordLimit >= 1
    ensures json == Render(DocumentJson(ScriptDocument(p, recordLimit, jsonLimit)))
  {
    var records := RecordLimits(recordLimit);
    var codeLimit := CodeLimit(jsonLimit, records.functions);
    var functionItems, callItems, stringItems, xrefItems, counted, cuts, d := Collect(
      p, records, CharacterLimits(jsonLimit), codeLimit, DocumentWriters(), CapsOf(recordLimit, jsonLimit));
    json := Assemble(p, counted, cuts, functionItems, callItems, stringItems, xrefItems, d);
  }

  /** The script: nothing if an argument is out of range or the text exceeds its limit, else the text of the
      document. */
  method Run(p: Program, recordLimit: int, jsonLimit: int, decompileSeconds: int) returns (text: Option<string>)
    ensures if 1 <= recordLimit <= 25_000 && 1024 <= jsonLimit <= 16_000_000 && 1 <= decompileSeconds <= 60
                 && |Render(DocumentJson(ScriptDocument(p, recordLimit, jsonLimit)))| <= jsonLimit
            then text == Some(Render(DocumentJson(ScriptDocument(p, recordLimit, jsonLimit))))
            else text == None
  {
    if !ArgumentsOk(recordLimit, jsonLimit, decompileSeconds) {
      return None;
    }
    var json := WriteMap(p, recordLimit, jsonLimit);
    if |json| > jsonLimit {
      return None;
    }
    return Some(json);
  }
}
