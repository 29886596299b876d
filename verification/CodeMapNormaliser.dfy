/** The strict normaliser of the native code map: it recounts everything the document claims. */
module CodeMapNormaliser {
  import opened CodeMapDocument
  import opened JsonText
  import opened Results
  import opened Utf8

  const MAX_CODE := 64_000
  const MAX_MESSAGE := 512
  const MAX_STRING := 4096

  // ---- what an acceptable document satisfies -----------------------------------------------

  predicate SectionCounts<T>(s: Section<T>) {
    s.returned == |s.items|
  }

  predicate FunctionOk(f: FunctionRecord) {
    && f.status in {"completed", "failed", "skipped-external"}
    && f.bodyAddresses >= 0 && |f.code| <= MAX_CODE && |f.message| <= MAX_MESSAGE && f.entry != []
  }

  predicate StringOk(s: StringRecord) {
    s.byteLength >= 0 && |s.value| <= MAX_STRING && s.address != []
  }

  predicate DistinctEntries(fs: seq<FunctionRecord>) {
    forall i, j :: 0 <= i < j < |fs| ==> fs[i].entry != fs[j].entry
  }

  predicate DistinctAddresses(ss: seq<StringRecord>) {
    forall i, j :: 0 <= i < j < |ss| ==> ss[i].address != ss[j].address
  }

  function Failures(fs: seq<FunctionRecord>): nat {
    if fs == [] then 0 else Failures(fs[..|fs| - 1]) + (if fs[|fs| - 1].status == "failed" then 1 else 0)
  }

  function CodeTruncations(fs: seq<FunctionRecord>): nat {
    if fs == [] then 0 else CodeTruncations(fs[..|fs| - 1]) + (if fs[|fs| - 1].codeTruncated then 1 else 0)
  }

  function CodeCharacters(fs: seq<FunctionRecord>): nat {
    if fs == [] then 0 else CodeCharacters(fs[..|fs| - 1]) + |fs[|fs| - 1].code|
  }

  predicate FromEmitted(fs: seq<FunctionRecord>, e: EdgeRecord) {
    exists f :: f in fs && f.entry == e.fromEntry
  }

  predicate ToEmitted(ss: seq<StringRecord>, x: XrefRecord) {
    exists s :: s in ss && s.address == x.toAddress
  }

  function Aggregate(d: Document): nat {
    |d.functions.items| + |d.calls.items| + |d.strings.items| + |d.xrefs.items|
  }

  /** Counters equal item counts and the aggregate is within the limit. */
  predicate CountersOk(d: Document, maxRecords: nat) {
    && SectionCounts(d.functions) && SectionCounts(d.calls) && SectionCounts(d.strings) && SectionCounts(d.xrefs)
    && d.total >= d.functions.returned && Aggregate(d) <= maxRecords
  }

  /** The functions are well formed, have distinct entries, and are what the analysis counted. */
  predicate FunctionsOk(d: Document) {
    var fs := d.functions.items;
    && (forall i :: 0 <= i < |fs| ==> FunctionOk(fs[i])) && DistinctEntries(fs)
    && d.analysis == Analysis(Failures(fs), CodeTruncations(fs), CodeCharacters(fs))
    && (d.total > |fs| ==> d.functions.truncated)
  }

  /** Strings have distinct addresses; edges start at emitted functions, cross-references end at emitted strings. */
  predicate ReferencesOk(d: Document) {
    && (forall i :: 0 <= i < |d.strings.items| ==> StringOk(d.strings.items[i])) && DistinctAddresses(d.strings.items)
    && (forall e :: e in d.calls.items ==> FromEmitted(d.functions.items, e))
    && (forall x :: x in d.xrefs.items ==> ToEmitted(d.strings.items, x))
  }

  predicate Accepts(d: Document, maxRecords: nat) {
    CountersOk(d, maxRecords) && FunctionsOk(d) && ReferencesOk(d)
  }

  // ---- what is accepted, spelled out -------------------------------------------------------

  ghost function FailedIn(fs: seq<FunctionRecord>): set<nat> {
    set i | 0 <= i < |fs| && fs[i].status == "failed"
  }

  ghost function TruncatedIn(fs: seq<FunctionRecord>): set<nat> {
    set i | 0 <= i < |fs| && fs[i].codeTruncated
  }

  lemma OneMoreFailure(fs: seq<FunctionRecord>)
    requires fs != []
    ensures var n := |fs| - 1; |FailedIn(fs)| == |FailedIn(fs[..n])| + (if fs[n].status == "failed" then 1 else 0)
  {
    var n := |fs| - 1;
    assert FailedIn(fs) == FailedIn(fs[..n]) + (if fs[n].status == "failed" then {n} else {});
  }

  lemma OneMoreTruncation(fs: seq<FunctionRecord>)
    requires fs != []
    ensures var n := |fs| - 1; |TruncatedIn(fs)| == |TruncatedIn(fs[..n])| + (if fs[n].codeTruncated then 1 else 0)
  {
    var n := |fs| - 1;
    assert TruncatedIn(fs) == TruncatedIn(fs[..n]) + (if fs[n].codeTruncated then {n} else {});
  }

  lemma {:induction false} CountersAreCardinalities(fs: seq<FunctionRecord>)
    ensures Failures(fs) == |FailedIn(fs)| && CodeTruncations(fs) == |TruncatedIn(fs)|
  {
    if fs == [] {
      assert FailedIn(fs) == {} && TruncatedIn(fs) == {};
    } else {
      CountersAreCardinalities(fs[..|fs| - 1]);
      OneMoreFailure(fs);
      OneMoreTruncation(fs);
    }
  }

  /** The functions are within their limits, named apart, and counted by the analysis. */
  ghost predicate FunctionsCounted(d: Document) {
    var fs := d.functions.items;
    && d.functions.returned == |fs| <= d.total && (d.total > |fs| ==> d.functions.truncated)
    && (forall i :: 0 <= i < |fs| ==>
          && (fs[i].status == "completed" || fs[i].status == "failed" || fs[i].status == "skipped-external")
          && fs[i].bodyAddresses >= 0 && |fs[i].code| <= 64_000 && |fs[i].message| <= 512 && |fs[i].entry| > 0)
    && (forall i, j :: 0 <= i < |fs| && 0 <= j < |fs| && i != j ==> fs[i].entry != fs[j].entry)
    && d.analysis.failures == |FailedIn(fs)| && d.analysis.codeTruncated == |TruncatedIn(fs)|
    && d.analysis.characters == CodeCharacters(fs)
  }

  /** The strings are within their limits and addressed apart; edges start and references end where they should. */
  ghost predicate StringsAndLinks(d: Document) {
    var ss := d.strings.items;
    && d.strings.returned == |ss| && d.calls.returned == |d.calls.items| && d.xrefs.returned == |d.xrefs.items|
    && (forall i :: 0 <= i < |ss| ==> ss[i].byteLength >= 0 && |ss[i].value| <= 4096 && |ss[i].address| > 0)
    && (forall i, j :: 0 <= i < |ss| && 0 <= j < |ss| && i != j ==> ss[i].address != ss[j].address)
    && (forall k :: 0 <= k < |d.calls.items| ==>
          exists f :: f in d.functions.items && f.entry == d.calls.items[k].fromEntry)
    && (forall k :: 0 <= k < |d.xrefs.items| ==>
          exists s :: s in ss && s.address == d.xrefs.items[k].toAddress)
  }

  lemma FunctionsMean(d: Document)
    ensures SectionCounts(d.functions) && d.total >= d.functions.returned && FunctionsOk(d) <==> FunctionsCounted(d)
  {
    CountersAreCardinalities(d.functions.items);
  }

  lemma StringsMean(d: Document)
    ensures SectionCounts(d.calls) && SectionCounts(d.strings) && SectionCounts(d.xrefs) && ReferencesOk(d)
       <==> StringsAndLinks(d)
  {
    assert (forall e :: e in d.calls.items ==> FromEmitted(d.functions.items, e))
      <==> forall k :: 0 <= k < |d.calls.items| ==> FromEmitted(d.functions.items, d.calls.items[k]);
    assert (forall x :: x in d.xrefs.items ==> ToEmitted(d.strings.items, x))
      <==> forall k :: 0 <= k < |d.xrefs.items| ==> ToEmitted(d.strings.items, d.xrefs.items[k]);
  }

  /** A document is acceptable exactly if its functions are counted, its links lead somewhere, and all its records
      together are within the limit. */
  lemma AcceptedMeans(d: Document, maxRecords: nat)
    ensures Accepts(d, maxRecords)
       <==> FunctionsCounted(d) && StringsAndLinks(d)
            && |d.functions.items| + |d.calls.items| + |d.strings.items| + |d.xrefs.items| <= maxRecords
  {
    FunctionsMean(d);
    StringsMean(d);
  }

  // ---- the normaliser's loops --------------------------------------------------------------

  lemma CountNext(fs: seq<FunctionRecord>, i: nat)
    requires i < |fs|
    ensures Failures(fs[..i + 1]) == Failures(fs[..i]) + (if fs[i].status == "failed" then 1 else 0)
    ensures CodeTruncations(fs[..i + 1]) == CodeTruncations(fs[..i]) + (if fs[i].codeTruncated then 1 else 0)
    ensures CodeCharacters(fs[..i + 1]) == CodeCharacters(fs[..i]) + |fs[i].code|
  {
    assert fs[..i + 1][..i] == fs[..i];
  }

  /** What the loop knows after `i` functions. */
  ghost predicate Checked(fs: seq<FunctionRecord>, i: nat, entries: set<string>)
    requires i <= |fs|
  {
    && (forall j :: 0 <= j < i ==> FunctionOk(fs[j]))
    && (forall j, k :: 0 <= j < k < i ==> fs[j].entry != fs[k].entry)
    && (forall x :: x in entries <==> exists j :: 0 <= j < i && fs[j].entry == x)
  }

  lemma CheckedNext(fs: seq<FunctionRecord>, i: nat, entries: set<string>)
    requires i < |fs| && Checked(fs, i, entries) && FunctionOk(fs[i]) && fs[i].entry !in entries
    ensures Checked(fs, i + 1, entries + {fs[i].entry})
  {
  }

  lemma RepeatedEntry(fs: seq<FunctionRecord>, i: nat, entries: set<string>)
    requires i < |fs| && Checked(fs, i, entries) && fs[i].entry in entries
    ensures !DistinctEntries(fs)
  {
  }

  lemma CheckedAll(fs: seq<FunctionRecord>, entries: set<string>)
    requires Checked(fs, |fs|, entries)
    ensures (forall i :: 0 <= i < |fs| ==> FunctionOk(fs[i])) && DistinctEntries(fs)
    ensures entries == (set f | f in fs :: f.entry)
  {
  }

  method CheckFunctions(fs: seq<FunctionRecord>) returns (ok: bool, entries: set<string>, counted: Analysis)
    ensures ok <==> (forall i :: 0 <= i < |fs| ==> FunctionOk(fs[i])) && DistinctEntries(fs)
    ensures ok ==> entries == (set f | f in fs :: f.entry)
    ensures ok ==> counted == Analysis(Failures(fs), CodeTruncations(fs), CodeCharacters(fs))
  {
    entries := {};
    var failed, truncated, characters := 0, 0, 0;
    for i := 0 to |fs|
      invariant Checked(fs, i, entries)
      invariant failed == Failures(fs[..i]) && truncated == CodeTruncations(fs[..i])
                && characters == CodeCharacters(fs[..i])
    {
      var f := fs[i];
      CountNext(fs, i);
      if f.status !in {"completed", "failed", "skipped-external"} || f.bodyAddresses < 0 || |f.code| > MAX_CODE
         || |f.message| > MAX_MESSAGE || f.entry == [] {
        assert !FunctionOk(fs[i]);
        return false, {}, Analysis(0, 0, 0);
      }
      if f.entry in entries {
        RepeatedEntry(fs, i, entries);
        return false, {}, Analysis(0, 0, 0);
      }
      CheckedNext(fs, i, entries);
      entries := entries + {f.entry};
      failed := failed + (if f.status == "failed" then 1 else 0);
      truncated := truncated + (if f.codeTruncated then 1 else 0);
      characters := characters + |f.code|;
    }
    assert fs[..|fs|] == fs;
    CheckedAll(fs, entries);
    return true, entries, Analysis(failed, truncated, characters);
  }

  method CheckStrings(ss: seq<StringRecord>) returns (ok: bool, addresses: set<string>)
    ensures ok <==> (forall i :: 0 <= i < |ss| ==> StringOk(ss[i])) && DistinctAddresses(ss)
    ensures ok ==> addresses == (set s | s in ss :: s.address)
  {
    addresses := {};
    for i := 0 to |ss|
      invariant forall j :: 0 <= j < i ==> StringOk(ss[j])
      invariant forall j, k :: 0 <= j < k < i ==> ss[j].address != ss[k].address
      invariant forall x :: x in addresses <==> exists j :: 0 <= j < i && ss[j].address == x
    {
      var s := ss[i];
      if s.byteLength < 0 || |s.value| > MAX_STRING {
        return false, {};
      }
      if s.address == [] || s.address in addresses {
        return false, {};
      }
      addresses := addresses + {s.address};
    }
    return true, addresses;
  }

  /** Accepts exactly the acceptable documents, with the number of records and the overall truncation flag. */
  method Normalise(d: Document, maxRecords: nat) returns (r: Option<(nat, bool)>)
    ensures r.Some? <==> Accepts(d, maxRecords)
    ensures r.Some? ==>
              r.value == (Aggregate(d), d.functions.truncated || d.calls.truncated || d.strings.truncated
                || d.xrefs.truncated)
  {
    if d.functions.returned != |d.functions.items| || d.calls.returned != |d.calls.items|
       || d.strings.returned != |d.strings.items| || d.xrefs.returned != |d.xrefs.items| {
      return None;
    }
    if d.total < d.functions.returned {
      return None;
    }
    var aggregate := d.functions.returned + d.calls.returned + d.strings.returned + d.xrefs.returned;
    if aggregate > maxRecords {
      return None;
    }
    var functionsOk, entries, counted := CheckFunctions(d.functions.items);
    if !functionsOk {
      return None;
    }
    if d.analysis != counted {
      return None;
    }
    if d.total > |d.functions.items| && !d.functions.truncated {
      return None;
    }
    var stringsOk, addresses := CheckStrings(d.strings.items);
    if !stringsOk {
      return None;
    }
    if exists e :: e in d.calls.items && e.fromEntry !in entries {
      return None;
    }
    if exists x :: x in d.xrefs.items && x.toAddress !in addresses {
      return None;
    }
    return Some((aggregate, d.functions.truncated || d.calls.truncated || d.strings.truncated || d.xrefs.truncated));
  }

  /** Reads a document file and normalises it; nothing if the file is larger than `maxBytes`, its text is no
      JSON, the shape is wrong, or a claim does not hold. */
  method NormaliseText(text: string, maxBytes: nat, maxRecords: nat) returns (r: Option<(nat, bool)>)
    ensures r.Some? <==>
              && Utf8Length(text) <= maxBytes
              && Parse(text).Some? && ReadDocument(Parse(text).value).Some?
              && Accepts(ReadDocument(Parse(text).value).value, maxRecords)
  {
    if Utf8Length(text) > maxBytes {
      return None;
    }
    var j := Parse(text);
    if j.None? {
      return None;
    }
    var d := ReadDocument(j.value);
    if d.None? {
      return None;
    }
    r := Normalise(d.value, maxRecords);
  }
}
