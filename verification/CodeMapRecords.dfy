/** What the records of a native code map say about the program, field by field, which of the program's functions,
    calls, strings and references they list, and why a list ends. */
module CodeMapRecords {
  import opened Basics
  import opened CodeMapDocument
  import opened CodeMapNormaliser
  import opened JsonText
  import opened NativeCodeMap
  import opened Results

  // ---- one record --------------------------------------------------------------------------

  /** `short` is what is left of `full` when at most `limit` characters are kept. */
  predicate Shortened(full: string, limit: nat, short: string) {
    short <= full && |short| == Min(|full|, limit)
  }

  /** The record describes the function. Its code is a prefix of the decompiled code, flagged exactly if something
      was cut off; a function that is external or was not decompiled has none. */
  predicate FunctionIs(f: Function, codeLimit: nat, r: FunctionRecord) {
    && r.name == f.name && r.namespace == f.namespace && r.entry == f.entry && r.signature == f.signature
    && r.bodyAddresses == f.bodyAddresses && r.isExternal == f.isExternal && r.thunk == f.thunk
    && if f.isExternal then
         r.status == "skipped-external" && r.message == "" && r.code == "" && !r.codeTruncated
       else
         && Shortened(f.decompilation.message, 512, r.message)
         && match f.decompilation.code
            case None => r.status == "failed" && r.code == "" && !r.codeTruncated
            case Some(code) =>
              && r.status == "completed" && Shortened(code, codeLimit, r.code)
              && (r.codeTruncated <==> |code| > codeLimit)
  }

  predicate EdgeIs(f: Function, r: Reference, e: EdgeRecord) {
    && e.fromEntry == f.entry && e.fromName == f.name && e.callsite == r.callsite && e.toAddress == r.toAddress
    && e.referenceType == r.kind
    && match r.target
       case None => e.toEntry == "" && e.toName == "" && !e.isExternal
       case Some(t) => e.toEntry == t.entry && e.toName == t.name && e.isExternal == t.isExternal
  }

  predicate StringIs(s: DefinedString, r: StringRecord) {
    && r.address == s.address && r.dataType == s.dataType && r.byteLength == s.byteLength
    && s.value.Some? && Shortened(s.value.value, 4096, r.value) && (r.valueTruncated <==> |s.value.value| > 4096)
  }

  predicate XrefIs(x: StringXref, r: XrefRecord) {
    && r.fromAddress == x.fromAddress && r.toAddress == x.toAddress && r.referenceType == x.kind
    && r.operandIndex == x.operandIndex
    && match x.source
       case None => r.sourceEntry == "" && r.sourceName == ""
       case Some((entry, name)) => r.sourceEntry == entry && r.sourceName == name
  }

  lemma RecordShows(f: Function, codeLimit: nat)
    ensures FunctionIs(f, codeLimit, RecordOf(f, codeLimit))
  {
  }

  lemma StringShows(s: DefinedString)
    requires s.value.Some?
    ensures StringIs(s, StringOf(s))
  {
  }

  // ---- where the records come from ---------------------------------------------------------

  /** A place in the program: the function or string, and where in it. */
  datatype Site = Site(item: nat, line: nat, index: nat)

  predicate Earlier(a: Site, b: Site) {
    a.item < b.item || (a.item == b.item && (a.line < b.line || (a.line == b.line && a.index < b.index)))
  }

  ghost predicate InOrder(at: seq<Site>) {
    forall i, j :: 0 <= i < j < |at| ==> Earlier(at[i], at[j])
  }

  /** The records are those of the sites, in order. */
  ghost predicate Listed<T>(xs: seq<T>, at: seq<Site>, shows: (Site, T) -> bool) {
    |at| == |xs| && InOrder(at) && forall m :: 0 <= m < |at| ==> shows(at[m], xs[m])
  }

  lemma ListedAppend<T>(xs: seq<T>, at: seq<Site>, ys: seq<T>, bt: seq<Site>, shows: (Site, T) -> bool)
    requires Listed(xs, at, shows) && Listed(ys, bt, shows)
    requires forall i, j :: 0 <= i < |at| && 0 <= j < |bt| ==> Earlier(at[i], bt[j])
    ensures Listed(xs + ys, at + bt, shows)
  {
  }

  lemma LaterItem<T>(xs: seq<T>, at: seq<Site>, ys: seq<T>, bt: seq<Site>, n: nat, shows: (Site, T) -> bool)
    requires Listed(xs, at, shows) && Listed(ys, bt, shows)
    requires (forall a :: a in at ==> a.item < n) && forall b :: b in bt ==> b.item == n
    ensures Listed(xs + ys, at + bt, shows)
  {
    forall i, j | 0 <= i < |at| && 0 <= j < |bt|
      ensures Earlier(at[i], bt[j])
    {
      assert at[i] in at && bt[j] in bt;
    }
    ListedAppend(xs, at, ys, bt, shows);
  }

  lemma OneMoreSite<T>(xs: seq<T>, at: seq<Site>, x: T, a: Site, shows: (Site, T) -> bool)
    requires Listed(xs, at, shows) && shows(a, x) && forall b :: b in at ==> Earlier(b, a)
    ensures Listed(xs + [x], at + [a], shows)
  {
    forall i | 0 <= i < |at|
      ensures Earlier(at[i], a)
    {
      assert at[i] in at;
    }
  }

  predicate IsCallSite(fs: seq<Function>, a: Site) {
    && a.item < |fs| && a.line < |fs[a.item].instructions|
    && a.index < |fs[a.item].instructions[a.line]| && fs[a.item].instructions[a.line][a.index].isCall
  }

  predicate EdgeOfSite(fs: seq<Function>, a: Site, e: EdgeRecord) {
    IsCallSite(fs, a) && EdgeIs(fs[a.item], fs[a.item].instructions[a.line][a.index], e)
  }

  function CallIs(fs: seq<Function>): (Site, EdgeRecord) -> bool {
    (a, e) => EdgeOfSite(fs, a, e)
  }

  lemma {:induction false} ReferenceSites(fs: seq<Function>, item: nat, line: nat, n: nat) returns (at: seq<Site>)
    requires item < |fs| && line < |fs[item].instructions| && n <= |fs[item].instructions[line]|
    ensures Listed(ReferenceEdges(fs[item], fs[item].instructions[line][..n]), at, CallIs(fs))
    ensures forall a :: a in at <==> a.item == item && a.line == line && a.index < n && IsCallSite(fs, a)
  {
    at := [];
    if n > 0 {
      var refs := fs[item].instructions[line];
      at := ReferenceSites(fs, item, line, n - 1);
      assert refs[..n][..n - 1] == refs[..n - 1];
      if refs[n - 1].isCall {
        var a, e := Site(item, line, n - 1), EdgeOf(fs[item], refs[n - 1]);
        OneMoreSite(ReferenceEdges(fs[item], refs[..n - 1]), at, e, a, CallIs(fs));
        at := at + [a];
      }
    }
  }

  lemma {:induction false} InstructionSites(fs: seq<Function>, item: nat, n: nat) returns (at: seq<Site>)
    requires item < |fs| && n <= |fs[item].instructions|
    ensures Listed(InstructionEdges(fs[item], fs[item].instructions[..n]), at, CallIs(fs))
    ensures forall a :: a in at <==> a.item == item && a.line < n && IsCallSite(fs, a)
  {
    at := [];
    if n > 0 {
      var ins := fs[item].instructions;
      at := InstructionSites(fs, item, n - 1);
      var bt := ReferenceSites(fs, item, n - 1, |ins[n - 1]|);
      assert ins[..n][..n - 1] == ins[..n - 1] && ins[n - 1][..|ins[n - 1]|] == ins[n - 1];
      forall i, j | 0 <= i < |at| && 0 <= j < |bt|
        ensures Earlier(at[i], bt[j])
      {
        assert at[i] in at && bt[j] in bt;
      }
      ListedAppend(InstructionEdges(fs[item], ins[..n - 1]), at, ReferenceEdges(fs[item], ins[n - 1]), bt, CallIs(fs));
      at := at + bt;
    }
  }

  /** All edges of the first `n` functions: one for each of their call sites, in order. */
  lemma {:induction false} CallSites(fs: seq<Function>, n: nat) returns (at: seq<Site>)
    requires n <= |fs|
    ensures Listed(AllEdges(fs[..n]), at, CallIs(fs))
    ensures forall a :: a in at <==> a.item < n && IsCallSite(fs, a)
  {
    at := [];
    if n > 0 {
      at := CallSites(fs, n - 1);
      var bt := InstructionSites(fs, n - 1, |fs[n - 1].instructions|);
      assert fs[n - 1].instructions[..|fs[n - 1].instructions|] == fs[n - 1].instructions;
      AllEdgesNext(fs, n - 1);
      LaterItem(AllEdges(fs[..n - 1]), at, InstructionEdges(fs[n - 1], fs[n - 1].instructions), bt, n - 1, CallIs(fs));
      at := at + bt;
    }
  }

  // ---- strings and their references --------------------------------------------------------

  predicate IsStringSite(ss: seq<DefinedString>, a: Site) {
    a.item < |ss| && ss[a.item].value.Some? && a.line == 0 && a.index == 0
  }

  predicate IsXrefSite(ss: seq<DefinedString>, a: Site) {
    a.item < |ss| && ss[a.item].value.Some? && a.line == 0 && a.index < |ss[a.item].xrefs|
  }

  predicate StringOfSite(ss: seq<DefinedString>, a: Site, r: StringRecord) {
    IsStringSite(ss, a) && StringIs(ss[a.item], r)
  }

  predicate XrefOfSite(ss: seq<DefinedString>, a: Site, r: XrefRecord) {
    IsXrefSite(ss, a) && XrefIs(ss[a.item].xrefs[a.index], r)
  }

  function ValueIs(ss: seq<DefinedString>): (Site, StringRecord) -> bool {
    (a, r) => StringOfSite(ss, a, r)
  }

  function ReferenceIs(ss: seq<DefinedString>): (Site, XrefRecord) -> bool {
    (a, r) => XrefOfSite(ss, a, r)
  }

  lemma {:induction false} StringSites(ss: seq<DefinedString>, n: nat) returns (at: seq<Site>)
    requires n <= |ss|
    ensures Listed(StringRecords(ss[..n]), at, ValueIs(ss))
    ensures forall a :: a in at <==> a.item < n && IsStringSite(ss, a)
  {
    at := [];
    if n > 0 {
      at := StringSites(ss, n - 1);
      StringsNext(ss, n - 1);
      if ss[n - 1].value.Some? {
        var a, r := Site(n - 1, 0, 0), StringOf(ss[n - 1]);
        StringShows(ss[n - 1]);
        OneMoreSite(StringRecords(ss[..n - 1]), at, r, a, ValueIs(ss));
        at := at + [a];
      }
    }
  }

  lemma XrefSitesOf(ss: seq<DefinedString>, n: nat) returns (at: seq<Site>)
    requires n < |ss| && ss[n].value.Some?
    ensures Listed(XrefRecords(ss[n].xrefs), at, ReferenceIs(ss))
    ensures forall a :: a in at <==> a.item == n && IsXrefSite(ss, a)
  {
    at := seq(|ss[n].xrefs|, k requires 0 <= k < |ss[n].xrefs| => Site(n, 0, k));
    forall a: Site | a.item == n && IsXrefSite(ss, a)
      ensures a in at
    {
      assert at[a.index] == a;
    }
    forall m | 0 <= m < |at|
      ensures ReferenceIs(ss)(at[m], XrefRecords(ss[n].xrefs)[m])
    {
    }
  }

  lemma {:induction false} XrefSites(ss: seq<DefinedString>, n: nat) returns (at: seq<Site>)
    requires n <= |ss|
    ensures Listed(AllXrefs(ss[..n]), at, ReferenceIs(ss))
    ensures forall a :: a in at <==> a.item < n && IsXrefSite(ss, a)
  {
    at := [];
    if n > 0 {
      at := XrefSites(ss, n - 1);
      StringsNext(ss, n - 1);
      if ss[n - 1].value.Some? {
        var bt := XrefSitesOf(ss, n - 1);
        LaterItem(AllXrefs(ss[..n - 1]), at, XrefRecords(ss[n - 1].xrefs), bt, n - 1, ReferenceIs(ss));
        at := at + bt;
      }
    }
  }

  // ---- what a full section leaves out ------------------------------------------------------

  /** The places of `s` in `t`, in order. */
  ghost predicate DrawnAt<T>(s: seq<T>, t: seq<T>, at: seq<int>) {
    && |at| == |s| && (forall i, j :: 0 <= i < j < |at| ==> at[i] < at[j])
    && forall m :: 0 <= m < |at| ==> 0 <= at[m] < |t| && s[m] == t[at[m]]
  }

  ghost predicate Drawn<T(!new)>(s: seq<T>, t: seq<T>) {
    exists at :: DrawnAt(s, t, at)
  }

  lemma AllDrawn<T(!new)>(s: seq<T>)
    ensures Drawn(s, s)
  {
    var at: seq<int> := seq(|s|, (i: nat) => i);
    assert DrawnAt(s, s, at);
  }

  /** Drawing the head of what comes next keeps the order. */
  lemma DrawnOn<T(!new)>(s: seq<T>, t: seq<T>, more: seq<T>, v: seq<T>)
    requires Drawn(s, t) && s <= more <= s + v
    ensures Drawn(more, t + v)
  {
    var at :| DrawnAt(s, t, at);
    var bt: seq<int> := seq(|more| - |s|, (i: nat) => |t| + i);
    assert DrawnAt(more, t + v, at + bt);
  }

  lemma DrawnSites<T(!new)>(s: seq<T>, t: seq<T>, at: seq<Site>, shows: (Site, T) -> bool) returns (bt: seq<Site>)
    requires Drawn(s, t) && Listed(t, at, shows)
    ensures Listed(s, bt, shows) && forall a :: a in bt ==> a in at
  {
    var places :| DrawnAt(s, t, places);
    bt := seq(|s|, i requires 0 <= i < |s| => at[places[i]]);
  }

  /** The item does not go into a section beside these: one record too many, or too long a text. */
  ghost predicate NoRoom<T>(items: seq<T>, item: T, write: T -> Json, cap: Cap) {
    |items| + 1 > cap.records || |Join(ItemTexts(Jsons(items + [item], write)))| > cap.characters
  }

  /** The section holds as many records, or as much text, as it may. */
  ghost predicate SectionFull<T>(items: seq<T>, write: T -> Json, cap: Cap) {
    |items| >= cap.records || |Join(ItemTexts(Jsons(items, write)))| >= cap.characters
  }

  /** The section is full, or does not take one of the items on offer. */
  ghost predicate Pressed<T(!new)>(items: seq<T>, offered: seq<T>, write: T -> Json, cap: Cap) {
    SectionFull(items, write, cap) || exists x :: x in offered && NoRoom(items, x, write, cap)
  }

  lemma NoRoomMeans<T>(items: seq<T>, item: T, write: T -> Json, cap: Cap)
    ensures NoRoom(items, item, write, cap) <==> !Fits(items, item, write, cap)
  {
    JsonsAppend(items, item, write);
    var js := Jsons(items, write);
    assert ItemTexts(js + [write(item)]) == ItemTexts(js) + [Render(write(item))];
    JoinAppend(ItemTexts(js), Render(write(item)));
    if items == [] {
      assert Join(ItemTexts(js)) == [];
    }
  }

  lemma {:induction false} LongerList(a: seq<string>, b: seq<string>)
    requires a <= b
    ensures |Join(a)| <= |Join(b)|
    decreases |b|
  {
    if a != b {
      var n := |b| - 1;
      LongerList(a, b[..n]);
      assert b == b[..n] + [b[n]];
      JoinAppend(b[..n], b[n]);
      if b[..n] == [] {
        assert Join(a) == [];
      }
    }
  }

  lemma LongerText<T>(items: seq<T>, more: seq<T>, write: T -> Json)
    requires items <= more
    ensures |Join(ItemTexts(Jsons(items, write)))| <= |Join(ItemTexts(Jsons(more, write)))|
  {
    LongerList(ItemTexts(Jsons(items, write)), ItemTexts(Jsons(more, write)));
  }

  lemma StillNoRoom<T>(items: seq<T>, more: seq<T>, item: T, write: T -> Json, cap: Cap)
    requires items <= more && NoRoom(items, item, write, cap)
    ensures NoRoom(more, item, write, cap)
  {
    LongerText(items, more, write);
    NoRoomMeans(items, item, write, cap);
    NoRoomMeans(more, item, write, cap);
  }

  lemma StillPressed<T(!new)>(
    items: seq<T>, more: seq<T>, offered: seq<T>, others: seq<T>, write: T -> Json, cap: Cap)
    requires items <= more && Pressed(items, offered, write, cap) && forall x :: x in offered ==> x in others
    ensures Pressed(more, others, write, cap)
  {
    LongerText(items, more, write);
    if !IsFull(items, write, cap) {
      var x :| x in offered && NoRoom(items, x, write, cap);
      StillNoRoom(items, more, x, write, cap);
    }
  }

  lemma {:induction false} TakingPresses<T(!new)>(offered: seq<T>, items: seq<T>, write: T -> Json, cap: Cap)
    requires Take(offered, items, write, cap).cut
    ensures Pressed(Take(offered, items, write, cap).items, offered, write, cap)
  {
    var n := |offered| - 1;
    var t := Take(offered[..n], items, write, cap);
    if t.cut {
      TakingPresses(offered[..n], items, write, cap);
      StillPressed(t.items, t.items, offered[..n], offered, write, cap);
    } else {
      NoRoomMeans(t.items, offered[n], write, cap);
    }
  }

  lemma WalkIsDrawn(f: Function, n: nat, base: seq<EdgeRecord>, write: EdgeRecord -> Json, cap: Cap, w: Walked)
    requires n < |f.instructions| && Drawn(w.edges, base + InstructionEdges(f, f.instructions[..n]))
    ensures Drawn(NextWalked(f, w, f.instructions[n], write, cap).edges,
                  base + InstructionEdges(f, f.instructions[..n + 1]))
    ensures Drawn(w.edges, base + InstructionEdges(f, f.instructions[..n + 1]))
  {
    InstructionEdgesNext(f, n, base);
    var before := base + InstructionEdges(f, f.instructions[..n]);
    DrawnOn(w.edges, before, NextWalked(f, w, f.instructions[n], write, cap).edges,
            ReferenceEdges(f, f.instructions[n]));
    DrawnOn(w.edges, before, w.edges, ReferenceEdges(f, f.instructions[n]));
  }

  lemma WalkedAreDrawn(f: Function, es: seq<EdgeRecord>, base: seq<EdgeRecord>, write: EdgeRecord -> Json, cap: Cap)
    requires Drawn(es, base)
    ensures Drawn(Walk(f, |f.instructions|, es, write, cap).edges, base + InstructionEdges(f, f.instructions))
  {
    var inv := (n: nat, w: Walked) =>
      n <= |f.instructions| && Drawn(w.edges, base + InstructionEdges(f, f.instructions[..n]));
    assert base + InstructionEdges(f, f.instructions[..0]) == base;
    forall n: nat, w | n < |f.instructions| && inv(n, w)
      ensures inv(n + 1, if WalkStops()(w) then w else WalkStep(f, write, cap)(w, f.instructions[n]))
    {
      WalkIsDrawn(f, n, base, write, cap, w);
    }
    UntilKeeps(Walked(es, false, false), f.instructions, |f.instructions|, WalkStops(), WalkStep(f, write, cap), inv);
    assert f.instructions[..|f.instructions|] == f.instructions;
  }

  lemma CallsAreDrawn(fs: seq<Function>, n: nat, es: seq<EdgeRecord>, write: EdgeRecord -> Json, cap: Cap)
    requires n < |fs| && Drawn(es, AllEdges(fs[..n]))
    ensures Drawn(TakeCalls(fs[n], es, write, cap).items, AllEdges(fs[..n + 1]))
    ensures Drawn(es, AllEdges(fs[..n + 1]))
  {
    AllEdgesNext(fs, n);
    DrawnOn(es, AllEdges(fs[..n]), es, InstructionEdges(fs[n], fs[n].instructions));
    WalkedAreDrawn(fs[n], es, AllEdges(fs[..n]), write, cap);
  }

  /** If an edge was cut, the walk had no room for it or stopped at a full section. */
  lemma WalkStepPresses(f: Function, n: nat, write: EdgeRecord -> Json, cap: Cap, w: Walked)
    requires n < |f.instructions|
    requires w.cut ==> Pressed(w.edges, InstructionEdges(f, f.instructions[..n]), write, cap)
    ensures var v := NextWalked(f, w, f.instructions[n], write, cap);
            v.cut ==> Pressed(v.edges, InstructionEdges(f, f.instructions[..n + 1]), write, cap)
    ensures w.cut ==> Pressed(w.edges, InstructionEdges(f, f.instructions[..n + 1]), write, cap)
  {
    var v := NextWalked(f, w, f.instructions[n], write, cap);
    var refs, before := f.instructions[n], InstructionEdges(f, f.instructions[..n]);
    var all := InstructionEdges(f, f.instructions[..n + 1]);
    assert f.instructions[..n + 1][..n] == f.instructions[..n];
    assert all == before + ReferenceEdges(f, refs);
    if w.cut {
      StillPressed(w.edges, v.edges, before, all, write, cap);
      StillPressed(w.edges, w.edges, before, all, write, cap);
    } else if Take(ReferenceEdges(f, refs), w.edges, write, cap).cut {
      TakingPresses(ReferenceEdges(f, refs), w.edges, write, cap);
      StillPressed(v.edges, v.edges, ReferenceEdges(f, refs), all, write, cap);
    }
  }

  lemma WalkPresses(f: Function, es: seq<EdgeRecord>, write: EdgeRecord -> Json, cap: Cap)
    ensures var w := Walk(f, |f.instructions|, es, write, cap);
            w.cut ==> Pressed(w.edges, InstructionEdges(f, f.instructions), write, cap)
  {
    var inv := (n: nat, w: Walked) =>
      n <= |f.instructions| && (w.cut ==> Pressed(w.edges, InstructionEdges(f, f.instructions[..n]), write, cap));
    forall n: nat, w | n < |f.instructions| && inv(n, w)
      ensures inv(n + 1, if WalkStops()(w) then w else WalkStep(f, write, cap)(w, f.instructions[n]))
    {
      WalkStepPresses(f, n, write, cap, w);
    }
    UntilKeeps(Walked(es, false, false), f.instructions, |f.instructions|, WalkStops(), WalkStep(f, write, cap), inv);
    assert f.instructions[..|f.instructions|] == f.instructions;
  }

  lemma CallsPress(fs: seq<Function>, n: nat, es: seq<EdgeRecord>, cut: bool, write: EdgeRecord -> Json, cap: Cap)
    requires n < |fs| && (cut ==> Pressed(es, AllEdges(fs[..n]), write, cap))
    ensures var t := TakeCalls(fs[n], es, write, cap);
            cut || t.cut ==> Pressed(t.items, AllEdges(fs[..n + 1]), write, cap)
  {
    var t, all := TakeCalls(fs[n], es, write, cap), AllEdges(fs[..n + 1]);
    AllEdgesNext(fs, n);
    TakenCalls(fs[n], es, write, cap);
    if cut {
      StillPressed(es, t.items, AllEdges(fs[..n]), all, write, cap);
    } else if t.cut && !IsFull(es, write, cap) {
      WalkPresses(fs[n], es, write, cap);
      StillPressed(t.items, t.items, InstructionEdges(fs[n], fs[n].instructions), all, write, cap);
    }
  }

  /** The functions collected are a prefix; if it is not all of the first `n`, there was no room for the next. The
      edges collected are drawn, in order, from those of these functions; if some were cut, the section was pressed. */
  ghost predicate HarvestDrawn(fs: seq<Function>, n: nat, w: Writers, caps: Caps, h: Harvest) {
    var k := |h.functions|;
    && k <= n <= |fs| && (h.functionsCut <==> k < n)
    && h.functions == RecordsOf(fs[..k], caps.code)
    && (k < n ==> NoRoom(h.functions, RecordOf(fs[k], caps.code), w.ofFunction, caps.functions))
    && Drawn(h.calls, AllEdges(fs[..k])) && (h.callsCut ==> Pressed(h.calls, AllEdges(fs[..k]), w.ofEdge, caps.calls))
    && (k > 0 && !h.callsCut ==> !SectionFull(h.calls, w.ofEdge, caps.calls))
  }

  /** A walk that leaves the section full has cut something, if it began with room. */
  lemma FullWalkIsCut(f: Function, es: seq<EdgeRecord>, write: EdgeRecord -> Json, cap: Cap)
    requires !SectionFull(es, write, cap)
    ensures var w := Walk(f, |f.instructions|, es, write, cap); w.cut || !SectionFull(w.edges, write, cap)
  {
    var inv := (n: nat, w: Walked) => w.cut || !SectionFull(w.edges, write, cap);
    forall n: nat, w | n < |f.instructions| && inv(n, w)
      ensures inv(n + 1, if WalkStops()(w) then w else WalkStep(f, write, cap)(w, f.instructions[n]))
    {
    }
    UntilKeeps(Walked(es, false, false), f.instructions, |f.instructions|, WalkStops(), WalkStep(f, write, cap), inv);
  }

  lemma UncutLeavesRoom(f: Function, es: seq<EdgeRecord>, write: EdgeRecord -> Json, cap: Cap)
    ensures var t := TakeCalls(f, es, write, cap); t.cut || !SectionFull(t.items, write, cap)
  {
    if !SectionFull(es, write, cap) {
      FullWalkIsCut(f, es, write, cap);
    }
  }

  lemma NextIsDrawn(fs: seq<Function>, n: nat, w: Writers, caps: Caps, h: Harvest)
    requires n < |fs| && HarvestDrawn(fs, n, w, caps, h) && !h.functionsCut
    ensures HarvestDrawn(fs, n + 1, w, caps, NextFunction(h, fs[n], w, caps))
  {
    var r := RecordOf(fs[n], caps.code);
    NoRoomMeans(h.functions, r, w.ofFunction, caps.functions);
    if Fits(h.functions, r, w.ofFunction, caps.functions) {
      RecordsNext(fs, n, caps.code);
      CallsAreDrawn(fs, n, h.calls, w.ofEdge, caps.calls);
      CallsPress(fs, n, h.calls, h.callsCut, w.ofEdge, caps.calls);
      UncutLeavesRoom(fs[n], h.calls, w.ofEdge, caps.calls);
    }
  }

  lemma HarvestedAreDrawn(fs: seq<Function>, w: Writers, caps: Caps)
    ensures HarvestDrawn(fs, |fs|, w, caps, TakeFunctions(fs, |fs|, w, caps))
  {
    var inv := (n: nat, h: Harvest) => HarvestDrawn(fs, n, w, caps, h);
    assert AllEdges(fs[..0]) == [];
    AllDrawn<EdgeRecord>([]);
    forall n: nat, h | n < |fs| && inv(n, h)
      ensures inv(n + 1, if FunctionsStop()(h) then h else FunctionStep(w, caps)(h, fs[n]))
    {
      if !h.functionsCut {
        NextIsDrawn(fs, n, w, caps, h);
      }
    }
    UntilKeeps(NO_HARVEST, fs, |fs|, FunctionsStop(), FunctionStep(w, caps), inv);
  }

  /** The strings collected are those of the first `k`; if that is not all of the first `n`, there was no room for
      the next. The references collected are drawn, in order, from those of these strings. */
  ghost predicate StringsDrawn(ss: seq<DefinedString>, n: nat, k: nat, w: Writers, caps: Caps, h: StringHarvest) {
    && k <= n <= |ss| && (h.stringsCut <==> k < n) && h.strings == StringRecords(ss[..k])
    && (k < n ==> ss[k].value.Some? && NoRoom(h.strings, StringOf(ss[k]), w.ofString, caps.strings))
    && Drawn(h.xrefs, AllXrefs(ss[..k])) && (h.xrefsCut ==> Pressed(h.xrefs, AllXrefs(ss[..k]), w.ofXref, caps.xrefs))
    && (!h.xrefsCut ==> h.xrefs == AllXrefs(ss[..k]) && RoomForXrefs(ss, k, w.ofXref, caps.xrefs))
  }

  /** Whenever one of the first `k` strings came with a value, there was room left for references. */
  ghost predicate RoomForXrefs(ss: seq<DefinedString>, k: nat, write: XrefRecord -> Json, cap: Cap)
    requires k <= |ss|
  {
    forall j :: 0 <= j < k && ss[j].value.Some? ==> !SectionFull(AllXrefs(ss[..j]), write, cap)
  }

  lemma FullHasNoRoom<T>(items: seq<T>, x: T, write: T -> Json, cap: Cap)
    requires IsFull(items, write, cap) && Render(write(x)) != []
    ensures NoRoom(items, x, write, cap)
  {
    NoRoomMeans(items, x, write, cap);
  }

  lemma XrefsPress(ss: seq<DefinedString>, n: nat, xs: seq<XrefRecord>, cut: bool, write: XrefRecord -> Json, cap: Cap)
    requires n < |ss| && ss[n].value.Some?
    requires Drawn(xs, AllXrefs(ss[..n])) && (cut ==> Pressed(xs, AllXrefs(ss[..n]), write, cap))
    ensures var t := TakeXrefs(ss[n], xs, write, cap);
            && Drawn(t.items, AllXrefs(ss[..n + 1]))
            && (cut || t.cut ==> Pressed(t.items, AllXrefs(ss[..n + 1]), write, cap))
  {
    var t, all := TakeXrefs(ss[n], xs, write, cap), AllXrefs(ss[..n + 1]);
    StringsNext(ss, n);
    DrawnOn(xs, AllXrefs(ss[..n]), t.items, XrefRecords(ss[n].xrefs));
    if cut {
      StillPressed(xs, t.items, AllXrefs(ss[..n]), all, write, cap);
    } else if t.cut && !IsFull(xs, write, cap) {
      TakingPresses(XrefRecords(ss[n].xrefs), xs, write, cap);
      StillPressed(t.items, t.items, XrefRecords(ss[n].xrefs), all, write, cap);
    }
  }

  lemma NextStringIsDrawn(ss: seq<DefinedString>, n: nat, w: Writers, caps: Caps, h: StringHarvest)
    requires n < |ss| && StringsDrawn(ss, n, n, w, caps, h) && FlatWriter(w.ofString)
    ensures var g := NextString(h, ss[n], w, caps);
            StringsDrawn(ss, n + 1, if g.stringsCut then n else n + 1, w, caps, g)
  {
    StringsNext(ss, n);
    if ss[n].value.Some? {
      var r := StringOf(ss[n]);
      NoRoomMeans(h.strings, r, w.ofString, caps.strings);
      if IsFull(h.strings, w.ofString, caps.strings) {
        FlatIsWritten(w.ofString(r));
        FullHasNoRoom(h.strings, r, w.ofString, caps.strings);
      } else if Fits(h.strings, r, w.ofString, caps.strings) {
        XrefsPress(ss, n, h.xrefs, h.xrefsCut, w.ofXref, caps.xrefs);
      }
    }
  }

  lemma FlatIsWritten(j: Json)
    requires Flat(j)
    ensures Render(j) != []
  {
  }

  lemma {:induction false} StringsAreDrawn(ss: seq<DefinedString>, n: nat, w: Writers, caps: Caps) returns (k: nat)
    requires n <= |ss| && FlatWriter(w.ofString)
    ensures StringsDrawn(ss, n, k, w, caps, TakeStrings(ss, n, w, caps))
  {
    k := 0;
    if n > 0 {
      k := StringsAreDrawn(ss, n - 1, w, caps);
      var h := TakeStrings(ss, n - 1, w, caps);
      if !h.stringsCut {
        NextStringIsDrawn(ss, n - 1, w, caps, h);
        k := if NextString(h, ss[n - 1], w, caps).stringsCut then n - 1 else n;
      }
    } else {
      AllDrawn<XrefRecord>([]);
    }
  }

  // ---- the counters ------------------------------------------------------------------------

  predicate NotDecompiled(f: Function) {
    !f.isExternal && f.decompilation.code.None?
  }

  predicate TooLong(f: Function, codeLimit: nat) {
    !f.isExternal && f.decompilation.code.Some? && |f.decompilation.code.value| > codeLimit
  }

  /** The functions among the first `n` the decompiler failed on. */
  ghost function FailedOn(fs: seq<Function>, n: nat): set<nat>
    requires n <= |fs|
  {
    set i | 0 <= i < n && NotDecompiled(fs[i])
  }

  /** The functions among the first `n` whose code is longer than the limit. */
  ghost function CutOff(fs: seq<Function>, n: nat, codeLimit: nat): set<nat>
    requires n <= |fs|
  {
    set i | 0 <= i < n && TooLong(fs[i], codeLimit)
  }

  /** The characters of code kept of the first `n` functions. */
  function Kept(fs: seq<Function>, n: nat, codeLimit: nat): nat
    requires n <= |fs|
  {
    if n == 0 then 0
    else
      var f := fs[n - 1];
      Kept(fs, n - 1, codeLimit)
      + (if f.isExternal || f.decompilation.code.None? then 0 else Min(|f.decompilation.code.value|, codeLimit))
  }

  function CountFunction(a: Analysis, f: Function, codeLimit: nat): Analysis {
    Analysis(
      a.failures + (if NotDecompiled(f) then 1 else 0), a.codeTruncated + (if TooLong(f, codeLimit) then 1 else 0),
      a.characters
      + (if f.isExternal || f.decompilation.code.None? then 0 else Min(|f.decompilation.code.value|, codeLimit)))
  }

  lemma CountNextRecord(fs: seq<Function>, n: nat, codeLimit: nat)
    requires n < |fs|
    ensures CountersOf(RecordsOf(fs[..n + 1], codeLimit))
         == CountFunction(CountersOf(RecordsOf(fs[..n], codeLimit)), fs[n], codeLimit)
  {
    RecordsNext(fs, n, codeLimit);
    CountAppended(RecordsOf(fs[..n], codeLimit), RecordOf(fs[n], codeLimit));
    RecordShows(fs[n], codeLimit);
  }

  /** The functions the decompiler failed on, those whose code was cut, and the characters of code kept. */
  ghost function Counts(fs: seq<Function>, n: nat, codeLimit: nat): Analysis
    requires n <= |fs|
  {
    Analysis(|FailedOn(fs, n)|, |CutOff(fs, n, codeLimit)|, Kept(fs, n, codeLimit))
  }

  lemma CountsGrow(fs: seq<Function>, n: nat, codeLimit: nat)
    requires n < |fs|
    ensures Counts(fs, n + 1, codeLimit) == CountFunction(Counts(fs, n, codeLimit), fs[n], codeLimit)
  {
    FailuresGrow(fs, n);
    CutOffGrows(fs, n, codeLimit);
  }

  ghost predicate CountedTo(fs: seq<Function>, n: nat, codeLimit: nat) {
    n <= |fs| && CountersOf(RecordsOf(fs[..n], codeLimit)) == Counts(fs, n, codeLimit)
  }

  lemma NoneCounted(fs: seq<Function>, codeLimit: nat)
    ensures CountedTo(fs, 0, codeLimit)
  {
    assert FailedOn(fs, 0) == {} && CutOff(fs, 0, codeLimit) == {};
  }

  lemma OneMoreCounted(fs: seq<Function>, n: nat, codeLimit: nat)
    requires n < |fs| && CountedTo(fs, n, codeLimit)
    ensures CountedTo(fs, n + 1, codeLimit)
  {
    CountNextRecord(fs, n, codeLimit);
    CountsGrow(fs, n, codeLimit);
  }

  /** The document's counters count the program's functions. */
  lemma {:induction false} CountersCount(fs: seq<Function>, n: nat, codeLimit: nat)
    requires n <= |fs|
    ensures CountedTo(fs, n, codeLimit)
  {
    if n == 0 {
      NoneCounted(fs, codeLimit);
    } else {
      CountersCount(fs, n - 1, codeLimit);
      OneMoreCounted(fs, n - 1, codeLimit);
    }
  }

  lemma FailuresGrow(fs: seq<Function>, n: nat)
    requires n < |fs|
    ensures |FailedOn(fs, n + 1)| == |FailedOn(fs, n)| + (if NotDecompiled(fs[n]) then 1 else 0)
  {
    if NotDecompiled(fs[n]) {
      assert FailedOn(fs, n + 1) == FailedOn(fs, n) + {n};
    } else {
      assert FailedOn(fs, n + 1) == FailedOn(fs, n);
    }
  }

  lemma CutOffGrows(fs: seq<Function>, n: nat, codeLimit: nat)
    requires n < |fs|
    ensures |CutOff(fs, n + 1, codeLimit)| == |CutOff(fs, n, codeLimit)| + (if TooLong(fs[n], codeLimit) then 1 else 0)
  {
    if TooLong(fs[n], codeLimit) {
      assert CutOff(fs, n + 1, codeLimit) == CutOff(fs, n, codeLimit) + {n};
    } else {
      assert CutOff(fs, n + 1, codeLimit) == CutOff(fs, n, codeLimit);
    }
  }

  // ---- the whole document ------------------------------------------------------------------

  /** The functions listed are the program's first ones, each described field by field and counted. If the list ends
      before them all, there was no room for the next. */
  ghost predicate ShowsFunctions(p: Program, d: Document, codeLimit: nat, cap: Cap) {
    var n := |d.functions.items|;
    && d.functions.returned == n <= |p.functions| && d.total == p.total && d.meta == p.meta
    && (forall i :: 0 <= i < n ==> FunctionIs(p.functions[i], codeLimit, d.functions.items[i]))
    && d.analysis == Counts(p.functions, n, codeLimit)
    && (d.functions.truncated <==> n < p.total)
    && (n < |p.functions| ==>
          exists r :: FunctionIs(p.functions[n], codeLimit, r) && NoRoom(d.functions.items, r, FunctionJson, cap))
  }

  /** The edges listed are call sites of the functions listed, in order, each described field by field; all call
      sites of the program unless marked. They are marked if the section is full, and otherwise only if functions are
      or it had no room for a call of the functions listed. */
  ghost predicate ShowsCalls(p: Program, d: Document, cap: Cap) {
    exists at {:trigger Listed(d.calls.items, at, CallIs(p.functions))} ::
      && Listed(d.calls.items, at, CallIs(p.functions))
      && (forall a: Site :: a in at ==> a.item < |d.functions.items|)
      && (!d.calls.truncated ==> forall a: Site :: IsCallSite(p.functions, a) ==> a in at)
      && (|d.functions.items| > 0 && SectionFull(d.calls.items, EdgeJson, cap) ==> d.calls.truncated)
      && (d.calls.truncated ==>
            || d.functions.truncated || SectionFull(d.calls.items, EdgeJson, cap)
            || exists a, e :: EdgeOfSite(p.functions, a, e) && a.item < |d.functions.items|
                              && NoRoom(d.calls.items, e, EdgeJson, cap))
  }

  /** The strings listed are those with a value among the first `k`, in order, each described field by field. If the
      section is marked, there was no room for the next; else it lists them all. */
  ghost predicate ShowsStrings(p: Program, d: Document, k: nat, cap: Cap) {
    && k <= |p.strings| && (d.strings.truncated <==> k < |p.strings|)
    && (exists at {:trigger Listed(d.strings.items, at, ValueIs(p.strings))} ::
          && Listed(d.strings.items, at, ValueIs(p.strings))
          && forall a: Site :: a in at <==> a.item < k && IsStringSite(p.strings, a))
    && (k < |p.strings| ==>
          exists r :: StringIs(p.strings[k], r) && NoRoom(d.strings.items, r, StringJson, cap))
  }

  /** The references listed lead to strings listed, in order, each described field by field; all of them unless marked.
      They are marked only if strings are, or the section was full or had no room for a reference; and they are if
      it was full when a string came. */
  ghost predicate ShowsXrefs(p: Program, d: Document, k: nat, cap: Cap)
    requires k <= |p.strings|
  {
    exists at {:trigger Listed(d.xrefs.items, at, ReferenceIs(p.strings))} ::
      && Listed(d.xrefs.items, at, ReferenceIs(p.strings))
      && (forall a: Site :: a in at ==> a.item < k)
      && (!d.xrefs.truncated ==> forall a: Site :: IsXrefSite(p.strings, a) ==> a in at)
      && (!d.xrefs.truncated ==> RoomForXrefs(p.strings, k, XrefJson, cap))
      && (d.xrefs.truncated ==>
            || d.strings.truncated || SectionFull(d.xrefs.items, XrefJson, cap)
            || exists a, r :: XrefOfSite(p.strings, a, r) && a.item < k && NoRoom(d.xrefs.items, r, XrefJson, cap))
  }

  lemma FunctionsAreShown(p: Program, h: Harvest, s: StringHarvest, w: Writers, caps: Caps)
    requires p.total >= |p.functions| && w.ofFunction == FunctionJson
    requires HarvestDrawn(p.functions, |p.functions|, w, caps, h)
    ensures ShowsFunctions(p, DocumentFrom(p, h, s), caps.code, caps.functions)
  {
    var n := |h.functions|;
    CountersCount(p.functions, n, caps.code);
    forall i | 0 <= i < n
      ensures FunctionIs(p.functions[i], caps.code, h.functions[i])
    {
      RecordShows(p.functions[i], caps.code);
    }
    if n < |p.functions| {
      RecordShows(p.functions[n], caps.code);
    }
  }

  lemma CallWithoutRoom(fs: seq<Function>, n: nat, es: seq<EdgeRecord>, cap: Cap)
    requires n <= |fs| && Pressed(es, AllEdges(fs[..n]), EdgeJson, cap) && !SectionFull(es, EdgeJson, cap)
    ensures exists a, e :: EdgeOfSite(fs, a, e) && a.item < n && NoRoom(es, e, EdgeJson, cap)
  {
    var e :| e in AllEdges(fs[..n]) && NoRoom(es, e, EdgeJson, cap);
    var at := CallSites(fs, n);
    var m :| 0 <= m < |AllEdges(fs[..n])| && AllEdges(fs[..n])[m] == e;
    assert CallIs(fs)(at[m], e) && at[m] in at;
  }

  lemma CallsListed(fs: seq<Function>, n: nat, es: seq<EdgeRecord>, cut: bool) returns (at: seq<Site>)
    requires n <= |fs| && Drawn(es, AllEdges(fs[..n])) && (!cut ==> es == AllEdges(fs[..n]))
    ensures Listed(es, at, CallIs(fs)) && forall a :: a in at ==> a.item < n
    ensures !cut ==> forall a: Site :: a.item < n && IsCallSite(fs, a) ==> a in at
  {
    at := CallSites(fs, n);
    if cut {
      at := DrawnSites(es, AllEdges(fs[..n]), at, CallIs(fs));
    }
  }

  lemma CallsAreShown(p: Program, d: Document, cut: bool, cap: Cap)
    requires |d.functions.items| <= |p.functions| && (!d.functions.truncated ==> |d.functions.items| == |p.functions|)
    requires d.calls.truncated <==> cut || d.functions.truncated
    requires var all := AllEdges(p.functions[..|d.functions.items|]);
             && Drawn(d.calls.items, all) && (!cut ==> d.calls.items == all)
             && (cut ==> Pressed(d.calls.items, all, EdgeJson, cap))
    requires |d.functions.items| > 0 && !cut ==> !SectionFull(d.calls.items, EdgeJson, cap)
    ensures ShowsCalls(p, d, cap)
  {
    var n := |d.functions.items|;
    var at := CallsListed(p.functions, n, d.calls.items, cut);
    if cut && !SectionFull(d.calls.items, EdgeJson, cap) {
      CallWithoutRoom(p.functions, n, d.calls.items, cap);
    }
  }

  lemma StringsAreShown(p: Program, h: Harvest, s: StringHarvest, k: nat, w: Writers, caps: Caps)
    requires w.ofString == StringJson && StringsDrawn(p.strings, |p.strings|, k, w, caps, s)
    ensures ShowsStrings(p, DocumentFrom(p, h, s), k, caps.strings)
  {
    var at := StringSites(p.strings, k);
    assert Listed(DocumentFrom(p, h, s).strings.items, at, ValueIs(p.strings));
    if k < |p.strings| {
      StringShows(p.strings[k]);
    }
  }

  lemma XrefWithoutRoom(ss: seq<DefinedString>, k: nat, xs: seq<XrefRecord>, cap: Cap)
    requires k <= |ss| && Pressed(xs, AllXrefs(ss[..k]), XrefJson, cap) && !SectionFull(xs, XrefJson, cap)
    ensures exists a, r :: XrefOfSite(ss, a, r) && a.item < k && NoRoom(xs, r, XrefJson, cap)
  {
    var r :| r in AllXrefs(ss[..k]) && NoRoom(xs, r, XrefJson, cap);
    var at := XrefSites(ss, k);
    var m :| 0 <= m < |AllXrefs(ss[..k])| && AllXrefs(ss[..k])[m] == r;
    assert ReferenceIs(ss)(at[m], r) && at[m] in at;
  }

  lemma XrefsListed(ss: seq<DefinedString>, k: nat, xs: seq<XrefRecord>, cut: bool) returns (at: seq<Site>)
    requires k <= |ss| && Drawn(xs, AllXrefs(ss[..k])) && (!cut ==> xs == AllXrefs(ss[..k]))
    ensures Listed(xs, at, ReferenceIs(ss)) && forall a :: a in at ==> a.item < k
    ensures !cut ==> forall a: Site :: a.item < k && IsXrefSite(ss, a) ==> a in at
  {
    at := XrefSites(ss, k);
    if cut {
      at := DrawnSites(xs, AllXrefs(ss[..k]), at, ReferenceIs(ss));
    }
  }

  lemma XrefsAreShown(p: Program, d: Document, k: nat, cut: bool, cap: Cap)
    requires k <= |p.strings| && (d.strings.truncated <==> k < |p.strings|)
    requires d.xrefs.truncated <==> cut || d.strings.truncated
    requires var all := AllXrefs(p.strings[..k]);
             && Drawn(d.xrefs.items, all) && (!cut ==> d.xrefs.items == all)
             && (cut ==> Pressed(d.xrefs.items, all, XrefJson, cap))
    requires !cut ==> RoomForXrefs(p.strings, k, XrefJson, cap)
    ensures ShowsXrefs(p, d, k, cap)
  {
    var at := XrefsListed(p.strings, k, d.xrefs.items, cut);
    if cut && !SectionFull(d.xrefs.items, XrefJson, cap) {
      XrefWithoutRoom(p.strings, k, d.xrefs.items, cap);
    }
  }

  /** What the document shows of the program, section by section. */
  ghost predicate Shows(p: Program, d: Document, k: nat, caps: Caps) {
    && ShowsFunctions(p, d, caps.code, caps.functions) && ShowsCalls(p, d, caps.calls)
    && ShowsStrings(p, d, k, caps.strings) && ShowsXrefs(p, d, k, caps.xrefs)
  }

  lemma CollectedIsShown(p: Program, h: Harvest, s: StringHarvest, k: nat, w: Writers, caps: Caps)
    requires p.total >= |p.functions| && w == DocumentWriters()
    requires HarvestDrawn(p.functions, |p.functions|, w, caps, h) && StringsDrawn(p.strings, |p.strings|, k, w, caps, s)
    requires !h.callsCut ==> h.calls == AllEdges(p.functions[..|h.functions|])
    ensures Shows(p, DocumentFrom(p, h, s), k, caps)
  {
    var d := DocumentFrom(p, h, s);
    FunctionsAreShown(p, h, s, w, caps);
    CallsAreShown(p, d, h.callsCut, caps.calls);
    StringsAreShown(p, h, s, k, w, caps);
    XrefsAreShown(p, d, k, s.xrefsCut, caps.xrefs);
  }

  lemma WritersAreFlat()
    ensures FlatWriters(DocumentWriters())
  {
  }

  /** Whatever the program and the limits, the document of the script shows the program. */
  lemma DocumentShows(p: Program, recordLimit: nat, jsonLimit: nat) returns (k: nat)
    requires ProgramOk(p) && recordLimit >= 1
    ensures Shows(p, ScriptDocument(p, recordLimit, jsonLimit), k, CapsOf(recordLimit, jsonLimit))
  {
    WritersAreFlat();
    k := LoopsAreShown(p, DocumentWriters(), CapsOf(recordLimit, jsonLimit));
  }

  lemma LoopsAreShown(p: Program, w: Writers, caps: Caps) returns (k: nat)
    requires ProgramOk(p) && w == DocumentWriters() && FlatWriters(w)
    ensures Shows(p, DocumentFrom(p, TakeFunctions(p.functions, |p.functions|, w, caps),
                                  TakeStrings(p.strings, |p.strings|, w, caps)), k, caps)
  {
    var h, s := TakeFunctions(p.functions, |p.functions|, w, caps), TakeStrings(p.strings, |p.strings|, w, caps);
    HarvestedFunctions(p.functions, w, caps);
    HarvestedAreDrawn(p.functions, w, caps);
    k := StringsAreDrawn(p.strings, |p.strings|, w, caps);
    CollectedIsShown(p, h, s, k, w, caps);
  }
}
