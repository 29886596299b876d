/** Capability resolution: choose the cheapest set of adapters that covers a request.

    `Resolve` runs the dynamic program over capability masks. The reference it is held to is brute
    force: of all sub-selections of the candidate list with the widest coverage, the result is the
    one strictly cheapest under the five-level selection cost. */
module AdapterResolver {
  import opened Ordering
  import opened Results

  datatype AdapterKind = Tool | Knowledge

  datatype Operation = Operation(executionClass: nat, capabilities: set<string>)

  datatype Manifest = Manifest(
    adapterId: string, kind: AdapterKind, capabilities: set<string>, operations: seq<Operation>,
    maxExecutionClass: nat, priority: int, provisionable: bool)

  /** What probing the host says about one adapter. */
  datatype Status = Status(
    supported: bool, installed: bool, healthy: bool, identified: bool, available: set<string>)

  datatype Entry = Entry(manifest: Manifest, status: Status)

  /** An adapter worth considering, with the required capabilities it can serve. */
  datatype Candidate = Candidate(manifest: Manifest, status: Status, relevant: set<string>)

  datatype ResolveError = NothingRequired | TooManyCapabilities | NoExecutionClasses

  datatype Selection = Selection(
    selected: seq<Candidate>, ready: seq<string>, provision: seq<string>, conformance: seq<string>,
    uncovered: set<string>, isComplete: bool, isReady: bool)

  datatype Result = Resolved(selection: Selection) | Failed(error: ResolveError)

  // ---- candidates --------------------------------------------------------------------------

  predicate WithinCeiling(executionClass: nat, ceiling: Option<nat>) {
    ceiling.None? || executionClass <= ceiling.value
  }

  function OperationCapabilities(operations: seq<Operation>, ceiling: Option<nat>): (caps: set<string>)
    ensures forall c :: c in caps <==>
              exists i :: 0 <= i < |operations| && c in operations[i].capabilities
                          && WithinCeiling(operations[i].executionClass, ceiling)
  {
    if operations == [] then {}
    else
      var rest := OperationCapabilities(operations[1..], ceiling);
      assert forall i :: 1 <= i < |operations| ==> operations[i] == operations[1..][i - 1];
      if WithinCeiling(operations[0].executionClass, ceiling)
      then operations[0].capabilities + rest else rest
  }

  function ResolutionCapabilities(m: Manifest, ceiling: Option<nat>): set<string> {
    if m.kind.Knowledge? then m.capabilities
    else if m.operations == [] then
      if WithinCeiling(m.maxExecutionClass, ceiling) then m.capabilities else {}
    else OperationCapabilities(m.operations, ceiling)
  }

  predicate Admissible(e: Entry, required: set<string>, kind: Option<AdapterKind>, ceiling: Option<nat>) {
    var m, s := e.manifest, e.status;
    && (kind.Some? ==> m.kind == kind.value)
    && (m.kind.Knowledge? ==> WithinCeiling(m.maxExecutionClass, ceiling))
    && ResolutionCapabilities(m, ceiling) * required != {}
    && s.supported
    && ((m.kind.Knowledge? && s.healthy) || (m.kind.Tool? && s.installed && s.identified) || m.provisionable)
  }

  function CandidateOf(e: Entry, required: set<string>, ceiling: Option<nat>): Candidate {
    Candidate(e.manifest, e.status, ResolutionCapabilities(e.manifest, ceiling) * required)
  }

  function CandidatesOf(entries: seq<Entry>, required: set<string>, kind: Option<AdapterKind>,
                        ceiling: Option<nat>): seq<Candidate>
  {
    if entries == [] then []
    else
      var last := entries[|entries| - 1];
      var before := CandidatesOf(entries[..|entries| - 1], required, kind, ceiling);
      if Admissible(last, required, kind, ceiling)
      then before + [CandidateOf(last, required, ceiling)]
      else before
  }

  ghost predicate SortedEntries(entries: seq<Entry>) {
    forall i, j :: 0 <= i < j < |entries| ==>
                     TextLess(entries[i].manifest.adapterId, entries[j].manifest.adapterId)
  }

  ghost predicate UniqueIds(cs: seq<Candidate>) {
    forall i, j :: 0 <= i < j < |cs| ==> cs[i].manifest.adapterId != cs[j].manifest.adapterId
  }

  lemma {:induction false} CandidatesAreFiltered(
    entries: seq<Entry>, required: set<string>, kind: Option<AdapterKind>, ceiling: Option<nat>, c: Candidate)
    ensures c in CandidatesOf(entries, required, kind, ceiling)
       <==> exists e :: e in entries && Admissible(e, required, kind, ceiling) && c == CandidateOf(e, required, ceiling)
  {
    if entries != [] {
      var n := |entries| - 1;
      CandidatesAreFiltered(entries[..n], required, kind, ceiling, c);
      assert entries == entries[..n] + [entries[n]];
    }
  }

  /** The adapter serves the capability by an operation within the ceiling. One without operations counts as
      a single operation, and for knowledge the capabilities count as they stand. */
  ghost predicate Serves(m: Manifest, ceiling: Option<nat>, capability: string) {
    if m.kind.Tool? && m.operations != [] then
      exists i :: 0 <= i < |m.operations| && capability in m.operations[i].capabilities
                  && (ceiling.Some? ==> m.operations[i].executionClass <= ceiling.value)
    else
      capability in m.capabilities && (m.kind.Tool? && ceiling.Some? ==> m.maxExecutionClass <= ceiling.value)
  }

  /** The entry is of the kind asked for, within the ceiling, supported, and usable here or provisionable. */
  predicate Eligible(e: Entry, kind: Option<AdapterKind>, ceiling: Option<nat>) {
    var m, s := e.manifest, e.status;
    && kind in {None, Some(m.kind)}
    && (m.kind.Knowledge? && ceiling.Some? ==> m.maxExecutionClass <= ceiling.value)
    && s.supported
    && (m.provisionable || (if m.kind.Knowledge? then s.healthy else s.installed && s.identified))
  }

  /** The candidate is the entry with exactly the required capabilities it serves, and serves at least one. */
  ghost predicate Represents(c: Candidate, e: Entry, required: set<string>, ceiling: Option<nat>) {
    && c.manifest == e.manifest && c.status == e.status && c.relevant != {}
    && forall x :: x in c.relevant <==> x in required && Serves(e.manifest, ceiling, x)
  }

  lemma AdmissibleMeans(e: Entry, required: set<string>, kind: Option<AdapterKind>, ceiling: Option<nat>, c: Candidate)
    ensures Admissible(e, required, kind, ceiling) && c == CandidateOf(e, required, ceiling)
       <==> Eligible(e, kind, ceiling) && Represents(c, e, required, ceiling)
  {
    var d := CandidateOf(e, required, ceiling);
    forall x
      ensures x in d.relevant <==> x in required && Serves(e.manifest, ceiling, x)
    {
    }
    assert Represents(c, e, required, ceiling) ==> c.relevant == d.relevant;
  }

  ghost predicate SortedIds(cs: seq<Candidate>) {
    forall i, j :: 0 <= i < j < |cs| ==> TextLess(cs[i].manifest.adapterId, cs[j].manifest.adapterId)
  }

  lemma {:induction false} CandidatesAreSorted(
    entries: seq<Entry>, required: set<string>, kind: Option<AdapterKind>, ceiling: Option<nat>)
    requires SortedEntries(entries)
    ensures SortedIds(CandidatesOf(entries, required, kind, ceiling))
  {
    if entries != [] {
      var n := |entries| - 1;
      CandidatesAreSorted(entries[..n], required, kind, ceiling);
      forall c | c in CandidatesOf(entries[..n], required, kind, ceiling)
        ensures TextLess(c.manifest.adapterId, entries[n].manifest.adapterId)
      {
        CandidatesAreFiltered(entries[..n], required, kind, ceiling, c);
        var e :| e in entries[..n] && c.manifest == e.manifest;
        var i :| 0 <= i < n && entries[i] == e;
      }
    }
  }

  /** The candidates represent exactly the eligible entries that serve a required capability, each once and in the
      order of their ids. */
  lemma CandidatesComeFromEntries(
    entries: seq<Entry>, required: set<string>, kind: Option<AdapterKind>, ceiling: Option<nat>)
    requires SortedEntries(entries)
    ensures var cs := CandidatesOf(entries, required, kind, ceiling);
            SortedIds(cs) && UniqueIds(cs)
            && (forall c :: c in cs <==>
                  exists e :: e in entries && Eligible(e, kind, ceiling) && Represents(c, e, required, ceiling))
  {
    var cs := CandidatesOf(entries, required, kind, ceiling);
    CandidatesAreSorted(entries, required, kind, ceiling);
    SortedAreUnique(cs);
    forall c
      ensures c in cs <==>
                exists e :: e in entries && Eligible(e, kind, ceiling) && Represents(c, e, required, ceiling)
    {
      CandidatesAreFiltered(entries, required, kind, ceiling, c);
      forall e | e in entries
        ensures Admissible(e, required, kind, ceiling) && c == CandidateOf(e, required, ceiling)
           <==> Eligible(e, kind, ceiling) && Represents(c, e, required, ceiling)
      {
        AdmissibleMeans(e, required, kind, ceiling, c);
      }
    }
  }

  lemma SortedAreUnique(cs: seq<Candidate>)
    requires SortedIds(cs)
    ensures UniqueIds(cs)
  {
    forall i, j | 0 <= i < j < |cs|
      ensures cs[i].manifest.adapterId != cs[j].manifest.adapterId
    {
      TextLessAsymmetric(cs[i].manifest.adapterId, cs[j].manifest.adapterId);
    }
  }

  // ---- selection cost ----------------------------------------------------------------------

  datatype Cost = Cost(unhealthy: nat, unconformed: nat, size: nat, priority: int, ids: seq<string>)

  predicate Unconformed(c: Candidate) {
    c.manifest.kind.Tool? && c.status.healthy && !(c.relevant <= c.status.available)
  }

  function SelectionCost(s: seq<Candidate>): Cost {
    if s == [] then Cost(0, 0, 0, 0, [])
    else
      var before := SelectionCost(s[..|s| - 1]);
      var c := s[|s| - 1];
      Cost(before.unhealthy + (if c.status.healthy then 0 else 1),
           before.unconformed + (if Unconformed(c) then 1 else 0),
           before.size + 1,
           before.priority + c.manifest.priority,
           before.ids + [c.manifest.adapterId])
  }

  predicate IdsLess(a: seq<string>, b: seq<string>) {
    b != [] && (a == [] || TextLess(a[0], b[0]) || (a[0] == b[0] && IdsLess(a[1..], b[1..])))
  }

  predicate CostLess(a: Cost, b: Cost) {
    if a.unhealthy != b.unhealthy then a.unhealthy < b.unhealthy
    else if a.unconformed != b.unconformed then a.unconformed < b.unconformed
    else if a.size != b.size then a.size < b.size
    else if a.priority != b.priority then a.priority < b.priority
    else IdsLess(a.ids, b.ids)
  }

  predicate Cheaper(s: seq<Candidate>, t: seq<Candidate>) {
    CostLess(SelectionCost(s), SelectionCost(t))
  }

  ghost predicate AtMost(s: seq<Candidate>, t: seq<Candidate>) {
    SelectionCost(s) == SelectionCost(t) || Cheaper(s, t)
  }

  lemma {:induction false} IdsLessIrreflexive(a: seq<string>)
    ensures !IdsLess(a, a)
  {
    if a != [] {
      TextLessIrreflexive(a[0]);
      IdsLessIrreflexive(a[1..]);
    }
  }

  lemma {:induction false} IdsLessTransitive(a: seq<string>, b: seq<string>, c: seq<string>)
    requires IdsLess(a, b) && IdsLess(b, c)
    ensures IdsLess(a, c)
  {
    if a != [] {
      if TextLess(a[0], b[0]) && TextLess(b[0], c[0]) {
        TextLessTransitive(a[0], b[0], c[0]);
      } else if a[0] == b[0] == c[0] && IdsLess(a[1..], b[1..]) && IdsLess(b[1..], c[1..]) {
        IdsLessTransitive(a[1..], b[1..], c[1..]);
      }
    }
  }

  lemma {:induction false} IdsLessTotal(a: seq<string>, b: seq<string>)
    ensures IdsLess(a, b) || a == b || IdsLess(b, a)
  {
    if a != [] && b != [] {
      TextLessTotal(a[0], b[0]);
      if a[0] == b[0] {
        IdsLessTotal(a[1..], b[1..]);
        assert a == [a[0]] + a[1..] && b == [b[0]] + b[1..];
      }
    }
  }

  lemma {:induction false} IdsLessAppend(a: seq<string>, b: seq<string>, x: string)
    requires |a| == |b| && IdsLess(a, b)
    ensures IdsLess(a + [x], b + [x])
  {
    if !TextLess(a[0], b[0]) {
      assert (a + [x])[1..] == a[1..] + [x] && (b + [x])[1..] == b[1..] + [x];
      IdsLessAppend(a[1..], b[1..], x);
    }
  }

  lemma CostLessTransitive(a: Cost, b: Cost, c: Cost)
    requires CostLess(a, b) && CostLess(b, c)
    ensures CostLess(a, c)
  {
    if IdsLess(a.ids, b.ids) && IdsLess(b.ids, c.ids) {
      IdsLessTransitive(a.ids, b.ids, c.ids);
    }
  }

  lemma CostLessTotal(a: Cost, b: Cost)
    ensures CostLess(a, b) || a == b || CostLess(b, a)
    ensures CostLess(a, b) ==> !CostLess(b, a) && a != b
  {
    IdsLessTotal(a.ids, b.ids);
    IdsLessIrreflexive(a.ids);
    if IdsLess(a.ids, b.ids) && IdsLess(b.ids, a.ids) {
      IdsLessTransitive(a.ids, b.ids, a.ids);
    }
  }

  lemma {:induction false} CostSize(s: seq<Candidate>)
    ensures SelectionCost(s).size == |s| == |SelectionCost(s).ids|
    ensures forall i :: 0 <= i < |s| ==> SelectionCost(s).ids[i] == s[i].manifest.adapterId
  {
    if s != [] { CostSize(s[..|s| - 1]); }
  }

  /** The heart of the dynamic program: extending two selections by the same adapter keeps their order. */
  lemma ExtendingKeepsOrder(s: seq<Candidate>, t: seq<Candidate>, c: Candidate)
    requires AtMost(s, t)
    ensures AtMost(s + [c], t + [c])
  {
    assert (s + [c])[..|s|] == s && (t + [c])[..|t|] == t;
    CostSize(s);
    CostSize(t);
    var a, b := SelectionCost(s), SelectionCost(t);
    if |s| == |t| && IdsLess(a.ids, b.ids) {
      IdsLessAppend(a.ids, b.ids, c.manifest.adapterId);
    }
  }

  // ---- sub-selections and coverage ---------------------------------------------------------

  /** s picks some of the candidates p, in order. */
  ghost predicate Picks(s: seq<Candidate>, p: seq<Candidate>) {
    if p == [] then s == []
    else
      || Picks(s, p[..|p| - 1])
      || (s != [] && s[|s| - 1] == p[|p| - 1] && Picks(s[..|s| - 1], p[..|p| - 1]))
  }

  ghost function Covered(s: seq<Candidate>): set<string> {
    if s == [] then {} else Covered(s[..|s| - 1]) + s[|s| - 1].relevant
  }

  lemma {:induction false} CoveredIsUnion(s: seq<Candidate>)
    ensures forall x :: x in Covered(s) <==> exists i :: 0 <= i < |s| && x in s[i].relevant
  {
    if s != [] {
      var n := |s| - 1;
      CoveredIsUnion(s[..n]);
      forall x ensures x in Covered(s) <==> exists i :: 0 <= i < |s| && x in s[i].relevant {
        if x in Covered(s) && x !in s[n].relevant {
          assert x in Covered(s[..n]);
          var i :| 0 <= i < |s[..n]| && x in s[..n][i].relevant;
          assert x in s[i].relevant;
        } else if exists i :: 0 <= i < n && x in s[i].relevant {
          var i :| 0 <= i < n && x in s[i].relevant;
          assert x in s[..n][i].relevant;
        }
      }
    }
  }

  lemma {:induction false} PickedAreCandidates(s: seq<Candidate>, p: seq<Candidate>)
    requires Picks(s, p)
    ensures forall c :: c in s ==> c in p
    ensures Covered(s) <= Covered(p)
  {
    if p != [] {
      if Picks(s, p[..|p| - 1]) {
        PickedAreCandidates(s, p[..|p| - 1]);
      } else {
        PickedAreCandidates(s[..|s| - 1], p[..|p| - 1]);
        assert s == s[..|s| - 1] + [s[|s| - 1]];
      }
    }
  }

  lemma {:induction false} PicksEverything(p: seq<Candidate>)
    ensures Picks(p, p)
  {
    if p != [] { PicksEverything(p[..|p| - 1]); }
  }

  /** Selections that name the same adapters are the same selection. */
  lemma SameIdsSameSelection(s: seq<Candidate>, t: seq<Candidate>, p: seq<Candidate>)
    requires UniqueIds(p) && Picks(s, p) && Picks(t, p)
    requires SelectionCost(s) == SelectionCost(t)
    ensures s == t
  {
    CostSize(s);
    CostSize(t);
    PickedAreCandidates(s, p);
    PickedAreCandidates(t, p);
    forall i | 0 <= i < |s| ensures s[i] == t[i] {
      assert s[i] in p && t[i] in p;
      assert s[i].manifest.adapterId == t[i].manifest.adapterId;
    }
  }

  /** Brute force: s is the strictly cheapest sub-selection among those of widest coverage. */
  ghost predicate Optimal(s: seq<Candidate>, p: seq<Candidate>) {
    && Picks(s, p)
    && Covered(s) == Covered(p)
    && forall t :: Picks(t, p) && Covered(t) == Covered(p) && t != s ==> Cheaper(s, t)
  }

  // ---- what the cost counts ----------------------------------------------------------------

  /** The selected adapters that are not healthy. */
  ghost function Unhealthy(s: seq<Candidate>): set<nat> {
    set i | 0 <= i < |s| && !s[i].status.healthy
  }

  /** The healthy selected tools that lack an available capability they are selected for. */
  ghost function Lacking(s: seq<Candidate>): set<nat> {
    set i | 0 <= i < |s| && s[i].manifest.kind.Tool? && s[i].status.healthy
            && exists x :: x in s[i].relevant && x !in s[i].status.available
  }

  function Priorities(s: seq<Candidate>): int {
    if s == [] then 0 else Priorities(s[..|s| - 1]) + s[|s| - 1].manifest.priority
  }

  lemma UnhealthyGrows(s: seq<Candidate>)
    requires s != []
    ensures var n := |s| - 1;
            |Unhealthy(s)| == |Unhealthy(s[..n])| + (if s[n].status.healthy then 0 else 1)
  {
    var n := |s| - 1;
    assert Unhealthy(s) == Unhealthy(s[..n]) + (if s[n].status.healthy then {} else {n});
  }

  lemma LackingGrows(s: seq<Candidate>)
    requires s != []
    ensures var n := |s| - 1;
            |Lacking(s)| == |Lacking(s[..n])| + (if Unconformed(s[n]) then 1 else 0)
  {
    var n := |s| - 1;
    assert Unconformed(s[n]) <==> n in Lacking(s);
    assert Lacking(s) == Lacking(s[..n]) + (if n in Lacking(s) then {n} else {});
  }

  lemma {:induction false} CostCounts(s: seq<Candidate>)
    ensures SelectionCost(s).unhealthy == |Unhealthy(s)|
    ensures SelectionCost(s).unconformed == |Lacking(s)|
    ensures SelectionCost(s).priority == Priorities(s)
  {
    if s != [] {
      CostCounts(s[..|s| - 1]);
      UnhealthyGrows(s);
      LackingGrows(s);
    }
  }

  /** The lists differ, and where they first do the ids of `s` come first. */
  ghost predicate NamedFirst(s: seq<Candidate>, t: seq<Candidate>) {
    exists k ::
      && 0 <= k < |s| && k < |t| && TextLess(s[k].manifest.adapterId, t[k].manifest.adapterId)
      && forall j :: 0 <= j < k ==> s[j].manifest.adapterId == t[j].manifest.adapterId
  }

  /** `s` is preferred to `t`: fewer adapters that are not healthy, or as many and fewer tools that lack a capability,
      or as many and fewer adapters, or as many and a smaller sum of priorities, or the ids decide. */
  ghost predicate Preferred(s: seq<Candidate>, t: seq<Candidate>) {
    || |Unhealthy(s)| < |Unhealthy(t)|
    || (|Unhealthy(s)| == |Unhealthy(t)|
        && (|| |Lacking(s)| < |Lacking(t)|
            || (|Lacking(s)| == |Lacking(t)|
                && (|| |s| < |t|
                    || (|s| == |t|
                        && (Priorities(s) < Priorities(t) || (Priorities(s) == Priorities(t) && NamedFirst(s, t))))))))
  }

  lemma {:induction false} FirstIdDecides(a: seq<string>, b: seq<string>) returns (k: nat)
    requires |a| == |b| && IdsLess(a, b)
    ensures k < |a| && a[..k] == b[..k] && TextLess(a[k], b[k])
  {
    if TextLess(a[0], b[0]) {
      k := 0;
    } else {
      k := FirstIdDecides(a[1..], b[1..]);
      assert a[..k + 1] == [a[0]] + a[1..][..k] && b[..k + 1] == [b[0]] + b[1..][..k];
      k := k + 1;
    }
  }

  lemma CheaperIsPreferred(s: seq<Candidate>, t: seq<Candidate>)
    requires Cheaper(s, t)
    ensures Preferred(s, t)
  {
    CostCounts(s);
    CostCounts(t);
    CostSize(s);
    CostSize(t);
    var a, b := SelectionCost(s).ids, SelectionCost(t).ids;
    if |s| == |t| && IdsLess(a, b) {
      var k := FirstIdDecides(a, b);
      forall j | 0 <= j < k
        ensures s[j].manifest.adapterId == t[j].manifest.adapterId
      {
        assert a[..k][j] == b[..k][j];
      }
    }
  }

  /** Of the sub-selections of widest coverage it is preferred to every other. */
  ghost predicate MostPreferred(s: seq<Candidate>, p: seq<Candidate>) {
    && Picks(s, p) && Covered(s) == Covered(p)
    && forall t :: Picks(t, p) && Covered(t) == Covered(p) && t != s ==> Preferred(s, t)
  }

  /** The optimum under the selection cost is what counting adapters one by one would prefer. */
  lemma OptimumIsPreferred(s: seq<Candidate>, p: seq<Candidate>)
    requires Optimal(s, p)
    ensures MostPreferred(s, p)
  {
    forall t | Picks(t, p) && Covered(t) == Covered(p) && t != s
      ensures Preferred(s, t)
    {
      CheaperIsPreferred(s, t);
    }
  }

  // ---- the dynamic program -----------------------------------------------------------------

  /** The sub-selections considered part way through adding c: those of p, and those that extend a
      sub-selection of p whose mask has been visited. */
  ghost predicate Considered(s: seq<Candidate>, p: seq<Candidate>, c: Candidate, done: set<set<string>>) {
    || Picks(s, p)
    || (s != [] && s[|s| - 1] == c && Picks(s[..|s| - 1], p) && Covered(s[..|s| - 1]) in done)
  }

  ghost predicate BestPerMask(states: map<set<string>, seq<Candidate>>, p: seq<Candidate>,
                              c: Candidate, done: set<set<string>>)
  {
    && (forall m :: m in states ==> Considered(states[m], p, c, done) && Covered(states[m]) == m)
    && (forall s :: Considered(s, p, c, done) ==> Covered(s) in states && AtMost(states[Covered(s)], s))
  }

  /** The table after a whole prefix p of the candidates. */
  ghost predicate Table(states: map<set<string>, seq<Candidate>>, p: seq<Candidate>) {
    && (forall m :: m in states ==> Picks(states[m], p) && Covered(states[m]) == m)
    && (forall s :: Picks(s, p) ==> Covered(s) in states && AtMost(states[Covered(s)], s))
  }

  function Offer(table: map<set<string>, seq<Candidate>>, mask: set<string>, proposed: seq<Candidate>)
    : map<set<string>, seq<Candidate>>
  {
    if mask !in table || Cheaper(proposed, table[mask]) then table[mask := proposed] else table
  }

  /** Offering a selection never makes an entry dearer, and leaves its own mask at most as dear as it. */
  lemma OfferOnlyImproves(table: map<set<string>, seq<Candidate>>, mask: set<string>, proposed: seq<Candidate>,
                          m: set<string>, s: seq<Candidate>)
    requires (m in table && AtMost(table[m], s)) || (m == mask && AtMost(proposed, s))
    ensures var after := Offer(table, mask, proposed); m in after && AtMost(after[m], s)
  {
    if m == mask && mask in table {
      CostLessTotal(SelectionCost(proposed), SelectionCost(table[mask]));
      var after := Offer(table, mask, proposed);
      AtMostTransitive(after[m], table[mask], s);
      AtMostTransitive(after[m], proposed, s);
    }
  }

  lemma AtMostTransitive(s: seq<Candidate>, t: seq<Candidate>, u: seq<Candidate>)
    ensures AtMost(s, t) && AtMost(t, u) ==> AtMost(s, u)
  {
    if Cheaper(s, t) && Cheaper(t, u) {
      CostLessTransitive(SelectionCost(s), SelectionCost(t), SelectionCost(u));
    }
  }

  /** A sub-selection newly considered when mask m is visited is no cheaper than the one offered. */
  lemma NewlyConsidered(states: map<set<string>, seq<Candidate>>, p: seq<Candidate>, c: Candidate,
                        done: set<set<string>>, m: set<string>, s: seq<Candidate>)
    requires Table(states, p) && m in states
    requires Considered(s, p, c, done + {m}) && !Considered(s, p, c, done)
    ensures Covered(s) == m + c.relevant && AtMost(states[m] + [c], s)
  {
    var init := s[..|s| - 1];
    assert s == init + [c] && Covered(init) == m;
    assert Picks(init, p);
    ExtendingKeepsOrder(states[m], init, c);
  }

  lemma VisitMask(states: map<set<string>, seq<Candidate>>, updated: map<set<string>, seq<Candidate>>,
                  p: seq<Candidate>, c: Candidate, done: set<set<string>>, m: set<string>)
    requires Table(states, p) && BestPerMask(updated, p, c, done) && m in states
    ensures BestPerMask(Offer(updated, m + c.relevant, states[m] + [c]), p, c, done + {m})
  {
    var proposed, mask := states[m] + [c], m + c.relevant;
    var after := Offer(updated, mask, proposed);
    assert proposed[..|proposed| - 1] == states[m];
    assert Covered(proposed) == mask;
    forall s | Considered(s, p, c, done + {m}) ensures Covered(s) in after && AtMost(after[Covered(s)], s) {
      if !Considered(s, p, c, done) { NewlyConsidered(states, p, c, done, m, s); }
      OfferOnlyImproves(updated, mask, proposed, Covered(s), s);
    }
  }

  lemma NoMaskVisited(states: map<set<string>, seq<Candidate>>, p: seq<Candidate>, c: Candidate)
    requires Table(states, p)
    ensures BestPerMask(states, p, c, {})
  {
  }

  lemma AllMasksVisited(updated: map<set<string>, seq<Candidate>>, states: map<set<string>, seq<Candidate>>,
                        p: seq<Candidate>, c: Candidate)
    requires Table(states, p) && BestPerMask(updated, p, c, states.Keys)
    ensures Table(updated, p + [c])
  {
    assert (p + [c])[..|p|] == p;
    forall s ensures Picks(s, p + [c]) <==> Considered(s, p, c, states.Keys) {
    }
  }

  method AddCandidate(states: map<set<string>, seq<Candidate>>, c: Candidate, ghost p: seq<Candidate>)
    returns (updated: map<set<string>, seq<Candidate>>)
    requires Table(states, p)
    ensures Table(updated, p + [c])
  {
    updated := states;
    var todo := states.Keys;
    ghost var done: set<set<string>> := {};
    NoMaskVisited(states, p, c);
    while todo != {}
      invariant done + todo == states.Keys
      invariant BestPerMask(updated, p, c, done)
      decreases todo
    {
      var m :| m in todo;
      VisitMask(states, updated, p, c, done, m);
      updated := Offer(updated, m + c.relevant, states[m] + [c]);
      done, todo := done + {m}, todo - {m};
    }
    AllMasksVisited(updated, states, p, c);
  }

  predicate BetterMask(m: set<string>, s: seq<Candidate>, n: set<string>, t: seq<Candidate>) {
    |m| > |n| || (|m| == |n| && Cheaper(s, t))
  }

  /** The widest mask covers everything, so the entry stored for it is the brute-force optimum. */
  lemma WidestIsOptimal(states: map<set<string>, seq<Candidate>>, p: seq<Candidate>, best: set<string>)
    requires UniqueIds(p) && Table(states, p) && best in states
    requires forall m :: m in states ==> |m| <= |best|
    ensures Optimal(states[best], p)
  {
    PicksEverything(p);
    var all := Covered(p);
    PickedAreCandidates(states[best], p);
    assert best <= all;
    SubsetCardinality(best, all);
    forall t | Picks(t, p) && Covered(t) == all && t != states[best] ensures Cheaper(states[best], t) {
      if SelectionCost(t) == SelectionCost(states[best]) { SameIdsSameSelection(states[best], t, p); }
    }
  }

  lemma SubsetCardinality<T>(a: set<T>, b: set<T>)
    requires a <= b
    ensures |a| <= |b| && (|a| == |b| ==> a == b)
  {
    assert b == a + (b - a);
  }

  method SelectCheapest(candidates: seq<Candidate>) returns (selected: seq<Candidate>, covered: set<string>)
    requires UniqueIds(candidates)
    ensures Optimal(selected, candidates)
    ensures MostPreferred(selected, candidates)
    ensures covered == Covered(candidates)
  {
    var states: map<set<string>, seq<Candidate>> := map[{} := []];
    for i := 0 to |candidates|
      invariant Table(states, candidates[..i])
    {
      states := AddCandidate(states, candidates[i], candidates[..i]);
      assert candidates[..i] + [candidates[i]] == candidates[..i + 1];
    }
    assert candidates[..|candidates|] == candidates;
    PicksEverything(candidates);
    var todo := states.Keys;
    covered :| covered in todo;
    todo := todo - {covered};
    while todo != {}
      invariant todo <= states.Keys && covered in states
      invariant forall m :: m in states && m !in todo ==> |m| <= |covered|
      decreases todo
    {
      var m :| m in todo;
      if BetterMask(m, states[m], covered, states[covered]) {
        covered := m;
      }
      todo := todo - {m};
    }
    selected := states[covered];
    WidestIsOptimal(states, candidates, covered);
    OptimumIsPreferred(selected, candidates);
  }

  // ---- consequences of optimality ----------------------------------------------------------

  /** There is only one optimum. */
  lemma OptimalIsUnique(s: seq<Candidate>, t: seq<Candidate>, p: seq<Candidate>)
    requires Optimal(s, p) && Optimal(t, p)
    ensures s == t
  {
    if s != t {
      assert Cheaper(s, t) && Cheaper(t, s);
      CostLessTotal(SelectionCost(s), SelectionCost(t));
    }
  }

  function Without(s: seq<Candidate>, i: nat): seq<Candidate>
    requires i < |s|
  {
    s[..i] + s[i + 1..]
  }

  lemma {:induction false} WithoutIsPicked(s: seq<Candidate>, i: nat, p: seq<Candidate>)
    requires i < |s| && Picks(s, p)
    ensures Picks(Without(s, i), p)
  {
    if p != [] {
      var q := p[..|p| - 1];
      if Picks(s, q) {
        WithoutIsPicked(s, i, q);
      } else if i == |s| - 1 {
        assert Without(s, i) == s[..|s| - 1];
      } else {
        WithoutIsPicked(s[..|s| - 1], i, q);
        var w := Without(s, i);
        assert w[..|w| - 1] == Without(s[..|s| - 1], i);
      }
    }
  }

  lemma WithoutIsCheaper(s: seq<Candidate>, i: nat)
    requires i < |s|
    ensures Cheaper(Without(s, i), s)
  {
    WithoutCosts(s, i);
    CostSize(s);
    CostSize(Without(s, i));
  }

  lemma {:induction false} WithoutCosts(s: seq<Candidate>, i: nat)
    requires i < |s|
    ensures var a, b := SelectionCost(Without(s, i)), SelectionCost(s);
            a.unhealthy <= b.unhealthy && a.unconformed <= b.unconformed
  {
    if i == |s| - 1 {
      assert Without(s, i) == s[..|s| - 1];
    } else {
      WithoutCosts(s[..|s| - 1], i);
      var w := Without(s, i);
      assert w[..|w| - 1] == Without(s[..|s| - 1], i);
    }
  }

  /** No selected adapter is redundant: dropping any one loses a capability some candidate offers. */
  lemma NothingIsRedundant(s: seq<Candidate>, p: seq<Candidate>, i: nat)
    requires Optimal(s, p) && i < |s|
    ensures Covered(Without(s, i)) < Covered(p)
  {
    var w := Without(s, i);
    WithoutIsPicked(s, i, p);
    PickedAreCandidates(w, p);
    WithoutIsCheaper(s, i);
    CostLessTotal(SelectionCost(w), SelectionCost(s));
  }

  // ---- the whole resolver ------------------------------------------------------------------

  predicate IsReady(c: Candidate) {
    c.status.healthy && (c.manifest.kind.Knowledge? || c.relevant <= c.status.available)
  }

  predicate NeedsProvision(c: Candidate) {
    || !c.status.installed
    || (c.manifest.kind.Knowledge? && !c.status.healthy)
    || (c.manifest.kind.Tool? && !c.status.identified)
  }

  predicate NeedsConformance(c: Candidate, ready: seq<string>) {
    c.manifest.kind.Tool? && c.status.installed && c.status.identified && c.manifest.adapterId !in ready
  }

  lemma LaterIdIsGreater(s: seq<Candidate>, i: nat, keep: Candidate -> bool, ids: seq<string>)
    requires SortedIds(s) && i < |s| && SortedText(ids)
    requires forall x :: x in ids ==> exists c :: c in s[..i] && keep(c) && c.manifest.adapterId == x
    ensures SortedText(ids + [s[i].manifest.adapterId])
  {
    forall k | 0 <= k < |ids|
      ensures TextLess(ids[k], s[i].manifest.adapterId)
    {
      assert ids[k] in ids;
      var c :| c in s[..i] && c.manifest.adapterId == ids[k];
      var j :| 0 <= j < i && s[j] == c;
    }
  }

  method FilterIds(s: seq<Candidate>, keep: Candidate -> bool) returns (ids: seq<string>)
    ensures forall x :: x in ids <==> exists c :: c in s && keep(c) && c.manifest.adapterId == x
    ensures ids == [] <==> forall c :: c in s ==> !keep(c)
    ensures SortedIds(s) ==> SortedText(ids)
  {
    ids := [];
    for i := 0 to |s|
      invariant SortedIds(s) ==> SortedText(ids)
      invariant forall x :: x in ids <==> exists c :: c in s[..i] && keep(c) && c.manifest.adapterId == x
      invariant ids == [] <==> forall c :: c in s[..i] ==> !keep(c)
    {
      assert s[..i + 1] == s[..i] + [s[i]];
      if keep(s[i]) {
        if SortedIds(s) { LaterIdIsGreater(s, i, keep, ids); }
        ids := ids + [s[i].manifest.adapterId];
      }
    }
    assert s[..|s|] == s;
  }

  predicate FromSelected(ids: seq<string>, selected: seq<Candidate>) {
    forall id :: id in ids ==> exists c :: c in selected && c.manifest.adapterId == id
  }

  /** The lists name selected adapters in the order of their ids: the ready ones are healthy and have the available
      capabilities; those to provision are missing, or knowledge that is not healthy, or a tool not identified; those
      to conform are tools that are here and identified but not ready. */
  ghost predicate Classified(sel: Selection) {
    && (forall c :: c in sel.selected ==>
          var id, m, s := c.manifest.adapterId, c.manifest, c.status;
          && (id in sel.ready <==> s.healthy && (m.kind.Knowledge? || c.relevant <= s.available))
          && (id in sel.provision <==> !s.installed || (if m.kind.Knowledge? then !s.healthy else !s.identified))
          && (id in sel.conformance <==>
                m.kind.Tool? && s.installed && s.identified && !(s.healthy && c.relevant <= s.available)))
    && FromSelected(sel.ready, sel.selected) && FromSelected(sel.provision, sel.selected)
    && FromSelected(sel.conformance, sel.selected)
    && SortedText(sel.ready) && SortedText(sel.provision) && SortedText(sel.conformance)
  }

  /** What a caller may rely on in a successful answer. */
  ghost predicate Sound(sel: Selection, candidates: seq<Candidate>, required: set<string>) {
    && Optimal(sel.selected, candidates)
    && MostPreferred(sel.selected, candidates)
    && (forall x :: x in sel.uncovered <==> x in required && forall c :: c in candidates ==> x !in c.relevant)
    && (sel.isComplete <==> sel.uncovered == {})
    && Classified(sel)
    && (sel.isReady <==> sel.isComplete && forall c :: c in sel.selected ==>
          c.manifest.adapterId in sel.ready && c.manifest.adapterId !in sel.provision)
  }

  /** The loop over the registry. */
  method Collect(entries: seq<Entry>, required: set<string>, kind: Option<AdapterKind>, ceiling: Option<nat>)
    returns (candidates: seq<Candidate>)
    ensures candidates == CandidatesOf(entries, required, kind, ceiling)
  {
    candidates := [];
    for i := 0 to |entries|
      invariant candidates == CandidatesOf(entries[..i], required, kind, ceiling)
    {
      assert entries[..i + 1][..i] == entries[..i];
      if Admissible(entries[i], required, kind, ceiling) {
        var relevant := ResolutionCapabilities(entries[i].manifest, ceiling) * required;
        candidates := candidates + [Candidate(entries[i].manifest, entries[i].status, relevant)];
      }
    }
    assert entries[..|entries|] == entries;
  }

  /** The lists of a selection. */
  method Classify(selected: seq<Candidate>, covered: set<string>, required: set<string>, ghost p: seq<Candidate>)
    returns (sel: Selection)
    requires SortedIds(p) && UniqueIds(p) && Picks(selected, p) && covered == Covered(p)
    ensures sel.selected == selected && Classified(sel)
    ensures forall x :: x in sel.uncovered <==> x in required && forall c :: c in p ==> x !in c.relevant
    ensures sel.isComplete <==> sel.uncovered == {}
    ensures sel.isReady <==> sel.isComplete && forall c :: c in selected ==>
              c.manifest.adapterId in sel.ready && c.manifest.adapterId !in sel.provision
  {
    var uncovered := required - covered;
    var ready := FilterIds(selected, c => IsReady(c));
    var provision := FilterIds(selected, c => NeedsProvision(c));
    var conformance := FilterIds(selected, c => NeedsConformance(c, ready));
    sel := Selection(selected, ready, provision, conformance, uncovered, uncovered == {},
                     uncovered == {} && provision == [] && conformance == []);
    SelectedAreSorted(selected, p);
    ListsClassify(sel, p);
    NothingLeftToDo(sel);
    CoveredIsUnionOfElements(p);
  }

  /** Nothing is to be provisioned or to conform exactly if everything selected is ready as it is. */
  lemma NothingLeftToDo(sel: Selection)
    requires Classified(sel)
    ensures sel.provision == [] && sel.conformance == [] <==>
              forall c :: c in sel.selected ==>
                c.manifest.adapterId in sel.ready && c.manifest.adapterId !in sel.provision
  {
    if sel.provision != [] {
      assert sel.provision[0] in sel.provision;
    }
    if sel.conformance != [] {
      assert sel.conformance[0] in sel.conformance;
    }
  }

  method Resolve(requested: seq<string>, entries: seq<Entry>, executionClassesKnown: bool,
                 kind: Option<AdapterKind>, ceiling: Option<nat>) returns (result: Result)
    requires SortedEntries(entries)
    ensures var required := set x | x in requested;
            match result
            case Resolved(sel) =>
              0 < |required| <= 64 && executionClassesKnown
              && Sound(sel, CandidatesOf(entries, required, kind, ceiling), required)
            case Failed(NothingRequired) => requested == []
            case Failed(TooManyCapabilities) => |required| > 64
            case Failed(NoExecutionClasses) => 0 < |required| <= 64 && !executionClassesKnown
  {
    var required := set x | x in requested;
    if required == {} {
      assert required == Elements(requested);
      ElementsEmpty(requested);
      return Failed(NothingRequired);
    }
    if |required| > 64 { return Failed(TooManyCapabilities); }
    if !executionClassesKnown { return Failed(NoExecutionClasses); }

    var candidates := Collect(entries, required, kind, ceiling);
    CandidatesAreSorted(entries, required, kind, ceiling);
    SortedAreUnique(candidates);
    var selected, covered := SelectCheapest(candidates);
    var sel := Classify(selected, covered, required, candidates);
    return Resolved(sel);
  }

  lemma CoveredIsUnionOfElements(s: seq<Candidate>)
    ensures forall x :: x in Covered(s) <==> exists c :: c in s && x in c.relevant
  {
    CoveredIsUnion(s);
  }

  lemma {:induction false} SelectedAreSorted(s: seq<Candidate>, p: seq<Candidate>)
    requires SortedIds(p) && Picks(s, p)
    ensures SortedIds(s)
  {
    if p != [] {
      var n := |p| - 1;
      if Picks(s, p[..n]) {
        SelectedAreSorted(s, p[..n]);
      } else {
        SelectedAreSorted(s[..|s| - 1], p[..n]);
        PickedAreCandidates(s[..|s| - 1], p[..n]);
        forall i | 0 <= i < |s| - 1
          ensures TextLess(s[i].manifest.adapterId, s[|s| - 1].manifest.adapterId)
        {
          assert s[..|s| - 1][i] in p[..n];
        }
      }
    }
  }

  /** Filtered by what they need, the ids classify the selection. */
  lemma ListsClassify(sel: Selection, p: seq<Candidate>)
    requires UniqueIds(p) && Picks(sel.selected, p)
    requires SortedText(sel.ready) && SortedText(sel.provision) && SortedText(sel.conformance)
    requires forall x :: x in sel.ready <==> exists c :: c in sel.selected && IsReady(c) && c.manifest.adapterId == x
    requires forall x :: x in sel.provision <==>
               exists c :: c in sel.selected && NeedsProvision(c) && c.manifest.adapterId == x
    requires forall x :: x in sel.conformance <==>
               exists c :: c in sel.selected && NeedsConformance(c, sel.ready) && c.manifest.adapterId == x
    ensures Classified(sel)
  {
    SelectedIdsAreDistinct(sel.selected, p);
  }

  lemma SelectedIdsAreDistinct(s: seq<Candidate>, p: seq<Candidate>)
    requires UniqueIds(p) && Picks(s, p)
    ensures forall c, d :: c in s && d in s && c.manifest.adapterId == d.manifest.adapterId ==> c == d
  {
    PickedAreCandidates(s, p);
  }
}
