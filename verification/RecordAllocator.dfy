/** The two-pass allocator that shares a record budget and a byte budget among the collections of one
    normalized document: first every collection gets an equal quota, then the rest is first come, first
    served. */
module RecordAllocator {
  import opened Basics
  import opened Results

  /** A raw JSON record, and a normalized one; the allocator looks into neither. */
  type Raw = string

  type Item = string

  datatype Normalized = Normalized(item: Item, shortened: bool)

  /** A collection of raw records and its normalizer, which raises on a malformed record. */
  datatype Collection = Collection(name: string, values: seq<Raw>, normalize: Raw -> Option<Normalized>)

  datatype Problem = Problem(
    collections: seq<Collection>, cost: Item -> nat, maxRecords: nat, maxOutputBytes: nat)

  /** What is left for records after the envelope's reserve. */
  function ByteBudget(maxOutputBytes: nat): (budget: nat)
    ensures maxOutputBytes <= 4096 ==> budget == 0
    ensures 4096 < maxOutputBytes <= 16_384 ==> budget == maxOutputBytes - 4096
    ensures 16_384 < maxOutputBytes <= 1_048_576 ==> 3 * maxOutputBytes <= 4 * budget < 3 * maxOutputBytes + 4
    ensures 1_048_576 < maxOutputBytes ==> budget == maxOutputBytes - 262_144
  {
    var quarter := maxOutputBytes / 4;
    var reserved := Min(262_144, if quarter >= 4096 then quarter else 4096);
    if maxOutputBytes >= reserved then maxOutputBytes - reserved else 0
  }

  function Quota(p: Problem): nat
    requires p.collections != []
  {
    p.maxRecords / |p.collections|
  }

  // ---- one record --------------------------------------------------------------------------

  /** The state of the allocation: `kept[c]` lists the positions whose records section `c` holds, and
      `visited[c]` counts the records of collection `c` seen so far, in order. */
  datatype State = State(
    recordBudget: nat, usedBytes: nat, items: seq<seq<Item>>, shortened: seq<bool>,
    kept: seq<seq<nat>>, visited: seq<nat>)

  function ItemAt(p: Problem, c: nat, i: nat): Option<Normalized>
    requires c < |p.collections| && i < |p.collections[c].values|
  {
    p.collections[c].normalize(p.collections[c].values[i])
  }

  /** The cost of a record, none if it is malformed. */
  function CostAt(p: Problem, c: nat, i: nat): nat
    requires c < |p.collections| && i < |p.collections[c].values|
  {
    var n := ItemAt(p, c, i);
    if n.Some? then p.cost(n.value.item) else 0
  }

  // ---- sums --------------------------------------------------------------------------------

  function SumLengths<T>(s: seq<seq<T>>): nat {
    if s == [] then 0 else SumLengths(s[..|s| - 1]) + |s[|s| - 1]|
  }

  lemma {:induction false} SumLengthsUpdate<T>(s: seq<seq<T>>, c: nat, t: seq<T>)
    requires c < |s|
    ensures SumLengths(s[c := t]) == SumLengths(s) - |s[c]| + |t|
  {
    var n := |s| - 1;
    if c == n {
      assert s[c := t][..n] == s[..n];
    } else {
      assert s[c := t][..n] == s[..n][c := t];
      SumLengthsUpdate(s[..n], c, t);
    }
  }

  /** The bytes some records take. */
  function CostOf(cost: Item -> nat, items: seq<Item>): nat {
    if items == [] then 0 else CostOf(cost, items[..|items| - 1]) + cost(items[|items| - 1])
  }

  /** The bytes all sections take together. */
  function TotalCost(cost: Item -> nat, items: seq<seq<Item>>): nat {
    if items == [] then 0 else TotalCost(cost, items[..|items| - 1]) + CostOf(cost, items[|items| - 1])
  }

  /** One more record in a section costs what the record costs. */
  lemma {:induction false} TotalCostAppend(cost: Item -> nat, items: seq<seq<Item>>, c: nat, item: Item)
    requires c < |items|
    ensures TotalCost(cost, items[c := items[c] + [item]]) == TotalCost(cost, items) + cost(item)
  {
    var n := |items| - 1;
    var t := items[c] + [item];
    if c == n {
      assert items[c := t][..n] == items[..n] && t[..|t| - 1] == items[c];
    } else {
      assert items[c := t][..n] == items[..n][c := t];
      TotalCostAppend(cost, items[..n], c, item);
    }
  }

  lemma {:induction false} NothingCostsNothing(cost: Item -> nat, items: seq<seq<Item>>)
    requires forall c :: 0 <= c < |items| ==> items[c] == []
    ensures TotalCost(cost, items) == 0
  {
    if items != [] {
      NothingCostsNothing(cost, items[..|items| - 1]);
    }
  }

  /** The cost of the first `n` records of a collection. */
  function PrefixCost(p: Problem, c: nat, n: nat): nat
    requires c < |p.collections| && n <= |p.collections[c].values|
  {
    if n == 0 then 0 else PrefixCost(p, c, n - 1) + CostAt(p, c, n - 1)
  }

  ghost predicate Counts(p: Problem, visited: seq<nat>) {
    |visited| == |p.collections| && forall c :: 0 <= c < |visited| ==> visited[c] <= |p.collections[c].values|
  }

  /** The cost of the records counted by `visited`, over the first `k` collections. */
  ghost function VisitedCost(p: Problem, visited: seq<nat>, k: nat): nat
    requires Counts(p, visited) && k <= |visited|
  {
    if k == 0 then 0 else VisitedCost(p, visited, k - 1) + PrefixCost(p, k - 1, visited[k - 1])
  }

  lemma {:induction false} PrefixCostGrows(p: Problem, c: nat, m: nat, n: nat)
    requires c < |p.collections| && m <= n <= |p.collections[c].values|
    ensures PrefixCost(p, c, m) <= PrefixCost(p, c, n)
  {
    if m < n {
      PrefixCostGrows(p, c, m, n - 1);
    }
  }

  lemma {:induction false} VisitedCostGrows(p: Problem, visited: seq<nat>, later: seq<nat>, k: nat)
    requires Counts(p, visited) && Counts(p, later) && k <= |visited|
    requires forall c :: 0 <= c < |visited| ==> visited[c] <= later[c]
    ensures VisitedCost(p, visited, k) <= VisitedCost(p, later, k)
  {
    if k > 0 {
      VisitedCostGrows(p, visited, later, k - 1);
      PrefixCostGrows(p, k - 1, visited[k - 1], later[k - 1]);
    }
  }

  lemma {:induction false} VisitedCostNext(p: Problem, visited: seq<nat>, c: nat, k: nat)
    requires Counts(p, visited) && c < |visited| && visited[c] < |p.collections[c].values| && k <= |visited|
    ensures VisitedCost(p, visited[c := visited[c] + 1], k)
         == VisitedCost(p, visited, k) + (if c < k then CostAt(p, c, visited[c]) else 0)
  {
    if k > 0 {
      VisitedCostNext(p, visited, c, k - 1);
    }
  }

  function Lengths(p: Problem): (ls: seq<nat>)
    ensures |ls| == |p.collections| && forall c :: 0 <= c < |ls| ==> ls[c] == |p.collections[c].values|
  {
    seq(|p.collections|, c requires 0 <= c < |p.collections| => |p.collections[c].values|)
  }

  /** Every record fits the byte budget, all of them together. */
  ghost predicate BytesDoNotBind(p: Problem) {
    VisitedCost(p, Lengths(p), |p.collections|) <= ByteBudget(p.maxOutputBytes)
  }

  // ---- the invariant -----------------------------------------------------------------------

  ghost predicate Shaped(p: Problem, s: State) {
    && |s.items| == |s.shortened| == |s.kept| == |p.collections| && Counts(p, s.visited)
    && s.recordBudget + SumLengths(s.items) == p.maxRecords
    && s.usedBytes == TotalCost(p.cost, s.items) && s.usedBytes <= ByteBudget(p.maxOutputBytes)
    && s.usedBytes <= VisitedCost(p, s.visited, |s.visited|)
  }

  /** Section `c` holds the records at the kept positions, in order, and knows whether one was shortened. */
  ghost predicate SectionOk(p: Problem, c: nat, items: seq<Item>, shortened: bool, kept: seq<nat>, visited: nat)
    requires c < |p.collections| && visited <= |p.collections[c].values|
  {
    && |items| == |kept|
    && (forall k :: 0 <= k < |kept| ==> kept[k] < visited)
    && (forall j, k :: 0 <= j < k < |kept| ==> kept[j] < kept[k])
    && (forall i :: 0 <= i < visited ==> ItemAt(p, c, i).Some?)
    && (forall k :: 0 <= k < |kept| ==> items[k] == ItemAt(p, c, kept[k]).value.item)
    && (shortened <==> exists i :: 0 <= i < visited && ItemAt(p, c, i).value.shortened)
  }

  /** A visited record was left out only because it no longer fitted, and it still does not. */
  ghost predicate NothingWasted(p: Problem, c: nat, s: State)
    requires Shaped(p, s) && c < |p.collections|
  {
    forall i :: 0 <= i < s.visited[c] && i !in s.kept[c] ==>
      s.recordBudget == 0 || s.usedBytes + CostAt(p, c, i) > ByteBudget(p.maxOutputBytes)
  }

  /** Without byte pressure a section is a prefix, and a whole one while records are left. */
  ghost predicate IsPrefix(s: State, c: nat)
    requires c < |s.kept| && c < |s.visited|
  {
    && (forall k :: 0 <= k < |s.kept[c]| ==> s.kept[c][k] == k)
    && (s.recordBudget > 0 ==> |s.kept[c]| == s.visited[c])
  }

  ghost predicate AllSections(p: Problem, s: State)
    requires Shaped(p, s)
  {
    forall c :: 0 <= c < |p.collections| ==> SectionOk(p, c, s.items[c], s.shortened[c], s.kept[c], s.visited[c])
  }

  ghost predicate AllThrifty(p: Problem, s: State)
    requires Shaped(p, s)
  {
    forall c :: 0 <= c < |p.collections| ==> NothingWasted(p, c, s)
  }

  ghost predicate AllPrefixes(p: Problem, s: State)
    requires Shaped(p, s)
  {
    forall c :: 0 <= c < |p.collections| ==> IsPrefix(s, c)
  }

  ghost predicate Fair(p: Problem, s: State) {
    Shaped(p, s) && AllSections(p, s) && AllThrifty(p, s) && (BytesDoNotBind(p) ==> AllPrefixes(p, s))
  }

  // ---- visiting the next record ------------------------------------------------------------

  function Start(p: Problem): State {
    var n := |p.collections|;
    State(p.maxRecords, 0, seq(n, _ => []), seq(n, _ => false), seq(n, _ => []), seq(n, _ => 0))
  }

  /** The state speaks about the collections of the problem. */
  ghost predicate Fits(p: Problem, s: State) {
    |s.items| == |s.shortened| == |s.kept| == |p.collections| && Counts(p, s.visited)
  }

  ghost predicate CanVisit(p: Problem, s: State, c: nat) {
    Fits(p, s) && c < |p.collections| && s.visited[c] < |p.collections[c].values| && ItemAt(p, c, s.visited[c]).Some?
  }

  /** The loop body of `retain` for the next record of collection `c`. */
  ghost function Visit(p: Problem, s: State, c: nat): (t: State)
    requires CanVisit(p, s, c)
    ensures Fits(p, t) && t.visited == s.visited[c := s.visited[c] + 1]
  {
    var i := s.visited[c];
    var n := ItemAt(p, c, i).value;
    var t := s.(shortened := s.shortened[c := s.shortened[c] || n.shortened], visited := s.visited[c := i + 1]);
    var cost := p.cost(n.item);
    if s.recordBudget < 1 || s.usedBytes + cost > ByteBudget(p.maxOutputBytes) then t
    else t.(recordBudget := s.recordBudget - 1, usedBytes := s.usedBytes + cost,
            items := s.items[c := s.items[c] + [n.item]], kept := s.kept[c := s.kept[c] + [i]])
  }

  ghost predicate WellFormed(p: Problem) {
    forall c, i :: 0 <= c < |p.collections| && 0 <= i < |p.collections[c].values| ==> ItemAt(p, c, i).Some?
  }

  lemma {:induction false} SumOfEmpty<T>(s: seq<seq<T>>)
    requires forall c :: 0 <= c < |s| ==> s[c] == []
    ensures SumLengths(s) == 0
  {
    if s != [] {
      SumOfEmpty(s[..|s| - 1]);
    }
  }

  lemma {:induction false} NothingVisitedYet(p: Problem, visited: seq<nat>, k: nat)
    requires Counts(p, visited) && k <= |visited| && forall c :: 0 <= c < |visited| ==> visited[c] == 0
    ensures VisitedCost(p, visited, k) == 0
  {
    if k > 0 {
      NothingVisitedYet(p, visited, k - 1);
    }
  }

  lemma StartIsFair(p: Problem)
    ensures Fair(p, Start(p))
  {
    SumOfEmpty(Start(p).items);
    NothingCostsNothing(p.cost, Start(p).items);
    NothingVisitedYet(p, Start(p).visited, |p.collections|);
  }

  lemma VisitKeepsShape(p: Problem, s: State, c: nat)
    requires Shaped(p, s) && CanVisit(p, s, c)
    ensures Shaped(p, Visit(p, s, c))
  {
    VisitedCostNext(p, s.visited, c, |s.visited|);
    SumLengthsUpdate(s.items, c, Visit(p, s, c).items[c]);
    VisitCosts(p, s, c);
  }

  lemma VisitCosts(p: Problem, s: State, c: nat)
    requires CanVisit(p, s, c) && s.usedBytes == TotalCost(p.cost, s.items)
    ensures Visit(p, s, c).usedBytes == TotalCost(p.cost, Visit(p, s, c).items)
  {
    TotalCostAppend(p.cost, s.items, c, ItemAt(p, c, s.visited[c]).value.item);
  }

  lemma VisitKeepsSection(p: Problem, s: State, c: nat)
    requires Shaped(p, s) && CanVisit(p, s, c)
    requires SectionOk(p, c, s.items[c], s.shortened[c], s.kept[c], s.visited[c])
    ensures var t := Visit(p, s, c);
            Shaped(p, t) && SectionOk(p, c, t.items[c], t.shortened[c], t.kept[c], t.visited[c])
  {
    VisitKeepsShape(p, s, c);
  }

  lemma RoomWithoutBytePressure(p: Problem, s: State, c: nat)
    requires Shaped(p, s) && CanVisit(p, s, c) && BytesDoNotBind(p)
    ensures s.usedBytes + CostAt(p, c, s.visited[c]) <= ByteBudget(p.maxOutputBytes)
  {
    var later := s.visited[c := s.visited[c] + 1];
    VisitedCostNext(p, s.visited, c, |s.visited|);
    VisitedCostGrows(p, later, Lengths(p), |later|);
  }

  /** What the visit decides about its own record. */
  lemma VisitDecides(p: Problem, s: State, c: nat)
    requires Shaped(p, s) && CanVisit(p, s, c)
    ensures var t := Visit(p, s, c);
            || s.visited[c] in t.kept[c] || t.recordBudget == 0
            || t.usedBytes + CostAt(p, c, s.visited[c]) > ByteBudget(p.maxOutputBytes)
  {
    var t, i := Visit(p, s, c), s.visited[c];
    if t.kept[c] == s.kept[c] + [i] {
      assert t.kept[c][|s.kept[c]|] == i;
    }
  }

  lemma VisitOnlySpends(p: Problem, s: State, c: nat, d: nat)
    requires Shaped(p, s) && CanVisit(p, s, c) && d < |p.collections|
    ensures var t := Visit(p, s, c);
            && t.recordBudget <= s.recordBudget && t.usedBytes >= s.usedBytes
            && forall i :: i in s.kept[d] ==> i in t.kept[d]
  {
  }

  lemma VisitWastesNothing(p: Problem, s: State, c: nat, d: nat)
    requires Fair(p, s) && CanVisit(p, s, c) && d < |p.collections|
    ensures Shaped(p, Visit(p, s, c)) && NothingWasted(p, d, Visit(p, s, c))
  {
    VisitKeepsShape(p, s, c);
    VisitOnlySpends(p, s, c, d);
    var t := Visit(p, s, c);
    assert NothingWasted(p, d, s);
    forall i | 0 <= i < t.visited[d] && i !in t.kept[d]
      ensures t.recordBudget == 0 || t.usedBytes + CostAt(p, d, i) > ByteBudget(p.maxOutputBytes)
    {
      if d == c && i == s.visited[c] {
        VisitDecides(p, s, c);
      }
    }
  }

  lemma VisitKeepsSections(p: Problem, s: State, c: nat)
    requires Fair(p, s) && CanVisit(p, s, c)
    ensures Shaped(p, Visit(p, s, c)) && AllSections(p, Visit(p, s, c))
  {
    var t := Visit(p, s, c);
    VisitKeepsSection(p, s, c);
    forall d | 0 <= d < |p.collections|
      ensures SectionOk(p, d, t.items[d], t.shortened[d], t.kept[d], t.visited[d])
    {
      assert SectionOk(p, d, s.items[d], s.shortened[d], s.kept[d], s.visited[d]);
    }
  }

  lemma VisitKeepsPrefix(p: Problem, s: State, c: nat, d: nat)
    requires Shaped(p, s) && CanVisit(p, s, c) && d < |p.collections| && IsPrefix(s, c) && IsPrefix(s, d)
    requires s.usedBytes + CostAt(p, c, s.visited[c]) <= ByteBudget(p.maxOutputBytes)
    ensures IsPrefix(Visit(p, s, c), d)
  {
  }

  lemma VisitKeepsPrefixes(p: Problem, s: State, c: nat)
    requires Fair(p, s) && CanVisit(p, s, c) && BytesDoNotBind(p)
    ensures Shaped(p, Visit(p, s, c)) && AllPrefixes(p, Visit(p, s, c))
  {
    VisitKeepsShape(p, s, c);
    RoomWithoutBytePressure(p, s, c);
    forall d | 0 <= d < |p.collections|
      ensures IsPrefix(Visit(p, s, c), d)
    {
      VisitKeepsPrefix(p, s, c, d);
    }
  }

  lemma VisitKeepsFair(p: Problem, s: State, c: nat)
    requires Fair(p, s) && CanVisit(p, s, c)
    ensures Fair(p, Visit(p, s, c))
  {
    VisitKeepsSections(p, s, c);
    forall d | 0 <= d < |p.collections|
      ensures NothingWasted(p, d, Visit(p, s, c))
    {
      VisitWastesNothing(p, s, c, d);
    }
    if BytesDoNotBind(p) {
      VisitKeepsPrefixes(p, s, c);
    }
  }

  // ---- the end of the two passes -----------------------------------------------------------

  /** The records the quota lets each collection keep whatever the others hold. */
  function Guaranteed(p: Problem, q: nat, c: nat): nat
    requires c < |p.collections|
  {
    Min(|p.collections[c].values|, q)
  }

  function Available(p: Problem, k: nat): nat
    requires k <= |p.collections|
  {
    if k == 0 then 0 else Available(p, k - 1) + |p.collections[k - 1].values|
  }

  ghost predicate AllVisited(p: Problem, s: State) {
    |s.visited| == |p.collections| && forall c :: 0 <= c < |p.collections| ==> s.visited[c] == |p.collections[c].values|
  }

  lemma {:induction false} SumOfWhole(p: Problem, items: seq<seq<Item>>)
    requires |items| <= |p.collections|
    requires forall c :: 0 <= c < |items| ==> |items[c]| <= |p.collections[c].values|
    ensures SumLengths(items) <= Available(p, |items|)
    ensures (forall c :: 0 <= c < |items| ==> |items[c]| == |p.collections[c].values|) ==>
              SumLengths(items) == Available(p, |items|)
  {
    if items != [] {
      SumOfWhole(p, items[..|items| - 1]);
    }
  }

  lemma {:induction false} IncreasingIsShort(kept: seq<nat>, n: nat)
    requires forall k :: 0 <= k < |kept| ==> kept[k] < n
    requires forall j, k :: 0 <= j < k < |kept| ==> kept[j] < kept[k]
    ensures |kept| <= n
  {
    if kept != [] {
      IncreasingIsShort(kept[..|kept| - 1], kept[|kept| - 1]);
    }
  }

  /** When bytes do not bind, exactly as many records are returned as the limit and the document allow. */
  lemma TotalIsMinimum(p: Problem, s: State)
    requires Fair(p, s) && AllVisited(p, s) && BytesDoNotBind(p)
    ensures SumLengths(s.items) == Min(p.maxRecords, Available(p, |p.collections|))
  {
    forall c | 0 <= c < |p.collections|
      ensures |s.items[c]| <= |p.collections[c].values|
      ensures s.recordBudget > 0 ==> |s.items[c]| == |p.collections[c].values|
    {
      assert SectionOk(p, c, s.items[c], s.shortened[c], s.kept[c], s.visited[c]) && IsPrefix(s, c);
      IncreasingIsShort(s.kept[c], s.visited[c]);
    }
    SumOfWhole(p, s.items);
  }

  /** Whether bytes bind or not, a record that was left out could not have been added at the end. */
  lemma NothingMoreFits(p: Problem, s: State, c: nat, i: nat)
    requires Fair(p, s) && AllVisited(p, s) && c < |p.collections| && i < |p.collections[c].values| && i !in s.kept[c]
    ensures SumLengths(s.items) == p.maxRecords
            || TotalCost(p.cost, s.items) + CostAt(p, c, i) > ByteBudget(p.maxOutputBytes)
  {
    assert NothingWasted(p, c, s);
  }

  /** `k` records of every collection are within the record limit. */
  ghost predicate Shareable(p: Problem, k: nat) {
    k * |p.collections| <= p.maxRecords
  }

  lemma ShareIsWithinQuota(k: nat, n: nat, m: nat)
    requires n > 0 && k * n <= m
    ensures k <= m / n
  {
    var q := m / n;
    assert m == q * n + m % n;
    assert (k - q) * n == k * n - q * n;
    LessThanOne(k - q, n);
  }

  lemma LessThanOne(d: int, n: nat)
    requires d * n < n
    ensures d < 1
  {
  }

  lemma ShareIsGuaranteed(p: Problem, k: nat, c: nat)
    requires p.collections != [] && Shareable(p, k) && c < |p.collections|
    ensures Guaranteed(p, Quota(p), c) >= Min(|p.collections[c].values|, k)
  {
    ShareIsWithinQuota(k, |p.collections|, p.maxRecords);
  }

  // ---- the first pass ----------------------------------------------------------------------

  lemma {:induction false} SumBounded<T>(s: seq<seq<T>>, k: nat, quota: nat)
    requires k <= |s|
    requires forall c :: 0 <= c < k ==> |s[c]| <= quota
    requires forall c :: k <= c < |s| ==> s[c] == []
    ensures SumLengths(s) <= Times(k, quota)
  {
    if s != [] {
      var n := |s| - 1;
      SumBounded(s[..n], if k > n then n else k, quota);
    }
  }

  function Times(k: nat, q: nat): nat {
    if k == 0 then 0 else Times(k - 1, q) + q
  }

  lemma {:induction false} TimesIsProduct(k: nat, q: nat)
    ensures Times(k, q) == k * q
  {
    if k > 0 {
      TimesIsProduct(k - 1, q);
      assert k * q == (k - 1) * q + q;
    }
  }

  lemma {:induction false} TimesGrows(j: nat, k: nat, q: nat)
    requires j <= k
    ensures Times(j, q) <= Times(k, q)
  {
    if j < k {
      TimesGrows(j, k - 1, q);
    }
  }

  /** All collections can take their quota at once. */
  ghost predicate QuotaFits(p: Problem, q: nat) {
    Times(|p.collections|, q) <= p.maxRecords
  }

  lemma QuotasFit(p: Problem)
    requires p.collections != []
    ensures QuotaFits(p, Quota(p))
  {
    TimesIsProduct(|p.collections|, Quota(p));
    var n := |p.collections|;
    assert p.maxRecords == p.maxRecords / n * n + p.maxRecords % n;
  }

  /** The first pass has finished the collections before `c` and not begun those after it. */
  ghost predicate InFirstPass(p: Problem, q: nat, s: State, c: nat)
    requires c <= |p.collections|
  {
    && |s.visited| == |s.kept| == |s.items| == |p.collections|
    && (forall d :: 0 <= d < c ==> s.visited[d] == Guaranteed(p, q, d))
    && (forall d :: c < d < |p.collections| ==> s.visited[d] == 0)
    && (c < |p.collections| ==> s.visited[c] <= Guaranteed(p, q, c))
  }

  /** Within its quota a collection always finds a record left. */
  lemma QuotaLeavesRoom(p: Problem, q: nat, s: State, c: nat)
    requires QuotaFits(p, q)
    requires Fair(p, s) && c < |p.collections| && InFirstPass(p, q, s, c) && s.visited[c] < Guaranteed(p, q, c)
    ensures s.recordBudget > 0
  {
    forall d | 0 <= d < |p.collections|
      ensures |s.items[d]| <= s.visited[d]
    {
      assert SectionOk(p, d, s.items[d], s.shortened[d], s.kept[d], s.visited[d]);
      IncreasingIsShort(s.kept[d], s.visited[d]);
    }
    FirstPassSum(p, q, s, c);
  }

  /** The sections other than `c` hold no more than their quotas. */
  lemma ClearedSum(p: Problem, q: nat, s: State, c: nat)
    requires Shaped(p, s) && c < |p.collections| && InFirstPass(p, q, s, c)
    requires forall d :: 0 <= d < |p.collections| ==> |s.items[d]| <= s.visited[d]
    ensures SumLengths(s.items[c := []]) <= Times(c, q)
  {
    SumBounded(s.items[c := []], c, q);
  }

  lemma FirstPassSum(p: Problem, q: nat, s: State, c: nat)
    requires QuotaFits(p, q)
    requires Shaped(p, s) && c < |p.collections| && InFirstPass(p, q, s, c)
    requires forall d :: 0 <= d < |p.collections| ==> |s.items[d]| <= s.visited[d]
    ensures SumLengths(s.items) <= Times(c, q) + s.visited[c]
    ensures s.visited[c] < q ==> SumLengths(s.items) < p.maxRecords
  {
    ClearedSum(p, q, s, c);
    SumLengthsUpdate(s.items, c, []);
    TimesGrows(c + 1, |p.collections|, q);
  }

  /** Everything visited so far has been kept. */
  ghost predicate Full(s: State) {
    |s.kept| == |s.visited| && forall d :: 0 <= d < |s.kept| ==> |s.kept[d]| == s.visited[d]
  }

  lemma FirstPassKeepsAll(p: Problem, q: nat, s: State, c: nat)
    requires QuotaFits(p, q)
    requires Fair(p, s) && CanVisit(p, s, c) && BytesDoNotBind(p)
    requires InFirstPass(p, q, s, c) && s.visited[c] < Guaranteed(p, q, c) && Full(s)
    ensures Full(Visit(p, s, c))
  {
    QuotaLeavesRoom(p, q, s, c);
    RoomWithoutBytePressure(p, s, c);
  }

  ghost predicate KeepsMore(s: State, t: State) {
    |s.kept| == |t.kept| && forall d :: 0 <= d < |s.kept| ==> |s.kept[d]| <= |t.kept[d]|
  }

  ghost predicate WellFormedIn(p: Problem, c: nat, from: nat, to: nat)
    requires c < |p.collections| && to <= |p.collections[c].values|
  {
    forall i :: from <= i < to ==> ItemAt(p, c, i).Some?
  }

  /** The first pass has handled the first `c` collections, and found their records well-formed. */
  ghost predicate FirstPassDone(p: Problem, q: nat, s: State, c: nat) {
    && Fair(p, s) && c <= |p.collections|
    && InFirstPass(p, q, s, c) && (c < |p.collections| ==> s.visited[c] == 0) && (BytesDoNotBind(p) ==> Full(s))
    && forall d :: 0 <= d < c ==> WellFormedIn(p, d, 0, Guaranteed(p, q, d))
  }

  ghost predicate SecondPassDone(p: Problem, q: nat, s: State, c: nat) {
    && Fair(p, s) && c <= |p.collections|
    && (forall d :: 0 <= d < |p.collections| ==>
          s.visited[d] == if d < c then |p.collections[d].values| else Guaranteed(p, q, d))
    && (forall d :: 0 <= d < |p.collections| ==> WellFormedIn(p, d, 0, Guaranteed(p, q, d)))
    && forall d :: 0 <= d < c ==> WellFormedIn(p, d, Guaranteed(p, q, d), |p.collections[d].values|)
  }

  /** Collection `c` is being visited and its first `i` records have been; in the first pass with the
      quota still holding. */
  ghost predicate Underway(p: Problem, q: nat, s: State, c: nat, i: nat, first: bool) {
    && Fair(p, s) && c < |p.collections| && s.visited[c] == i
    && (first ==> QuotaFits(p, q) && InFirstPass(p, q, s, c) && (BytesDoNotBind(p) ==> Full(s)))
  }

  /** Only the visits of collection `c` moved on. */
  ghost predicate OnlyMoved(s: State, t: State, c: nat) {
    |s.visited| == |t.visited| && forall d :: 0 <= d < |s.visited| && d != c ==> t.visited[d] == s.visited[d]
  }

  lemma FirstPassBegins(p: Problem, q: nat, s: State)
    requires s == Start(p) && Fair(p, s)
    ensures FirstPassDone(p, q, s, 0)
  {
  }

  lemma FirstPassEnters(p: Problem, q: nat, s: State, c: nat)
    requires QuotaFits(p, q) && FirstPassDone(p, q, s, c) && c < |p.collections|
    ensures Underway(p, q, s, c, 0, true)
  {
  }

  lemma FirstPassMoves(p: Problem, q: nat, s: State, c: nat, t: State)
    requires FirstPassDone(p, q, s, c) && c < |p.collections| && OnlyMoved(s, t, c)
    requires Underway(p, q, t, c, Guaranteed(p, q, c), true) && WellFormedIn(p, c, 0, Guaranteed(p, q, c))
    ensures FirstPassDone(p, q, t, c + 1)
  {
  }

  lemma SecondPassMoves(p: Problem, q: nat, s: State, c: nat, t: State)
    requires SecondPassDone(p, q, s, c) && c < |p.collections| && OnlyMoved(s, t, c)
    requires Underway(p, q, t, c, |p.collections[c].values|, false)
    requires WellFormedIn(p, c, Guaranteed(p, q, c), |p.collections[c].values|)
    ensures SecondPassDone(p, q, t, c + 1)
  {
  }

  lemma SecondPassBegins(p: Problem, q: nat, s: State)
    requires FirstPassDone(p, q, s, |p.collections|)
    ensures SecondPassDone(p, q, s, 0) && KeepsMore(s, s)
  {
  }

  lemma SecondPassEnters(p: Problem, q: nat, s: State, c: nat)
    requires SecondPassDone(p, q, s, c) && c < |p.collections|
    ensures Underway(p, q, s, c, Guaranteed(p, q, c), false)
  {
  }

  lemma VisitMoves(p: Problem, s: State, c: nat)
    requires CanVisit(p, s, c)
    ensures KeepsMore(s, Visit(p, s, c)) && OnlyMoved(s, Visit(p, s, c), c)
  {
  }

  lemma VisitStaysInFirstPass(p: Problem, q: nat, s: State, c: nat)
    requires CanVisit(p, s, c) && InFirstPass(p, q, s, c) && s.visited[c] < Guaranteed(p, q, c)
    ensures InFirstPass(p, q, Visit(p, s, c), c)
  {
  }

  lemma VisitIsUnderway(p: Problem, q: nat, s: State, c: nat, i: nat, first: bool, t: State)
    requires Underway(p, q, s, c, i, first) && CanVisit(p, s, c) && t == Visit(p, s, c)
    requires first ==> i < Guaranteed(p, q, c)
    ensures Underway(p, q, t, c, i + 1, first) && KeepsMore(s, t) && OnlyMoved(s, t, c)
  {
    VisitKeepsFair(p, s, c);
    VisitMoves(p, s, c);
    if first {
      VisitStaysInFirstPass(p, q, s, c);
      if BytesDoNotBind(p) {
        FirstPassKeepsAll(p, q, s, c);
      }
    }
  }

  lemma KeepsMoreTransitive(s: State, t: State, u: State)
    requires KeepsMore(s, t) && KeepsMore(t, u)
    ensures KeepsMore(s, u)
  {
  }

  // ---- the allocator -----------------------------------------------------------------------

  datatype Section = Section(name: string, total: nat, returned: nat, truncated: bool, items: seq<Item>)

  datatype Document = Document(sections: seq<Section>, returned: nat, truncated: bool)

  function ItemsOf(sections: seq<Section>): seq<seq<Item>> {
    seq(|sections|, c requires 0 <= c < |sections| => sections[c].items)
  }

  /** A section as it is reported: truncated exactly when a record was dropped or shortened. */
  ghost predicate Reported(p: Problem, s: State, c: nat, section: Section)
    requires Shaped(p, s) && c < |p.collections|
  {
    && section.name == p.collections[c].name && section.total == |p.collections[c].values|
    && section.items == s.items[c] && section.returned == |s.items[c]|
    && (section.truncated <==> section.returned < section.total || s.shortened[c])
  }

  /** The document reports every section, is truncated exactly when one of them is, and returns no more
      records and no more bytes than the limits allow. */
  ghost predicate Delivered(p: Problem, s: State, d: Document)
    requires Shaped(p, s)
  {
    && |d.sections| == |p.collections|
    && (forall c :: 0 <= c < |p.collections| ==> Reported(p, s, c, d.sections[c]))
    && d.returned == SumLengths(ItemsOf(d.sections)) <= p.maxRecords
    && TotalCost(p.cost, ItemsOf(d.sections)) <= ByteBudget(p.maxOutputBytes)
    && (d.truncated <==> exists section :: section in d.sections && section.truncated)
  }

  /** When bytes do not bind: as many records as the limit and the document allow, and of every collection a
      prefix of at least its quota. */
  ghost predicate Generous(p: Problem, q: nat, s: State)
    requires Shaped(p, s)
  {
    && SumLengths(s.items) == Min(p.maxRecords, Available(p, |p.collections|))
    && forall c :: 0 <= c < |p.collections| ==> IsPrefix(s, c) && |s.kept[c]| >= Guaranteed(p, q, c)
  }

  /** However many records every collection could have within the record limit, each returns as many, or all it has. */
  ghost predicate SharesFairly(p: Problem, d: Document) {
    && |d.sections| == |p.collections|
    && forall k: nat, c {:trigger Shareable(p, k), d.sections[c]} ::
         Shareable(p, k) && 0 <= c < |p.collections| ==>
           |d.sections[c].items| >= Min(|p.collections[c].values|, k)
  }

  lemma GenerosityIsFair(p: Problem, s: State, d: Document)
    requires p.collections != [] && Fair(p, s) && Delivered(p, s, d) && Generous(p, Quota(p), s)
    ensures SharesFairly(p, d)
  {
    forall k: nat, c | Shareable(p, k) && 0 <= c < |p.collections|
      ensures |d.sections[c].items| >= Min(|p.collections[c].values|, k)
    {
      ShareIsGuaranteed(p, k, c);
      assert Reported(p, s, c, d.sections[c]);
      assert SectionOk(p, c, s.items[c], s.shortened[c], s.kept[c], s.visited[c]);
      assert |s.kept[c]| >= Guaranteed(p, Quota(p), c);
    }
  }

  lemma AllWellFormed(p: Problem, q: nat, s: State)
    requires SecondPassDone(p, q, s, |p.collections|)
    ensures WellFormed(p) && AllVisited(p, s)
  {
    forall c, i | 0 <= c < |p.collections| && 0 <= i < |p.collections[c].values|
      ensures ItemAt(p, c, i).Some?
    {
      assert WellFormedIn(p, c, 0, Guaranteed(p, q, c))
          && WellFormedIn(p, c, Guaranteed(p, q, c), |p.collections[c].values|);
    }
  }

  lemma PassesAreGenerous(p: Problem, q: nat, s: State, t: State)
    requires FirstPassDone(p, q, s, |p.collections|) && SecondPassDone(p, q, t, |p.collections|) && KeepsMore(s, t)
    ensures WellFormed(p) && AllVisited(p, t) && Shaped(p, t) && (BytesDoNotBind(p) ==> Generous(p, q, t))
  {
    AllWellFormed(p, q, t);
    if BytesDoNotBind(p) {
      TotalIsMinimum(p, t);
    }
  }

  class Allocation {
    const p: Problem
    var recordBudget: nat
    var usedBytes: nat
    var items: seq<seq<Item>>
    var shortened: seq<bool>
    ghost var kept: seq<seq<nat>>
    ghost var visited: seq<nat>

    ghost function Snapshot(): State
      reads this
    {
      State(recordBudget, usedBytes, items, shortened, kept, visited)
    }

    constructor (p: Problem)
      ensures this.p == p && Snapshot() == Start(p)
    {
      this.p := p;
      recordBudget, usedBytes := p.maxRecords, 0;
      items, shortened := seq(|p.collections|, _ => []), seq(|p.collections|, _ => false);
      kept, visited := seq(|p.collections|, _ => []), seq(|p.collections|, _ => 0);
    }

    /** The loop body of `retain`. */
    method RetainNext(c: nat, n: Normalized)
      requires CanVisit(p, Snapshot(), c) && ItemAt(p, c, visited[c]) == Some(n)
      modifies this
      ensures Snapshot() == Visit(p, old(Snapshot()), c)
    {
      shortened := shortened[c := shortened[c] || n.shortened];
      ghost var i := visited[c];
      visited := visited[c := i + 1];
      var cost := p.cost(n.item);
      if recordBudget < 1 || usedBytes + cost > ByteBudget(p.maxOutputBytes) {
        return;
      }
      items := items[c := items[c] + [n.item]];
      kept := kept[c := kept[c] + [i]];
      recordBudget := recordBudget - 1;
      usedBytes := usedBytes + cost;
    }

    /** Record `i` of collection `c`, the next one to be visited; raises if it is malformed. */
    method RetainOne(c: nat, i: nat, ghost q: nat, ghost first: bool, ghost s: State)
      returns (raised: bool, ghost t: State)
      requires s == Snapshot() && Underway(p, q, s, c, i, first) && i < |p.collections[c].values|
      requires first ==> i < Guaranteed(p, q, c)
      modifies this
      ensures t == Snapshot() && raised == ItemAt(p, c, i).None?
      ensures !raised ==> Underway(p, q, t, c, i + 1, first) && KeepsMore(s, t) && OnlyMoved(s, t, c)
    {
      var n := p.collections[c].normalize(p.collections[c].values[i]);
      if n.None? {
        return true, s;
      }
      RetainNext(c, n.value);
      t := Snapshot();
      VisitIsUnderway(p, q, s, c, i, first, t);
      return false, t;
    }

    /** Visits the records of collection `c` from `start` to `stop`, each once and in order, unless one of
        them is malformed. */
    method Retain(c: nat, start: nat, stop: nat, ghost q: nat, ghost first: bool, ghost s: State)
      returns (raised: bool, ghost t: State)
      requires s == Snapshot() && Underway(p, q, s, c, start, first) && start <= stop <= |p.collections[c].values|
      requires first ==> stop == Guaranteed(p, q, c)
      modifies this
      ensures t == Snapshot()
      ensures raised ==> exists i :: start <= i < stop && ItemAt(p, c, i).None?
      ensures !raised ==> Underway(p, q, t, c, stop, first) && KeepsMore(s, t) && OnlyMoved(s, t, c)
      ensures !raised ==> WellFormedIn(p, c, start, stop)
    {
      t := s;
      for i := start to stop
        invariant t == Snapshot() && Underway(p, q, t, c, i, first) && KeepsMore(s, t) && OnlyMoved(s, t, c)
        invariant WellFormedIn(p, c, start, i)
      {
        ghost var before := t;
        raised, t := RetainOne(c, i, q, first, t);
        if raised {
          return;
        }
        KeepsMoreTransitive(s, before, t);
      }
      return false, t;
    }

    /** The first quota of collection `c`. */
    method FirstPassOf(c: nat, q: nat, ghost s: State) returns (raised: bool, ghost t: State)
      requires QuotaFits(p, q) && s == Snapshot() && FirstPassDone(p, q, s, c) && c < |p.collections|
      modifies this
      ensures t == Snapshot()
      ensures raised ==> !WellFormed(p)
      ensures !raised ==> FirstPassDone(p, q, t, c + 1)
    {
      FirstPassEnters(p, q, s, c);
      raised, t := Retain(c, 0, Min(|p.collections[c].values|, q), q, true, s);
      if !raised {
        FirstPassMoves(p, q, s, c, t);
      }
    }

    method FirstPass(q: nat, ghost s: State) returns (raised: bool, ghost t: State)
      requires QuotaFits(p, q) && s == Snapshot() == Start(p)
      modifies this
      ensures t == Snapshot()
      ensures raised ==> !WellFormed(p)
      ensures !raised ==> FirstPassDone(p, q, t, |p.collections|)
    {
      StartIsFair(p);
      FirstPassBegins(p, q, s);
      t := s;
      for c := 0 to |p.collections|
        invariant t == Snapshot() && FirstPassDone(p, q, t, c)
      {
        raised, t := FirstPassOf(c, q, t);
        if raised {
          return;
        }
      }
      return false, t;
    }

    /** The records of collection `c` beyond its quota. */
    method SecondPassOf(c: nat, q: nat, ghost s: State) returns (raised: bool, ghost t: State)
      requires s == Snapshot() && SecondPassDone(p, q, s, c) && c < |p.collections|
      modifies this
      ensures t == Snapshot()
      ensures raised ==> !WellFormed(p)
      ensures !raised ==> SecondPassDone(p, q, t, c + 1) && KeepsMore(s, t)
    {
      SecondPassEnters(p, q, s, c);
      raised, t := Retain(c, Min(|p.collections[c].values|, q), |p.collections[c].values|, q, false, s);
      if !raised {
        SecondPassMoves(p, q, s, c, t);
      }
    }

    method SecondPass(q: nat, ghost s: State) returns (raised: bool, ghost t: State)
      requires s == Snapshot() && FirstPassDone(p, q, s, |p.collections|)
      modifies this
      ensures t == Snapshot()
      ensures raised ==> !WellFormed(p)
      ensures !raised ==> SecondPassDone(p, q, t, |p.collections|) && KeepsMore(s, t)
    {
      SecondPassBegins(p, q, s);
      t := s;
      for c := 0 to |p.collections|
        invariant t == Snapshot() && SecondPassDone(p, q, t, c) && KeepsMore(s, t)
      {
        ghost var before := t;
        raised, t := SecondPassOf(c, q, t);
        if raised {
          return;
        }
        KeepsMoreTransitive(s, before, t);
      }
      return false, t;
    }

    method Report() returns (document: Document)
      requires Shaped(p, Snapshot())
      ensures Delivered(p, Snapshot(), document) && document.returned == SumLengths(items)
    {
      var sections: seq<Section> := [];
      var returned := 0;
      var truncated := false;
      for c := 0 to |p.collections|
        invariant |sections| == c && returned == SumLengths(items[..c])
        invariant forall d :: 0 <= d < c ==> Reported(p, Snapshot(), d, sections[d])
        invariant truncated <==> exists section :: section in sections && section.truncated
      {
        var cut := |items[c]| < |p.collections[c].values| || shortened[c];
        var section := Section(p.collections[c].name, |p.collections[c].values|, |items[c]|, cut, items[c]);
        sections := sections + [section];
        assert section in sections;
        assert items[..c + 1][..c] == items[..c];
        returned := returned + |items[c]|;
        truncated := truncated || cut;
      }
      assert items[..|p.collections|] == items && ItemsOf(sections) == items;
      return Document(sections, returned, truncated);
    }

    /** Both passes and the report; nothing exactly when some record is malformed. Every record is visited
        once, both budgets hold, sections are order-preserving selections, and a record is dropped only when
        it no longer fits. Without byte pressure every section is a prefix holding at least its quota, and the
        total is as large as the limit and the document allow. */
    method Allocate() returns (document: Option<Document>)
      requires p.collections != [] && Snapshot() == Start(p)
      modifies this
      ensures document.Some? <==> WellFormed(p)
      ensures document.Some? ==>
                Fair(p, Snapshot()) && AllVisited(p, Snapshot()) && Delivered(p, Snapshot(), document.value)
      ensures document.Some? && BytesDoNotBind(p) ==> Generous(p, Quota(p), Snapshot())
      ensures document.Some? && BytesDoNotBind(p) ==> SharesFairly(p, document.value)
    {
      var quota := p.maxRecords / |p.collections|;
      QuotasFit(p);
      document := AllocateWith(quota);
      if document.Some? && BytesDoNotBind(p) {
        GenerosityIsFair(p, Snapshot(), document.value);
      }
    }

    method AllocateWith(q: nat) returns (document: Option<Document>)
      requires QuotaFits(p, q) && Snapshot() == Start(p)
      modifies this
      ensures document.Some? <==> WellFormed(p)
      ensures document.Some? ==>
                Fair(p, Snapshot()) && AllVisited(p, Snapshot()) && Delivered(p, Snapshot(), document.value)
      ensures document.Some? && BytesDoNotBind(p) ==> Generous(p, q, Snapshot())
    {
      var raised, s := FirstPass(q, Snapshot());
      if raised {
        return None;
      }
      ghost var t: State;
      raised, t := SecondPass(q, s);
      if raised {
        return None;
      }
      PassesAreGenerous(p, q, s, t);
      var report := Report();
      return Some(report);
    }
  }
}
