/** What the two episode updates do field by field, what they refuse and why, and what a valid manifest promises,
    spelled out entry by entry. */
module EpisodeLaws {
  import opened DependencyGraph
  import opened EpisodeModel
  import opened EpisodeUpdates
  import opened Results

  // ---- observations ------------------------------------------------------------------------

  /** What an outcome makes of the hypothesis it is about. */
  predicate StatusFits(outcome: Outcome, conclusive: bool, status: Status) {
    && (status.Supported? <==> outcome.OutSucceeded? && conclusive)
    && (status.Refuted? <==> outcome.OutNegative? && conclusive)
    && (status.Blocked? <==> outcome.OutBlocked?)
    && (status.Inconclusive? <==> outcome.OutInconclusive? || (outcome.OutNegative? && !conclusive))
    && !status.Proposed?
  }

  /** The hypotheses after an observation about the one at `at`: it has its new status and the new evidence, the
      others are as they were, and the adjacent ones follow. */
  ghost predicate HypothesesObserved(hs: seq<Hypothesis>, us: seq<Hypothesis>, o: Observation, at: nat) {
    && at < |hs| && hs[at].id == o.hypothesis && |us| == |hs| + |o.adjacent|
    && StatusFits(o.outcome, o.conclusive, us[at].status)
    && us[at] == hs[at].(status := us[at].status, evidence := hs[at].evidence + EvidenceIds(o.evidence))
    && (forall i :: 0 <= i < |hs| && i != at ==> us[i] == hs[i])
    && (forall i :: 0 <= i < |o.adjacent| ==> us[|hs| + i] == o.adjacent[i])
  }

  /** The attempt records the observation, the probe it ran, and the graph revisions before and after. */
  predicate Records(a: Attempt, o: Observation, probe: Probe, before: nat, after: nat) {
    && a.observation == o.id && a.hypothesis == o.hypothesis && a.revision == o.revision && a.probe.probe == probe
    && a.outcome == o.outcome && a.progress == o.progress && a.cost == o.cost
    && a.newNodes == NodeIds(o.nodes) && a.newEdges == EdgeIds(o.edges) && a.evidence == EvidenceIds(o.evidence)
    && a.graphBefore == before && a.graphAfter == after && a.startedAt == o.startedAt && a.finishedAt == o.observedAt
  }

  /** Nodes and edges are appended; the revision moves by one if there are any. */
  predicate SurfaceObserved(s: Surface, u: Surface, o: Observation) {
    && u.nodes == s.nodes + o.nodes && u.edges == s.edges + o.edges
    && u.revision == s.revision + (if |o.nodes| + |o.edges| > 0 then 1 else 0)
  }

  predicate BudgetObserved(b: Budget, c: Budget, cost: real) {
    && c.usedAttempts == b.usedAttempts + 1 && c.usedIterations == b.usedIterations + 1
    && c.usedCost == b.usedCost + cost
    && c.maxAttempts == b.maxAttempts && c.maxIterations == b.maxIterations && c.maxCost == b.maxCost
  }

  lemma {:induction false} DedupedIsSame(s: seq<string>)
    requires Unique(s)
    ensures Deduped(s) == s
  {
    if s != [] {
      var n := |s| - 1;
      DedupedIsSame(s[..n]);
      forall i | 0 <= i < n
        ensures s[..n][i] != s[n]
      {
      }
      assert s == s[..n] + [s[n]];
    }
  }

  /** A hypothesis's evidence is known, so new evidence is new to it. */
  lemma EvidenceIsNew(e: Episode, o: Observation, at: nat)
    requires ValidEpisode(e) && ObservationOk(o) && at < |e.hypotheses|
    requires Disjoint(EvidenceIds(o.evidence), EvidenceIds(e.evidence))
    ensures Unique(e.hypotheses[at].evidence + EvidenceIds(o.evidence))
  {
    var h := e.hypotheses[at];
    assert HypothesisOk(h) && HypothesisRefs(h, NodeIds(e.surface.nodes), HypothesisIds(e.hypotheses),
      EvidenceIds(e.evidence));
    Joined(h.evidence, EvidenceIds(o.evidence));
  }

  lemma ObservedHypotheses(e: Episode, o: Observation, attemptId: string, at: nat)
    requires o.hypothesis in HypothesisIds(e.hypotheses) && Locate(e.hypotheses, o.hypothesis) == Some(at)
    requires Unique(e.hypotheses[at].evidence + EvidenceIds(o.evidence))
    ensures HypothesesObserved(e.hypotheses, Observed(e, o, attemptId).hypotheses, o, at)
  {
    DedupedIsSame(e.hypotheses[at].evidence + EvidenceIds(o.evidence));
  }

  /** An applied observation, field by field; what is not named stays as it was. */
  lemma ObservationTakesEffect(e: Episode, o: Observation, attemptId: string, u: Episode) returns (at: nat)
    requires ValidEpisode(e) && ObservationOk(o) && ApplyObservation(e, o, attemptId) == Ok(u)
    ensures HypothesesObserved(e.hypotheses, u.hypotheses, o, at)
    ensures SurfaceObserved(e.surface, u.surface, o) && u.evidence == e.evidence + o.evidence
    ensures |u.attempts| == |e.attempts| + 1 && e.attempts < u.attempts && u.attempts[|e.attempts|].id == attemptId
    ensures Records(u.attempts[|e.attempts|], o, e.hypotheses[at].probe, e.surface.revision, u.surface.revision)
    ensures BudgetObserved(e.budget, u.budget, o.cost) && u.expansions == e.expansions
    ensures u.id == e.id && u.objective == e.objective && u.createdAt == e.createdAt && u.updatedAt == o.observedAt
  {
    at := Locate(e.hypotheses, o.hypothesis).value;
    EvidenceIsNew(e, o, at);
    ObservedHypotheses(e, o, attemptId, at);
  }

  // ---- refusals ----------------------------------------------------------------------------

  /** The edge joins known nodes, on known evidence and hypotheses. */
  predicate EdgeFits(e: Edge, nodes: seq<string>, evidence: seq<string>, hypotheses: seq<string>) {
    && e.source in nodes && e.target in nodes
    && (forall x :: x in e.evidence ==> x in evidence) && (forall x :: x in e.hypotheses ==> x in hypotheses)
  }

  /** What an edge that does not fit is refused for: an endpoint, else evidence, else a hypothesis. */
  predicate EdgeRefused(e: Edge, nodes: seq<string>, evidence: seq<string>, error: Error) {
    error == if e.source !in nodes || e.target !in nodes then EdgeEndpoint(e.id)
             else if exists x :: x in e.evidence && x !in evidence then EdgeEvidence(e.id) else EdgeHypotheses(e.id)
  }

  predicate HypothesisFits(h: Hypothesis, nodes: seq<string>, hypotheses: seq<string>, evidence: seq<string>) {
    && (forall x :: x in h.anchors ==> x in nodes) && (forall x :: x in h.targets ==> x in nodes)
    && (forall x :: x in h.dependencies ==> x in hypotheses) && (forall x :: x in h.evidence ==> x in evidence)
  }

  /** What an added hypothesis that does not fit is refused for: an anchor, else a target, else a dependency or
      evidence, whichever the update looks at first. */
  predicate HypothesisRefused(
    h: Hypothesis, nodes: seq<string>, hypotheses: seq<string>, evidence: seq<string>, evidenceFirst: bool,
    error: Error)
  {
    var anchors := exists x :: x in h.anchors && x !in nodes;
    var targets := exists x :: x in h.targets && x !in nodes;
    var dependencies := exists x :: x in h.dependencies && x !in hypotheses;
    var unknown := exists x :: x in h.evidence && x !in evidence;
    error == if anchors then HypothesisAnchors(h.id)
             else if targets then HypothesisTargets(h.id)
             else if dependencies && !(evidenceFirst && unknown) then HypothesisDependencies(h.id)
             else HypothesisEvidence(h.id)
  }

  lemma AllInMeans(s: seq<string>, known: seq<string>)
    ensures AllIn(s, known) <==> forall x :: x in s ==> x in known
  {
    forall x | x in s && AllIn(s, known)
      ensures x in known
    {
      var i :| 0 <= i < |s| && s[i] == x;
    }
  }

  lemma EdgeIsChecked(e: Edge, nodes: seq<string>, evidence: seq<string>, hypotheses: seq<string>)
    ensures EdgeWorks(e, nodes, evidence, hypotheses) <==> EdgeFits(e, nodes, evidence, hypotheses)
    ensures var error := EdgeError(e, nodes, evidence, hypotheses);
            error.Some? ==> EdgeRefused(e, nodes, evidence, error.value)
  {
    AllInMeans(e.evidence, evidence);
    AllInMeans(e.hypotheses, hypotheses);
  }

  lemma HypothesisIsChecked(
    h: Hypothesis, nodes: seq<string>, hypotheses: seq<string>, evidence: seq<string>, evidenceFirst: bool)
    ensures HypothesisRefs(h, nodes, hypotheses, evidence) <==> HypothesisFits(h, nodes, hypotheses, evidence)
    ensures var error := HypothesisError(h, nodes, hypotheses, evidence, evidenceFirst);
            error.Some? ==> HypothesisRefused(h, nodes, hypotheses, evidence, evidenceFirst, error.value)
  {
    AllInMeans(h.anchors, nodes);
    AllInMeans(h.targets, nodes);
    AllInMeans(h.dependencies, hypotheses);
    AllInMeans(h.evidence, evidence);
  }

  /** Edges are refused for the first that does not fit. */
  lemma {:induction false} FirstBadEdge(
    es: seq<Edge>, nodes: seq<string>, evidence: seq<string>, hypotheses: seq<string>)
    returns (i: nat)
    requires EdgesError(es, nodes, evidence, hypotheses).Some?
    ensures i < |es| && !EdgeFits(es[i], nodes, evidence, hypotheses)
    ensures forall j :: 0 <= j < i ==> EdgeFits(es[j], nodes, evidence, hypotheses)
    ensures EdgeRefused(es[i], nodes, evidence, EdgesError(es, nodes, evidence, hypotheses).value)
  {
    i := |es| - 1;
    if EdgesError(es[..i], nodes, evidence, hypotheses).Some? {
      i := FirstBadEdge(es[..i], nodes, evidence, hypotheses);
    } else {
      forall j | 0 <= j < i
        ensures EdgeFits(es[j], nodes, evidence, hypotheses)
      {
        assert EdgeWorks(es[..i][j], nodes, evidence, hypotheses);
        EdgeIsChecked(es[j], nodes, evidence, hypotheses);
      }
      EdgeIsChecked(es[i], nodes, evidence, hypotheses);
    }
  }

  /** Nodes are refused for the first that does not fit. */
  lemma {:induction false} FirstBadNode(ns: seq<Node>, evidence: seq<string>) returns (i: nat)
    requires NodesError(ns, evidence).Some?
    ensures i < |ns| && (exists x :: x in ns[i].evidence && x !in evidence)
    ensures forall j :: 0 <= j < i ==> forall x :: x in ns[j].evidence ==> x in evidence
    ensures NodesError(ns, evidence) == Some(NodeEvidence(ns[i].id))
  {
    i := |ns| - 1;
    if NodesError(ns[..i], evidence).Some? {
      i := FirstBadNode(ns[..i], evidence);
    } else {
      forall j | 0 <= j < i
        ensures forall x :: x in ns[j].evidence ==> x in evidence
      {
        assert NodeRefs(ns[..i][j], evidence);
        AllInMeans(ns[j].evidence, evidence);
      }
      AllInMeans(ns[i].evidence, evidence);
    }
  }

  lemma AllFit(
    hs: seq<Hypothesis>, n: nat, nodes: seq<string>, hypotheses: seq<string>, evidence: seq<string>,
    evidenceFirst: bool)
    requires n <= |hs| && HypothesesError(hs[..n], nodes, hypotheses, evidence, evidenceFirst).None?
    ensures forall j :: 0 <= j < n ==> HypothesisFits(hs[j], nodes, hypotheses, evidence)
  {
    forall j | 0 <= j < n
      ensures HypothesisFits(hs[j], nodes, hypotheses, evidence)
    {
      assert HypothesisRefs(hs[..n][j], nodes, hypotheses, evidence);
      HypothesisIsChecked(hs[j], nodes, hypotheses, evidence, evidenceFirst);
    }
  }

  lemma LastIsBad(
    hs: seq<Hypothesis>, nodes: seq<string>, hypotheses: seq<string>, evidence: seq<string>, evidenceFirst: bool)
    requires hs != [] && HypothesesError(hs, nodes, hypotheses, evidence, evidenceFirst).Some?
    requires HypothesesError(hs[..|hs| - 1], nodes, hypotheses, evidence, evidenceFirst).None?
    ensures !HypothesisFits(hs[|hs| - 1], nodes, hypotheses, evidence)
    ensures HypothesisRefused(hs[|hs| - 1], nodes, hypotheses, evidence, evidenceFirst,
                              HypothesesError(hs, nodes, hypotheses, evidence, evidenceFirst).value)
  {
    HypothesisIsChecked(hs[|hs| - 1], nodes, hypotheses, evidence, evidenceFirst);
  }

  /** Hypotheses are refused for the first that does not fit. */
  lemma {:induction false} FirstBadHypothesis(
    hs: seq<Hypothesis>, nodes: seq<string>, hypotheses: seq<string>, evidence: seq<string>, evidenceFirst: bool)
    returns (i: nat)
    requires HypothesesError(hs, nodes, hypotheses, evidence, evidenceFirst).Some?
    ensures i < |hs| && !HypothesisFits(hs[i], nodes, hypotheses, evidence)
    ensures forall j :: 0 <= j < i ==> HypothesisFits(hs[j], nodes, hypotheses, evidence)
    ensures HypothesisRefused(hs[i], nodes, hypotheses, evidence, evidenceFirst,
                              HypothesesError(hs, nodes, hypotheses, evidence, evidenceFirst).value)
  {
    i := |hs| - 1;
    if HypothesesError(hs[..i], nodes, hypotheses, evidence, evidenceFirst).Some? {
      i := FirstBadHypothesis(hs[..i], nodes, hypotheses, evidence, evidenceFirst);
    } else {
      AllFit(hs, i, nodes, hypotheses, evidence, evidenceFirst);
      LastIsBad(hs, nodes, hypotheses, evidence, evidenceFirst);
    }
  }

  /** Some text is in both lists. */
  predicate Meets(s: seq<string>, t: seq<string>) {
    exists x :: x in s && x in t
  }

  lemma MeetsIsNotDisjoint(s: seq<string>, t: seq<string>)
    ensures Meets(s, t) <==> !Disjoint(s, t)
  {
    if x :| x in s && x in t {
      var i :| 0 <= i < |s| && s[i] == x;
    }
  }

  /** The reason an observation about a known hypothesis is refused before its references are looked at. */
  ghost function Objection(e: Episode, o: Observation, h: Hypothesis): Option<Error> {
    if exists a :: a in e.attempts && a.observation == o.id then Some(AlreadyApplied)
    else if o.revision != h.revision then Some(StaleRevision)
    else if !(-0.000000001 <= o.cost - h.probe.cost <= 0.000000001) then Some(CostMismatch)
    else if e.budget.usedAttempts >= e.budget.maxAttempts || e.budget.usedIterations >= e.budget.maxIterations
            || e.budget.usedCost + o.cost > e.budget.maxCost then Some(OverBudget)
    else if Meets(EvidenceIds(o.evidence), EvidenceIds(e.evidence)) then Some(DuplicateEvidence)
    else if Meets(NodeIds(o.nodes), NodeIds(e.surface.nodes)) then Some(DuplicateNodes)
    else if Meets(EdgeIds(o.edges), EdgeIds(e.surface.edges)) then Some(DuplicateEdges)
    else if Meets(HypothesisIds(o.adjacent), HypothesisIds(e.hypotheses)) then Some(DuplicateHypotheses)
    else None
  }

  lemma AppliedBefore(attempts: seq<Attempt>, id: string)
    ensures id in ObservationIds(attempts) <==> exists a :: a in attempts && a.observation == id
  {
    if id in ObservationIds(attempts) {
      var i :| 0 <= i < |attempts| && ObservationIds(attempts)[i] == id;
      assert attempts[i] in attempts;
    }
    forall a | a in attempts && a.observation == id
      ensures id in ObservationIds(attempts)
    {
      var i :| 0 <= i < |attempts| && attempts[i] == a;
      assert ObservationIds(attempts)[i] == id;
    }
  }

  /** An observation is refused for the first thing that is wrong with it. When nothing is wrong with it alone, its
      edges, then its nodes, then its adjacent hypotheses are checked, against everything old and new. */
  lemma ObservationIsChecked(e: Episode, o: Observation, at: nat)
    requires Unique(HypothesisIds(e.hypotheses)) && at < |e.hypotheses| && e.hypotheses[at].id == o.hypothesis
    ensures var evidence := EvidenceIds(e.evidence) + EvidenceIds(o.evidence);
            var nodes := NodeIds(e.surface.nodes) + NodeIds(o.nodes);
            var hypotheses := HypothesisIds(e.hypotheses) + HypothesisIds(o.adjacent);
            var objection := Objection(e, o, e.hypotheses[at]);
            ObservationError(e, o)
            == if objection.Some? then objection
               else if EdgesError(o.edges, nodes, evidence, hypotheses).Some?
               then EdgesError(o.edges, nodes, evidence, hypotheses)
               else if NodesError(o.nodes, evidence).Some? then NodesError(o.nodes, evidence)
               else HypothesesError(o.adjacent, nodes, hypotheses, evidence, false)
  {
    LocateUnique(e.hypotheses, at);
    AppliedBefore(e.attempts, o.id);
    MeetsIsNotDisjoint(EvidenceIds(o.evidence), EvidenceIds(e.evidence));
    MeetsIsNotDisjoint(NodeIds(o.nodes), NodeIds(e.surface.nodes));
    MeetsIsNotDisjoint(EdgeIds(o.edges), EdgeIds(e.surface.edges));
    MeetsIsNotDisjoint(HypothesisIds(o.adjacent), HypothesisIds(e.hypotheses));
  }

  lemma NamedMeans(hs: seq<Hypothesis>, id: string)
    ensures id in HypothesisIds(hs) <==> exists h :: h in hs && h.id == id
  {
    if id in HypothesisIds(hs) {
      var i :| 0 <= i < |hs| && HypothesisIds(hs)[i] == id;
      assert hs[i] in hs;
    }
    forall h | h in hs && h.id == id
      ensures id in HypothesisIds(hs)
    {
      var i :| 0 <= i < |hs| && hs[i] == h;
      assert HypothesisIds(hs)[i] == id;
    }
  }

  /** An observation about nobody is refused, unless it was applied before. */
  lemma StrangerIsRefused(e: Episode, o: Observation)
    requires forall h :: h in e.hypotheses ==> h.id != o.hypothesis
    ensures ObservationError(e, o)
         == Some(if exists a :: a in e.attempts && a.observation == o.id then AlreadyApplied else UnknownHypothesis)
  {
    AppliedBefore(e.attempts, o.id);
    NamedMeans(e.hypotheses, o.hypothesis);
  }

  // ---- expansions --------------------------------------------------------------------------

  /** An applied batch: its hypotheses follow the old ones, and its record says where it came from. */
  lemma ExpansionTakesEffect(e: Episode, b: Batch, digest: string, expansionId: string, u: Episode)
    requires ApplyExpansion(e, b, digest, expansionId) == Ok(u)
    ensures u.hypotheses == e.hypotheses + b.hypotheses && u.updatedAt == b.generatedAt
    ensures |u.expansions| == |e.expansions| + 1 && e.expansions < u.expansions
    ensures var x := u.expansions[|e.expansions|];
            && x.id == expansionId && x.generator == b.generator && x.trigger == b.trigger
            && x.baseDigest == digest && x.rationale == b.rationale && x.appliedAt == b.generatedAt
            && |x.hypotheses| == |b.hypotheses|
            && forall i :: 0 <= i < |b.hypotheses| ==> x.hypotheses[i] == b.hypotheses[i].id
    ensures u == e.(hypotheses := u.hypotheses, expansions := u.expansions, updatedAt := u.updatedAt)
  {
  }

  /** A batch is refused for the first thing that is wrong with it: the episode it was made for, its digest, its time,
      a batch or hypothesis seen before, or the references of its hypotheses. */
  lemma BatchIsChecked(e: Episode, b: Batch, digest: string, expansionId: string)
    ensures var nodes, evidence := NodeIds(e.surface.nodes), EvidenceIds(e.evidence);
            var hypotheses := HypothesisIds(e.hypotheses) + HypothesisIds(b.hypotheses);
            ExpansionError(e, b, digest, expansionId)
            == if b.episode != e.id then Some(WrongEpisode)
               else if b.baseDigest != digest then Some(StaleDigest)
               else if b.generatedAt < e.updatedAt then Some(TooEarly)
               else if exists x :: x in e.expansions && x.id == expansionId then Some(AlreadyApplied)
               else if Meets(HypothesisIds(b.hypotheses), HypothesisIds(e.hypotheses)) then Some(DuplicateHypotheses)
               else HypothesesError(b.hypotheses, nodes, hypotheses, evidence, true)
  {
    MeetsIsNotDisjoint(HypothesisIds(b.hypotheses), HypothesisIds(e.hypotheses));
    ExpandedBefore(e.expansions, expansionId);
  }

  lemma ExpandedBefore(xs: seq<ExpansionRecord>, id: string)
    ensures id in ExpansionIds(xs) <==> exists x :: x in xs && x.id == id
  {
    if id in ExpansionIds(xs) {
      var i :| 0 <= i < |xs| && ExpansionIds(xs)[i] == id;
      assert xs[i] in xs;
    }
    forall x | x in xs && x.id == id
      ensures id in ExpansionIds(xs)
    {
      var i :| 0 <= i < |xs| && xs[i] == x;
      assert ExpansionIds(xs)[i] == id;
    }
  }

  // ---- valid manifests ---------------------------------------------------------------------

  /** No two of anything share an id, and no two attempts an observation. */
  ghost predicate AllApart(e: Episode) {
    && (forall i, j :: 0 <= i < j < |e.evidence| ==> e.evidence[i].id != e.evidence[j].id)
    && (forall i, j :: 0 <= i < j < |e.surface.nodes| ==> e.surface.nodes[i].id != e.surface.nodes[j].id)
    && (forall i, j :: 0 <= i < j < |e.surface.edges| ==> e.surface.edges[i].id != e.surface.edges[j].id)
    && (forall i, j :: 0 <= i < j < |e.hypotheses| ==> e.hypotheses[i].id != e.hypotheses[j].id)
    && (forall i, j :: 0 <= i < j < |e.attempts| ==> e.attempts[i].id != e.attempts[j].id)
    && (forall i, j :: 0 <= i < j < |e.attempts| ==> e.attempts[i].observation != e.attempts[j].observation)
    && (forall i, j :: 0 <= i < j < |e.expansions| ==> e.expansions[i].id != e.expansions[j].id)
  }

  /** Everything named by a node, an edge, a hypothesis, an attempt or an expansion is there. */
  ghost predicate AllFound(e: Episode) {
    var nodes, evidence := NodeIds(e.surface.nodes), EvidenceIds(e.evidence);
    var hypotheses := HypothesisIds(e.hypotheses);
    && (forall i :: 0 <= i < |e.surface.nodes| ==> forall x :: x in e.surface.nodes[i].evidence ==> x in evidence)
    && (forall i :: 0 <= i < |e.surface.edges| ==> EdgeFits(e.surface.edges[i], nodes, evidence, hypotheses))
    && (forall i :: 0 <= i < |e.hypotheses| ==> HypothesisFits(e.hypotheses[i], nodes, hypotheses, evidence))
    && (forall i :: 0 <= i < |e.attempts| ==>
          e.attempts[i].hypothesis in hypotheses && forall x :: x in e.attempts[i].evidence ==> x in evidence)
    && (forall i :: 0 <= i < |e.expansions| ==> forall x :: x in e.expansions[i].hypotheses ==> x in hypotheses)
  }

  lemma ApartMeans(e: Episode)
    ensures AllApart(e) <==> IdsUnique(e) && Unique(NodeIds(e.surface.nodes)) && Unique(EdgeIds(e.surface.edges))
  {
  }

  lemma FoundMeans(e: Episode)
    ensures AllFound(e) <==>
              References(e) && forall i :: 0 <= i < |e.surface.edges| ==>
                EdgeEnds(e.surface.edges[i], NodeIds(e.surface.nodes))
  {
    var nodes, evidence := NodeIds(e.surface.nodes), EvidenceIds(e.evidence);
    var hypotheses := HypothesisIds(e.hypotheses);
    forall i | 0 <= i < |e.surface.nodes|
      ensures NodeRefs(e.surface.nodes[i], evidence) <==> forall x :: x in e.surface.nodes[i].evidence ==> x in evidence
    {
      AllInMeans(e.surface.nodes[i].evidence, evidence);
    }
    forall i | 0 <= i < |e.surface.edges|
      ensures EdgeFits(e.surface.edges[i], nodes, evidence, hypotheses) <==>
                EdgeEnds(e.surface.edges[i], nodes) && EdgeRefs(e.surface.edges[i], evidence, hypotheses)
    {
      EdgeIsChecked(e.surface.edges[i], nodes, evidence, hypotheses);
    }
    HypothesesFound(e, nodes, hypotheses, evidence);
    HistoryFound(e, hypotheses, evidence);
  }

  lemma HypothesesFound(e: Episode, nodes: seq<string>, hypotheses: seq<string>, evidence: seq<string>)
    ensures forall i :: 0 <= i < |e.hypotheses| ==>
              (HypothesisRefs(e.hypotheses[i], nodes, hypotheses, evidence)
               <==> HypothesisFits(e.hypotheses[i], nodes, hypotheses, evidence))
  {
    forall i | 0 <= i < |e.hypotheses|
      ensures HypothesisRefs(e.hypotheses[i], nodes, hypotheses, evidence)
         <==> HypothesisFits(e.hypotheses[i], nodes, hypotheses, evidence)
    {
      HypothesisIsChecked(e.hypotheses[i], nodes, hypotheses, evidence, false);
    }
  }

  lemma HistoryFound(e: Episode, hypotheses: seq<string>, evidence: seq<string>)
    ensures forall i :: 0 <= i < |e.attempts| ==>
              (AttemptRefs(e.attempts[i], hypotheses, evidence)
               <==> e.attempts[i].hypothesis in hypotheses && forall x :: x in e.attempts[i].evidence ==> x in evidence)
    ensures forall i :: 0 <= i < |e.expansions| ==>
              (AllIn(e.expansions[i].hypotheses, hypotheses)
               <==> forall x :: x in e.expansions[i].hypotheses ==> x in hypotheses)
  {
    forall i | 0 <= i < |e.attempts|
      ensures AttemptRefs(e.attempts[i], hypotheses, evidence)
         <==> e.attempts[i].hypothesis in hypotheses && forall x :: x in e.attempts[i].evidence ==> x in evidence
    {
      AllInMeans(e.attempts[i].evidence, evidence);
    }
    forall i | 0 <= i < |e.expansions|
      ensures AllIn(e.expansions[i].hypotheses, hypotheses)
         <==> forall x :: x in e.expansions[i].hypotheses ==> x in hypotheses
    {
      AllInMeans(e.expansions[i].hypotheses, hypotheses);
    }
  }

  /** Each hypothesis, attempt and expansion has what its type demands, and no list names anything twice. */
  ghost predicate AllWellFormed(e: Episode) {
    && (forall i :: 0 <= i < |e.hypotheses| ==>
          var h := e.hypotheses[i];
          && h.revision >= 1 && h.attemptLimit >= 1 && h.probe.cost > 0.0 && |h.anchors| > 0 && h.id !in h.dependencies
          && Unique(h.anchors) && Unique(h.targets) && Unique(h.dependencies) && Unique(h.blockers)
          && Unique(h.evidence))
    && (forall i :: 0 <= i < |e.attempts| ==>
          var a := e.attempts[i];
          && a.startedAt <= a.finishedAt && a.graphBefore <= a.graphAfter && a.cost > 0.0
          && Unique(a.newNodes) && Unique(a.newEdges) && Unique(a.evidence))
    && (forall i :: 0 <= i < |e.expansions| ==>
          var x := e.expansions[i];
          |x.hypotheses| > 0 && |x.rationale| > 0 && Unique(x.hypotheses) && Unique(x.rationale))
    && (forall i :: 0 <= i < |e.surface.nodes| ==> Unique(e.surface.nodes[i].evidence))
    && (forall i :: 0 <= i < |e.surface.edges| ==>
          Unique(e.surface.edges[i].evidence) && Unique(e.surface.edges[i].hypotheses))
  }

  /** The hypothesis `d` is one that the hypothesis `x` depends on. */
  ghost predicate DependsOn(e: Episode, x: string, d: string) {
    exists i :: 0 <= i < |e.hypotheses| && e.hypotheses[i].id == x && d in e.hypotheses[i].dependencies
  }

  /** Hypotheses, each depending on the next, that lead back to where they began. */
  ghost predicate DependencyCycle(e: Episode, path: seq<string>) {
    && |path| >= 2 && path[0] == path[|path| - 1]
    && forall i :: 0 <= i < |path| - 1 ==> DependsOn(e, path[i], path[i + 1])
  }

  lemma DependsMeans(e: Episode, x: string, d: string)
    requires Unique(HypothesisIds(e.hypotheses))
    ensures DependsOn(e, x, d) <==> x in Dependencies(e.hypotheses) && d in Dependencies(e.hypotheses)[x]
  {
    if x in HypothesisIds(e.hypotheses) {
      LocateUnique(e.hypotheses, Locate(e.hypotheses, x).value);
    }
    forall i | 0 <= i < |e.hypotheses| && e.hypotheses[i].id == x
      ensures Locate(e.hypotheses, x) == Some(i)
    {
      LocateUnique(e.hypotheses, i);
    }
  }

  lemma CycleMeans(e: Episode, path: seq<string>)
    requires Unique(HypothesisIds(e.hypotheses))
    ensures DependencyCycle(e, path) <==> IsCycle(Dependencies(e.hypotheses), path)
  {
    forall i | 0 <= i < |path| - 1
      ensures DependsOn(e, path[i], path[i + 1])
         <==> path[i] in Dependencies(e.hypotheses) && path[i + 1] in Dependencies(e.hypotheses)[path[i]]
    {
      DependsMeans(e, path[i], path[i + 1]);
    }
    forall i | 0 <= i < |path| && DependencyCycle(e, path)
      ensures path[i] in Dependencies(e.hypotheses)
    {
      var j := if i == |path| - 1 then 0 else i;
      assert DependsOn(e, path[j], path[j + 1]);
    }
    var g := Dependencies(e.hypotheses);
    forall i | 0 <= i < |path| - 1 && IsCycle(g, path)
      ensures DependsOn(e, path[i], path[i + 1])
    {
      assert path[i] in g && path[i + 1] in g[path[i]];
    }
  }

  /** A manifest is valid exactly if everything in it is well formed and apart, everything it names is there, it was not
      updated before it was created, and no hypothesis depends on itself by way of others. */
  lemma ValidMeans(e: Episode)
    ensures ValidEpisode(e) <==>
              && AllWellFormed(e) && AllApart(e) && AllFound(e) && e.createdAt <= e.updatedAt
              && !exists path :: DependencyCycle(e, path)
  {
    ApartMeans(e);
    FoundMeans(e);
    if AllApart(e) {
      forall path
        ensures DependencyCycle(e, path) <==> IsCycle(Dependencies(e.hypotheses), path)
      {
        CycleMeans(e, path);
      }
    }
  }
}
