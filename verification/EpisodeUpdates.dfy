/** The two ways an episode grows: a normalized observation and a frontier expansion. Each is a list of
    explicit checks, an update of a copy, and a final validation of the whole manifest. */
module EpisodeUpdates {
  import opened DependencyGraph
  import opened EpisodeModel
  import opened Results

  datatype Observation = Observation(
    id: string, hypothesis: string, revision: nat, outcome: Outcome, progress: real, conclusive: bool,
    evidence: seq<Evidence>, nodes: seq<Node>, edges: seq<Edge>, adjacent: seq<Hypothesis>,
    cost: real, startedAt: int, observedAt: int)

  datatype Batch = Batch(
    generator: string, episode: string, baseDigest: string, trigger: Trigger,
    hypotheses: seq<Hypothesis>, rationale: seq<string>, generatedAt: int)

  /** What a typed observation already satisfies. */
  predicate ObservationOk(o: Observation) {
    && o.startedAt <= o.observedAt && o.cost > 0.0
    && Unique(EvidenceIds(o.evidence)) && Unique(NodeIds(o.nodes))
    && Unique(EdgeIds(o.edges)) && Unique(HypothesisIds(o.adjacent))
    && (forall i :: 0 <= i < |o.nodes| ==> NodeOk(o.nodes[i]))
    && (forall i :: 0 <= i < |o.edges| ==> EdgeOk(o.edges[i]))
    && (forall i :: 0 <= i < |o.adjacent| ==> HypothesisOk(o.adjacent[i]))
  }

  predicate BatchOk(b: Batch) {
    && b.hypotheses != [] && b.rationale != []
    && Unique(HypothesisIds(b.hypotheses)) && Unique(b.rationale)
    && (forall i :: 0 <= i < |b.hypotheses| ==> HypothesisOk(b.hypotheses[i]))
  }

  datatype Error =
    | AlreadyApplied | UnknownHypothesis | StaleRevision | CostMismatch | OverBudget
    | DuplicateEvidence | DuplicateNodes | DuplicateEdges | DuplicateHypotheses
    | EdgeEndpoint(id: string) | EdgeEvidence(id: string) | EdgeHypotheses(id: string) | NodeEvidence(id: string)
    | HypothesisAnchors(id: string) | HypothesisTargets(id: string)
    | HypothesisDependencies(id: string) | HypothesisEvidence(id: string)
    | WrongEpisode | StaleDigest | TooEarly
    | InvalidManifest

  // ---- observations ------------------------------------------------------------------------

  const COST_TOLERANCE := 0.000000001

  function Distance(a: real, b: real): real {
    if a >= b then a - b else b - a
  }

  predicate EdgeWorks(e: Edge, nodes: seq<string>, evidence: seq<string>, hypotheses: seq<string>) {
    EdgeEnds(e, nodes) && EdgeRefs(e, evidence, hypotheses)
  }

  function EdgeError(e: Edge, nodes: seq<string>, evidence: seq<string>, hypotheses: seq<string>): (r: Option<Error>)
    ensures r.None? <==> EdgeWorks(e, nodes, evidence, hypotheses)
  {
    if !EdgeEnds(e, nodes) then Some(EdgeEndpoint(e.id))
    else if !AllIn(e.evidence, evidence) then Some(EdgeEvidence(e.id))
    else if !AllIn(e.hypotheses, hypotheses) then Some(EdgeHypotheses(e.id))
    else None
  }

  /** The error of the first bad edge. */
  function EdgesError(es: seq<Edge>, nodes: seq<string>, evidence: seq<string>,
      hypotheses: seq<string>): (r: Option<Error>)
    ensures r.None? <==> forall i :: 0 <= i < |es| ==> EdgeWorks(es[i], nodes, evidence, hypotheses)
  {
    if es == [] then None
    else
      var before := EdgesError(es[..|es| - 1], nodes, evidence, hypotheses);
      if before.Some? then before else EdgeError(es[|es| - 1], nodes, evidence, hypotheses)
  }

  function NodesError(ns: seq<Node>, evidence: seq<string>): (r: Option<Error>)
    ensures r.None? <==> forall i :: 0 <= i < |ns| ==> NodeRefs(ns[i], evidence)
  {
    if ns == [] then None
    else
      var before := NodesError(ns[..|ns| - 1], evidence);
      if before.Some? then before
      else if !NodeRefs(ns[|ns| - 1], evidence) then Some(NodeEvidence(ns[|ns| - 1].id)) else None
  }

  /** The checks of an added hypothesis; an expansion looks at evidence before dependencies. */
  function HypothesisError(
    h: Hypothesis, nodes: seq<string>, hypotheses: seq<string>, evidence: seq<string>,
    evidenceFirst: bool): (r: Option<Error>)
    ensures r.None? <==> HypothesisRefs(h, nodes, hypotheses, evidence)
  {
    if !AllIn(h.anchors, nodes) then Some(HypothesisAnchors(h.id))
    else if !AllIn(h.targets, nodes) then Some(HypothesisTargets(h.id))
    else if evidenceFirst && !AllIn(h.evidence, evidence) then Some(HypothesisEvidence(h.id))
    else if !AllIn(h.dependencies, hypotheses) then Some(HypothesisDependencies(h.id))
    else if !AllIn(h.evidence, evidence) then Some(HypothesisEvidence(h.id))
    else None
  }

  function HypothesesError(
    hs: seq<Hypothesis>, nodes: seq<string>, hypotheses: seq<string>, evidence: seq<string>, evidenceFirst: bool)
    : (r: Option<Error>)
    ensures r.None? <==> forall i :: 0 <= i < |hs| ==> HypothesisRefs(hs[i], nodes, hypotheses, evidence)
  {
    if hs == [] then None
    else
      var before := HypothesesError(hs[..|hs| - 1], nodes, hypotheses, evidence, evidenceFirst);
      if before.Some? then before
      else HypothesisError(hs[|hs| - 1], nodes, hypotheses, evidence, evidenceFirst)
  }

  /** The explicit checks of `apply_observation`, in their order. */
  function ObservationError(e: Episode, o: Observation): Option<Error> {
    var evidence := EvidenceIds(e.evidence) + EvidenceIds(o.evidence);
    var nodes := NodeIds(e.surface.nodes) + NodeIds(o.nodes);
    var hypotheses := HypothesisIds(e.hypotheses) + HypothesisIds(o.adjacent);
    var at := Locate(e.hypotheses, o.hypothesis);
    if o.id in ObservationIds(e.attempts) then Some(AlreadyApplied)
    else if at.None? then Some(UnknownHypothesis)
    else if o.revision != e.hypotheses[at.value].revision then Some(StaleRevision)
    else if Distance(o.cost, e.hypotheses[at.value].probe.cost) > COST_TOLERANCE then Some(CostMismatch)
    else if !CanAfford(e.budget, o.cost) then Some(OverBudget)
    else if !Disjoint(EvidenceIds(o.evidence), EvidenceIds(e.evidence)) then Some(DuplicateEvidence)
    else if !Disjoint(NodeIds(o.nodes), NodeIds(e.surface.nodes)) then Some(DuplicateNodes)
    else if !Disjoint(EdgeIds(o.edges), EdgeIds(e.surface.edges)) then Some(DuplicateEdges)
    else if !Disjoint(HypothesisIds(o.adjacent), HypothesisIds(e.hypotheses)) then Some(DuplicateHypotheses)
    else
      var edges := EdgesError(o.edges, nodes, evidence, hypotheses);
      if edges.Some? then edges
      else
        var nodesError := NodesError(o.nodes, evidence);
        if nodesError.Some? then nodesError
        else HypothesesError(o.adjacent, nodes, hypotheses, evidence, false)
  }

  function StatusAfter(o: Observation): Status {
    match o.outcome
    case OutBlocked => Blocked
    case OutNegative => if o.conclusive then Refuted else Inconclusive
    case OutSucceeded => if o.conclusive then Supported else Testing
    case OutInconclusive => Inconclusive
    case OutFailed => Testing
  }

  /** `list(dict.fromkeys(s))` */
  function Deduped(s: seq<string>): (t: seq<string>)
    ensures Unique(t) && forall x :: x in t <==> x in s
  {
    if s == [] then []
    else
      var t := Deduped(s[..|s| - 1]);
      assert s == s[..|s| - 1] + [s[|s| - 1]];
      if s[|s| - 1] in t then t else t + [s[|s| - 1]]
  }

  function Grown(s: Surface, nodes: seq<Node>, edges: seq<Edge>): Surface {
    Surface(if nodes != [] || edges != [] then s.revision + 1 else s.revision, s.nodes + nodes, s.edges + edges)
  }

  function AttemptOf(e: Episode, o: Observation, h: Hypothesis, attemptId: string): Attempt {
    Attempt(attemptId, o.id, o.hypothesis, o.revision, DigestOf(h.probe), o.outcome, o.progress,
            NodeIds(o.nodes), EdgeIds(o.edges), EvidenceIds(o.evidence),
            e.surface.revision, Grown(e.surface, o.nodes, o.edges).revision, o.cost, o.startedAt, o.observedAt)
  }

  /** The selected hypothesis after the observation. */
  function Revised(h: Hypothesis, o: Observation): Hypothesis {
    h.(evidence := Deduped(h.evidence + EvidenceIds(o.evidence)), status := StatusAfter(o))
  }

  function Spent(b: Budget, cost: real): Budget {
    b.(usedAttempts := b.usedAttempts + 1, usedIterations := b.usedIterations + 1, usedCost := b.usedCost + cost)
  }

  /** The updated copy, before the final validation. The attempt id is a truncated hash of the attempt. */
  function Observed(e: Episode, o: Observation, attemptId: string): Episode
    requires o.hypothesis in HypothesisIds(e.hypotheses)
  {
    var at := Locate(e.hypotheses, o.hypothesis).value;
    e.(surface := Grown(e.surface, o.nodes, o.edges),
       evidence := e.evidence + o.evidence,
       hypotheses := e.hypotheses[at := Revised(e.hypotheses[at], o)] + o.adjacent,
       attempts := e.attempts + [AttemptOf(e, o, e.hypotheses[at], attemptId)],
       budget := Spent(e.budget, o.cost),
       updatedAt := o.observedAt)
  }

  ghost function ApplyObservation(e: Episode, o: Observation, attemptId: string): Result<Episode, Error> {
    var error := ObservationError(e, o);
    if error.Some? then Err(error.value)
    else if !ValidEpisode(Observed(e, o, attemptId)) then Err(InvalidManifest)
    else Ok(Observed(e, o, attemptId))
  }

  // ---- expansions --------------------------------------------------------------------------

  function ExpansionError(e: Episode, b: Batch, digest: string, expansionId: string): Option<Error> {
    if b.episode != e.id then Some(WrongEpisode)
    else if b.baseDigest != digest then Some(StaleDigest)
    else if b.generatedAt < e.updatedAt then Some(TooEarly)
    else if expansionId in ExpansionIds(e.expansions) then Some(AlreadyApplied)
    else if !Disjoint(HypothesisIds(b.hypotheses), HypothesisIds(e.hypotheses)) then Some(DuplicateHypotheses)
    else HypothesesError(b.hypotheses, NodeIds(e.surface.nodes),
                         HypothesisIds(e.hypotheses) + HypothesisIds(b.hypotheses), EvidenceIds(e.evidence), true)
  }

  function RecordOf(b: Batch, expansionId: string): ExpansionRecord {
    ExpansionRecord(expansionId, b.generator, b.trigger, b.baseDigest, HypothesisIds(b.hypotheses), b.rationale,
      b.generatedAt)
  }

  function Expanded(e: Episode, b: Batch, expansionId: string): Episode {
    e.(hypotheses := e.hypotheses + b.hypotheses,
       expansions := e.expansions + [RecordOf(b, expansionId)],
       updatedAt := b.generatedAt)
  }

  /** `digest` is the digest of the episode as it stands, `expansionId` the digest of the batch. */
  ghost function ApplyExpansion(e: Episode, b: Batch, digest: string, expansionId: string): Result<Episode, Error> {
    var error := ExpansionError(e, b, digest, expansionId);
    if error.Some? then Err(error.value)
    else if !ValidEpisode(Expanded(e, b, expansionId)) then Err(InvalidManifest)
    else Ok(Expanded(e, b, expansionId))
  }

  // ---- the explicit checks leave little to the final validation ----------------------------

  lemma Joined(s: seq<string>, t: seq<string>)
    requires Unique(s) && Unique(t) && Disjoint(t, s)
    ensures Unique(s + t)
  {
    forall i, j | 0 <= i < j < |s + t|
      ensures (s + t)[i] != (s + t)[j]
    {
      if i < |s| <= j {
        assert t[j - |s|] !in s;
      }
    }
  }

  lemma StillIn(s: seq<string>, known: seq<string>, more: seq<string>)
    requires AllIn(s, known)
    ensures AllIn(s, known + more)
  {
    forall i | 0 <= i < |s|
      ensures s[i] in known + more
    {
      assert s[i] in known;
    }
  }

  lemma SamePlace(ids: seq<string>, i: nat, j: nat)
    requires Unique(ids) && i < |ids| && j < |ids| && ids[i] == ids[j]
    ensures i == j
  {
  }

  lemma IsListed(hs: seq<Hypothesis>, i: nat)
    requires i < |hs|
    ensures hs[i].id in HypothesisIds(hs)
  {
    assert HypothesisIds(hs)[i] == hs[i].id;
  }

  lemma LocateUnique(hs: seq<Hypothesis>, i: nat)
    requires Unique(HypothesisIds(hs)) && i < |hs|
    ensures Locate(hs, hs[i].id) == Some(i)
  {
    IsListed(hs, i);
    SamePlace(HypothesisIds(hs), i, Locate(hs, hs[i].id).value);
  }

  /** Two lists of hypotheses with the same ids and dependencies have the same dependency graph. */
  ghost predicate SameShape(hs: seq<Hypothesis>, later: seq<Hypothesis>) {
    |later| == |hs|
    && forall i :: 0 <= i < |hs| ==> later[i].id == hs[i].id && later[i].dependencies == hs[i].dependencies
  }

  lemma {:induction false} SameLocation(hs: seq<Hypothesis>, later: seq<Hypothesis>, id: string)
    requires SameShape(hs, later)
    ensures Locate(later, id) == Locate(hs, id)
  {
    if hs != [] {
      SameLocation(hs[..|hs| - 1], later[..|later| - 1], id);
    }
  }

  lemma SameDependencies(hs: seq<Hypothesis>, later: seq<Hypothesis>)
    requires SameShape(hs, later)
    ensures Dependencies(later) == Dependencies(hs)
  {
    assert HypothesisIds(later) == HypothesisIds(hs);
    forall id | id in HypothesisIds(hs)
      ensures Dependencies(later)[id] == Dependencies(hs)[id]
    {
      SameLocation(hs, later, id);
    }
  }

  lemma AddedIdsAreOthers(hs: seq<Hypothesis>, added: seq<Hypothesis>, i: nat)
    requires Unique(HypothesisIds(hs + added)) && i < |hs|
    ensures hs[i].id !in HypothesisIds(added)
  {
    var ids := HypothesisIds(hs + added);
    forall j | 0 <= j < |added|
      ensures HypothesisIds(added)[j] != hs[i].id
    {
      assert ids[i] != ids[|hs| + j];
    }
  }

  /** Appending hypotheses with new ids leaves the dependencies of the others alone. */
  lemma DependenciesGrow(hs: seq<Hypothesis>, added: seq<Hypothesis>, id: string)
    requires Unique(HypothesisIds(hs + added)) && id in HypothesisIds(hs)
    ensures id in Dependencies(hs + added) && Dependencies(hs + added)[id] == Dependencies(hs)[id]
    ensures id !in HypothesisIds(added)
  {
    var i := Locate(hs, id).value;
    AddedIdsAreOthers(hs, added, i);
    LocateUnique(hs + added, i);
  }

  lemma AppendedIds(hs: seq<Hypothesis>, added: seq<Hypothesis>)
    ensures HypothesisIds(hs + added) == HypothesisIds(hs) + HypothesisIds(added)
  {
  }

  /** The dependencies among added hypotheses only. */
  function AddedDependencies(hs: seq<Hypothesis>, added: seq<Hypothesis>): Graph {
    Restrict(Dependencies(hs + added), set id | id in HypothesisIds(added))
  }

  lemma CyclesAreAmong(hs: seq<Hypothesis>, added: seq<Hypothesis>)
    requires Unique(HypothesisIds(hs + added)) && Closed(Dependencies(hs)) && Acyclic(Dependencies(hs))
    ensures Acyclic(Dependencies(hs + added)) <==> Acyclic(AddedDependencies(hs, added))
  {
    var base, g := Dependencies(hs), Dependencies(hs + added);
    AppendedIds(hs, added);
    forall id | id in base
      ensures id in g && g[id] == base[id] && id !in HypothesisIds(added)
    {
      DependenciesGrow(hs, added, id);
    }
    assert g.Keys - base.Keys == set id | id in HypothesisIds(added);
    CyclesLieInAddedNodes(base, g);
  }

  lemma DependenciesAreClosed(e: Episode)
    requires ValidEpisode(e)
    ensures Closed(Dependencies(e.hypotheses))
  {
  }

  /** Added hypotheses can close a dependency cycle only among themselves. */
  lemma CyclesAreAmongAdded(e: Episode, added: seq<Hypothesis>)
    requires ValidEpisode(e) && Unique(HypothesisIds(e.hypotheses + added))
    ensures Acyclic(Dependencies(e.hypotheses + added)) <==> Acyclic(AddedDependencies(e.hypotheses, added))
  {
    DependenciesAreClosed(e);
    CyclesAreAmong(e.hypotheses, added);
  }

  lemma ObservedIds(e: Episode, o: Observation, attemptId: string)
    requires o.hypothesis in HypothesisIds(e.hypotheses)
    ensures var u := Observed(e, o, attemptId);
            && EvidenceIds(u.evidence) == EvidenceIds(e.evidence) + EvidenceIds(o.evidence)
            && NodeIds(u.surface.nodes) == NodeIds(e.surface.nodes) + NodeIds(o.nodes)
            && EdgeIds(u.surface.edges) == EdgeIds(e.surface.edges) + EdgeIds(o.edges)
            && HypothesisIds(u.hypotheses) == HypothesisIds(e.hypotheses) + HypothesisIds(o.adjacent)
            && AttemptIds(u.attempts) == AttemptIds(e.attempts) + [attemptId]
            && ObservationIds(u.attempts) == ObservationIds(e.attempts) + [o.id]
            && ExpansionIds(u.expansions) == ExpansionIds(e.expansions)
  {
  }

  lemma ObservedComponents(e: Episode, o: Observation, attemptId: string)
    requires ValidEpisode(e) && ObservationOk(o) && o.hypothesis in HypothesisIds(e.hypotheses)
    ensures ComponentsOk(Observed(e, o, attemptId))
  {
    assert forall i :: 0 <= i < |e.hypotheses| ==> HypothesisOk(e.hypotheses[i]);
  }

  lemma JoinedIffNew(s: seq<string>, x: string)
    requires Unique(s)
    ensures Unique(s + [x]) <==> x !in s
  {
    if x in s {
      var i :| 0 <= i < |s| && s[i] == x;
      assert (s + [x])[i] == (s + [x])[|s|];
    } else {
      Joined(s, [x]);
    }
  }

  lemma ObservedIdsUnique(e: Episode, o: Observation, attemptId: string)
    requires ValidEpisode(e) && ObservationOk(o) && ObservationError(e, o).None?
    ensures var u := Observed(e, o, attemptId);
            && Unique(EvidenceIds(u.evidence)) && Unique(NodeIds(u.surface.nodes)) && Unique(EdgeIds(u.surface.edges))
            && Unique(HypothesisIds(u.hypotheses)) && Unique(ObservationIds(u.attempts))
            && (Unique(AttemptIds(u.attempts)) <==> attemptId !in AttemptIds(e.attempts))
  {
    ObservedIds(e, o, attemptId);
    Joined(EvidenceIds(e.evidence), EvidenceIds(o.evidence));
    Joined(NodeIds(e.surface.nodes), NodeIds(o.nodes));
    Joined(EdgeIds(e.surface.edges), EdgeIds(o.edges));
    Joined(HypothesisIds(e.hypotheses), HypothesisIds(o.adjacent));
    JoinedIffNew(ObservationIds(e.attempts), o.id);
    JoinedIffNew(AttemptIds(e.attempts), attemptId);
  }

  lemma ObservedSurface(e: Episode, o: Observation, attemptId: string)
    requires ValidEpisode(e) && ObservationOk(o) && ObservationError(e, o).None?
    ensures SurfaceOk(Observed(e, o, attemptId).surface)
  {
    var u := Observed(e, o, attemptId);
    ObservedIds(e, o, attemptId);
    ObservedIdsUnique(e, o, attemptId);
    forall i | 0 <= i < |u.surface.edges|
      ensures EdgeEnds(u.surface.edges[i], NodeIds(u.surface.nodes))
    {
      if i < |e.surface.edges| {
        assert EdgeEnds(e.surface.edges[i], NodeIds(e.surface.nodes));
      } else {
        assert EdgeWorks(o.edges[i - |e.surface.edges|], NodeIds(u.surface.nodes), EvidenceIds(u.evidence),
            HypothesisIds(u.hypotheses));
      }
    }
  }

  lemma ObservedNodeAndEdgeRefs(e: Episode, o: Observation, attemptId: string)
    requires ValidEpisode(e) && ObservationOk(o) && ObservationError(e, o).None?
    ensures var u := Observed(e, o, attemptId);
            var evidence, hypotheses := EvidenceIds(u.evidence), HypothesisIds(u.hypotheses);
            && (forall i :: 0 <= i < |u.surface.nodes| ==> NodeRefs(u.surface.nodes[i], evidence))
            && (forall i :: 0 <= i < |u.surface.edges| ==> EdgeRefs(u.surface.edges[i], evidence, hypotheses))
  {
    var u := Observed(e, o, attemptId);
    var evidence, hypotheses := EvidenceIds(u.evidence), HypothesisIds(u.hypotheses);
    ObservedIds(e, o, attemptId);
    forall i | 0 <= i < |u.surface.nodes|
      ensures NodeRefs(u.surface.nodes[i], evidence)
    {
      if i < |e.surface.nodes| {
        assert NodeRefs(e.surface.nodes[i], EvidenceIds(e.evidence));
        StillIn(e.surface.nodes[i].evidence, EvidenceIds(e.evidence), EvidenceIds(o.evidence));
      } else {
        assert NodeRefs(o.nodes[i - |e.surface.nodes|], evidence);
      }
    }
    forall i | 0 <= i < |u.surface.edges|
      ensures EdgeRefs(u.surface.edges[i], evidence, hypotheses)
    {
      if i < |e.surface.edges| {
        assert EdgeRefs(e.surface.edges[i], EvidenceIds(e.evidence), HypothesisIds(e.hypotheses));
        StillIn(e.surface.edges[i].evidence, EvidenceIds(e.evidence), EvidenceIds(o.evidence));
        StillIn(e.surface.edges[i].hypotheses, HypothesisIds(e.hypotheses), HypothesisIds(o.adjacent));
      } else {
        assert EdgeWorks(o.edges[i - |e.surface.edges|], NodeIds(u.surface.nodes), evidence, hypotheses);
      }
    }
  }

  lemma RevisedRefs(h: Hypothesis, o: Observation, nodes: seq<string>, hypotheses: seq<string>, evidence: seq<string>)
    requires HypothesisRefs(h, nodes, hypotheses, evidence) && AllIn(EvidenceIds(o.evidence), evidence)
    ensures HypothesisRefs(Revised(h, o), nodes, hypotheses, evidence)
  {
    var merged := Deduped(h.evidence + EvidenceIds(o.evidence));
    forall i | 0 <= i < |merged|
      ensures merged[i] in evidence
    {
      assert merged[i] in h.evidence + EvidenceIds(o.evidence);
    }
  }

  lemma StillReferenced(
    h: Hypothesis, nodes: seq<string>, hypotheses: seq<string>, evidence: seq<string>,
    moreNodes: seq<string>, moreHypotheses: seq<string>, moreEvidence: seq<string>)
    requires HypothesisRefs(h, nodes, hypotheses, evidence)
    ensures HypothesisRefs(h, nodes + moreNodes, hypotheses + moreHypotheses, evidence + moreEvidence)
  {
    StillIn(h.anchors, nodes, moreNodes);
    StillIn(h.targets, nodes, moreNodes);
    StillIn(h.dependencies, hypotheses, moreHypotheses);
    StillIn(h.evidence, evidence, moreEvidence);
  }

  lemma ObservedHypothesisRefs(e: Episode, o: Observation, attemptId: string, i: nat)
    requires ValidEpisode(e) && ObservationOk(o) && ObservationError(e, o).None?
    requires i < |Observed(e, o, attemptId).hypotheses|
    ensures var u := Observed(e, o, attemptId);
            HypothesisRefs(u.hypotheses[i], NodeIds(u.surface.nodes), HypothesisIds(u.hypotheses),
              EvidenceIds(u.evidence))
  {
    var u := Observed(e, o, attemptId);
    var nodes, evidence, hypotheses := NodeIds(u.surface.nodes), EvidenceIds(u.evidence), HypothesisIds(u.hypotheses);
    ObservedIds(e, o, attemptId);
    if i < |e.hypotheses| {
      StillReferenced(e.hypotheses[i], NodeIds(e.surface.nodes), HypothesisIds(e.hypotheses), EvidenceIds(e.evidence),
        NodeIds(o.nodes), HypothesisIds(o.adjacent), EvidenceIds(o.evidence));
      RevisedRefs(e.hypotheses[i], o, nodes, hypotheses, evidence);
    } else {
      assert HypothesisRefs(o.adjacent[i - |e.hypotheses|], nodes, hypotheses, evidence);
    }
  }

  lemma ObservedHistoryRefs(e: Episode, o: Observation, attemptId: string)
    requires ValidEpisode(e) && o.hypothesis in HypothesisIds(e.hypotheses)
    ensures var u := Observed(e, o, attemptId);
            && (forall i :: 0 <= i < |u.attempts| ==>
                  AttemptRefs(u.attempts[i], HypothesisIds(u.hypotheses), EvidenceIds(u.evidence)))
            && (forall i :: 0 <= i < |u.expansions| ==> AllIn(u.expansions[i].hypotheses, HypothesisIds(u.hypotheses)))
  {
    var u := Observed(e, o, attemptId);
    ObservedIds(e, o, attemptId);
    forall i | 0 <= i < |u.attempts|
      ensures AttemptRefs(u.attempts[i], HypothesisIds(u.hypotheses), EvidenceIds(u.evidence))
    {
      if i < |e.attempts| {
        assert AttemptRefs(e.attempts[i], HypothesisIds(e.hypotheses), EvidenceIds(e.evidence));
        StillIn(e.attempts[i].evidence, EvidenceIds(e.evidence), EvidenceIds(o.evidence));
      }
    }
    forall i | 0 <= i < |u.expansions|
      ensures AllIn(u.expansions[i].hypotheses, HypothesisIds(u.hypotheses))
    {
      StillIn(e.expansions[i].hypotheses, HypothesisIds(e.hypotheses), HypothesisIds(o.adjacent));
    }
  }

  lemma ObservedReferences(e: Episode, o: Observation, attemptId: string)
    requires ValidEpisode(e) && ObservationOk(o) && ObservationError(e, o).None?
    ensures References(Observed(e, o, attemptId))
  {
    ObservedNodeAndEdgeRefs(e, o, attemptId);
    ObservedHistoryRefs(e, o, attemptId);
    forall i | 0 <= i < |Observed(e, o, attemptId).hypotheses|
      ensures var u := Observed(e, o, attemptId);
              HypothesisRefs(u.hypotheses[i], NodeIds(u.surface.nodes), HypothesisIds(u.hypotheses),
                EvidenceIds(u.evidence))
    {
      ObservedHypothesisRefs(e, o, attemptId, i);
    }
  }

  lemma ObservedDependencies(e: Episode, o: Observation, attemptId: string)
    requires o.hypothesis in HypothesisIds(e.hypotheses)
    ensures Dependencies(Observed(e, o, attemptId).hypotheses) == Dependencies(e.hypotheses + o.adjacent)
  {
    SameDependencies(e.hypotheses + o.adjacent, Observed(e, o, attemptId).hypotheses);
  }

  lemma ObservedIdsOk(e: Episode, o: Observation, attemptId: string)
    requires ValidEpisode(e) && ObservationOk(o) && ObservationError(e, o).None?
    ensures IdsUnique(Observed(e, o, attemptId)) <==> attemptId !in AttemptIds(e.attempts)
  {
    ObservedIdsUnique(e, o, attemptId);
    ObservedIds(e, o, attemptId);
  }

  lemma AdjacentAreNew(e: Episode, o: Observation)
    requires ValidEpisode(e) && ObservationOk(o) && ObservationError(e, o).None?
    ensures Unique(HypothesisIds(e.hypotheses + o.adjacent))
  {
    AppendedIds(e.hypotheses, o.adjacent);
    Joined(HypothesisIds(e.hypotheses), HypothesisIds(o.adjacent));
  }

  lemma ObservedIsWellReferenced(e: Episode, o: Observation, attemptId: string)
    requires ValidEpisode(e) && ObservationOk(o) && ObservationError(e, o).None?
    ensures WellReferenced(Observed(e, o, attemptId)) <==> attemptId !in AttemptIds(e.attempts)
    ensures Unique(HypothesisIds(e.hypotheses + o.adjacent))
  {
    ObservedComponents(e, o, attemptId);
    ObservedIdsOk(e, o, attemptId);
    ObservedSurface(e, o, attemptId);
    ObservedReferences(e, o, attemptId);
    AdjacentAreNew(e, o);
  }

  /** Once the explicit checks pass, an observation is rejected only because it ends before the episode
      began, its attempt id is taken, or the added hypotheses depend on each other in a cycle. */
  lemma ObservationChecksSuffice(e: Episode, o: Observation, attemptId: string)
    requires ValidEpisode(e) && ObservationOk(o) && ObservationError(e, o).None?
    ensures ApplyObservation(e, o, attemptId).Ok? <==>
              && e.createdAt <= o.observedAt
              && attemptId !in AttemptIds(e.attempts)
              && Acyclic(AddedDependencies(e.hypotheses, o.adjacent))
  {
    ObservedIsWellReferenced(e, o, attemptId);
    ObservedDependencies(e, o, attemptId);
    CyclesAreAmongAdded(e, o.adjacent);
  }

  /** An applied observation moves the graph revision by one exactly when it changed the graph, only ever
      appends, and leaves every budget within its maximum. */
  lemma ObservationIsAccounted(e: Episode, o: Observation, attemptId: string, u: Episode)
    requires ApplyObservation(e, o, attemptId) == Ok(u)
    ensures WithinMaxima(u.budget) && u.budget.usedCost == e.budget.usedCost + o.cost
    ensures u.surface.revision
         == e.surface.revision
           + (if u.surface.nodes == e.surface.nodes && u.surface.edges == e.surface.edges then 0 else 1)
    ensures e.surface.nodes <= u.surface.nodes && e.surface.edges <= u.surface.edges && e.evidence <= u.evidence
    ensures |u.attempts| == |e.attempts| + 1 && e.attempts <= u.attempts && u.expansions == e.expansions
  {
    assert o.nodes == [] || e.surface.nodes != e.surface.nodes + o.nodes by {
      assert |e.surface.nodes + o.nodes| == |e.surface.nodes| + |o.nodes|;
    }
    assert o.edges == [] || e.surface.edges != e.surface.edges + o.edges by {
      assert |e.surface.edges + o.edges| == |e.surface.edges| + |o.edges|;
    }
  }

  lemma ExpandedParts(e: Episode, b: Batch, digest: string, expansionId: string)
    requires ValidEpisode(e) && BatchOk(b) && ExpansionError(e, b, digest, expansionId).None?
    ensures var u := Expanded(e, b, expansionId); ComponentsOk(u) && IdsUnique(u) && SurfaceOk(u.surface)
    ensures HypothesisIds(Expanded(e, b, expansionId).hypotheses)
            == HypothesisIds(e.hypotheses) + HypothesisIds(b.hypotheses)
  {
    var u := Expanded(e, b, expansionId);
    assert HypothesisIds(u.hypotheses) == HypothesisIds(e.hypotheses) + HypothesisIds(b.hypotheses);
    assert ExpansionIds(u.expansions) == ExpansionIds(e.expansions) + [expansionId];
    Joined(HypothesisIds(e.hypotheses), HypothesisIds(b.hypotheses));
    Joined(ExpansionIds(e.expansions), [expansionId]);
  }

  lemma ExpandedReferences(e: Episode, b: Batch, digest: string, expansionId: string)
    requires ValidEpisode(e) && BatchOk(b) && ExpansionError(e, b, digest, expansionId).None?
    ensures References(Expanded(e, b, expansionId))
  {
    var u := Expanded(e, b, expansionId);
    var nodes, evidence := NodeIds(e.surface.nodes), EvidenceIds(e.evidence);
    var before, added := HypothesisIds(e.hypotheses), HypothesisIds(b.hypotheses);
    ExpandedParts(e, b, digest, expansionId);
    forall i | 0 <= i < |u.surface.edges|
      ensures EdgeRefs(u.surface.edges[i], evidence, before + added)
    {
      assert EdgeRefs(e.surface.edges[i], evidence, before);
      StillIn(e.surface.edges[i].hypotheses, before, added);
    }
    forall i | 0 <= i < |u.hypotheses|
      ensures HypothesisRefs(u.hypotheses[i], nodes, before + added, evidence)
    {
      if i < |e.hypotheses| {
        assert HypothesisRefs(e.hypotheses[i], nodes, before, evidence);
        StillIn(e.hypotheses[i].dependencies, before, added);
      } else {
        assert HypothesisRefs(b.hypotheses[i - |e.hypotheses|], nodes, before + added, evidence);
      }
    }
    forall i | 0 <= i < |u.attempts|
      ensures AttemptRefs(u.attempts[i], before + added, evidence)
    {
      assert AttemptRefs(e.attempts[i], before, evidence);
    }
    forall i | 0 <= i < |u.expansions|
      ensures AllIn(u.expansions[i].hypotheses, before + added)
    {
      if i < |e.expansions| {
        StillIn(e.expansions[i].hypotheses, before, added);
      }
    }
  }

  /** Once the explicit checks pass, an expansion is rejected only for a cycle among its own hypotheses. */
  lemma ExpansionChecksSuffice(e: Episode, b: Batch, digest: string, expansionId: string)
    requires ValidEpisode(e) && BatchOk(b) && ExpansionError(e, b, digest, expansionId).None?
    ensures ApplyExpansion(e, b, digest, expansionId).Ok? <==> Acyclic(AddedDependencies(e.hypotheses, b.hypotheses))
  {
    ExpandedParts(e, b, digest, expansionId);
    ExpandedReferences(e, b, digest, expansionId);
    CyclesAreAmongAdded(e, b.hypotheses);
  }

  // ---- the updates step by step ------------------------------------------------------------

  method CheckEdges(es: seq<Edge>, nodes: seq<string>, evidence: seq<string>, hypotheses: seq<string>)
    returns (r: Option<Error>)
    ensures r == EdgesError(es, nodes, evidence, hypotheses)
  {
    for i := 0 to |es|
      invariant EdgesError(es[..i], nodes, evidence, hypotheses).None?
    {
      assert es[..i + 1][..i] == es[..i];
      r := EdgeError(es[i], nodes, evidence, hypotheses);
      if r.Some? {
        FirstEdgeErrorStays(es, i + 1, nodes, evidence, hypotheses);
        return;
      }
    }
    assert es[..|es|] == es;
    return None;
  }

  /** Edges after the first bad one are never looked at. */
  lemma {:induction false} FirstEdgeErrorStays(
    es: seq<Edge>, n: nat, nodes: seq<string>, evidence: seq<string>, hypotheses: seq<string>)
    requires n <= |es| && EdgesError(es[..n], nodes, evidence, hypotheses).Some?
    ensures EdgesError(es, nodes, evidence, hypotheses) == EdgesError(es[..n], nodes, evidence, hypotheses)
    decreases |es|
  {
    if n == |es| {
      assert es[..n] == es;
    } else {
      assert es[..|es| - 1][..n] == es[..n];
      FirstEdgeErrorStays(es[..|es| - 1], n, nodes, evidence, hypotheses);
    }
  }

  method CheckNodes(ns: seq<Node>, evidence: seq<string>) returns (r: Option<Error>)
    ensures r == NodesError(ns, evidence)
  {
    for i := 0 to |ns|
      invariant NodesError(ns[..i], evidence).None?
    {
      assert ns[..i + 1][..i] == ns[..i];
      if !NodeRefs(ns[i], evidence) {
        FirstNodeErrorStays(ns, i + 1, evidence);
        return Some(NodeEvidence(ns[i].id));
      }
    }
    assert ns[..|ns|] == ns;
    return None;
  }

  lemma {:induction false} FirstNodeErrorStays(ns: seq<Node>, n: nat, evidence: seq<string>)
    requires n <= |ns| && NodesError(ns[..n], evidence).Some?
    ensures NodesError(ns, evidence) == NodesError(ns[..n], evidence)
    decreases |ns|
  {
    if n == |ns| {
      assert ns[..n] == ns;
    } else {
      assert ns[..|ns| - 1][..n] == ns[..n];
      FirstNodeErrorStays(ns[..|ns| - 1], n, evidence);
    }
  }

  method CheckHypotheses(
    hs: seq<Hypothesis>, nodes: seq<string>, hypotheses: seq<string>, evidence: seq<string>, evidenceFirst: bool)
    returns (r: Option<Error>)
    ensures r == HypothesesError(hs, nodes, hypotheses, evidence, evidenceFirst)
  {
    for i := 0 to |hs|
      invariant HypothesesError(hs[..i], nodes, hypotheses, evidence, evidenceFirst).None?
    {
      assert hs[..i + 1][..i] == hs[..i];
      r := HypothesisError(hs[i], nodes, hypotheses, evidence, evidenceFirst);
      if r.Some? {
        FirstHypothesisErrorStays(hs, i + 1, nodes, hypotheses, evidence, evidenceFirst);
        return;
      }
    }
    assert hs[..|hs|] == hs;
    return None;
  }

  lemma {:induction false} FirstHypothesisErrorStays(
    hs: seq<Hypothesis>, n: nat, nodes: seq<string>, hypotheses: seq<string>, evidence: seq<string>,
    evidenceFirst: bool)
    requires n <= |hs| && HypothesesError(hs[..n], nodes, hypotheses, evidence, evidenceFirst).Some?
    ensures HypothesesError(hs, nodes, hypotheses, evidence, evidenceFirst)
         == HypothesesError(hs[..n], nodes, hypotheses, evidence, evidenceFirst)
    decreases |hs|
  {
    if n == |hs| {
      assert hs[..n] == hs;
    } else {
      assert hs[..|hs| - 1][..n] == hs[..n];
      FirstHypothesisErrorStays(hs[..|hs| - 1], n, nodes, hypotheses, evidence, evidenceFirst);
    }
  }

  method CheckObservation(e: Episode, o: Observation) returns (r: Option<Error>)
    ensures r == ObservationError(e, o)
  {
    if o.id in ObservationIds(e.attempts) {
      return Some(AlreadyApplied);
    }
    var at := Locate(e.hypotheses, o.hypothesis);
    if at.None? {
      return Some(UnknownHypothesis);
    }
    var h := e.hypotheses[at.value];
    if o.revision != h.revision {
      return Some(StaleRevision);
    }
    if Distance(o.cost, h.probe.cost) > COST_TOLERANCE {
      return Some(CostMismatch);
    }
    if !CanAfford(e.budget, o.cost) {
      return Some(OverBudget);
    }
    if !Disjoint(EvidenceIds(o.evidence), EvidenceIds(e.evidence)) {
      return Some(DuplicateEvidence);
    }
    if !Disjoint(NodeIds(o.nodes), NodeIds(e.surface.nodes)) {
      return Some(DuplicateNodes);
    }
    if !Disjoint(EdgeIds(o.edges), EdgeIds(e.surface.edges)) {
      return Some(DuplicateEdges);
    }
    if !Disjoint(HypothesisIds(o.adjacent), HypothesisIds(e.hypotheses)) {
      return Some(DuplicateHypotheses);
    }
    var evidence := EvidenceIds(e.evidence) + EvidenceIds(o.evidence);
    var nodes := NodeIds(e.surface.nodes) + NodeIds(o.nodes);
    var hypotheses := HypothesisIds(e.hypotheses) + HypothesisIds(o.adjacent);
    r := CheckEdges(o.edges, nodes, evidence, hypotheses);
    if r.None? {
      r := CheckNodes(o.nodes, evidence);
    }
    if r.None? {
      r := CheckHypotheses(o.adjacent, nodes, hypotheses, evidence, false);
    }
  }

  /** The updates of the copied manifest, field by field. */
  method UpdateCopy(e: Episode, o: Observation, attemptId: string) returns (updated: Episode)
    requires o.hypothesis in HypothesisIds(e.hypotheses)
    ensures updated == Observed(e, o, attemptId)
  {
    var at := Locate(e.hypotheses, o.hypothesis).value;
    var h := e.hypotheses[at];
    updated := e;
    var graphBefore := updated.surface.revision;
    updated := updated.(evidence := updated.evidence + o.evidence);
    updated := updated.(surface := Surface(graphBefore, updated.surface.nodes + o.nodes, updated.surface.edges
      + o.edges));
    if o.nodes != [] || o.edges != [] {
      updated := updated.(surface := updated.surface.(revision := graphBefore + 1));
    }
    updated := updated.(hypotheses := updated.hypotheses + o.adjacent);
    var newEvidence := EvidenceIds(o.evidence);
    var current := h.(evidence := Deduped(h.evidence + newEvidence));
    current := current.(status := StatusAfter(o));
    assert (e.hypotheses + o.adjacent)[at := current] == e.hypotheses[at := current] + o.adjacent;
    updated := updated.(hypotheses := updated.hypotheses[at := current]);
    var attempt := Attempt(
      attemptId, o.id, o.hypothesis, o.revision, DigestOf(h.probe), o.outcome, o.progress,
      NodeIds(o.nodes), EdgeIds(o.edges), newEvidence, graphBefore, updated.surface.revision, o.cost, o.startedAt,
      o.observedAt);
    updated := updated.(attempts := updated.attempts + [attempt]);
    updated := updated.(budget := Spent(updated.budget, o.cost));
    updated := updated.(updatedAt := o.observedAt);
  }

  method Observe(e: Episode, o: Observation, attemptId: string) returns (r: Result<Episode, Error>)
    ensures r == ApplyObservation(e, o, attemptId)
  {
    var error := CheckObservation(e, o);
    if error.Some? {
      return Err(error.value);
    }
    var updated := UpdateCopy(e, o, attemptId);
    var ok := EpisodeModel.Validate(updated);
    return if ok then Ok(updated) else Err(InvalidManifest);
  }

  method Expand(e: Episode, b: Batch, digest: string, expansionId: string) returns (r: Result<Episode, Error>)
    ensures r == ApplyExpansion(e, b, digest, expansionId)
  {
    if b.episode != e.id {
      return Err(WrongEpisode);
    }
    if b.baseDigest != digest {
      return Err(StaleDigest);
    }
    if b.generatedAt < e.updatedAt {
      return Err(TooEarly);
    }
    if expansionId in ExpansionIds(e.expansions) {
      return Err(AlreadyApplied);
    }
    if !Disjoint(HypothesisIds(b.hypotheses), HypothesisIds(e.hypotheses)) {
      return Err(DuplicateHypotheses);
    }
    var all := HypothesisIds(e.hypotheses) + HypothesisIds(b.hypotheses);
    var error := CheckHypotheses(b.hypotheses, NodeIds(e.surface.nodes), all, EvidenceIds(e.evidence), true);
    if error.Some? {
      return Err(error.value);
    }
    var updated := e.(hypotheses := e.hypotheses + b.hypotheses);
    updated := updated.(expansions := updated.expansions + [RecordOf(b, expansionId)]);
    updated := updated.(updatedAt := b.generatedAt);
    var ok := EpisodeModel.Validate(updated);
    return if ok then Ok(updated) else Err(InvalidManifest);
  }
}
