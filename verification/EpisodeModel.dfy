/** Discovery episodes: the surface graph, evidence, hypotheses, attempts and budget of one episode,
    and the conditions under which an episode manifest is accepted. Digests are injective, so a probe
    digest is the probe under a constructor; timestamps are integers. */
module EpisodeModel {
  import DependencyGraph
  import opened Results

  datatype ExecutionMode = Offline | Sandbox | LiveReadonly | LiveActive

  datatype Mutation = NoMutation | TargetLocal | ExternalState

  function Rank(m: Mutation): nat {
    match m
    case NoMutation => 0
    case TargetLocal => 1
    case ExternalState => 2
  }

  datatype Status = Proposed | Testing | Supported | Refuted | Inconclusive | Blocked

  datatype Outcome = OutSucceeded | OutNegative | OutFailed | OutInconclusive | OutBlocked

  datatype Trigger = OnStalled | OnPlateau | OnFrontier | OnAdjacent | OnRollover

  datatype Probe = Probe(
    adapter: string, action: string, capabilities: seq<string>, mode: ExecutionMode, mutation: Mutation, cost: real)

  datatype ProbeDigest = DigestOf(probe: Probe)

  datatype Evidence = Evidence(id: string, body: string)

  datatype Node = Node(id: string, confidence: real, evidence: seq<string>)

  datatype Edge = Edge(id: string, source: string, target: string, evidence: seq<string>, hypotheses: seq<string>)

  datatype Surface = Surface(revision: nat, nodes: seq<Node>, edges: seq<Edge>)

  /** Unit scores an analyst or model attaches to a hypothesis. */
  datatype Measures = Measures(
    alignment: real, impact: real, reachability: real, evidenceStrength: real, informationGain: real, novelty: real,
    causalVerifiability: real, transferability: real, cost: real, blastRadius: real, redundancy: real)

  datatype Weights = Weights(
    impact: real, reachability: real, evidenceStrength: real, informationGain: real, novelty: real,
    causalVerifiability: real, transferability: real, cost: real, blastRadius: real, redundancy: real,
    diversityBonus: real, plateauBonus: real, retryPenalty: real)

  datatype Hypothesis = Hypothesis(
    id: string, revision: nat, family: string, status: Status,
    anchors: seq<string>, targets: seq<string>, dependencies: seq<string>, blockers: seq<string>,
    evidence: seq<string>, measures: Measures, probe: Probe, attemptLimit: nat)

  datatype Attempt = Attempt(
    id: string, observation: string, hypothesis: string, revision: nat, probe: ProbeDigest,
    outcome: Outcome, progress: real, newNodes: seq<string>, newEdges: seq<string>, evidence: seq<string>,
    graphBefore: nat, graphAfter: nat, cost: real, startedAt: int, finishedAt: int)

  datatype ExpansionRecord = ExpansionRecord(
    id: string, generator: string, trigger: Trigger, baseDigest: string,
    hypotheses: seq<string>, rationale: seq<string>, appliedAt: int)

  datatype Budget = Budget(
    maxAttempts: nat, maxIterations: nat, maxCost: real, usedAttempts: nat, usedIterations: nat, usedCost: real)

  datatype Objective = Objective(
    capabilities: set<string>, modes: set<ExecutionMode>, maxMutation: Mutation,
    minAlignment: real, minAnchorConfidence: real, weights: Weights)

  datatype Episode = Episode(
    id: string, objective: Objective, surface: Surface, evidence: seq<Evidence>, hypotheses: seq<Hypothesis>,
    attempts: seq<Attempt>, expansions: seq<ExpansionRecord>, budget: Budget, createdAt: int, updatedAt: int)

  // ---- identifiers -------------------------------------------------------------------------

  function EvidenceIds(s: seq<Evidence>): (ids: seq<string>)
    ensures |ids| == |s| && forall i :: 0 <= i < |s| ==> ids[i] == s[i].id
  {
    seq(|s|, i requires 0 <= i < |s| => s[i].id)
  }

  function NodeIds(s: seq<Node>): (ids: seq<string>)
    ensures |ids| == |s| && forall i :: 0 <= i < |s| ==> ids[i] == s[i].id
  {
    seq(|s|, i requires 0 <= i < |s| => s[i].id)
  }

  function EdgeIds(s: seq<Edge>): (ids: seq<string>)
    ensures |ids| == |s| && forall i :: 0 <= i < |s| ==> ids[i] == s[i].id
  {
    seq(|s|, i requires 0 <= i < |s| => s[i].id)
  }

  function HypothesisIds(s: seq<Hypothesis>): (ids: seq<string>)
    ensures |ids| == |s| && forall i :: 0 <= i < |s| ==> ids[i] == s[i].id
  {
    seq(|s|, i requires 0 <= i < |s| => s[i].id)
  }

  function AttemptIds(s: seq<Attempt>): (ids: seq<string>)
    ensures |ids| == |s| && forall i :: 0 <= i < |s| ==> ids[i] == s[i].id
  {
    seq(|s|, i requires 0 <= i < |s| => s[i].id)
  }

  function ObservationIds(s: seq<Attempt>): (ids: seq<string>)
    ensures |ids| == |s| && forall i :: 0 <= i < |s| ==> ids[i] == s[i].observation
  {
    seq(|s|, i requires 0 <= i < |s| => s[i].observation)
  }

  function ExpansionIds(s: seq<ExpansionRecord>): (ids: seq<string>)
    ensures |ids| == |s| && forall i :: 0 <= i < |s| ==> ids[i] == s[i].id
  {
    seq(|s|, i requires 0 <= i < |s| => s[i].id)
  }

  predicate Unique(s: seq<string>) {
    forall i, j :: 0 <= i < j < |s| ==> s[i] != s[j]
  }

  /** `set(s) <= set(known)` */
  predicate AllIn(s: seq<string>, known: seq<string>) {
    forall i :: 0 <= i < |s| ==> s[i] in known
  }

  predicate Disjoint(s: seq<string>, t: seq<string>) {
    forall i :: 0 <= i < |s| ==> s[i] !in t
  }

  /** The position of the hypothesis with an id. */
  function Locate(hs: seq<Hypothesis>, id: string): (at: Option<nat>)
    ensures at.Some? ==> at.value < |hs| && hs[at.value].id == id
    ensures at.None? <==> id !in HypothesisIds(hs)
  {
    if hs == [] then None
    else if hs[|hs| - 1].id == id then
      assert HypothesisIds(hs)[|hs| - 1] == id;
      Some(|hs| - 1)
    else
      assert HypothesisIds(hs) == HypothesisIds(hs[..|hs| - 1]) + [hs[|hs| - 1].id];
      Locate(hs[..|hs| - 1], id)
  }

  // ---- components --------------------------------------------------------------------------

  predicate HypothesisOk(h: Hypothesis) {
    && h.revision >= 1 && h.attemptLimit >= 1 && h.probe.cost > 0.0 && h.anchors != []
    && Unique(h.anchors) && Unique(h.targets) && Unique(h.dependencies) && Unique(h.blockers) && Unique(h.evidence)
    && h.id !in h.dependencies
  }

  predicate AttemptOk(a: Attempt) {
    && a.startedAt <= a.finishedAt && a.graphBefore <= a.graphAfter && a.cost > 0.0
    && Unique(a.newNodes) && Unique(a.newEdges) && Unique(a.evidence)
  }

  predicate ExpansionOk(x: ExpansionRecord) {
    x.hypotheses != [] && x.rationale != [] && Unique(x.hypotheses) && Unique(x.rationale)
  }

  predicate NodeOk(n: Node) {
    Unique(n.evidence)
  }

  predicate EdgeOk(e: Edge) {
    Unique(e.evidence) && Unique(e.hypotheses)
  }

  predicate ComponentsOk(e: Episode) {
    && (forall i :: 0 <= i < |e.surface.nodes| ==> NodeOk(e.surface.nodes[i]))
    && (forall i :: 0 <= i < |e.surface.edges| ==> EdgeOk(e.surface.edges[i]))
    && (forall i :: 0 <= i < |e.hypotheses| ==> HypothesisOk(e.hypotheses[i]))
    && (forall i :: 0 <= i < |e.attempts| ==> AttemptOk(e.attempts[i]))
    && (forall i :: 0 <= i < |e.expansions| ==> ExpansionOk(e.expansions[i]))
  }

  // ---- references --------------------------------------------------------------------------

  predicate EdgeEnds(e: Edge, nodes: seq<string>) {
    e.source in nodes && e.target in nodes
  }

  predicate SurfaceOk(s: Surface) {
    && Unique(NodeIds(s.nodes)) && Unique(EdgeIds(s.edges))
    && forall i :: 0 <= i < |s.edges| ==> EdgeEnds(s.edges[i], NodeIds(s.nodes))
  }

  predicate IdsUnique(e: Episode) {
    && Unique(EvidenceIds(e.evidence)) && Unique(HypothesisIds(e.hypotheses))
    && Unique(AttemptIds(e.attempts)) && Unique(ObservationIds(e.attempts)) && Unique(ExpansionIds(e.expansions))
  }

  predicate NodeRefs(n: Node, evidence: seq<string>) {
    AllIn(n.evidence, evidence)
  }

  predicate EdgeRefs(e: Edge, evidence: seq<string>, hypotheses: seq<string>) {
    AllIn(e.evidence, evidence) && AllIn(e.hypotheses, hypotheses)
  }

  predicate HypothesisRefs(h: Hypothesis, nodes: seq<string>, hypotheses: seq<string>, evidence: seq<string>) {
    && AllIn(h.anchors, nodes) && AllIn(h.targets, nodes)
    && AllIn(h.dependencies, hypotheses) && AllIn(h.evidence, evidence)
  }

  predicate AttemptRefs(a: Attempt, hypotheses: seq<string>, evidence: seq<string>) {
    a.hypothesis in hypotheses && AllIn(a.evidence, evidence)
  }

  predicate References(e: Episode) {
    var nodes, evidence := NodeIds(e.surface.nodes), EvidenceIds(e.evidence);
    var hypotheses := HypothesisIds(e.hypotheses);
    && (forall i :: 0 <= i < |e.surface.nodes| ==> NodeRefs(e.surface.nodes[i], evidence))
    && (forall i :: 0 <= i < |e.surface.edges| ==> EdgeRefs(e.surface.edges[i], evidence, hypotheses))
    && (forall i :: 0 <= i < |e.hypotheses| ==> HypothesisRefs(e.hypotheses[i], nodes, hypotheses, evidence))
    && (forall i :: 0 <= i < |e.attempts| ==> AttemptRefs(e.attempts[i], hypotheses, evidence))
    && (forall i :: 0 <= i < |e.expansions| ==> AllIn(e.expansions[i].hypotheses, hypotheses))
  }

  /** Every hypothesis id with the ids it depends on. */
  function Dependencies(hs: seq<Hypothesis>): DependencyGraph.Graph {
    map id | id in HypothesisIds(hs) :: set d | d in hs[Locate(hs, id).value].dependencies
  }

  // ---- manifests ---------------------------------------------------------------------------

  /** Everything `valid_episode` checks except the search for a dependency cycle. */
  predicate WellReferenced(e: Episode) {
    ComponentsOk(e) && SurfaceOk(e.surface) && IdsUnique(e) && References(e)
  }

  ghost predicate ValidEpisode(e: Episode) {
    WellReferenced(e) && e.createdAt <= e.updatedAt && DependencyGraph.Acyclic(Dependencies(e.hypotheses))
  }

  /** The check every manifest passes before it is stored or returned. */
  method Validate(e: Episode) returns (ok: bool)
    ensures ok <==> ValidEpisode(e)
  {
    if !(e.createdAt <= e.updatedAt) || !WellReferenced(e) {
      return false;
    }
    var verdict, _ := DependencyGraph.Validate(Dependencies(e.hypotheses));
    return verdict.Accepted?;
  }

  // ---- budgets -----------------------------------------------------------------------------

  predicate CanAfford(b: Budget, cost: real) {
    b.usedAttempts < b.maxAttempts && b.usedIterations < b.maxIterations && b.usedCost + cost <= b.maxCost
  }

  predicate Exhausted(b: Budget) {
    b.usedAttempts >= b.maxAttempts || b.usedIterations >= b.maxIterations || b.usedCost >= b.maxCost
  }

  predicate WithinMaxima(b: Budget) {
    b.usedAttempts <= b.maxAttempts && b.usedIterations <= b.maxIterations && b.usedCost <= b.maxCost
  }
}
