/** The adaptive planner: which hypotheses may be probed, how they are scored, and which are chosen. */
module Planner {
  import opened EpisodeModel
  import opened EpisodeUpdates
  import opened GreedySelection
  import opened Ordering
  import opened Results

  datatype Config = Config(
    plateauWindow: nat, plateauThreshold: real, productiveThreshold: real, recentWindow: nat, penaltyScale: real)

  datatype Mode = Explore | Exploit | PlateauRecovery | Complete | BudgetExhausted | Stalled

  // ---- eligibility -------------------------------------------------------------------------

  datatype Reason =
    | TerminalStatus(status: Status) | AlreadySupported | DeclaredBlocker(item: string) | Misaligned
    | MissingCapabilities(missing: set<string>) | ModeUnavailable | MutationTooHigh | CannotAfford
    | UnsatisfiedDependencies(dependencies: set<string>) | WeakAnchors(anchors: set<string>)
    | AttemptLimitReached | ProbeAlreadyTerminal

  predicate IsSupported(e: Episode, id: string) {
    var at := Locate(e.hypotheses, id);
    at.Some? && e.hypotheses[at.value].status.Supported?
  }

  function IncompleteDependencies(e: Episode, h: Hypothesis): set<string> {
    set d | d in h.dependencies && !IsSupported(e, d)
  }

  function MissingOf(e: Episode, h: Hypothesis): set<string> {
    set c | c in h.probe.capabilities && c !in e.objective.capabilities
  }

  predicate WeakAnchor(e: Episode, id: string) {
    exists n :: n in e.surface.nodes && n.id == id && n.confidence < e.objective.minAnchorConfidence
  }

  function WeakOf(e: Episode, h: Hypothesis): set<string> {
    set a | a in h.anchors && WeakAnchor(e, a)
  }

  function AttemptsOn(attempts: seq<Attempt>, id: string): nat {
    if attempts == [] then 0
    else AttemptsOn(attempts[..|attempts| - 1], id) + (if attempts[|attempts| - 1].hypothesis == id then 1 else 0)
  }

  /** What makes two attempts a repetition of the same probe. */
  datatype ProbeKey = ProbeKey(hypothesis: string, revision: nat, probe: ProbeDigest)

  function KeyOf(a: Attempt): ProbeKey {
    ProbeKey(a.hypothesis, a.revision, a.probe)
  }

  function KeyFor(h: Hypothesis): ProbeKey {
    ProbeKey(h.id, h.revision, DigestOf(h.probe))
  }

  /** Some attempt under the key produced a terminal observation. */
  predicate SeenTerminal(attempts: seq<Attempt>, key: ProbeKey) {
    exists a :: a in attempts && KeyOf(a) == key && !a.outcome.OutFailed?
  }

  predicate Applies(e: Episode, h: Hypothesis, r: Reason) {
    match r
    case TerminalStatus(status) => status == h.status && (h.status.Refuted? || h.status.Blocked?)
    case AlreadySupported => h.status.Supported?
    case DeclaredBlocker(item) => item in h.blockers
    case Misaligned => h.measures.alignment < e.objective.minAlignment
    case MissingCapabilities(missing) => missing == MissingOf(e, h) && missing != {}
    case ModeUnavailable => h.probe.mode !in e.objective.modes
    case MutationTooHigh => Rank(h.probe.mutation) > Rank(e.objective.maxMutation)
    case CannotAfford => !CanAfford(e.budget, h.probe.cost)
    case UnsatisfiedDependencies(ds) => ds == IncompleteDependencies(e, h) && ds != {}
    case WeakAnchors(anchors) => anchors == WeakOf(e, h) && anchors != {}
    case AttemptLimitReached => AttemptsOn(e.attempts, h.id) >= h.attemptLimit
    case ProbeAlreadyTerminal => SeenTerminal(e.attempts, KeyFor(h))
  }

  predicate Eligible(e: Episode, h: Hypothesis) {
    && !h.status.Refuted? && !h.status.Blocked? && !h.status.Supported?
    && h.blockers == []
    && h.measures.alignment >= e.objective.minAlignment
    && (forall c :: c in h.probe.capabilities ==> c in e.objective.capabilities)
    && h.probe.mode in e.objective.modes
    && Rank(h.probe.mutation) <= Rank(e.objective.maxMutation)
    && CanAfford(e.budget, h.probe.cost)
    && (forall d :: d in h.dependencies ==> IsSupported(e, d))
    && (forall a :: a in h.anchors ==> !WeakAnchor(e, a))
    && AttemptsOn(e.attempts, h.id) < h.attemptLimit
    && !SeenTerminal(e.attempts, KeyFor(h))
  }

  method AppendReason(reasons: seq<Reason>, r: Reason, applies: bool) returns (more: seq<Reason>)
    ensures forall x :: x in more <==> x in reasons || (applies && x == r)
  {
    more := if applies then reasons + [r] else reasons;
  }

  /** Reasons that come from the hypothesis and the objective alone. */
  predicate Standing(r: Reason) {
    r.TerminalStatus? || r.AlreadySupported? || r.DeclaredBlocker? || r.Misaligned? || r.MissingCapabilities?
    || r.ModeUnavailable? || r.MutationTooHigh?
  }

  method StandingReasons(e: Episode, h: Hypothesis) returns (reasons: seq<Reason>)
    ensures forall r :: r in reasons <==> Standing(r) && Applies(e, h, r)
  {
    reasons := AppendReason([], TerminalStatus(h.status), h.status.Refuted? || h.status.Blocked?);
    reasons := AppendReason(reasons, AlreadySupported, h.status.Supported?);
    ghost var early := reasons;
    for i := 0 to |h.blockers|
      invariant forall r :: r in reasons <==> r in early || (r.DeclaredBlocker? && r.item in h.blockers[..i])
    {
      reasons := reasons + [DeclaredBlocker(h.blockers[i])];
    }
    reasons := AppendReason(reasons, Misaligned, h.measures.alignment < e.objective.minAlignment);
    reasons := AppendReason(reasons, MissingCapabilities(MissingOf(e, h)), MissingOf(e, h) != {});
    reasons := AppendReason(reasons, ModeUnavailable, h.probe.mode !in e.objective.modes);
    reasons := AppendReason(reasons, MutationTooHigh, Rank(h.probe.mutation) > Rank(e.objective.maxMutation));
  }

  /** Exactly the reasons that apply; none if and only if the hypothesis is eligible. */
  method IneligibilityReasons(e: Episode, h: Hypothesis) returns (reasons: seq<Reason>)
    ensures forall r :: r in reasons <==> Applies(e, h, r)
    ensures reasons == [] <==> Eligible(e, h)
  {
    reasons := StandingReasons(e, h);
    reasons := AppendReason(reasons, CannotAfford, !CanAfford(e.budget, h.probe.cost));
    reasons := AppendReason(reasons, UnsatisfiedDependencies(IncompleteDependencies(e, h)),
      IncompleteDependencies(e, h) != {});
    reasons := AppendReason(reasons, WeakAnchors(WeakOf(e, h)), WeakOf(e, h) != {});
    reasons := AppendReason(reasons, AttemptLimitReached, AttemptsOn(e.attempts, h.id) >= h.attemptLimit);
    reasons := AppendReason(reasons, ProbeAlreadyTerminal, SeenTerminal(e.attempts, KeyFor(h)));
    NoReasonIsEligible(e, h, reasons);
  }

  lemma IneligibleHasReason(e: Episode, h: Hypothesis) returns (r: Reason)
    requires !Eligible(e, h)
    ensures Applies(e, h, r)
  {
    if h.status.Refuted? || h.status.Blocked? {
      return TerminalStatus(h.status);
    } else if h.blockers != [] {
      return DeclaredBlocker(h.blockers[0]);
    } else if exists c :: c in h.probe.capabilities && c !in e.objective.capabilities {
      var c :| c in h.probe.capabilities && c !in e.objective.capabilities;
      assert c in MissingOf(e, h);
      return MissingCapabilities(MissingOf(e, h));
    } else if exists d :: d in h.dependencies && !IsSupported(e, d) {
      var d :| d in h.dependencies && !IsSupported(e, d);
      assert d in IncompleteDependencies(e, h);
      return UnsatisfiedDependencies(IncompleteDependencies(e, h));
    } else if exists a :: a in h.anchors && WeakAnchor(e, a) {
      var a :| a in h.anchors && WeakAnchor(e, a);
      assert a in WeakOf(e, h);
      return WeakAnchors(WeakOf(e, h));
    }
    r := if h.status.Supported? then AlreadySupported
         else if h.measures.alignment < e.objective.minAlignment then Misaligned
         else if h.probe.mode !in e.objective.modes then ModeUnavailable
         else if Rank(h.probe.mutation) > Rank(e.objective.maxMutation) then MutationTooHigh
         else if !CanAfford(e.budget, h.probe.cost) then CannotAfford
         else if AttemptsOn(e.attempts, h.id) >= h.attemptLimit then AttemptLimitReached
         else ProbeAlreadyTerminal;
  }

  lemma NoReasonIsEligible(e: Episode, h: Hypothesis, reasons: seq<Reason>)
    requires forall r :: r in reasons <==> Applies(e, h, r)
    ensures reasons == [] <==> Eligible(e, h)
  {
    assert reasons != [] ==> reasons[0] in reasons;
    if Eligible(e, h) {
      forall r
        ensures !Applies(e, h, r)
      {
      }
    } else {
      var r := IneligibleHasReason(e, h);
    }
  }

  // ---- scores ------------------------------------------------------------------------------

  predicate Unit(x: real) {
    0.0 <= x <= 1.0
  }

  predicate MeasuresOk(m: Measures) {
    && Unit(m.alignment) && Unit(m.impact) && Unit(m.reachability) && Unit(m.evidenceStrength)
       && Unit(m.informationGain)
    && Unit(m.novelty) && Unit(m.causalVerifiability) && Unit(m.transferability)
    && Unit(m.cost) && Unit(m.blastRadius) && Unit(m.redundancy)
  }

  predicate Weight(x: real) {
    0.0 <= x <= 10.0
  }

  function RewardWeights(w: Weights): seq<real> {
    [w.impact, w.reachability, w.evidenceStrength, w.informationGain, w.novelty, w.causalVerifiability,
      w.transferability]
  }

  function PenaltyWeights(w: Weights): seq<real> {
    [w.cost, w.blastRadius, w.redundancy]
  }

  function RewardValues(m: Measures): seq<real> {
    [m.impact, m.reachability, m.evidenceStrength, m.informationGain, m.novelty, m.causalVerifiability,
      m.transferability]
  }

  function PenaltyValues(m: Measures): seq<real> {
    [m.cost, m.blastRadius, m.redundancy]
  }

  function Total(ws: seq<real>): real {
    if ws == [] then 0.0 else Total(ws[..|ws| - 1]) + ws[|ws| - 1]
  }

  /** `sum(weight * value for weight, value in terms)` */
  function Weighted(ws: seq<real>, vs: seq<real>): real
    requires |vs| == |ws|
  {
    if ws == [] then 0.0 else Weighted(ws[..|ws| - 1], vs[..|vs| - 1]) + Product(ws[|ws| - 1], vs[|vs| - 1])
  }

  function Product(x: real, y: real): real {
    x * y
  }

  /** Weights in range, with a positive reward weight and a positive penalty weight. */
  predicate WeightsOk(w: Weights) {
    && Weight(w.impact) && Weight(w.reachability) && Weight(w.evidenceStrength) && Weight(w.informationGain)
    && Weight(w.novelty) && Weight(w.causalVerifiability) && Weight(w.transferability)
    && Weight(w.cost) && Weight(w.blastRadius) && Weight(w.redundancy)
    && Weight(w.diversityBonus) && Weight(w.plateauBonus) && Weight(w.retryPenalty)
    && Total(RewardWeights(w)) > 0.0 && Total(PenaltyWeights(w)) > 0.0
  }

  function Raised(x: real, factor: real): real {
    if x * factor <= 10.0 then x * factor else 10.0
  }

  function ProgressSum(attempts: seq<Attempt>): real {
    if attempts == [] then 0.0 else ProgressSum(attempts[..|attempts| - 1]) + attempts[|attempts| - 1].progress
  }

  function Recent(attempts: seq<Attempt>, window: nat): seq<Attempt> {
    if |attempts| <= window then attempts else attempts[|attempts| - window..]
  }

  predicate Plateau(e: Episode, c: Config) {
    var recent := Recent(e.attempts, c.plateauWindow);
    && |recent| >= c.plateauWindow
    && ProgressSum(recent) <= c.plateauThreshold
    && forall a :: a in recent ==> !a.outcome.OutSucceeded?
  }

  predicate Productive(e: Episode, c: Config) {
    e.attempts != [] && e.attempts[|e.attempts| - 1].progress >= c.productiveThreshold
  }

  function EffectiveWeights(e: Episode, c: Config): Weights {
    var base := e.objective.weights;
    if Plateau(e, c) then
      base.(informationGain := Raised(base.informationGain, 1.35), novelty := Raised(base.novelty, 1.5),
            redundancy := Raised(base.redundancy, 1.3), plateauBonus := Raised(base.plateauBonus, 1.5))
    else if Productive(e, c) then
      base.(impact := Raised(base.impact, 1.1), evidenceStrength := Raised(base.evidenceStrength, 1.1),
            causalVerifiability := Raised(base.causalVerifiability, 1.25))
    else base
  }

  /** The adapted weights, which are never validated again, stay in range and never let a score divide
      by zero. */
  lemma EffectiveWeightsAreValid(e: Episode, c: Config)
    requires WeightsOk(e.objective.weights)
    ensures WeightsOk(EffectiveWeights(e, c))
    ensures EffectiveWeights(e, c).diversityBonus == e.objective.weights.diversityBonus
  {
    var base := e.objective.weights;
    var w := EffectiveWeights(e, c);
    TotalIsMonotone(RewardWeights(base), RewardWeights(w));
    TotalIsMonotone(PenaltyWeights(base), PenaltyWeights(w));
  }

  lemma {:induction false} TotalIsMonotone(ws: seq<real>, us: seq<real>)
    requires |us| == |ws| && forall i :: 0 <= i < |ws| ==> ws[i] <= us[i]
    ensures Total(ws) <= Total(us)
  {
    if ws != [] {
      TotalIsMonotone(ws[..|ws| - 1], us[..|us| - 1]);
    }
  }

  function Average(ws: seq<real>, vs: seq<real>): real
    requires |vs| == |ws| && Total(ws) > 0.0
  {
    Weighted(ws, vs) / Total(ws)
  }

  function Positive(x: real): real {
    if x > 0.0 then x else 0.0
  }

  /** Families of the hypotheses some attempts are about. */
  function FamiliesOf(e: Episode, attempts: seq<Attempt>): set<string> {
    set a | a in attempts && Locate(e.hypotheses, a.hypothesis).Some?
      :: e.hypotheses[Locate(e.hypotheses, a.hypothesis).value].family
  }

  /** The bonus for a family not tried lately, and the one for a family never tried when progress stalled. */
  function FamilyBonuses(e: Episode, c: Config, family: string): real {
    var w := EffectiveWeights(e, c);
    (if family !in FamiliesOf(e, Recent(e.attempts, c.recentWindow)) then w.diversityBonus else 0.0)
    + (if Plateau(e, c) && family !in FamiliesOf(e, e.attempts) then w.plateauBonus else 0.0)
  }

  function RetryPenalty(w: Weights, tried: nat): real {
    w.retryPenalty * tried as real
  }

  function Bonuses(e: Episode, c: Config, h: Hypothesis): real {
    FamilyBonuses(e, c, h.family) - RetryPenalty(EffectiveWeights(e, c), AttemptsOn(e.attempts, h.id))
  }

  function Score(e: Episode, c: Config, h: Hypothesis): real
    requires WeightsOk(e.objective.weights)
  {
    EffectiveWeightsAreValid(e, c);
    var w := EffectiveWeights(e, c);
    var reward := Average(RewardWeights(w), RewardValues(h.measures));
    var penalty := Average(PenaltyWeights(w), PenaltyValues(h.measures));
    100.0 * Positive(reward - c.penaltyScale * penalty) + Bonuses(e, c, h)
  }

  function RankOf(e: Episode, c: Config, h: Hypothesis): Ranked
    requires WeightsOk(e.objective.weights)
  {
    Ranked(h.id, h.family, Score(e, c, h), 3)
  }

  lemma QuotientInUnit(x: real, y: real)
    requires 0.0 <= x <= y && y > 0.0
    ensures Unit(x / y)
  {
  }

  lemma {:induction false} WeightedInRange(ws: seq<real>, vs: seq<real>)
    requires |vs| == |ws|
    requires forall i :: 0 <= i < |ws| ==> ws[i] >= 0.0 && Unit(vs[i])
    ensures 0.0 <= Weighted(ws, vs) <= Total(ws)
  {
    if ws != [] {
      WeightedInRange(ws[..|ws| - 1], vs[..|vs| - 1]);
    }
  }

  lemma AverageIsUnit(ws: seq<real>, vs: seq<real>)
    requires |vs| == |ws| && Total(ws) > 0.0
    requires forall i :: 0 <= i < |ws| ==> ws[i] >= 0.0 && Unit(vs[i])
    ensures Unit(Average(ws, vs))
  {
    WeightedInRange(ws, vs);
    QuotientInUnit(Weighted(ws, vs), Total(ws));
  }

  /** Reward and penalty are unit scores, so a ranked hypothesis is never rejected by its own type. */
  lemma RewardAndPenaltyAreUnit(w: Weights, m: Measures)
    requires WeightsOk(w) && MeasuresOk(m)
    ensures Unit(Average(RewardWeights(w), RewardValues(m))) && Unit(Average(PenaltyWeights(w), PenaltyValues(m)))
  {
    AverageIsUnit(RewardWeights(w), RewardValues(m));
    AverageIsUnit(PenaltyWeights(w), PenaltyValues(m));
  }

  // ---- plans -------------------------------------------------------------------------------

  datatype BlockedEntry = BlockedEntry(hypothesis: string, reasons: seq<Reason>)

  datatype Plan = Plan(mode: Mode, plateau: bool, selected: seq<Ranked>, blocked: seq<BlockedEntry>)

  ghost function Candidates(e: Episode, c: Config): set<Ranked>
    requires WeightsOk(e.objective.weights)
  {
    set h | h in e.hypotheses && Eligible(e, h) :: RankOf(e, c, h)
  }

  predicate IsTerminal(s: Status) {
    s.Refuted? || s.Blocked? || s.Supported?
  }

  function IdleMode(e: Episode): Mode {
    if e.hypotheses != [] && forall h :: h in e.hypotheses ==> IsTerminal(h.status) then Complete else Stalled
  }

  function BusyMode(e: Episode, c: Config): Mode {
    if Plateau(e, c) then PlateauRecovery else if Productive(e, c) then Exploit else Explore
  }

  /** A plan: nothing once the budget is exhausted; otherwise the greedy choice among exactly the
      eligible hypotheses, every other hypothesis blocked for exactly the reasons that apply to it. */
  ghost predicate IsPlan(e: Episode, c: Config, limit: nat, p: Plan)
    requires WeightsOk(e.objective.weights)
  {
    && p.plateau == Plateau(e, c)
    && if Exhausted(e.budget) then p.mode.BudgetExhausted? && p.selected == [] && p.blocked == []
       else
         && IsGreedy(p.selected, Candidates(e, c), {}, limit, EffectiveWeights(e, c).diversityBonus)
         && p.mode == (if p.selected != [] then BusyMode(e, c) else IdleMode(e))
         && (forall h :: h in e.hypotheses && !Eligible(e, h) ==> exists b :: b in p.blocked && b.hypothesis == h.id)
         && (forall b :: b in p.blocked ==> exists h :: h in e.hypotheses && BlockedFor(e, h, b))
  }

  ghost predicate BlockedFor(e: Episode, h: Hypothesis, b: BlockedEntry) {
    b.hypothesis == h.id && !Eligible(e, h) && forall r :: r in b.reasons <==> Applies(e, h, r)
  }

  lemma RankedApart(e: Episode, c: Config, ranked: seq<Ranked>, i: nat)
    requires WeightsOk(e.objective.weights) && Unique(HypothesisIds(e.hypotheses)) && i < |e.hypotheses|
    requires forall r :: r in ranked ==> r in Listed(e, c, i)
    ensures forall r :: r in ranked ==> r.id != e.hypotheses[i].id
  {
    forall r | r in ranked
      ensures r.id != e.hypotheses[i].id
    {
      var j :| 0 <= j < i && r == RankOf(e, c, e.hypotheses[j]);
      assert HypothesisIds(e.hypotheses)[j] != HypothesisIds(e.hypotheses)[i];
    }
  }

  /** The eligible ones among the first `n` hypotheses, ranked. */
  ghost function Listed(e: Episode, c: Config, n: nat): set<Ranked>
    requires WeightsOk(e.objective.weights) && n <= |e.hypotheses|
  {
    set j | 0 <= j < n && Eligible(e, e.hypotheses[j]) :: RankOf(e, c, e.hypotheses[j])
  }

  lemma ElementsAppend(s: seq<Ranked>, r: Ranked)
    ensures Elements(s + [r]) == Elements(s) + {r}
  {
  }

  lemma AllListed(e: Episode, c: Config)
    requires WeightsOk(e.objective.weights)
    ensures Listed(e, c, |e.hypotheses|) == Candidates(e, c)
  {
    forall r | r in Candidates(e, c)
      ensures r in Listed(e, c, |e.hypotheses|)
    {
      var h :| h in e.hypotheses && Eligible(e, h) && r == RankOf(e, c, h);
      var j :| 0 <= j < |e.hypotheses| && e.hypotheses[j] == h;
    }
  }

  /** The pass over the hypotheses: each is ranked or blocked. */
  method Classify(e: Episode, c: Config) returns (candidates: seq<Ranked>, blocked: seq<BlockedEntry>)
    requires WeightsOk(e.objective.weights) && Unique(HypothesisIds(e.hypotheses))
    ensures DistinctList(candidates) && Elements(candidates) == Listed(e, c, |e.hypotheses|)
    ensures forall h :: h in e.hypotheses && !Eligible(e, h) ==> exists b :: b in blocked && b.hypothesis == h.id
    ensures forall b :: b in blocked ==> exists h :: h in e.hypotheses && BlockedFor(e, h, b)
  {
    candidates, blocked := [], [];
    for i := 0 to |e.hypotheses|
      invariant DistinctList(candidates) && Elements(candidates) == Listed(e, c, i)
      invariant forall j :: 0 <= j < i && !Eligible(e, e.hypotheses[j]) ==>
                              exists b :: b in blocked && b.hypothesis == e.hypotheses[j].id
      invariant forall b :: b in blocked ==> exists h :: h in e.hypotheses && BlockedFor(e, h, b)
    {
      var h := e.hypotheses[i];
      var reasons := IneligibilityReasons(e, h);
      if reasons != [] {
        var entry := BlockedEntry(h.id, reasons);
        assert BlockedFor(e, h, entry);
        blocked := blocked + [entry];
        continue;
      }
      RankedApart(e, c, candidates, i);
      ElementsAppend(candidates, RankOf(e, c, h));
      candidates := candidates + [RankOf(e, c, h)];
    }
  }

  method MakePlan(e: Episode, c: Config, limit: nat) returns (p: Plan)
    requires limit >= 1 && WeightsOk(e.objective.weights) && Unique(HypothesisIds(e.hypotheses))
    ensures IsPlan(e, c, limit, p)
  {
    var plateau := Plateau(e, c);
    if Exhausted(e.budget) {
      return Plan(BudgetExhausted, plateau, [], []);
    }
    var candidates, blocked := Classify(e, c);
    AllListed(e, c);
    var selected := SelectDiverse(candidates, limit, EffectiveWeights(e, c).diversityBonus);
    var mode := if selected != [] then BusyMode(e, c) else IdleMode(e);
    return Plan(mode, plateau, selected, blocked);
  }

  /** What a plan selects is an eligible hypothesis of the episode. */
  lemma SelectionIsEligible(e: Episode, c: Config, limit: nat, p: Plan) returns (at: nat)
    requires WeightsOk(e.objective.weights) && Unique(HypothesisIds(e.hypotheses))
    requires IsPlan(e, c, limit, p) && p.selected != [] && limit >= 1
    ensures Locate(e.hypotheses, p.selected[0].id) == Some(at)
    ensures at < |e.hypotheses| && e.hypotheses[at].id == p.selected[0].id && Eligible(e, e.hypotheses[at])
  {
    assert p.selected[0] in Candidates(e, c);
    var h :| h in e.hypotheses && Eligible(e, h) && p.selected[0] == RankOf(e, c, h);
    at :| 0 <= at < |e.hypotheses| && e.hypotheses[at] == h;
    LocateUnique(e.hypotheses, at);
  }

  /** A plan selects nothing exactly when the budget is exhausted or no hypothesis is eligible. */
  lemma EmptyPlan(e: Episode, c: Config, limit: nat, p: Plan)
    requires WeightsOk(e.objective.weights) && IsPlan(e, c, limit, p) && limit >= 1
    ensures p.selected == [] <==> Exhausted(e.budget) || forall h :: h in e.hypotheses ==> !Eligible(e, h)
  {
    if !Exhausted(e.budget) {
      forall h | h in e.hypotheses && Eligible(e, h)
        ensures p.selected != []
      {
        assert RankOf(e, c, h) in Candidates(e, c);
      }
    }
  }
}
