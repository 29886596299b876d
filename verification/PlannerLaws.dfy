/** What a plan means: the mode, the weights and the scores, spelled out, and how a score follows the measures. */
module PlannerLaws {
  import opened Basics
  import opened EpisodeModel
  import opened EpisodeUpdates
  import opened Planner
  import opened Results

  // ---- eligibility -------------------------------------------------------------------------

  /** With distinct ids, a hypothesis is supported exactly if one of that id has that status. */
  lemma SupportedMeans(e: Episode, id: string)
    requires Unique(HypothesisIds(e.hypotheses))
    ensures IsSupported(e, id) <==> exists h :: h in e.hypotheses && h.id == id && h.status.Supported?
  {
    var at := Locate(e.hypotheses, id);
    forall h | h in e.hypotheses && h.id == id
      ensures at.Some? && e.hypotheses[at.value] == h
    {
      var i :| 0 <= i < |e.hypotheses| && e.hypotheses[i] == h;
      LocateUnique(e.hypotheses, i);
    }
    assert at.None? || e.hypotheses[at.value] in e.hypotheses;
  }

  /** The earlier attempt ran the same probe on the same revision of the hypothesis, and did not fail. */
  predicate RanToAnEnd(earlier: Attempt, a: Attempt) {
    && earlier.hypothesis == a.hypothesis && earlier.revision == a.revision && earlier.probe == a.probe
    && !earlier.outcome.OutFailed?
  }

  /** The attempt ran the current probe of the hypothesis, and did not fail. */
  predicate Answered(a: Attempt, h: Hypothesis) {
    a.hypothesis == h.id && a.revision == h.revision && a.probe.probe == h.probe && !a.outcome.OutFailed?
  }

  /** The hypothesis itself, and what it may touch, are within the objective. */
  predicate Permitted(o: Objective, h: Hypothesis) {
    && h.status !in {Refuted, Blocked, Supported} && |h.blockers| == 0
    && h.measures.alignment >= o.minAlignment && h.probe.mode in o.modes
    && (forall c :: c in h.probe.capabilities ==> c in o.capabilities)
    && (h.probe.mutation.NoMutation? || o.maxMutation.ExternalState? || h.probe.mutation == o.maxMutation)
  }

  /** There is budget for one more attempt at the cost. */
  predicate Affordable(b: Budget, cost: real) {
    b.usedAttempts < b.maxAttempts && b.usedIterations < b.maxIterations && b.usedCost + cost <= b.maxCost
  }

  /** Everything the hypothesis depends on is supported, and no node it is anchored at is too uncertain. */
  ghost predicate Grounded(e: Episode, h: Hypothesis) {
    && (forall d :: d in h.dependencies ==> exists g :: g in e.hypotheses && g.id == d && g.status.Supported?)
    && forall n :: n in e.surface.nodes && n.id in h.anchors ==> n.confidence >= e.objective.minAnchorConfidence
  }

  lemma SeenIsAnswered(attempts: seq<Attempt>, h: Hypothesis)
    ensures SeenTerminal(attempts, KeyFor(h)) <==> exists a :: a in attempts && Answered(a, h)
  {
    forall a | a in attempts
      ensures KeyOf(a) == KeyFor(h) && !a.outcome.OutFailed? <==> Answered(a, h)
    {
    }
  }

  lemma GroundedMeans(e: Episode, h: Hypothesis)
    requires Unique(HypothesisIds(e.hypotheses))
    ensures Grounded(e, h) <==> (forall d :: d in h.dependencies ==> IsSupported(e, d))
                                && forall a :: a in h.anchors ==> !WeakAnchor(e, a)
  {
    forall d | d in h.dependencies
      ensures IsSupported(e, d) <==> exists g :: g in e.hypotheses && g.id == d && g.status.Supported?
    {
      SupportedMeans(e, d);
    }
  }

  lemma PermittedMeans(o: Objective, h: Hypothesis)
    ensures Permitted(o, h) <==>
              && !h.status.Refuted? && !h.status.Blocked? && !h.status.Supported? && h.blockers == []
              && h.measures.alignment >= o.minAlignment && h.probe.mode in o.modes
              && (forall c :: c in h.probe.capabilities ==> c in o.capabilities)
              && Rank(h.probe.mutation) <= Rank(o.maxMutation)
  {
  }

  /** A hypothesis may be probed exactly if it is permitted, affordable and grounded, has an attempt left, and its
      current probe has not been answered. */
  lemma EligibleMeans(e: Episode, h: Hypothesis)
    requires Unique(HypothesisIds(e.hypotheses))
    ensures Eligible(e, h) <==>
              && Permitted(e.objective, h) && Affordable(e.budget, h.probe.cost) && Grounded(e, h)
              && |AttemptsAt(e.attempts, h.id)| < h.attemptLimit && !exists a :: a in e.attempts && Answered(a, h)
  {
    PermittedMeans(e.objective, h);
    GroundedMeans(e, h);
    AttemptsAreCounted(e.attempts, h.id);
    SeenIsAnswered(e.attempts, h);
  }

  // ---- modes -------------------------------------------------------------------------------

  /** Nothing more can be paid for. */
  predicate SpentUp(b: Budget) {
    b.usedAttempts >= b.maxAttempts || b.usedIterations >= b.maxIterations || b.usedCost >= b.maxCost
  }

  /** There are hypotheses, and all are refuted, blocked or supported. */
  predicate AllDecided(e: Episode) {
    |e.hypotheses| > 0
    && forall i :: 0 <= i < |e.hypotheses| ==>
         var s := e.hypotheses[i].status; s.Refuted? || s.Blocked? || s.Supported?
  }

  ghost predicate NoneEligible(e: Episode) {
    forall i :: 0 <= i < |e.hypotheses| ==> !Eligible(e, e.hypotheses[i])
  }

  /** The last `window` attempts are there, none of them succeeded, and together they made little progress. */
  predicate Stuck(e: Episode, c: Config) {
    var n := |e.attempts|;
    && n >= c.plateauWindow
    && (forall i :: n - c.plateauWindow <= i < n ==> !e.attempts[i].outcome.OutSucceeded?)
    && ProgressSum(e.attempts[n - c.plateauWindow..]) <= c.plateauThreshold
  }

  lemma StuckIsPlateau(e: Episode, c: Config)
    ensures Plateau(e, c) <==> Stuck(e, c)
  {
    var n := |e.attempts|;
    if n >= c.plateauWindow {
      var recent := e.attempts[n - c.plateauWindow..];
      assert Recent(e.attempts, c.plateauWindow) == recent;
      forall i | n - c.plateauWindow <= i < n
        ensures e.attempts[i] in recent
      {
        assert recent[i - (n - c.plateauWindow)] == e.attempts[i];
      }
    }
  }

  /** The progress of a list is that of its parts. */
  lemma {:induction false} ProgressAddsUp(s: seq<Attempt>, t: seq<Attempt>)
    ensures ProgressSum(s + t) == ProgressSum(s) + ProgressSum(t)
    ensures forall a :: ProgressSum([a]) == a.progress
  {
    if t == [] {
      assert s + t == s;
    } else {
      var n := |t| - 1;
      ProgressAddsUp(s, t[..n]);
      assert (s + t)[..|s + t| - 1] == s + t[..n];
    }
  }

  lemma DecidedIsIdle(e: Episode)
    ensures IdleMode(e) == if AllDecided(e) then Complete else Stalled
  {
    if AllDecided(e) {
      forall h | h in e.hypotheses
        ensures IsTerminal(h.status)
      {
        var i :| 0 <= i < |e.hypotheses| && e.hypotheses[i] == h;
      }
    } else if e.hypotheses != [] {
      var i :| 0 <= i < |e.hypotheses| && !IsTerminal(e.hypotheses[i].status);
      assert e.hypotheses[i] in e.hypotheses;
    }
  }

  lemma NobodyIsNone(e: Episode)
    ensures (forall h :: h in e.hypotheses ==> !Eligible(e, h)) <==> NoneEligible(e)
  {
    if NoneEligible(e) {
      forall h | h in e.hypotheses
        ensures !Eligible(e, h)
      {
        var i :| 0 <= i < |e.hypotheses| && e.hypotheses[i] == h;
      }
    } else {
      var i :| 0 <= i < |e.hypotheses| && Eligible(e, e.hypotheses[i]);
      assert e.hypotheses[i] in e.hypotheses;
    }
  }

  lemma EmptyMeans(e: Episode, c: Config, limit: nat, p: Plan)
    requires WeightsOk(e.objective.weights) && IsPlan(e, c, limit, p) && limit >= 1
    ensures p.selected == [] <==> SpentUp(e.budget) || NoneEligible(e)
  {
    EmptyPlan(e, c, limit, p);
    NobodyIsNone(e);
  }

  lemma PlannedMode(e: Episode, c: Config, limit: nat, p: Plan)
    requires WeightsOk(e.objective.weights) && IsPlan(e, c, limit, p)
    ensures p.plateau == Plateau(e, c)
    ensures p.mode == if Exhausted(e.budget) then BudgetExhausted
                      else if p.selected != [] then BusyMode(e, c) else IdleMode(e)
  {
  }

  /** What a plan's mode says about the episode: which of budget, hypotheses and recent attempts it answers to. */
  lemma ModeMeans(e: Episode, c: Config, limit: nat, p: Plan)
    requires WeightsOk(e.objective.weights) && IsPlan(e, c, limit, p) && limit >= 1
    ensures p.plateau == Stuck(e, c)
    ensures p.mode.BudgetExhausted? <==> SpentUp(e.budget)
    ensures p.mode.Complete? <==> !SpentUp(e.budget) && NoneEligible(e) && AllDecided(e)
    ensures p.mode.Stalled? <==> !SpentUp(e.budget) && NoneEligible(e) && !AllDecided(e)
    ensures p.mode.PlateauRecovery? <==> !SpentUp(e.budget) && !NoneEligible(e) && Stuck(e, c)
    ensures p.mode.Exploit? <==>
              && !SpentUp(e.budget) && !NoneEligible(e) && !Stuck(e, c)
              && |e.attempts| > 0 && e.attempts[|e.attempts| - 1].progress >= c.productiveThreshold
    ensures p.selected == [] <==> SpentUp(e.budget) || NoneEligible(e)
  {
    PlannedMode(e, c, limit, p);
    StuckIsPlateau(e, c);
    EmptyMeans(e, c, limit, p);
    ModeFits(e, c, p);
  }

  lemma ModeFits(e: Episode, c: Config, p: Plan)
    requires p.selected == [] <==> SpentUp(e.budget) || NoneEligible(e)
    requires p.mode == if Exhausted(e.budget) then BudgetExhausted
                       else if p.selected != [] then BusyMode(e, c) else IdleMode(e)
    ensures p.mode.BudgetExhausted? <==> SpentUp(e.budget)
    ensures p.mode.Complete? <==> !SpentUp(e.budget) && NoneEligible(e) && AllDecided(e)
    ensures p.mode.Stalled? <==> !SpentUp(e.budget) && NoneEligible(e) && !AllDecided(e)
    ensures p.mode.PlateauRecovery? <==> !SpentUp(e.budget) && !NoneEligible(e) && Stuck(e, c)
    ensures p.mode.Exploit? <==>
              && !SpentUp(e.budget) && !NoneEligible(e) && !Stuck(e, c)
              && |e.attempts| > 0 && e.attempts[|e.attempts| - 1].progress >= c.productiveThreshold
  {
    StuckIsPlateau(e, c);
    DecidedIsIdle(e);
  }

  // ---- weights -----------------------------------------------------------------------------

  /** A weight that is lifted, if at all, by a factor, and at most to 10. */
  predicate Lifted(lifts: bool, x: real, factor: real, y: real) {
    y == if !lifts then x else if x * factor <= 10.0 then x * factor else 10.0
  }

  /** Without progress the weights turn to information, novelty and diversity; after a productive attempt to impact,
      evidence and verifiability; the others never change. */
  lemma WeightsAdapt(e: Episode, c: Config)
    ensures var b, w := e.objective.weights, EffectiveWeights(e, c);
            var stuck := Stuck(e, c);
            var productive := !stuck && |e.attempts| > 0
              && e.attempts[|e.attempts| - 1].progress >= c.productiveThreshold;
            && Lifted(stuck, b.informationGain, 1.35, w.informationGain) && Lifted(stuck, b.novelty, 1.5, w.novelty)
            && Lifted(stuck, b.redundancy, 1.3, w.redundancy) && Lifted(stuck, b.plateauBonus, 1.5, w.plateauBonus)
            && Lifted(productive, b.impact, 1.1, w.impact)
            && Lifted(productive, b.evidenceStrength, 1.1, w.evidenceStrength)
            && Lifted(productive, b.causalVerifiability, 1.25, w.causalVerifiability)
            && w.reachability == b.reachability && w.transferability == b.transferability && w.cost == b.cost
            && w.blastRadius == b.blastRadius && w.diversityBonus == b.diversityBonus
            && w.retryPenalty == b.retryPenalty
  {
    StuckIsPlateau(e, c);
  }

  // ---- scores ------------------------------------------------------------------------------

  lemma TotalNext(ws: seq<real>, x: real)
    ensures Total(ws + [x]) == Total(ws) + x
  {
    assert (ws + [x])[..|ws|] == ws;
  }

  lemma WeightedNext(ws: seq<real>, vs: seq<real>, x: real, y: real)
    requires |vs| == |ws|
    ensures Weighted(ws + [x], vs + [y]) == Weighted(ws, vs) + x * y
  {
    assert (ws + [x])[..|ws|] == ws && (vs + [y])[..|vs|] == vs;
  }

  lemma ThreeTerms(a: real, b: real, c: real, x: real, y: real, z: real)
    ensures Total([a, b, c]) == a + b + c && Weighted([a, b, c], [x, y, z]) == a * x + b * y + c * z
  {
    TotalNext([], a);
    TotalNext([a], b);
    TotalNext([a, b], c);
    WeightedNext([], [], a, x);
    WeightedNext([a], [x], b, y);
    WeightedNext([a, b], [x, y], c, z);
    assert [] + [a] == [a] && [a] + [b] == [a, b] && [a, b] + [c] == [a, b, c];
    assert [] + [x] == [x] && [x] + [y] == [x, y] && [x, y] + [z] == [x, y, z];
  }

  lemma FourMoreTerms(
    ws: seq<real>, vs: seq<real>, a: real, b: real, c: real, d: real, x: real, y: real, z: real, u: real)
    requires |vs| == |ws|
    ensures Total(ws + [a, b, c, d]) == Total(ws) + a + b + c + d
    ensures Weighted(ws + [a, b, c, d], vs + [x, y, z, u]) == Weighted(ws, vs) + a * x + b * y + c * z + d * u
  {
    TotalNext(ws, a);
    TotalNext(ws + [a], b);
    TotalNext(ws + [a] + [b], c);
    TotalNext(ws + [a] + [b] + [c], d);
    WeightedNext(ws, vs, a, x);
    WeightedNext(ws + [a], vs + [x], b, y);
    WeightedNext(ws + [a] + [b], vs + [x] + [y], c, z);
    WeightedNext(ws + [a] + [b] + [c], vs + [x] + [y] + [z], d, u);
    assert ws + [a, b, c, d] == ws + [a] + [b] + [c] + [d] && vs + [x, y, z, u] == vs + [x] + [y] + [z] + [u];
  }

  /** The weighted sum of the seven reward measures. */
  function Rewards(w: Weights, m: Measures): real {
    w.impact * m.impact + w.reachability * m.reachability + w.evidenceStrength * m.evidenceStrength
    + w.informationGain * m.informationGain + w.novelty * m.novelty + w.causalVerifiability * m.causalVerifiability
    + w.transferability * m.transferability
  }

  /** The weighted sum of the three penalty measures. */
  function Penalties(w: Weights, m: Measures): real {
    w.cost * m.cost + w.blastRadius * m.blastRadius + w.redundancy * m.redundancy
  }

  lemma TermsMean(w: Weights, m: Measures)
    ensures Weighted(RewardWeights(w), RewardValues(m)) == Rewards(w, m)
    ensures Weighted(PenaltyWeights(w), PenaltyValues(m)) == Penalties(w, m)
    ensures Total(RewardWeights(w)) == RewardWeight(w) && Total(PenaltyWeights(w)) == PenaltyWeight(w)
  {
    ThreeTerms(w.impact, w.reachability, w.evidenceStrength, m.impact, m.reachability, m.evidenceStrength);
    FourMoreTerms([w.impact, w.reachability, w.evidenceStrength], [m.impact, m.reachability, m.evidenceStrength],
                  w.informationGain, w.novelty, w.causalVerifiability, w.transferability,
                  m.informationGain, m.novelty, m.causalVerifiability, m.transferability);
    assert RewardWeights(w) == [w.impact, w.reachability, w.evidenceStrength]
                               + [w.informationGain, w.novelty, w.causalVerifiability, w.transferability];
    assert RewardValues(m) == [m.impact, m.reachability, m.evidenceStrength]
                              + [m.informationGain, m.novelty, m.causalVerifiability, m.transferability];
    ThreeTerms(w.cost, w.blastRadius, w.redundancy, m.cost, m.blastRadius, m.redundancy);
  }

  /** The attempts on a hypothesis. */
  ghost function AttemptsAt(attempts: seq<Attempt>, id: string): set<nat> {
    set i | 0 <= i < |attempts| && attempts[i].hypothesis == id
  }

  lemma {:induction false} AttemptsAreCounted(attempts: seq<Attempt>, id: string)
    ensures AttemptsOn(attempts, id) == |AttemptsAt(attempts, id)|
  {
    if attempts == [] {
      assert AttemptsAt(attempts, id) == {};
    } else {
      var n := |attempts| - 1;
      AttemptsAreCounted(attempts[..n], id);
      assert AttemptsAt(attempts, id)
          == AttemptsAt(attempts[..n], id) + (if attempts[n].hypothesis == id then {n} else {});
    }
  }

  /** Some attempt from the given one on is about a hypothesis of the family. */
  ghost predicate TriedSince(e: Episode, start: int, family: string) {
    exists i, j {:trigger e.attempts[i], e.hypotheses[j]} ::
      && 0 <= i < |e.attempts| && start <= i && 0 <= j < |e.hypotheses|
      && e.hypotheses[j].id == e.attempts[i].hypothesis && e.hypotheses[j].family == family
  }

  lemma AttemptedFamily(e: Episode, start: nat, i: nat, j: nat)
    requires Unique(HypothesisIds(e.hypotheses)) && start <= i < |e.attempts| && j < |e.hypotheses|
    requires e.hypotheses[j].id == e.attempts[i].hypothesis
    ensures e.hypotheses[j].family in FamiliesOf(e, e.attempts[start..])
  {
    LocateUnique(e.hypotheses, j);
    assert e.attempts[start..][i - start] == e.attempts[i];
    assert e.attempts[i] in e.attempts[start..];
  }

  lemma FamilyTried(e: Episode, start: nat, family: string)
    requires Unique(HypothesisIds(e.hypotheses)) && start <= |e.attempts|
    ensures family in FamiliesOf(e, e.attempts[start..]) <==> TriedSince(e, start, family)
  {
    forall i, j | start <= i < |e.attempts| && 0 <= j < |e.hypotheses| && e.hypotheses[j].id == e.attempts[i].hypothesis
      ensures e.hypotheses[j].family in FamiliesOf(e, e.attempts[start..])
    {
      AttemptedFamily(e, start, i, j);
    }
    if family in FamiliesOf(e, e.attempts[start..]) {
      var i, j := FamilyAttempt(e, start, family);
    }
  }

  lemma FamilyAttempt(e: Episode, start: nat, family: string) returns (i: nat, j: nat)
    requires start <= |e.attempts| && family in FamiliesOf(e, e.attempts[start..])
    ensures start <= i < |e.attempts| && j < |e.hypotheses|
    ensures e.hypotheses[j].id == e.attempts[i].hypothesis && e.hypotheses[j].family == family
  {
    var a :| a in e.attempts[start..] && Locate(e.hypotheses, a.hypothesis).Some?
      && e.hypotheses[Locate(e.hypotheses, a.hypothesis).value].family == family;
    var k :| 0 <= k < |e.attempts[start..]| && e.attempts[start..][k] == a;
    i, j := start + k, Locate(e.hypotheses, a.hypothesis).value;
  }

  function RewardWeight(w: Weights): real {
    w.impact + w.reachability + w.evidenceStrength + w.informationGain + w.novelty + w.causalVerifiability
    + w.transferability
  }

  function PenaltyWeight(w: Weights): real {
    w.cost + w.blastRadius + w.redundancy
  }

  /** The bonus for a family not tried lately, and the one for a family never tried when progress stalled. */
  ghost function FamilyBonus(e: Episode, c: Config, w: Weights, family: string): real {
    (if TriedSince(e, |e.attempts| - c.recentWindow, family) then 0.0 else w.diversityBonus)
    + (if Stuck(e, c) && !TriedSince(e, 0, family) then w.plateauBonus else 0.0)
  }

  /** The bonuses for the family, less the penalty for every earlier attempt. */
  ghost function BonusesDue(e: Episode, c: Config, w: Weights, h: Hypothesis): real {
    FamilyBonus(e, c, w, h.family) - RetryPenalty(w, |AttemptsAt(e.attempts, h.id)|)
  }

  lemma RecentMeans(e: Episode, window: nat, family: string)
    requires Unique(HypothesisIds(e.hypotheses))
    ensures family in FamiliesOf(e, Recent(e.attempts, window)) <==> TriedSince(e, |e.attempts| - window, family)
  {
    var start := if |e.attempts| <= window then 0 else |e.attempts| - window;
    assert Recent(e.attempts, window) == e.attempts[start..];
    FamilyTried(e, start, family);
  }

  /** The first attempt costs nothing; each one after it costs the retry penalty once more. */
  lemma EveryRetryCosts(w: Weights, attempts: nat)
    ensures RetryPenalty(w, 0) == 0.0
    ensures RetryPenalty(w, attempts + 1) == RetryPenalty(w, attempts) + w.retryPenalty
  {
    var n := attempts as real;
    assert (attempts + 1) as real == n + 1.0;
    assert w.retryPenalty * (n + 1.0) == w.retryPenalty * n + w.retryPenalty;
  }

  lemma FamilyBonusMeans(e: Episode, c: Config, family: string)
    requires Unique(HypothesisIds(e.hypotheses))
    ensures FamilyBonuses(e, c, family) == FamilyBonus(e, c, EffectiveWeights(e, c), family)
  {
    RecentMeans(e, c.recentWindow, family);
    FamilyTried(e, 0, family);
    assert e.attempts[0..] == e.attempts;
    StuckIsPlateau(e, c);
  }

  lemma BonusesMean(e: Episode, c: Config, w: Weights, h: Hypothesis)
    requires Unique(HypothesisIds(e.hypotheses)) && w == EffectiveWeights(e, c)
    ensures Bonuses(e, c, h) == BonusesDue(e, c, w, h)
  {
    FamilyBonusMeans(e, c, h.family);
    AttemptsAreCounted(e.attempts, h.id);
  }

  // ---- better measures, higher scores ------------------------------------------------------

  lemma ProductGrows(w: real, x: real, y: real)
    requires w >= 0.0 && x <= y
    ensures Product(w, x) <= Product(w, y)
    ensures w > 0.0 && x < y ==> Product(w, x) < Product(w, y)
  {
    var gap := ScalingGap(w, x, y);
  }

  /** No value is smaller, and if `strictly`, one that counts is larger. */
  ghost predicate Grown(ws: seq<real>, vs: seq<real>, us: seq<real>, strictly: bool) {
    && |vs| == |ws| && |us| == |ws|
    && (forall i :: 0 <= i < |ws| ==> ws[i] >= 0.0 && vs[i] <= us[i])
    && (strictly ==> exists i :: 0 <= i < |ws| && ws[i] > 0.0 && vs[i] < us[i])
  }

  lemma {:induction false} WeightedGrows(ws: seq<real>, vs: seq<real>, us: seq<real>, strictly: bool)
    requires Grown(ws, vs, us, strictly)
    ensures Weighted(ws, vs) <= Weighted(ws, us)
    ensures strictly ==> Weighted(ws, vs) < Weighted(ws, us)
  {
    if ws != [] {
      var n := |ws| - 1;
      ProductGrows(ws[n], vs[n], us[n]);
      WeightedGrows(ws[..n], vs[..n], us[..n], strictly && !(ws[n] > 0.0 && vs[n] < us[n]));
    }
  }

  lemma AverageGrows(ws: seq<real>, vs: seq<real>, us: seq<real>, strictly: bool)
    requires Grown(ws, vs, us, strictly) && Total(ws) > 0.0
    ensures Average(ws, vs) <= Average(ws, us)
    ensures strictly ==> Average(ws, vs) < Average(ws, us)
  {
    WeightedGrows(ws, vs, us, strictly);
    QuotientGrows(Weighted(ws, vs), Weighted(ws, us), Total(ws));
  }

  /** More of a reward that has any weight. */
  predicate MoreReward(w: Weights, m: Measures, n: Measures) {
    || (w.impact > 0.0 && n.impact < m.impact) || (w.reachability > 0.0 && n.reachability < m.reachability)
    || (w.evidenceStrength > 0.0 && n.evidenceStrength < m.evidenceStrength)
    || (w.informationGain > 0.0 && n.informationGain < m.informationGain) || (w.novelty > 0.0 && n.novelty < m.novelty)
    || (w.causalVerifiability > 0.0 && n.causalVerifiability < m.causalVerifiability)
    || (w.transferability > 0.0 && n.transferability < m.transferability)
  }

  /** Less of a penalty that has any weight. */
  predicate LessPenalty(w: Weights, m: Measures, n: Measures) {
    || (w.cost > 0.0 && m.cost < n.cost) || (w.blastRadius > 0.0 && m.blastRadius < n.blastRadius)
    || (w.redundancy > 0.0 && m.redundancy < n.redundancy)
  }

  /** At least as much of every reward, at most as much of every penalty. */
  predicate AtLeastAsGood(m: Measures, n: Measures) {
    && n.impact <= m.impact && n.reachability <= m.reachability && n.evidenceStrength <= m.evidenceStrength
    && n.informationGain <= m.informationGain && n.novelty <= m.novelty
    && n.causalVerifiability <= m.causalVerifiability && n.transferability <= m.transferability
    && m.cost <= n.cost && m.blastRadius <= n.blastRadius && m.redundancy <= n.redundancy
  }

  lemma RewardsGrow(w: Weights, m: Measures, n: Measures)
    requires WeightsOk(w) && AtLeastAsGood(m, n)
    ensures Grown(RewardWeights(w), RewardValues(n), RewardValues(m), MoreReward(w, m, n))
    ensures Grown(PenaltyWeights(w), PenaltyValues(m), PenaltyValues(n), LessPenalty(w, m, n))
  {
    var ws, vs, us := RewardWeights(w), RewardValues(n), RewardValues(m);
    if MoreReward(w, m, n) {
      var i := if w.impact > 0.0 && n.impact < m.impact then 0
               else if w.reachability > 0.0 && n.reachability < m.reachability then 1
               else if w.evidenceStrength > 0.0 && n.evidenceStrength < m.evidenceStrength then 2
               else if w.informationGain > 0.0 && n.informationGain < m.informationGain then 3
               else if w.novelty > 0.0 && n.novelty < m.novelty then 4
               else if w.causalVerifiability > 0.0 && n.causalVerifiability < m.causalVerifiability then 5 else 6;
      assert ws[i] > 0.0 && vs[i] < us[i];
    }
    var ps, qs, rs := PenaltyWeights(w), PenaltyValues(m), PenaltyValues(n);
    if LessPenalty(w, m, n) {
      var i := if w.cost > 0.0 && m.cost < n.cost then 0
               else if w.blastRadius > 0.0 && m.blastRadius < n.blastRadius then 1 else 2;
      assert ps[i] > 0.0 && qs[i] < rs[i];
    }
  }

  /** The average reward and the average penalty. */
  function AverageReward(w: Weights, m: Measures): real
    requires WeightsOk(w)
  {
    Average(RewardWeights(w), RewardValues(m))
  }

  function AveragePenalty(w: Weights, m: Measures): real
    requires WeightsOk(w)
  {
    Average(PenaltyWeights(w), PenaltyValues(m))
  }

  lemma AveragesGrow(w: Weights, m: Measures, n: Measures)
    requires WeightsOk(w) && AtLeastAsGood(m, n)
    ensures AverageReward(w, n) <= AverageReward(w, m) && AveragePenalty(w, m) <= AveragePenalty(w, n)
    ensures MoreReward(w, m, n) ==> AverageReward(w, n) < AverageReward(w, m)
    ensures LessPenalty(w, m, n) ==> AveragePenalty(w, m) < AveragePenalty(w, n)
  {
    RewardsGrow(w, m, n);
    AverageGrows(RewardWeights(w), RewardValues(n), RewardValues(m), MoreReward(w, m, n));
    AverageGrows(PenaltyWeights(w), PenaltyValues(m), PenaltyValues(n), LessPenalty(w, m, n));
  }

  /** Average reward less the scaled average penalty. */
  function Worth(w: Weights, scale: real, m: Measures): real
    requires WeightsOk(w)
  {
    AverageReward(w, m) - Product(scale, AveragePenalty(w, m))
  }

  lemma WorthGrows(w: Weights, scale: real, m: Measures, n: Measures)
    requires WeightsOk(w) && scale >= 0.0 && AtLeastAsGood(m, n)
    ensures Worth(w, scale, n) <= Worth(w, scale, m)
    ensures MoreReward(w, m, n) || (scale > 0.0 && LessPenalty(w, m, n)) ==> Worth(w, scale, n) < Worth(w, scale, m)
  {
    AveragesGrow(w, m, n);
    ProductGrows(scale, AveragePenalty(w, m), AveragePenalty(w, n));
  }

  /** The score but for the bonuses. */
  function Valued(worth: real): real {
    if worth > 0.0 then 100.0 * worth else 0.0
  }

  lemma ScoreParts(e: Episode, c: Config, w: Weights, h: Hypothesis)
    requires WeightsOk(e.objective.weights) && w == EffectiveWeights(e, c)
    ensures WeightsOk(w) && Score(e, c, h) == Valued(Worth(w, c.penaltyScale, h.measures)) + Bonuses(e, c, h)
  {
    EffectiveWeightsAreValid(e, c);
  }

  lemma SameBonuses(e: Episode, c: Config, g: Hypothesis, h: Hypothesis)
    requires g.family == h.family && AttemptsOn(e.attempts, g.id) == AttemptsOn(e.attempts, h.id)
    ensures Bonuses(e, c, g) == Bonuses(e, c, h)
  {
  }

  /** Of two hypotheses of a family with as many attempts, the one whose measures are at least as good scores at
      least as high; and higher, if it is better in a measure that counts and worth anything at all. */
  lemma BetterScoresHigher(e: Episode, c: Config, w: Weights, g: Hypothesis, h: Hypothesis)
    requires WeightsOk(e.objective.weights) && w == EffectiveWeights(e, c) && c.penaltyScale >= 0.0
    requires g.family == h.family && |AttemptsAt(e.attempts, g.id)| == |AttemptsAt(e.attempts, h.id)|
    requires AtLeastAsGood(g.measures, h.measures)
    ensures Score(e, c, h) <= Score(e, c, g) && WeightsOk(w)
    ensures (MoreReward(w, g.measures, h.measures) || (c.penaltyScale > 0.0 && LessPenalty(w, g.measures, h.measures)))
            && Worth(w, c.penaltyScale, g.measures) > 0.0
            ==> Score(e, c, h) < Score(e, c, g)
  {
    ScoreParts(e, c, w, g);
    ScoreParts(e, c, w, h);
    AttemptsAreCounted(e.attempts, g.id);
    AttemptsAreCounted(e.attempts, h.id);
    SameBonuses(e, c, g, h);
    WorthGrows(w, c.penaltyScale, g.measures, h.measures);
  }

  // ---- the score written out ---------------------------------------------------------------

  lemma AveragesMean(w: Weights, m: Measures)
    requires WeightsOk(w)
    ensures RewardWeight(w) > 0.0 && AverageReward(w, m) == Rewards(w, m) / RewardWeight(w)
    ensures PenaltyWeight(w) > 0.0 && AveragePenalty(w, m) == Penalties(w, m) / PenaltyWeight(w)
  {
    TermsMean(w, m);
  }

  /** The score is a hundred times the worth of the measures, never less than nothing, and the bonuses due. */
  lemma ScoreMeans(e: Episode, c: Config, w: Weights, h: Hypothesis)
    requires WeightsOk(e.objective.weights) && Unique(HypothesisIds(e.hypotheses)) && w == EffectiveWeights(e, c)
    ensures WeightsOk(w) && RewardWeight(w) > 0.0 && PenaltyWeight(w) > 0.0
    ensures AverageReward(w, h.measures) == Rewards(w, h.measures) / RewardWeight(w)
    ensures AveragePenalty(w, h.measures) == Penalties(w, h.measures) / PenaltyWeight(w)
    ensures Score(e, c, h) == Valued(Worth(w, c.penaltyScale, h.measures)) + BonusesDue(e, c, w, h)
  {
    ScoreParts(e, c, w, h);
    AveragesMean(w, h.measures);
    BonusesMean(e, c, w, h);
  }
}
