/** What a run of the simulation loop comes to: why it plans what it plans, why it ends, and how its hypotheses came to
    be supported. */
module SimulationLaws {
  import opened EpisodeModel
  import opened EpisodeUpdates
  import opened Planner
  import opened PlannerLaws
  import opened Results
  import opened Simulation
  import opened SimulationLoop

  // ---- triggers ----------------------------------------------------------------------------

  /** When the generator is asked, and what it is told: that the episode stalled, that progress did, or, if the run is
      to go on, that everything is decided. */
  lemma TriggerMeans(e: Episode, c: Config, p: Plan, goOn: bool)
    requires WeightsOk(e.objective.weights) && IsPlan(e, c, 1, p)
    ensures ExpansionTrigger(p.mode, goOn)
         == if SpentUp(e.budget) then None
            else if NoneEligible(e) then
              if !AllDecided(e) then Some(OnStalled) else if goOn then Some(OnRollover) else None
            else if Stuck(e, c) then Some(OnPlateau) else None
  {
    ModeMeans(e, c, 1, p);
  }

  // ---- endings -----------------------------------------------------------------------------

  /** The adapter ran out of answers for an eligible hypothesis. */
  ghost predicate AdapterRanOut(r: Setup, e: Episode, cycles: nat) {
    exists i ::
      0 <= i < |e.hypotheses| && Eligible(e, e.hypotheses[i]) && r.adapter(e, e.hypotheses[i], cycles).NoReplay?
  }

  lemma ExpansionHalts(r: Setup, e: Episode, p: Plan, cycles: nat, expansions: nat, halt: Halt)
    requires ExpansionEvent(r, e, p, cycles, expansions) == Some(Ends(Halted(halt)))
    ensures halt == HaltExpansions && r.generator.Some? && expansions >= r.limits.expansions
    ensures ExpansionTrigger(p.mode, r.limits.continueAfterComplete).Some?
  {
  }

  lemma ProbeHalts(r: Setup, e: Episode, h: Hypothesis, cycles: nat, halt: Halt)
    requires ProbeEvent(r, e, h, cycles) == Ends(Halted(halt))
    ensures halt == HaltAdapter && r.adapter(e, h, cycles).NoReplay?
  {
  }

  /** How an iteration can halt. */
  lemma HaltIsOneOf(r: Setup, e: Episode, p: Plan, at: nat, cycles: nat, expansions: nat, halt: Halt)
    requires NextEvent(r, e, p, cycles, expansions) == Ends(Halted(halt))
    requires p.selected != [] ==> Locate(e.hypotheses, p.selected[0].id) == Some(at) && at < |e.hypotheses|
    ensures || ExpansionEvent(r, e, p, cycles, expansions) == Some(Ends(Halted(halt)))
            || (p.selected == [] && halt == HaltFromPlan(p.mode))
            || (p.selected != [] && ProbeEvent(r, e, e.hypotheses[at], cycles) == Ends(Halted(halt)))
  {
  }

  /** An iteration that halts the run says why: the budget is spent; no hypothesis is eligible, and all are decided
      or not; the adapter ran out; or an expansion was called for that the limit rules out. */
  lemma HaltMeans(r: Setup, e: Episode, p: Plan, cycles: nat, expansions: nat, halt: Halt)
    requires Unique(HypothesisIds(e.hypotheses)) && LeadsTo(r, e, cycles, expansions, p, Ends(Halted(halt)))
    ensures SpentUp(e.budget) <==> halt == HaltBudget
    ensures halt == HaltComplete ==> NoneEligible(e) && AllDecided(e)
    ensures halt == HaltStalled ==> NoneEligible(e) && !AllDecided(e)
    ensures halt == HaltAdapter ==> !NoneEligible(e) && AdapterRanOut(r, e, cycles)
    ensures halt == HaltExpansions ==>
              && r.generator.Some? && expansions >= r.limits.expansions
              && (if NoneEligible(e) then AllDecided(e) ==> r.limits.continueAfterComplete else Stuck(e, r.config))
    ensures halt != HaltCycles
  {
    ModeMeans(e, r.config, 1, p);
    TriggerMeans(e, r.config, p, r.limits.continueAfterComplete);
    var at: nat := 0;
    if p.selected != [] {
      at := SelectionIsEligible(e, r.config, 1, p);
    }
    HaltIsOneOf(r, e, p, at, cycles, expansions, halt);
    if ExpansionEvent(r, e, p, cycles, expansions) == Some(Ends(Halted(halt))) {
      ExpansionHalts(r, e, p, cycles, expansions, halt);
    } else if p.selected != [] {
      ProbeHalts(r, e, e.hypotheses[at], cycles, halt);
    }
  }

  /** A run that halts before its cycles are used up halts for a reason its last episode shows. */
  lemma RunHaltsBecause(r: Setup, initial: Episode, t: nat, e: Episode, p: Plan, halt: Halt)
    requires Unique(HypothesisIds(e.hypotheses)) && RulesOf(r, initial).ends(t, e, p, Halted(halt))
    ensures halt == HaltBudget <==> SpentUp(e.budget)
    ensures halt == HaltComplete ==> NoneEligible(e) && AllDecided(e)
    ensures halt == HaltStalled ==> NoneEligible(e) && !AllDecided(e)
    ensures halt == HaltAdapter ==> !NoneEligible(e) && AdapterRanOut(r, e, Cycles(initial, e))
    ensures halt == HaltExpansions ==>
              && r.generator.Some? && t >= Cycles(initial, e) + r.limits.expansions
              && (if NoneEligible(e) then AllDecided(e) ==> r.limits.continueAfterComplete else Stuck(e, r.config))
  {
    assert EndsRun(r, initial, t, e, p, Halted(halt));
    var event :| Led(r, initial, t, e, p, event) && event == Ends(Halted(halt));
    var expansions :| t == Cycles(initial, e) + expansions
      && LeadsTo(r, e, Cycles(initial, e), expansions, p, event);
    HaltMeans(r, e, p, Cycles(initial, e), expansions, halt);
  }

  // ---- how support is earned ---------------------------------------------------------------

  /** The step appended an attempt on the hypothesis that succeeded. */
  predicate Succeeds(e: Episode, u: Episode, id: string) {
    |u.attempts| > |e.attempts| && u.attempts[|e.attempts|].hypothesis == id
    && u.attempts[|e.attempts|].outcome.OutSucceeded?
  }

  /** What is supported after the step was so before, is new with that status, or has just succeeded. */
  ghost predicate Earns(e: Episode, u: Episode) {
    forall id :: IsSupported(u, id) ==>
                   IsSupported(e, id) || id !in HypothesisIds(e.hypotheses) || Succeeds(e, u, id)
  }

  lemma SupportComesFrom(e: Episode, u: Episode, o: Observation, at: nat, id: string)
    requires Appended(e, u, Some(at)) && at < |e.hypotheses| && e.hypotheses[at].id == o.hypothesis
    requires u.hypotheses[at].status == StatusAfter(o)
    requires IsSupported(u, id) && id in HypothesisIds(e.hypotheses)
    ensures IsSupported(e, id) || (o.hypothesis == id && o.outcome.OutSucceeded?)
  {
    LocatedInPlace(e, u, Some(at), id);
  }

  lemma ObservedAt(e: Episode, o: Observation, attemptId: string, u: Episode, at: nat)
    requires o.hypothesis in HypothesisIds(e.hypotheses) && u == Observed(e, o, attemptId)
    requires Locate(e.hypotheses, o.hypothesis) == Some(at)
    ensures |e.hypotheses| <= |u.hypotheses| && u.hypotheses[at].status == StatusAfter(o)
    ensures u.attempts == e.attempts + [AttemptOf(e, o, e.hypotheses[at], attemptId)]
  {
  }

  lemma ObservedStatus(e: Episode, o: Observation, attemptId: string, u: Episode, id: string)
    requires ApplyObservation(e, o, attemptId) == Ok(u) && IsSupported(u, id) && id in HypothesisIds(e.hypotheses)
    ensures IsSupported(e, id) || Succeeds(e, u, id)
  {
    var at := Locate(e.hypotheses, o.hypothesis).value;
    ObservedInPlace(e, o, attemptId, u);
    ObservedAt(e, o, attemptId, u, at);
    SupportComesFrom(e, u, o, at, id);
  }

  lemma ExpandedStatus(e: Episode, b: Batch, digest: string, expansionId: string, u: Episode, id: string)
    requires ApplyExpansion(e, b, digest, expansionId) == Ok(u)
    requires IsSupported(u, id) && id in HypothesisIds(e.hypotheses)
    ensures IsSupported(e, id)
  {
    LocateUnique(u.hypotheses, Locate(e.hypotheses, id).value);
  }

  lemma ProbeEarns(r: Setup, e: Episode, h: Hypothesis, cycles: nat, u: Episode, id: string)
    requires ProbeEvent(r, e, h, cycles).Steps? && ProbeEvent(r, e, h, cycles).observed == u
    requires IsSupported(u, id) && id in HypothesisIds(e.hypotheses)
    ensures IsSupported(e, id) || Succeeds(e, u, id)
  {
    var o := r.adapter(e, h, cycles).observation;
    ObservedStatus(e, o, r.digests.attempt(e, o), u, id);
  }

  lemma GrowthEarns(r: Setup, e: Episode, plan: Plan, cycles: nat, expansions: nat, u: Episode, id: string)
    requires ExpansionEvent(r, e, plan, cycles, expansions) == Some(Grows(u))
    requires IsSupported(u, id) && id in HypothesisIds(e.hypotheses)
    ensures IsSupported(e, id)
  {
    var trigger := ExpansionTrigger(plan.mode, r.limits.continueAfterComplete).value;
    var b := r.generator.value(e, plan, trigger, r.limits.batch, cycles + expansions).batch;
    ExpandedStatus(e, b, r.digests.episode(e), r.digests.batch(b), u, id);
  }

  lemma GrowthWasOffered(r: Setup, e: Episode, plan: Plan, cycles: nat, expansions: nat, u: Episode)
    requires NextEvent(r, e, plan, cycles, expansions) == Grows(u)
    ensures ExpansionEvent(r, e, plan, cycles, expansions) == Some(Grows(u))
  {
  }

  lemma EventEarns(r: Setup, e: Episode, plan: Plan, cycles: nat, expansions: nat, event: Event, u: Episode)
    requires event == NextEvent(r, e, plan, cycles, expansions)
    requires event == Grows(u) || (event.Steps? && event.observed == u)
    ensures Earns(e, u)
  {
    forall id | IsSupported(u, id) && id in HypothesisIds(e.hypotheses)
      ensures IsSupported(e, id) || Succeeds(e, u, id)
    {
      if event.Steps? {
        var at := StepWasProbed(r, e, plan, cycles, expansions);
        ProbeEarns(r, e, e.hypotheses[at], cycles, u, id);
      } else {
        GrowthWasOffered(r, e, plan, cycles, expansions, u);
        GrowthEarns(r, e, plan, cycles, expansions, u, id);
      }
    }
  }

  lemma LinkEarns(r: Setup, initial: Episode, t: nat, e: Episode, plan: Plan, u: Episode)
    requires Link(r, initial, t, e, plan, u)
    ensures Earns(e, u)
  {
    var event :| Led(r, initial, t, e, plan, event) && (event == Grows(u) || (event.Steps? && event.observed == u));
    var expansions :| t == Cycles(initial, e) + expansions
      && LeadsTo(r, e, Cycles(initial, e), expansions, plan, event);
    EventEarns(r, e, plan, Cycles(initial, e), expansions, event, u);
  }

  /** The hypothesis came into the run supported, at the t-th step. */
  ghost predicate JoinsSupported(trace: seq<Episode>, t: nat, id: string) {
    0 < t < |trace| && id !in HypothesisIds(trace[t - 1].hypotheses) && IsSupported(trace[t], id)
  }

  /** The k-th attempt, not one of the first `start`, is on the hypothesis and succeeded. */
  predicate SucceededAt(attempts: seq<Attempt>, start: nat, k: nat, id: string) {
    start <= k < |attempts| && attempts[k].hypothesis == id && attempts[k].outcome.OutSucceeded?
  }

  lemma {:induction false} TraceEarns(trace: seq<Episode>, id: string)
    requires trace != [] && AttemptsGrow(trace) && IsSupported(trace[|trace| - 1], id)
    requires forall t :: 0 < t < |trace| ==> Earns(trace[t - 1], trace[t])
    ensures var first, last := |trace[0].attempts|, trace[|trace| - 1].attempts;
            || IsSupported(trace[0], id)
            || (exists t: nat :: JoinsSupported(trace, t, id))
            || exists k: nat :: SucceededAt(last, first, k, id)
  {
    var n := |trace| - 1;
    if n > 0 && !IsSupported(trace[0], id) {
      var e, u := trace[n - 1], trace[n];
      assert Earns(e, u);
      if IsSupported(e, id) {
        TraceEarns(trace[..n], id);
        if t: nat :| JoinsSupported(trace[..n], t, id) {
          assert JoinsSupported(trace, t, id);
        } else {
          var k: nat :| SucceededAt(e.attempts, |trace[0].attempts|, k, id);
          assert SucceededAt(u.attempts, |trace[0].attempts|, k, id);
        }
      } else if id !in HypothesisIds(e.hypotheses) {
        assert JoinsSupported(trace, n, id);
      } else {
        assert n - 1 == 0 || trace[0].attempts <= e.attempts;
        assert SucceededAt(u.attempts, |trace[0].attempts|, |e.attempts|, id);
      }
    }
  }

  /** Every link of a run earns what it supports. */
  ghost predicate LinksEarn(rules: Rules) {
    forall t: nat, e, plan, u {:trigger rules.link(t, e, plan, u)} :: rules.link(t, e, plan, u) ==> Earns(e, u)
  }

  lemma RulesEarn(r: Setup, initial: Episode)
    ensures LinksEarn(RulesOf(r, initial))
  {
    forall t: nat, e, plan, u | Link(r, initial, t, e, plan, u)
      ensures Earns(e, u)
    {
      LinkEarns(r, initial, t, e, plan, u);
    }
  }

  lemma RecordedEarns(
    rules: Rules, limits: Limits, initial: Episode, e: Episode, trace: seq<Episode>, plans: seq<Plan>,
    steps: seq<SimulationStep>, expansions: seq<ExpansionRecord>, id: string)
    requires Recorded(rules, limits, initial, e, trace, plans, steps, expansions) && LinksEarn(rules)
    requires IsSupported(e, id)
    ensures || IsSupported(initial, id)
            || (exists t: nat :: JoinsSupported(trace, t, id))
            || exists k: nat :: SucceededAt(e.attempts, |initial.attempts|, k, id)
  {
    forall t | 0 < t < |trace|
      ensures Earns(trace[t - 1], trace[t])
    {
      assert rules.link(t - 1, trace[t - 1], plans[t - 1], trace[t - 1 + 1]);
    }
    TraceEarns(trace, id);
  }

  /** Whatever its adapter and generator answer, a run never makes a hypothesis supported without evidence: one that is
      supported at the end was so at the start, was added so, or has an attempt of the run that succeeded. */
  lemma SupportIsEarned(
    r: Setup, initial: Episode, e: Episode, trace: seq<Episode>, plans: seq<Plan>, steps: seq<SimulationStep>,
    expansions: seq<ExpansionRecord>, id: string)
    requires Recorded(RulesOf(r, initial), r.limits, initial, e, trace, plans, steps, expansions) && IsSupported(e, id)
    ensures || IsSupported(initial, id)
            || (exists t: nat :: JoinsSupported(trace, t, id))
            || exists k: nat :: SucceededAt(e.attempts, |initial.attempts|, k, id)
  {
    RulesEarn(r, initial);
    RecordedEarns(RulesOf(r, initial), r.limits, initial, e, trace, plans, steps, expansions, id);
  }

  // ---- retries -----------------------------------------------------------------------------

  /** The attempts that run a probe an earlier attempt had run, on the same revision, to an end. */
  ghost function Retried(attempts: seq<Attempt>): set<nat> {
    set i | 0 <= i < |attempts| && exists j :: 0 <= j < i && RanToAnEnd(attempts[j], attempts[i])
  }

  lemma {:induction false} RetriesAreCounted(attempts: seq<Attempt>)
    ensures RetryViolations(attempts) == |Retried(attempts)|
  {
    if attempts == [] {
      assert Retried(attempts) == {};
    } else {
      RetriesAreCounted(attempts[..|attempts| - 1]);
      LastRetry(attempts);
    }
  }

  lemma SeenMeans(attempts: seq<Attempt>, a: Attempt)
    ensures SeenTerminal(attempts, KeyOf(a)) <==> exists j :: 0 <= j < |attempts| && RanToAnEnd(attempts[j], a)
  {
    if SeenTerminal(attempts, KeyOf(a)) {
      var b :| b in attempts && KeyOf(b) == KeyOf(a) && !b.outcome.OutFailed?;
      var j :| 0 <= j < |attempts| && attempts[j] == b;
      assert RanToAnEnd(attempts[j], a);
    }
    forall j | 0 <= j < |attempts| && RanToAnEnd(attempts[j], a)
      ensures SeenTerminal(attempts, KeyOf(a))
    {
      assert attempts[j] in attempts;
    }
  }

  lemma LastRetry(attempts: seq<Attempt>)
    requires attempts != []
    ensures var n := |attempts| - 1;
            |Retried(attempts)|
            == |Retried(attempts[..n])| + (if SeenTerminal(attempts[..n], KeyOf(attempts[n])) then 1 else 0)
  {
    var n := |attempts| - 1;
    SeenMeans(attempts[..n], attempts[n]);
    if SeenTerminal(attempts[..n], KeyOf(attempts[n])) {
      var j :| 0 <= j < n && RanToAnEnd(attempts[..n][j], attempts[n]);
      assert RanToAnEnd(attempts[j], attempts[n]);
      RetriedGrows(attempts, n, true);
    } else {
      assert forall j :: 0 <= j < n ==> attempts[..n][j] == attempts[j];
      RetriedGrows(attempts, n, false);
    }
  }

  lemma RetriedGrows(attempts: seq<Attempt>, n: nat, again: bool)
    requires n == |attempts| - 1
    requires again <==> exists j :: 0 <= j < n && RanToAnEnd(attempts[j], attempts[n])
    ensures |Retried(attempts)| == |Retried(attempts[..n])| + (if again then 1 else 0)
  {
    forall i | 0 <= i < n
      ensures i in Retried(attempts) <==> i in Retried(attempts[..n])
    {
      assert forall j :: 0 <= j <= i ==> attempts[..n][j] == attempts[j];
    }
    if again {
      assert Retried(attempts) == Retried(attempts[..n]) + {n};
    } else {
      assert Retried(attempts) == Retried(attempts[..n]);
    }
  }
}
