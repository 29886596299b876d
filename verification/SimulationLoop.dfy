/** The plan, probe, observe, replan loop: what one iteration does, and what every run is made of. */
module SimulationLoop {
  import opened Results
  import opened EpisodeModel
  import opened EpisodeUpdates
  import opened Planner
  import opened Simulation

  datatype AdapterReply = Observes(observation: Observation) | NoReplay | AdapterFails

  datatype GeneratorReply = Offers(batch: Batch) | NoBatch | GeneratorFails

  /** The n-th call of an adapter; its private state is a function of the run so far. */
  type Adapter = (Episode, Hypothesis, nat) -> AdapterReply

  /** The n-th call of a generator. */
  type Generator = (Episode, Plan, Trigger, nat, nat) -> GeneratorReply

  /** The hashes that name episodes, batches and attempts. */
  datatype Digests = Digests(
    episode: Episode -> string, batch: Batch -> string, attempt: (Episode, Observation) -> string)

  /** Whatever the adapter observes, it observes about the hypothesis it was asked to probe. */
  ghost predicate AnswersSelected(adapter: Adapter) {
    forall e, h, n :: adapter(e, h, n).Observes? ==> adapter(e, h, n).observation.hypothesis == h.id
  }

  datatype Halt = HaltComplete | HaltBudget | HaltStalled | HaltAdapter | HaltExpansions | HaltCycles

  /** How a run ends: with a result, or with an exception from the adapter, the generator or an update. */
  datatype Ending = Halted(halt: Halt) | Raises

  datatype SimulationStep = SimulationStep(
    cycle: nat, hypothesis: string, observation: string, attempt: string, progress: real)

  function HaltFromPlan(mode: Mode): Halt {
    if mode.Complete? then HaltComplete else if mode.BudgetExhausted? then HaltBudget else HaltStalled
  }

  function ExpansionTrigger(mode: Mode, continueAfterComplete: bool): Option<Trigger> {
    if mode.Stalled? then Some(OnStalled)
    else if mode.PlateauRecovery? then Some(OnPlateau)
    else if mode.Complete? && continueAfterComplete then Some(OnRollover)
    else None
  }

  /** The limits of one run. */
  datatype Limits = Limits(cycles: nat, expansions: nat, batch: nat, continueAfterComplete: bool)

  /** How one iteration of the loop ends. */
  datatype Event = Grows(expanded: Episode) | Steps(observed: Episode, step: SimulationStep) | Ends(ending: Ending)

  /** Everything a run is given besides its episode. */
  datatype Setup = Setup(
    adapter: Adapter, generator: Option<Generator>, config: Config, digests: Digests, limits: Limits)

  /** What asking for an expansion leads to, if it ends the iteration: nobody to ask and nothing on offer
      both leave the plan to be probed. */
  ghost function ExpansionEvent(r: Setup, e: Episode, plan: Plan, cycles: nat, expansions: nat): Option<Event> {
    var trigger := ExpansionTrigger(plan.mode, r.limits.continueAfterComplete);
    if trigger.None? || r.generator.None? then None
    else if expansions >= r.limits.expansions then Some(Ends(Halted(HaltExpansions)))
    else match r.generator.value(e, plan, trigger.value, r.limits.batch, cycles + expansions)
      case NoBatch => None
      case GeneratorFails => Some(Ends(Raises))
      case Offers(b) =>
        var expanded := ApplyExpansion(e, b, r.digests.episode(e), r.digests.batch(b));
        Some(if expanded.Ok? then Grows(expanded.value) else Ends(Raises))
  }

  /** What probing a hypothesis leads to. */
  ghost function ProbeEvent(r: Setup, e: Episode, h: Hypothesis, cycles: nat): Event {
    match r.adapter(e, h, cycles)
    case NoReplay => Ends(Halted(HaltAdapter))
    case AdapterFails => Ends(Raises)
    case Observes(o) =>
      var observed := ApplyObservation(e, o, r.digests.attempt(e, o));
      if observed.Ok? then
        Steps(observed.value, SimulationStep(cycles + 1, h.id, o.id, r.digests.attempt(e, o), o.progress))
      else Ends(Raises)
  }

  /** What an iteration with this plan does. */
  ghost function NextEvent(r: Setup, e: Episode, plan: Plan, cycles: nat, expansions: nat): Event {
    var expansion := ExpansionEvent(r, e, plan, cycles, expansions);
    if expansion.Some? then expansion.value
    else if plan.selected == [] then Ends(Halted(HaltFromPlan(plan.mode)))
    else
      var at := Locate(e.hypotheses, plan.selected[0].id);
      if at.Some? then ProbeEvent(r, e, e.hypotheses[at.value], cycles) else Ends(Raises)
  }

  // ---- one iteration -----------------------------------------------------------------------

  /** A valid episode that keeps what the initial one promised, if the adapter answers for the selected
      hypothesis. */
  ghost predicate Keeps(r: Setup, initial: Episode, e: Episode) {
    ValidEpisode(e) && (AnswersSelected(r.adapter) ==> Sound(initial, e))
  }

  /** How many observations the run from `initial` has applied when it reaches `e`. */
  ghost function Cycles(initial: Episode, e: Episode): nat {
    if |e.attempts| < |initial.attempts| then 0 else |e.attempts| - |initial.attempts|
  }

  /** Some plan for the episode leads to the event. */
  ghost predicate LeadsTo(r: Setup, e: Episode, cycles: nat, expansions: nat, plan: Plan, event: Event) {
    WeightsOk(e.objective.weights) && IsPlan(e, r.config, 1, plan) && event == NextEvent(r, e, plan, cycles, expansions)
  }

  /** The plan for the t-th episode leads to the event. */
  ghost predicate Led(r: Setup, initial: Episode, t: nat, e: Episode, plan: Plan, event: Event) {
    exists expansions :: t == Cycles(initial, e) + expansions
      && LeadsTo(r, e, Cycles(initial, e), expansions, plan, event)
  }

  /** The plan for the t-th episode leads to the next episode. */
  ghost predicate Link(r: Setup, initial: Episode, t: nat, e: Episode, plan: Plan, u: Episode) {
    exists event :: Led(r, initial, t, e, plan, event) && (event == Grows(u) || (event.Steps? && event.observed == u))
  }

  /** The plan for the t-th episode ends the run. */
  ghost predicate EndsRun(r: Setup, initial: Episode, t: nat, e: Episode, plan: Plan, ending: Ending) {
    exists event :: Led(r, initial, t, e, plan, event) && event == Ends(ending)
  }

  /** What the bookkeeping of a run needs to know about its episodes and iterations. */
  datatype Rules = Rules(
    keeps: Episode -> bool, led: (nat, Episode, Plan, Event) -> bool,
    link: (nat, Episode, Plan, Episode) -> bool, ends: (nat, Episode, Plan, Ending) -> bool)

  ghost predicate Faithful(r: Setup, initial: Episode, rules: Rules) {
    && (forall e {:trigger Keeps(r, initial, e)} :: rules.keeps(e) <==> Keeps(r, initial, e))
    && (forall t: nat, e, plan, event {:trigger Led(r, initial, t, e, plan, event)} ::
          rules.led(t, e, plan, event) <==> Led(r, initial, t, e, plan, event))
    && (forall t: nat, e, plan, u {:trigger Link(r, initial, t, e, plan, u)} ::
          Link(r, initial, t, e, plan, u) ==> rules.link(t, e, plan, u))
    && (forall t: nat, e, plan, ending {:trigger EndsRun(r, initial, t, e, plan, ending)} ::
          EndsRun(r, initial, t, e, plan, ending) ==> rules.ends(t, e, plan, ending))
  }

  ghost function RulesOf(r: Setup, initial: Episode): (rules: Rules)
    ensures Faithful(r, initial, rules)
  {
    Rules(e => Keeps(r, initial, e),
          (t: nat, e, plan, event) => Led(r, initial, t, e, plan, event),
          (t: nat, e, plan, u) => Link(r, initial, t, e, plan, u),
          (t: nat, e, plan, ending) => EndsRun(r, initial, t, e, plan, ending))
  }

  lemma ExpandedKeeps(
    r: Setup, initial: Episode, e: Episode, b: Batch, digest: string, expansionId: string, u: Episode)
    requires Keeps(r, initial, e) && ApplyExpansion(e, b, digest, expansionId) == Ok(u)
    ensures Keeps(r, initial, u) && u.attempts == e.attempts
  {
    if AnswersSelected(r.adapter) {
      ExpansionKeepsSound(initial, e, b, digest, expansionId, u);
    }
  }

  lemma ObservedKeeps(
    r: Setup, initial: Episode, e: Episode, o: Observation, attemptId: string, u: Episode, at: nat)
    requires Keeps(r, initial, e) && ApplyObservation(e, o, attemptId) == Ok(u)
    requires at < |e.hypotheses| && Locate(e.hypotheses, e.hypotheses[at].id) == Some(at)
             && Eligible(e, e.hypotheses[at])
    requires AnswersSelected(r.adapter) ==> o.hypothesis == e.hypotheses[at].id
    ensures Keeps(r, initial, u)
  {
    if AnswersSelected(r.adapter) {
      ObservationKeepsSound(initial, e, o, attemptId, u, at);
    }
  }

  lemma KeptIsUnique(r: Setup, initial: Episode, rules: Rules, e: Episode)
    requires Faithful(r, initial, rules) && rules.keeps(e)
    ensures Unique(HypothesisIds(e.hypotheses))
  {
    assert Keeps(r, initial, e);
  }

  /** Plans one probe; `at` is the position of the selected hypothesis. */
  method NextPlan(e: Episode, config: Config) returns (plan: Plan, at: nat)
    requires WeightsOk(e.objective.weights) && Unique(HypothesisIds(e.hypotheses))
    ensures IsPlan(e, config, 1, plan)
    ensures plan.selected != [] ==>
              at < |e.hypotheses| && e.hypotheses[at].id == plan.selected[0].id
              && Locate(e.hypotheses, e.hypotheses[at].id) == Some(at) && Eligible(e, e.hypotheses[at])
  {
    plan := MakePlan(e, config, 1);
    at := 0;
    if plan.selected != [] {
      ghost var chosen := SelectionIsEligible(e, config, 1, plan);
      at := Locate(e.hypotheses, plan.selected[0].id).value;
    }
  }

  /** Asks the generator for a batch and applies it. */
  method TryExpansion(r: Setup, e: Episode, plan: Plan, cycles: nat, expansions: nat, ghost initial: Episode,
      ghost rules: Rules)
    returns (event: Option<Event>)
    requires Faithful(r, initial, rules) && rules.keeps(e)
    ensures event == ExpansionEvent(r, e, plan, cycles, expansions)
    ensures event.Some? && event.value.Grows? ==>
              rules.keeps(event.value.expanded) && event.value.expanded.attempts == e.attempts
  {
    var trigger := ExpansionTrigger(plan.mode, r.limits.continueAfterComplete);
    if trigger.None? || r.generator.None? {
      return None;
    }
    if expansions >= r.limits.expansions {
      return Some(Ends(Halted(HaltExpansions)));
    }
    var offer := r.generator.value(e, plan, trigger.value, r.limits.batch, cycles + expansions);
    if !offer.Offers? {
      return if offer.NoBatch? then None else Some(Ends(Raises));
    }
    var digest, expansionId := r.digests.episode(e), r.digests.batch(offer.batch);
    var expanded := Expand(e, offer.batch, digest, expansionId);
    if expanded.Err? {
      return Some(Ends(Raises));
    }
    assert Keeps(r, initial, e);
    ExpandedKeeps(r, initial, e, offer.batch, digest, expansionId, expanded.value);
    return Some(Grows(expanded.value));
  }

  /** Applies what the adapter replied about the hypothesis at `at`. */
  method ApplyReply(
    r: Setup, e: Episode, at: nat, cycles: nat, reply: AdapterReply, ghost initial: Episode, ghost rules: Rules)
    returns (event: Event)
    requires Faithful(r, initial, rules) && rules.keeps(e)
    requires at < |e.hypotheses| && Locate(e.hypotheses, e.hypotheses[at].id) == Some(at)
             && Eligible(e, e.hypotheses[at])
    requires reply == r.adapter(e, e.hypotheses[at], cycles)
    ensures event == ProbeEvent(r, e, e.hypotheses[at], cycles)
    ensures event.Steps? ==> rules.keeps(event.observed)
  {
    if !reply.Observes? {
      return Ends(if reply.NoReplay? then Halted(HaltAdapter) else Raises);
    }
    var o := reply.observation;
    var attemptId := r.digests.attempt(e, o);
    var observed := Observe(e, o, attemptId);
    if observed.Err? {
      return Ends(Raises);
    }
    assert Keeps(r, initial, e);
    ObservedKeeps(r, initial, e, o, attemptId, observed.value, at);
    return Steps(observed.value, SimulationStep(cycles + 1, e.hypotheses[at].id, o.id, attemptId, o.progress));
  }

  /** Runs the probe of the hypothesis at `at` and applies what was observed. */
  method TryProbe(r: Setup, e: Episode, at: nat, cycles: nat, ghost initial: Episode, ghost rules: Rules)
    returns (event: Event)
    requires Faithful(r, initial, rules) && rules.keeps(e)
    requires at < |e.hypotheses| && Locate(e.hypotheses, e.hypotheses[at].id) == Some(at)
             && Eligible(e, e.hypotheses[at])
    ensures event == ProbeEvent(r, e, e.hypotheses[at], cycles)
    ensures event.Steps? ==> rules.keeps(event.observed)
  {
    var reply := r.adapter(e, e.hypotheses[at], cycles);
    event := ApplyReply(r, e, at, cycles, reply, initial, rules);
  }

  /** What a plan calls for before anything is probed: an expansion or an end. `at` is the position of the
      selected hypothesis. */
  method BeforeProbe(
    r: Setup, e: Episode, plan: Plan, at: nat, cycles: nat, expansions: nat, ghost initial: Episode, ghost rules: Rules)
    returns (event: Option<Event>)
    requires Faithful(r, initial, rules) && rules.keeps(e)
    requires plan.selected != [] ==>
               at < |e.hypotheses| && e.hypotheses[at].id == plan.selected[0].id
               && Locate(e.hypotheses, e.hypotheses[at].id) == Some(at) && Eligible(e, e.hypotheses[at])
    ensures event.Some? ==> event.value == NextEvent(r, e, plan, cycles, expansions) && !event.value.Steps?
    ensures event.Some? && event.value.Grows? ==>
              rules.keeps(event.value.expanded) && event.value.expanded.attempts == e.attempts
    ensures event.None? ==>
              plan.selected != [] && NextEvent(r, e, plan, cycles, expansions)
                == ProbeEvent(r, e, e.hypotheses[at], cycles)
  {
    event := TryExpansion(r, e, plan, cycles, expansions, initial, rules);
    if event.None? && plan.selected == [] {
      return Some(Ends(Halted(HaltFromPlan(plan.mode))));
    }
  }

  /** Carries a plan out: expand the frontier or probe, and apply what comes of it. `at` is the position of
      the selected hypothesis. */
  method CarryOut(
    r: Setup, e: Episode, plan: Plan, at: nat, cycles: nat, expansions: nat, ghost initial: Episode, ghost rules: Rules)
    returns (event: Event)
    requires Faithful(r, initial, rules) && rules.keeps(e)
    requires plan.selected != [] ==>
               at < |e.hypotheses| && e.hypotheses[at].id == plan.selected[0].id
               && Locate(e.hypotheses, e.hypotheses[at].id) == Some(at) && Eligible(e, e.hypotheses[at])
    ensures event == NextEvent(r, e, plan, cycles, expansions)
    ensures event.Grows? ==> rules.keeps(event.expanded)
    ensures event.Steps? ==> rules.keeps(event.observed)
  {
    var early := BeforeProbe(r, e, plan, at, cycles, expansions, initial, rules);
    if early.Some? {
      return early.value;
    }
    event := TryProbe(r, e, at, cycles, initial, rules);
  }

  /** One iteration. `cycles` and `expansions` count what the run has done so far. */
  method Iterate(r: Setup, e: Episode, cycles: nat, expansions: nat, ghost initial: Episode, ghost rules: Rules)
    returns (plan: Plan, event: Event)
    requires WeightsOk(e.objective.weights) && Faithful(r, initial, rules) && rules.keeps(e)
    ensures IsPlan(e, r.config, 1, plan) && event == NextEvent(r, e, plan, cycles, expansions)
    ensures event.Grows? ==> rules.keeps(event.expanded)
    ensures event.Steps? ==> rules.keeps(event.observed)
  {
    KeptIsUnique(r, initial, rules, e);
    var at: nat;
    plan, at := NextPlan(e, r.config);
    event := CarryOut(r, e, plan, at, cycles, expansions, initial, rules);
  }

  /** What an iteration may change. */
  ghost predicate Accounted(limits: Limits, e: Episode, cycles: nat, expansions: nat, event: Event) {
    match event
    case Grows(u) =>
      && u.objective == e.objective && u.attempts == e.attempts && expansions < limits.expansions
      && |u.expansions| == |e.expansions| + 1 && e.expansions <= u.expansions
    case Steps(u, step) =>
      && u.objective == e.objective && u.expansions == e.expansions
      && |u.attempts| == |e.attempts| + 1 && e.attempts <= u.attempts
      && step.cycle == cycles + 1 && step.attempt == u.attempts[|e.attempts|].id
    case Ends(ending) => ending != Halted(HaltCycles)
  }

  lemma EventIsAccounted(r: Setup, e: Episode, plan: Plan, cycles: nat, expansions: nat, event: Event)
    requires event == NextEvent(r, e, plan, cycles, expansions)
    ensures Accounted(r.limits, e, cycles, expansions, event)
  {
  }

  // ---- whole runs --------------------------------------------------------------------------

  /** The event is sanctioned by the rules. */
  ghost predicate Sanctioned(rules: Rules, t: nat, e: Episode, plan: Plan, event: Event) {
    match event
    case Grows(u) => rules.keeps(u) && rules.link(t, e, plan, u)
    case Steps(u, _) => rules.keeps(u) && rules.link(t, e, plan, u)
    case Ends(ending) => rules.ends(t, e, plan, ending)
  }

  lemma LeadIsLed(r: Setup, initial: Episode, e: Episode, cycles: nat, expansions: nat, plan: Plan, event: Event)
    requires LeadsTo(r, e, cycles, expansions, plan, event) && cycles == Cycles(initial, e)
    ensures Led(r, initial, cycles + expansions, e, plan, event)
  {
  }

  lemma NextIsLed(r: Setup, initial: Episode, e: Episode, cycles: nat, expansions: nat, plan: Plan)
    requires WeightsOk(e.objective.weights) && IsPlan(e, r.config, 1, plan) && cycles == Cycles(initial, e)
    ensures Led(r, initial, cycles + expansions, e, plan, NextEvent(r, e, plan, cycles, expansions))
  {
    LeadIsLed(r, initial, e, cycles, expansions, plan, NextEvent(r, e, plan, cycles, expansions));
  }

  lemma LedLinks(r: Setup, initial: Episode, rules: Rules, t: nat, e: Episode, plan: Plan, event: Event, u: Episode)
    requires Faithful(r, initial, rules) && rules.led(t, e, plan, event)
    requires event == Grows(u) || (event.Steps? && event.observed == u)
    ensures rules.link(t, e, plan, u)
  {
    assert Led(r, initial, t, e, plan, event);
    assert Link(r, initial, t, e, plan, u);
  }

  lemma LedEnds(r: Setup, initial: Episode, rules: Rules, t: nat, e: Episode, plan: Plan, ending: Ending)
    requires Faithful(r, initial, rules) && rules.led(t, e, plan, Ends(ending))
    ensures rules.ends(t, e, plan, ending)
  {
    assert Led(r, initial, t, e, plan, Ends(ending));
    assert EndsRun(r, initial, t, e, plan, ending);
  }

  /** One iteration, accounted for; its plan leads to what it does. */
  method Proceed(r: Setup, e: Episode, cycles: nat, expansions: nat, ghost initial: Episode, ghost rules: Rules)
    returns (plan: Plan, event: Event)
    requires WeightsOk(e.objective.weights) && Faithful(r, initial, rules) && rules.keeps(e)
    requires cycles == Cycles(initial, e)
    ensures rules.led(cycles + expansions, e, plan, event) && Accounted(r.limits, e, cycles, expansions, event)
    ensures event.Grows? ==> rules.keeps(event.expanded)
    ensures event.Steps? ==> rules.keeps(event.observed)
  {
    plan, event := Iterate(r, e, cycles, expansions, initial, rules);
    EventIsAccounted(r, e, plan, cycles, expansions, event);
    NextIsLed(r, initial, e, cycles, expansions, plan);
  }

  /** One iteration, sanctioned by the rules. */
  method Act(r: Setup, e: Episode, cycles: nat, expansions: nat, ghost initial: Episode, ghost rules: Rules)
    returns (plan: Plan, event: Event)
    requires WeightsOk(e.objective.weights) && Faithful(r, initial, rules) && rules.keeps(e)
    requires cycles == Cycles(initial, e)
    ensures Sanctioned(rules, cycles + expansions, e, plan, event) && Accounted(r.limits, e, cycles, expansions, event)
  {
    plan, event := Proceed(r, e, cycles, expansions, initial, rules);
    ghost var t := cycles + expansions;
    match event {
      case Ends(ending) => LedEnds(r, initial, rules, t, e, plan, ending);
      case Grows(u) => LedLinks(r, initial, rules, t, e, plan, event, u);
      case Steps(u, _) => LedLinks(r, initial, rules, t, e, plan, event, u);
    }
  }

  /** Every episode of the trace is kept, and linked to the one before it by a plan. */
  ghost predicate Chained(rules: Rules, trace: seq<Episode>, plans: seq<Plan>) {
    && |plans| >= |trace| - 1
    && (forall t :: 0 <= t < |trace| ==> rules.keeps(trace[t]))
    && (forall t :: 0 <= t < |trace| - 1 ==> rules.link(t, trace[t], plans[t], trace[t + 1]))
  }

  /** Attempts are only ever appended. */
  ghost predicate AttemptsGrow(trace: seq<Episode>) {
    forall s, t :: 0 <= s < t < |trace| ==> trace[s].attempts <= trace[t].attempts
  }

  /** The recorded steps belong to the attempts added since the run began. */
  ghost predicate StepsRecorded(initial: Episode, e: Episode, steps: seq<SimulationStep>) {
    && |e.attempts| == |initial.attempts| + |steps|
    && forall k :: 0 <= k < |steps| ==>
         steps[k].cycle == k + 1 && steps[k].attempt == e.attempts[|initial.attempts| + k].id
  }

  /** A run from the initial episode to `e`: every update is linked to its plan, and has its step or
      expansion record. */
  ghost predicate Recorded(
    rules: Rules, limits: Limits, initial: Episode, e: Episode, trace: seq<Episode>, plans: seq<Plan>,
    steps: seq<SimulationStep>, expansions: seq<ExpansionRecord>)
  {
    && trace != [] && trace[0] == initial && trace[|trace| - 1] == e && e.objective == initial.objective
    && Chained(rules, trace, plans) && AttemptsGrow(trace)
    && |trace| == |steps| + |expansions| + 1 && |steps| <= limits.cycles && |expansions| <= limits.expansions
    && StepsRecorded(initial, e, steps) && e.expansions == initial.expansions + expansions
  }

  lemma GrownIsRecorded(
    rules: Rules, limits: Limits, initial: Episode, e: Episode, trace: seq<Episode>, plans: seq<Plan>,
    steps: seq<SimulationStep>, expansions: seq<ExpansionRecord>, plan: Plan, u: Episode)
    requires Recorded(rules, limits, initial, e, trace, plans, steps, expansions) && |plans| == |trace| - 1
    requires Sanctioned(rules, |plans|, e, plan, Grows(u)) && Accounted(limits, e, |steps|, |expansions|, Grows(u))
    ensures Recorded(rules, limits, initial, u, trace + [u], plans + [plan], steps,
                     expansions + [u.expansions[|u.expansions| - 1]])
  {
    assert u.expansions == e.expansions + [u.expansions[|u.expansions| - 1]];
  }

  lemma SteppedIsRecorded(
    rules: Rules, limits: Limits, initial: Episode, e: Episode, trace: seq<Episode>, plans: seq<Plan>,
    steps: seq<SimulationStep>, expansions: seq<ExpansionRecord>, plan: Plan, u: Episode, step: SimulationStep)
    requires Recorded(rules, limits, initial, e, trace, plans, steps, expansions) && |plans| == |trace| - 1
    requires Sanctioned(rules, |plans|, e, plan, Steps(u, step)) && |steps| < limits.cycles
    requires Accounted(limits, e, |steps|, |expansions|, Steps(u, step))
    ensures Recorded(rules, limits, initial, u, trace + [u], plans + [plan], steps + [step], expansions)
  {
  }

  /** The loop, under rules faithful to the setup. */
  method Loop(r: Setup, initial: Episode, ghost rules: Rules)
    returns (ending: Ending, final: Episode, plans: seq<Plan>, steps: seq<SimulationStep>,
             expansions: seq<ExpansionRecord>, ghost trace: seq<Episode>)
    requires WeightsOk(initial.objective.weights) && Faithful(r, initial, rules) && rules.keeps(initial)
    ensures Recorded(rules, r.limits, initial, final, trace, plans, steps, expansions)
    ensures ending == Halted(HaltCycles) <==> |steps| == r.limits.cycles
    ensures if ending == Halted(HaltCycles) then |plans| == |trace| - 1
            else |plans| == |trace| && rules.ends(|trace| - 1, final, plans[|trace| - 1], ending)
  {
    final := initial;
    plans, steps, expansions := [], [], [];
    trace := [initial];
    while |steps| < r.limits.cycles
      invariant Recorded(rules, r.limits, initial, final, trace, plans, steps, expansions) && |plans| == |trace| - 1
      decreases r.limits.cycles + r.limits.expansions + 1 - |trace|
    {
      var plan, event := Act(r, final, |steps|, |expansions|, initial, rules);
      match event {
        case Ends(reason) =>
          plans, ending := plans + [plan], reason;
          return;
        case Grows(u) =>
          GrownIsRecorded(rules, r.limits, initial, final, trace, plans, steps, expansions, plan, u);
          expansions := expansions + [u.expansions[|u.expansions| - 1]];
          final, plans, trace := u, plans + [plan], trace + [u];
        case Steps(u, step) =>
          SteppedIsRecorded(rules, r.limits, initial, final, trace, plans, steps, expansions, plan, u, step);
          final, plans, steps, trace := u, plans + [plan], steps + [step], trace + [u];
      }
    }
    ending := Halted(HaltCycles);
  }

  /** Runs the loop. `trace` lists the episode after every update, from the initial one on. The run makes at
      most one plan for every cycle and expansion, and one more only to find that it is over; it ends for the
      reason its last plan leads to, or because all its cycles are used up. */
  method RunSimulation(r: Setup, initial: Episode)
    returns (ending: Ending, final: Episode, plans: seq<Plan>, steps: seq<SimulationStep>,
             expansions: seq<ExpansionRecord>, ghost trace: seq<Episode>)
    requires ValidEpisode(initial) && WeightsOk(initial.objective.weights)
    requires r.limits.cycles >= 1 && r.limits.batch >= 1
    ensures Recorded(RulesOf(r, initial), r.limits, initial, final, trace, plans, steps, expansions)
    ensures |plans| <= |steps| + |expansions| + 1 && |plans| <= r.limits.cycles + r.limits.expansions
    ensures ending == Halted(HaltCycles) <==> |steps| == r.limits.cycles
    ensures ending != Halted(HaltCycles) ==>
              |plans| == |trace| && RulesOf(r, initial).ends(|trace| - 1, final, plans[|trace| - 1], ending)
  {
    ghost var rules := RulesOf(r, initial);
    InitiallySound(initial);
    assert Keeps(r, initial, initial);
    ending, final, plans, steps, expansions, trace := Loop(r, initial, rules);
  }

  /** What a recorded run says of each of its episodes, and of the plan that led from one to the next. */
  lemma RecordedRunIsKept(
    r: Setup, initial: Episode, e: Episode, trace: seq<Episode>, plans: seq<Plan>, steps: seq<SimulationStep>,
    expansions: seq<ExpansionRecord>, t: nat)
    requires Recorded(RulesOf(r, initial), r.limits, initial, e, trace, plans, steps, expansions) && t < |trace|
    ensures Keeps(r, initial, trace[t])
    ensures t + 1 < |trace| ==> Link(r, initial, t, trace[t], plans[t], trace[t + 1])
  {
  }

  // ---- retries over a whole run ------------------------------------------------------------

  /** The step from `e` to `u` applied an observation that names a hypothesis whose current probe already
      has a terminal observation. */
  predicate Repeats(e: Episode, u: Episode) {
    && |u.attempts| > |e.attempts|
    && var at := Locate(e.hypotheses, u.attempts[|e.attempts|].hypothesis);
       at.Some? && SeenTerminal(e.attempts, KeyFor(e.hypotheses[at.value]))
  }

  /** How many steps of the trace did so. */
  function RepeatsIn(trace: seq<Episode>): (n: nat)
    ensures n == 0 <==> forall t :: 0 < t < |trace| ==> !Repeats(trace[t - 1], trace[t])
  {
    if |trace| <= 1 then 0
    else
      var n := |trace| - 1;
      RepeatsIn(trace[..n]) + (if Repeats(trace[n - 1], trace[n]) then 1 else 0)
  }

  /** The step adds a retry exactly if it repeats a probe. */
  predicate RetriesAdd(e: Episode, u: Episode) {
    RetryViolations(u.attempts) == RetryViolations(e.attempts) + (if Repeats(e, u) then 1 else 0)
  }

  lemma ObservedRetries(e: Episode, o: Observation, attemptId: string, u: Episode)
    requires ApplyObservation(e, o, attemptId) == Ok(u)
    ensures RetriesAdd(e, u)
  {
    ObservationRetries(e, o, attemptId);
  }

  lemma ProbeRetries(r: Setup, e: Episode, h: Hypothesis, cycles: nat, u: Episode)
    requires ProbeEvent(r, e, h, cycles).Steps? && ProbeEvent(r, e, h, cycles).observed == u
    ensures RetriesAdd(e, u)
  {
    var o := r.adapter(e, h, cycles).observation;
    ObservedRetries(e, o, r.digests.attempt(e, o), u);
  }

  lemma StepWasProbed(r: Setup, e: Episode, plan: Plan, cycles: nat, expansions: nat) returns (at: nat)
    requires NextEvent(r, e, plan, cycles, expansions).Steps?
    ensures at < |e.hypotheses|
            && NextEvent(r, e, plan, cycles, expansions) == ProbeEvent(r, e, e.hypotheses[at], cycles)
  {
    at := Locate(e.hypotheses, plan.selected[0].id).value;
  }

  lemma EventRetries(r: Setup, e: Episode, plan: Plan, cycles: nat, expansions: nat, event: Event, u: Episode)
    requires event == NextEvent(r, e, plan, cycles, expansions)
    requires event == Grows(u) || (event.Steps? && event.observed == u)
    ensures RetriesAdd(e, u)
  {
    if event.Steps? {
      var at := StepWasProbed(r, e, plan, cycles, expansions);
      ProbeRetries(r, e, e.hypotheses[at], cycles, u);
    } else {
      EventIsAccounted(r, e, plan, cycles, expansions, event);
    }
  }

  lemma LinkRetries(r: Setup, initial: Episode, t: nat, e: Episode, plan: Plan, u: Episode)
    requires Link(r, initial, t, e, plan, u)
    ensures RetriesAdd(e, u)
  {
    var event :| Led(r, initial, t, e, plan, event) && (event == Grows(u) || (event.Steps? && event.observed == u));
    var expansions :| t == Cycles(initial, e) + expansions
      && LeadsTo(r, e, Cycles(initial, e), expansions, plan, event);
    EventRetries(r, e, plan, Cycles(initial, e), expansions, event, u);
  }

  lemma {:induction false} TraceRetries(trace: seq<Episode>)
    requires trace != [] && forall t :: 0 < t < |trace| ==> RetriesAdd(trace[t - 1], trace[t])
    ensures RetryViolations(trace[|trace| - 1].attempts) == RetryViolations(trace[0].attempts) + RepeatsIn(trace)
  {
    var n := |trace| - 1;
    if n > 0 {
      TraceRetries(trace[..n]);
      assert RetriesAdd(trace[n - 1], trace[n]);
    }
  }

  /** Every link of a run counts its repeats. */
  ghost predicate LinksCount(rules: Rules) {
    forall t: nat, e, plan, u {:trigger rules.link(t, e, plan, u)} :: rules.link(t, e, plan, u) ==> RetriesAdd(e, u)
  }

  lemma RulesCount(r: Setup, initial: Episode)
    ensures LinksCount(RulesOf(r, initial))
  {
    forall t: nat, e, plan, u | Link(r, initial, t, e, plan, u)
      ensures RetriesAdd(e, u)
    {
      LinkRetries(r, initial, t, e, plan, u);
    }
  }

  lemma CountedRunRetries(
    rules: Rules, limits: Limits, initial: Episode, e: Episode, trace: seq<Episode>, plans: seq<Plan>,
    steps: seq<SimulationStep>, expansions: seq<ExpansionRecord>)
    requires Recorded(rules, limits, initial, e, trace, plans, steps, expansions) && LinksCount(rules)
    ensures RetryViolations(e.attempts) == RetryViolations(initial.attempts) + RepeatsIn(trace)
  {
    forall t | 0 < t < |trace|
      ensures RetriesAdd(trace[t - 1], trace[t])
    {
      assert rules.link(t - 1, trace[t - 1], plans[t - 1], trace[t - 1 + 1]);
    }
    TraceRetries(trace);
  }

  /** The retry count of every run, whatever its adapter answers: one for each step that applied an
      observation naming a hypothesis whose current probe was already terminal. It stays as it was exactly
      when there is no such step. */
  lemma RunRetries(
    r: Setup, initial: Episode, e: Episode, trace: seq<Episode>, plans: seq<Plan>, steps: seq<SimulationStep>,
    expansions: seq<ExpansionRecord>)
    requires Recorded(RulesOf(r, initial), r.limits, initial, e, trace, plans, steps, expansions)
    ensures RetryViolations(e.attempts) == RetryViolations(initial.attempts) + RepeatsIn(trace)
    ensures RetryViolations(e.attempts) == RetryViolations(initial.attempts)
       <==> forall t :: 0 < t < |trace| ==> !Repeats(trace[t - 1], trace[t])
  {
    RulesCount(r, initial);
    CountedRunRetries(RulesOf(r, initial), r.limits, initial, e, trace, plans, steps, expansions);
  }
}
