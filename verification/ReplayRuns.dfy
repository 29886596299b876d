/** The simulation loop driven by a replay adapter that uses its transcript up as it goes. */
module ReplayRuns {
  import opened EpisodeModel
  import opened EpisodeUpdates
  import opened Planner
  import opened Replay
  import opened Results
  import opened Simulation
  import opened SimulationLoop

  /** The setup's adapter is what the transcript of this object answers. */
  ghost predicate Drives(adapter: ReplayAdapter, target: string, r: Setup, initial: Episode) {
    r.adapter == TranscriptAdapter(adapter.transcript, target, initial)
  }

  /** The object has replayed one observation more, for this probe, than the episode's attempts have used. */
  ghost predicate OneAhead(adapter: ReplayAdapter, initial: Episode, e: Episode, probe: ProbeKey)
    reads adapter
  {
    && initial.attempts <= e.attempts
    && forall key :: adapter.Replayed(key) == UsesSince(initial, e, key) + (if key == probe then 1 else 0)
  }

  /** Once the observation is applied, the two are in step again. */
  lemma CaughtUp(
    adapter: ReplayAdapter, initial: Episode, e: Episode, o: Observation, attemptId: string, u: Episode, at: nat)
    requires ApplyObservation(e, o, attemptId) == Ok(u) && Locate(e.hypotheses, o.hypothesis) == Some(at)
    requires OneAhead(adapter, initial, e, KeyFor(e.hypotheses[at]))
    ensures InStep(adapter, initial, u)
  {
    forall key
      ensures adapter.Replayed(key) == UsesSince(initial, u, key)
    {
      UsedOnceMore(initial, e, u, AttemptOf(e, o, e.hypotheses[at], attemptId), key);
    }
  }

  /** The object's answer is that of the transcript's adapter in the loop. */
  method Ask(adapter: ReplayAdapter, target: string, r: Setup, e: Episode, at: nat, cycles: nat, ghost initial: Episode)
    returns (reply: AdapterReply)
    requires at < |e.hypotheses| && Locate(e.hypotheses, e.hypotheses[at].id) == Some(at)
    requires adapter.Valid() && InStep(adapter, initial, e) && Drives(adapter, target, r, initial)
    modifies adapter
    ensures adapter.Valid() && reply == r.adapter(e, e.hypotheses[at], cycles)
    ensures if reply.Observes? then OneAhead(adapter, initial, e, KeyFor(e.hypotheses[at]))
            else InStep(adapter, initial, e)
    ensures reply.Observes? ==> Locate(e.hypotheses, reply.observation.hypothesis) == Some(at)
  {
    reply := adapter.Execute(target, e.hypotheses[at]);
  }

  /** Probing with the object: it answers what the transcript's adapter answers in the loop, and stays in
      step when what it observes is applied. */
  method ReplayProbe(
    adapter: ReplayAdapter, target: string, r: Setup, e: Episode, at: nat, cycles: nat,
    ghost initial: Episode, ghost rules: Rules)
    returns (event: Event)
    requires Faithful(r, initial, rules) && rules.keeps(e)
    requires at < |e.hypotheses| && Locate(e.hypotheses, e.hypotheses[at].id) == Some(at)
             && Eligible(e, e.hypotheses[at])
    requires adapter.Valid() && InStep(adapter, initial, e) && Drives(adapter, target, r, initial)
    modifies adapter
    ensures adapter.Valid() && event == ProbeEvent(r, e, e.hypotheses[at], cycles)
    ensures event.Steps? ==> rules.keeps(event.observed) && InStep(adapter, initial, event.observed)
    ensures event.Ends? && event.ending.Halted? ==> InStep(adapter, initial, e)
  {
    var reply := Ask(adapter, target, r, e, at, cycles, initial);
    event := ApplyReply(r, e, at, cycles, reply, initial, rules);
    if event.Steps? {
      CaughtUp(adapter, initial, e, reply.observation, r.digests.attempt(e, reply.observation), event.observed, at);
    }
  }

  /** Carries a plan out with the object in place of the setup's adapter. */
  method ReplayCarryOut(
    adapter: ReplayAdapter, target: string, r: Setup, e: Episode, plan: Plan, at: nat, cycles: nat, expansions: nat,
    ghost initial: Episode, ghost rules: Rules)
    returns (event: Event)
    requires Faithful(r, initial, rules) && rules.keeps(e)
    requires plan.selected != [] ==>
               at < |e.hypotheses| && e.hypotheses[at].id == plan.selected[0].id
               && Locate(e.hypotheses, e.hypotheses[at].id) == Some(at) && Eligible(e, e.hypotheses[at])
    requires adapter.Valid() && InStep(adapter, initial, e) && Drives(adapter, target, r, initial)
    modifies adapter
    ensures adapter.Valid() && event == NextEvent(r, e, plan, cycles, expansions)
    ensures event.Grows? ==> rules.keeps(event.expanded) && InStep(adapter, initial, event.expanded)
    ensures event.Steps? ==> rules.keeps(event.observed) && InStep(adapter, initial, event.observed)
    ensures event.Ends? && event.ending.Halted? ==> InStep(adapter, initial, e)
  {
    var early := BeforeProbe(r, e, plan, at, cycles, expansions, initial, rules);
    if early.Some? {
      return early.value;
    }
    event := ReplayProbe(adapter, target, r, e, at, cycles, initial, rules);
    assert !event.Grows?;
  }

  /** One iteration with the object. */
  method ReplayIterate(
    adapter: ReplayAdapter, target: string, r: Setup, e: Episode, cycles: nat, expansions: nat,
    ghost initial: Episode, ghost rules: Rules)
    returns (plan: Plan, event: Event)
    requires WeightsOk(e.objective.weights) && Faithful(r, initial, rules) && rules.keeps(e)
    requires adapter.Valid() && InStep(adapter, initial, e) && Drives(adapter, target, r, initial)
    modifies adapter
    ensures adapter.Valid() && IsPlan(e, r.config, 1, plan) && event == NextEvent(r, e, plan, cycles, expansions)
    ensures event.Grows? ==> rules.keeps(event.expanded) && InStep(adapter, initial, event.expanded)
    ensures event.Steps? ==> rules.keeps(event.observed) && InStep(adapter, initial, event.observed)
    ensures event.Ends? && event.ending.Halted? ==> InStep(adapter, initial, e)
  {
    KeptIsUnique(r, initial, rules, e);
    var at: nat;
    plan, at := NextPlan(e, r.config);
    event := ReplayCarryOut(adapter, target, r, e, plan, at, cycles, expansions, initial, rules);
  }

  /** The same, accounted for; its plan leads to what it does. */
  method ReplayProceed(
    adapter: ReplayAdapter, target: string, r: Setup, e: Episode, cycles: nat, expansions: nat,
    ghost initial: Episode, ghost rules: Rules)
    returns (plan: Plan, event: Event)
    requires WeightsOk(e.objective.weights) && Faithful(r, initial, rules) && rules.keeps(e)
    requires cycles == Cycles(initial, e)
    requires adapter.Valid() && InStep(adapter, initial, e) && Drives(adapter, target, r, initial)
    modifies adapter
    ensures adapter.Valid()
    ensures rules.led(cycles + expansions, e, plan, event) && Accounted(r.limits, e, cycles, expansions, event)
    ensures event.Grows? ==> rules.keeps(event.expanded) && InStep(adapter, initial, event.expanded)
    ensures event.Steps? ==> rules.keeps(event.observed) && InStep(adapter, initial, event.observed)
    ensures event.Ends? && event.ending.Halted? ==> InStep(adapter, initial, e)
  {
    plan, event := ReplayIterate(adapter, target, r, e, cycles, expansions, initial, rules);
    EventIsAccounted(r, e, plan, cycles, expansions, event);
    NextIsLed(r, initial, e, cycles, expansions, plan);
  }

  /** The loop with the object: the records of a run whose adapter is the transcript's. */
  method ReplayLoop(adapter: ReplayAdapter, target: string, r: Setup, initial: Episode, ghost rules: Rules)
    returns (ending: Ending, final: Episode, plans: seq<Plan>, steps: seq<SimulationStep>,
             expansions: seq<ExpansionRecord>, ghost trace: seq<Episode>)
    requires WeightsOk(initial.objective.weights) && Faithful(r, initial, rules) && rules.keeps(initial)
    requires adapter.Valid() && InStep(adapter, initial, initial) && Drives(adapter, target, r, initial)
    modifies adapter
    ensures adapter.Valid() && Recorded(rules, r.limits, initial, final, trace, plans, steps, expansions)
    ensures ending == Halted(HaltCycles) <==> |steps| == r.limits.cycles
    ensures if ending == Halted(HaltCycles) then |plans| == |trace| - 1
            else |plans| == |trace| && rules.ends(|trace| - 1, final, plans[|trace| - 1], ending)
    ensures ending.Halted? ==> InStep(adapter, initial, final)
  {
    final := initial;
    plans, steps, expansions := [], [], [];
    trace := [initial];
    while |steps| < r.limits.cycles
      invariant adapter.Valid() && InStep(adapter, initial, final)
      invariant Recorded(rules, r.limits, initial, final, trace, plans, steps, expansions) && |plans| == |trace| - 1
      decreases r.limits.cycles + r.limits.expansions + 1 - |trace|
    {
      var plan, event := ReplayProceed(adapter, target, r, final, |steps|, |expansions|, initial, rules);
      match event {
        case Ends(reason) =>
          LedEnds(r, initial, rules, |steps| + |expansions|, final, plan, reason);
          plans, ending := plans + [plan], reason;
          return;
        case Grows(u) =>
          LedLinks(r, initial, rules, |steps| + |expansions|, final, plan, event, u);
          GrownIsRecorded(rules, r.limits, initial, final, trace, plans, steps, expansions, plan, u);
          expansions := expansions + [u.expansions[|u.expansions| - 1]];
          final, plans, trace := u, plans + [plan], trace + [u];
        case Steps(u, step) =>
          LedLinks(r, initial, rules, |steps| + |expansions|, final, plan, event, u);
          SteppedIsRecorded(rules, r.limits, initial, final, trace, plans, steps, expansions, plan, u, step);
          final, plans, steps, trace := u, plans + [plan], steps + [step], trace + [u];
      }
    }
    ending := Halted(HaltCycles);
  }

  /** A run of the loop driven by the object, from a fresh one on, is a run driven by its transcript, and so
      every one of its episodes keeps the promises. */
  method ReplaySimulation(adapter: ReplayAdapter, target: string, r: Setup, initial: Episode)
    returns (ending: Ending, final: Episode, plans: seq<Plan>, steps: seq<SimulationStep>,
             expansions: seq<ExpansionRecord>, ghost trace: seq<Episode>)
    requires ValidEpisode(initial) && WeightsOk(initial.objective.weights)
    requires r.limits.cycles >= 1 && r.limits.batch >= 1
    requires adapter.Valid() && adapter.replayed == map[] && Drives(adapter, target, r, initial)
    modifies adapter
    ensures adapter.Valid() && Recorded(RulesOf(r, initial), r.limits, initial, final, trace, plans, steps, expansions)
    ensures forall k :: 0 <= k < |trace| ==> Sound(initial, trace[k])
    ensures ending == Halted(HaltCycles) <==> |steps| == r.limits.cycles
    ensures ending.Halted? ==> InStep(adapter, initial, final)
    ensures ending != Halted(HaltCycles) ==>
              |plans| == |trace| && RulesOf(r, initial).ends(|trace| - 1, final, plans[|trace| - 1], ending)
  {
    ghost var rules := RulesOf(r, initial);
    InitiallySound(initial);
    assert Keeps(r, initial, initial);
    ending, final, plans, steps, expansions, trace := ReplayLoop(adapter, target, r, initial, rules);
    forall k | 0 <= k < |trace|
      ensures Sound(initial, trace[k])
    {
      ReplayedRunIsSound(r, adapter.transcript, target, initial, final, trace, plans, steps, expansions, k);
    }
  }
}
