/** The replay adapter and the replay generator, and why an adapter has to answer for the hypothesis it
    was asked to probe. */
module Replay {
  import opened DependencyGraph
  import opened EpisodeModel
  import opened EpisodeUpdates
  import opened Planner
  import opened Simulation
  import opened SimulationLoop
  import opened Results

  // ---- the replay adapter ------------------------------------------------------------------

  datatype Rule = Rule(key: ProbeKey, observation: Observation)

  /** A rule's observation is about the hypothesis and revision the rule is filed under. */
  predicate RuleOk(r: Rule) {
    r.observation.hypothesis == r.key.hypothesis && r.observation.revision == r.key.revision
  }

  /** The observations of the rules filed under a key, in transcript order. */
  function Filed(rules: seq<Rule>, key: ProbeKey): seq<Observation> {
    if rules == [] then []
    else
      var before := Filed(rules[..|rules| - 1], key);
      if rules[|rules| - 1].key == key then before + [rules[|rules| - 1].observation] else before
  }

  lemma {:induction false} FiledAnswers(rules: seq<Rule>, key: ProbeKey)
    requires forall r :: r in rules ==> RuleOk(r)
    ensures forall o :: o in Filed(rules, key) ==> o.hypothesis == key.hypothesis && o.revision == key.revision
  {
    if rules != [] {
      FiledAnswers(rules[..|rules| - 1], key);
      assert rules[|rules| - 1] in rules;
    }
  }

  /** What the adapter replays, and for whom. */
  datatype Transcript = Transcript(
    adapter: string, target: string, capabilities: set<string>, modes: set<ExecutionMode>, rules: seq<Rule>)

  ghost predicate TranscriptOk(t: Transcript) {
    forall r :: r in t.rules ==> RuleOk(r)
  }

  /** The transcript was not made for this target and probe. */
  predicate Mismatched(t: Transcript, target: string, h: Hypothesis) {
    || target != t.target
    || h.probe.adapter != t.adapter
    || (exists c :: c in h.probe.capabilities && c !in t.capabilities)
    || h.probe.mode !in t.modes
  }

  /** What the transcript answers once `k` of its observations for the probe have been used. */
  function ReplyAt(t: Transcript, target: string, h: Hypothesis, k: nat): AdapterReply {
    if Mismatched(t, target, h) then AdapterFails
    else if k >= |Filed(t.rules, KeyFor(h))| then NoReplay
    else Observes(Filed(t.rules, KeyFor(h))[k])
  }

  class ReplayAdapter {
    const adapter: string
    const target: string
    const capabilities: set<string>
    const modes: set<ExecutionMode>
    ghost const transcript: Transcript
    var rules: map<ProbeKey, seq<Observation>>
    /** How many observations have been replayed under each key. */
    ghost var replayed: map<ProbeKey, nat>

    function Queue(key: ProbeKey): seq<Observation>
      reads this
    {
      if key in rules then rules[key] else []
    }

    ghost function Replayed(key: ProbeKey): nat
      reads this
    {
      if key in replayed then replayed[key] else 0
    }

    /** Each queue is what the transcript files under its key, less what has been replayed. */
    ghost predicate Valid()
      reads this
    {
      && TranscriptOk(transcript) && transcript == Transcript(adapter, target, capabilities, modes, transcript.rules)
      && forall key ::
           Replayed(key) <= |Filed(transcript.rules, key)|
             && Queue(key) == Filed(transcript.rules, key)[Replayed(key)..]
    }

    constructor (t: Transcript)
      requires TranscriptOk(t)
      ensures Valid() && transcript == t && replayed == map[]
    {
      adapter, target, capabilities, modes := t.adapter, t.target, t.capabilities, t.modes;
      transcript := t;
      rules, replayed := map[], map[];
      new;
      for i := 0 to |t.rules|
        invariant transcript == t && replayed == map[]
        invariant forall key :: Queue(key) == Filed(t.rules[..i], key)
      {
        assert t.rules[..i + 1][..i] == t.rules[..i];
        var r := t.rules[i];
        rules := rules[r.key := Queue(r.key) + [r.observation]];
      }
      assert t.rules[..|t.rules|] == t.rules;
    }

    /** Replays the next observation of the transcript for exactly this probe, each one once; every
        observation it gives is about the hypothesis it was asked to probe. */
    method Execute(episodeTarget: string, h: Hypothesis) returns (reply: AdapterReply)
      requires Valid()
      modifies this
      ensures Valid()
      ensures reply == ReplyAt(transcript, episodeTarget, h, old(Replayed(KeyFor(h))))
      ensures reply.Observes? ==> reply.observation.hypothesis == h.id && reply.observation.revision == h.revision
      ensures forall key :: Replayed(key) == old(Replayed(key)) + (if reply.Observes? && key == KeyFor(h) then 1 else 0)
    {
      if episodeTarget != target {
        return AdapterFails;
      }
      if h.probe.adapter != adapter {
        return AdapterFails;
      }
      if exists c :: c in h.probe.capabilities && c !in capabilities {
        return AdapterFails;
      }
      if h.probe.mode !in modes {
        return AdapterFails;
      }
      var key := KeyFor(h);
      var queue := Queue(key);
      if queue == [] {
        return NoReplay;
      }
      FiledAnswers(transcript.rules, key);
      rules := rules[key := queue[1..]];
      replayed := replayed[key := Replayed(key) + 1];
      return Observes(queue[0]);
    }
  }

  // ---- a run driven by a transcript --------------------------------------------------------

  /** How many attempts were made under the key. */
  function Uses(attempts: seq<Attempt>, key: ProbeKey): nat {
    if attempts == [] then 0
    else Uses(attempts[..|attempts| - 1], key) + (if KeyOf(attempts[|attempts| - 1]) == key then 1 else 0)
  }

  /** How many of them since the run began. */
  function UsesSince(initial: Episode, e: Episode, key: ProbeKey): nat {
    if |e.attempts| < |initial.attempts| then 0 else Uses(e.attempts[|initial.attempts|..], key)
  }

  /** The replay adapter as the loop sees it: the attempts of the episode tell how much has been replayed. */
  function TranscriptAdapter(t: Transcript, target: string, initial: Episode): SimulationLoop.Adapter {
    (e: Episode, h: Hypothesis, n: nat) => ReplyAt(t, target, h, UsesSince(initial, e, KeyFor(h)))
  }

  lemma TranscriptAnswers(t: Transcript, target: string, initial: Episode)
    requires TranscriptOk(t)
    ensures AnswersSelected(TranscriptAdapter(t, target, initial))
  {
    forall e, h, n: nat | TranscriptAdapter(t, target, initial)(e, h, n).Observes?
      ensures TranscriptAdapter(t, target, initial)(e, h, n).observation.hypothesis == h.id
    {
      FiledAnswers(t.rules, KeyFor(h));
    }
  }

  /** Every episode of a run driven by a transcript keeps the promises. */
  lemma ReplayedRunIsSound(
    r: Setup, t: Transcript, target: string, initial: Episode, e: Episode, trace: seq<Episode>, plans: seq<Plan>,
    steps: seq<SimulationStep>, expansions: seq<ExpansionRecord>, k: nat)
    requires TranscriptOk(t) && r.adapter == TranscriptAdapter(t, target, initial)
    requires Recorded(RulesOf(r, initial), r.limits, initial, e, trace, plans, steps, expansions) && k < |trace|
    ensures Sound(initial, trace[k])
  {
    TranscriptAnswers(t, target, initial);
    RecordedRunIsKept(r, initial, e, trace, plans, steps, expansions, k);
  }

  /** The object has replayed what the episode's attempts have used. */
  ghost predicate InStep(adapter: ReplayAdapter, initial: Episode, e: Episode)
    reads adapter
  {
    initial.attempts <= e.attempts && forall key :: adapter.Replayed(key) == UsesSince(initial, e, key)
  }

  lemma UsedOnceMore(initial: Episode, e: Episode, u: Episode, a: Attempt, key: ProbeKey)
    requires initial.attempts <= e.attempts && u.attempts == e.attempts + [a]
    ensures UsesSince(initial, u, key) == UsesSince(initial, e, key) + (if KeyOf(a) == key then 1 else 0)
  {
    var n := |initial.attempts|;
    assert u.attempts[n..] == e.attempts[n..] + [a];
    assert u.attempts[n..][..|e.attempts| - n] == e.attempts[n..];
  }

  // ---- the replay generator ----------------------------------------------------------------

  class ReplayGenerator {
    var batches: seq<Batch>

    constructor (batches: seq<Batch>)
      ensures this.batches == batches
    {
      this.batches := batches;
    }

    /** Offers the next batch only if it and the plan were made for this episode as it stands, for this
        trigger, and within the limit; a refused batch stays at the head of the queue. */
    method Expand(e: Episode, planDigest: string, trigger: Trigger, limit: nat, digest: string)
      returns (reply: GeneratorReply)
      requires limit >= 1
      modifies this
      ensures reply.NoBatch? <==> old(batches) == []
      ensures reply.Offers? ==>
                && old(batches) == [reply.batch] + batches
                && reply.batch.episode == e.id && reply.batch.baseDigest == planDigest == digest
                && reply.batch.trigger == trigger && |reply.batch.hypotheses| <= limit
      ensures !reply.Offers? ==> batches == old(batches)
      ensures reply.GeneratorFails? ==>
                var b := batches[0];
                b.episode != e.id || b.baseDigest != digest || planDigest != digest || b.trigger != trigger
                  || |b.hypotheses| > limit
    {
      if batches == [] {
        return NoBatch;
      }
      var batch := batches[0];
      if batch.episode != e.id {
        return GeneratorFails;
      }
      if batch.baseDigest != digest || planDigest != digest {
        return GeneratorFails;
      }
      if batch.trigger != trigger {
        return GeneratorFails;
      }
      if |batch.hypotheses| > limit {
        return GeneratorFails;
      }
      batches := batches[1..];
      return Offers(batch);
    }
  }

  // ---- an adapter that answers for another hypothesis ---------------------------------------

  function SampleProbe(): Probe {
    Probe("replay", "inspect", [], Offline, NoMutation, 1.0)
  }

  function SampleMeasures(): Measures {
    Measures(1.0, 1.0, 1.0, 1.0, 1.0, 1.0, 1.0, 1.0, 0.0, 0.0, 0.0)
  }

  function SampleHypothesis(id: string): Hypothesis {
    Hypothesis(id, 1, "protocol", Inconclusive, ["n"], [], [], [], [], SampleMeasures(), SampleProbe(), 3)
  }

  /** Two open hypotheses; the probe of the second has already been inconclusive. */
  function SampleEpisode(): Episode {
    var weights := Weights(1.0, 1.0, 1.0, 1.0, 1.0, 1.0, 1.0, 1.0, 1.0, 1.0, 1.0, 1.0, 1.0);
    var objective := Objective({}, {Offline}, NoMutation, 0.5, 0.25, weights);
    var attempt := Attempt("t1", "o1", "b", 1, DigestOf(SampleProbe()), OutInconclusive, 0.0, [], [], [], 1, 1, 1.0, 0,
      1);
    Episode("e", objective, Surface(1, [Node("n", 1.0, [])], []), [], [SampleHypothesis("a"), SampleHypothesis("b")],
            [attempt], [], Budget(10, 10, 10.0, 1, 1, 1.0), 0, 1)
  }

  /** An observation about the second hypothesis. */
  function SampleObservation(): Observation {
    Observation("o2", "b", 1, OutInconclusive, 0.0, false, [], [], [], [], 1.0, 2, 3)
  }

  lemma SampleIsAcyclic()
    ensures Acyclic(Dependencies(SampleEpisode().hypotheses))
  {
    var hs := SampleEpisode().hypotheses;
    assert HypothesisIds(hs) == ["a", "b"];
    TopologicalIsAcyclic(Dependencies(hs), ["a", "b"]);
  }

  lemma SampleIds()
    ensures var e := SampleEpisode();
            && NodeIds(e.surface.nodes) == ["n"] && HypothesisIds(e.hypotheses) == ["a", "b"]
            && EvidenceIds(e.evidence) == [] && EdgeIds(e.surface.edges) == [] && ExpansionIds(e.expansions) == []
            && AttemptIds(e.attempts) == ["t1"] && ObservationIds(e.attempts) == ["o1"]
  {
  }

  lemma SampleReferences()
    ensures References(SampleEpisode())
  {
    SampleIds();
  }

  lemma SampleIsWellReferenced()
    ensures WellReferenced(SampleEpisode())
  {
    SampleIds();
    SampleReferences();
  }

  lemma {:induction false} OnesArePositive(ws: seq<real>)
    requires forall i :: 0 <= i < |ws| ==> ws[i] == 1.0
    ensures Total(ws) >= 0.0 && (ws != [] ==> Total(ws) > 0.0)
  {
    if ws != [] {
      OnesArePositive(ws[..|ws| - 1]);
    }
  }

  lemma SampleWeights()
    ensures WeightsOk(SampleEpisode().objective.weights)
  {
    var w := SampleEpisode().objective.weights;
    OnesArePositive(RewardWeights(w));
    OnesArePositive(PenaltyWeights(w));
  }

  lemma SampleIsValid()
    ensures ValidEpisode(SampleEpisode())
  {
    SampleIsAcyclic();
    SampleIsWellReferenced();
  }

  lemma SampleIsApplied(attemptId: string)
    requires attemptId != "t1"
    ensures ApplyObservation(SampleEpisode(), SampleObservation(), attemptId).Ok?
  {
    var e, o := SampleEpisode(), SampleObservation();
    SampleIsAcyclic();
    SampleIsWellReferenced();
    assert HypothesisIds(e.hypotheses) == ["a", "b"];
    LocateUnique(e.hypotheses, 1);
    assert ObservationIds(e.attempts) == ["o1"] && AttemptIds(e.attempts) == ["t1"];
    assert ObservationError(e, o).None?;
    TopologicalIsAcyclic(AddedDependencies(e.hypotheses, o.adjacent), []);
    ObservationChecksSuffice(e, o, attemptId);
  }

  lemma SampleRetries(attemptId: string)
    requires attemptId != "t1"
    ensures var u := ApplyObservation(SampleEpisode(), SampleObservation(), attemptId);
            u.Ok? && RetryViolations(u.value.attempts) == RetryViolations(SampleEpisode().attempts) + 1
  {
    var e, o := SampleEpisode(), SampleObservation();
    SampleIds();
    SampleIsApplied(attemptId);
    LocateUnique(e.hypotheses, 1);
    ObservationRetries(e, o, attemptId);
  }

  ghost predicate AnswersSample(r: Setup) {
    && r.generator.None? && r.digests.attempt(SampleEpisode(), SampleObservation()) != "t1"
    && forall e, h, n :: r.adapter(e, h, n) == Observes(SampleObservation())
  }

  /** With an open hypothesis every plan selects something; whatever it selects, the adapter answers `o`. */
  lemma AnswerIsApplied(r: Setup, e: Episode, plan: Plan, o: Observation, open: Hypothesis)
    requires WeightsOk(e.objective.weights) && Unique(HypothesisIds(e.hypotheses)) && IsPlan(e, r.config, 1, plan)
    requires !Exhausted(e.budget) && open in e.hypotheses && Eligible(e, open)
    requires r.generator.None? && forall e, h, n :: r.adapter(e, h, n) == Observes(o)
    requires ApplyObservation(e, o, r.digests.attempt(e, o)).Ok?
    ensures var event := NextEvent(r, e, plan, 0, 0);
            event.Steps? && ApplyObservation(e, o, r.digests.attempt(e, o)) == Ok(event.observed)
  {
    EmptyPlan(e, r.config, 1, plan);
    var at := SelectionIsEligible(e, r.config, 1, plan);
  }

  lemma FirstIsOpen()
    ensures var e := SampleEpisode();
            Eligible(e, e.hypotheses[0]) && !Exhausted(e.budget) && Unique(HypothesisIds(e.hypotheses))
  {
    SampleIds();
  }

  lemma SampleStep(r: Setup, plan: Plan)
    requires WeightsOk(SampleEpisode().objective.weights) && IsPlan(SampleEpisode(), r.config, 1, plan)
             && AnswersSample(r)
    ensures var event := NextEvent(r, SampleEpisode(), plan, 0, 0);
            event.Steps? && RetryViolations(event.observed.attempts) == RetryViolations(SampleEpisode().attempts) + 1
  {
    FirstIsOpen();
    SampleRetries(r.digests.attempt(SampleEpisode(), SampleObservation()));
    AnswerIsApplied(r, SampleEpisode(), plan, SampleObservation(), SampleEpisode().hypotheses[0]);
  }

  /** So no plan ends the run at once, and every one adds a retry violation. */
  lemma SampleGoesOn(r: Setup, plan: Plan, ending: Ending, u: Episode)
    requires AnswersSample(r)
    ensures !EndsRun(r, SampleEpisode(), 0, SampleEpisode(), plan, ending)
    ensures Link(r, SampleEpisode(), 0, SampleEpisode(), plan, u) ==>
              RetryViolations(u.attempts) == RetryViolations(SampleEpisode().attempts) + 1
  {
    SampleWeights();
    if IsPlan(SampleEpisode(), r.config, 1, plan) {
      SampleStep(r, plan);
    }
  }

  lemma SampleBefore()
    ensures RetryViolations(SampleEpisode().attempts) == 0
  {
  }

  /** A run of one cycle and no expansion: its only plan leads to one step, or ends it. */
  method RunOnce(r: Setup, e: Episode) returns (ending: Ending, final: Episode, plan: Plan, steps: seq<SimulationStep>)
    requires ValidEpisode(e) && WeightsOk(e.objective.weights)
    requires r.limits.cycles == 1 && r.limits.expansions == 0 && r.limits.batch >= 1
    ensures if ending == Halted(HaltCycles) then |steps| == 1 && Link(r, e, 0, e, plan, final)
            else steps == [] && final == e && EndsRun(r, e, 0, e, plan, ending)
  {
    ghost var trace;
    var plans, expansions;
    ending, final, plans, steps, expansions, trace := RunSimulation(r, e);
    RecordedRunIsKept(r, e, final, trace, plans, steps, expansions, 0);
    plan := plans[0];
  }

  /** A run of the loop whose adapter answers for a hypothesis other than the one it was asked to probe: it
      makes the retry count grow, for nothing compares the two. */
  method WrongAnswerRun(config: Config, digests: Digests)
    returns (ending: Ending, final: Episode, steps: seq<SimulationStep>)
    requires digests.attempt(SampleEpisode(), SampleObservation()) != "t1"
    ensures ending == Halted(HaltCycles) && |steps| == 1
    ensures RetryViolations(SampleEpisode().attempts) == 0 && RetryViolations(final.attempts) == 1
  {
    var r := Setup((e, h, n) => Observes(SampleObservation()), None, config, digests, Limits(1, 0, 1, false));
    SampleIsValid();
    SampleWeights();
    var plan;
    ending, final, plan, steps := RunOnce(r, SampleEpisode());
    SampleGoesOn(r, plan, ending, final);
    SampleBefore();
  }
}
