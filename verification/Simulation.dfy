/** The plan, probe, observe, replan loop, and what it keeps over a whole run. */
module Simulation {
  import opened Basics
  import opened EpisodeModel
  import opened EpisodeUpdates
  import opened Planner
  import opened Results

  // ---- retries -----------------------------------------------------------------------------

  /** How many attempts repeat a probe that had already produced a terminal observation. */
  function RetryViolations(attempts: seq<Attempt>): nat {
    if attempts == [] then 0
    else
      var n := |attempts| - 1;
      RetryViolations(attempts[..n]) + (if SeenTerminal(attempts[..n], KeyOf(attempts[n])) then 1 else 0)
  }

  /** The evaluator's count, with the set of keys it has seen. */
  method CountRetries(attempts: seq<Attempt>) returns (violations: nat)
    ensures violations == RetryViolations(attempts)
  {
    var seen: set<ProbeKey> := {};
    violations := 0;
    for i := 0 to |attempts|
      invariant forall key :: key in seen <==> SeenTerminal(attempts[..i], key)
      invariant violations == RetryViolations(attempts[..i])
    {
      var a := attempts[i];
      assert attempts[..i + 1] == attempts[..i] + [a];
      if KeyOf(a) in seen {
        violations := violations + 1;
      }
      if !a.outcome.OutFailed? {
        seen := seen + {KeyOf(a)};
      }
      SeenNext(attempts, i);
    }
    assert attempts[..|attempts|] == attempts;
  }

  lemma SeenNext(attempts: seq<Attempt>, i: nat)
    requires i < |attempts|
    ensures forall key :: SeenTerminal(attempts[..i + 1], key) <==>
                            SeenTerminal(attempts[..i], key)
                              || (KeyOf(attempts[i]) == key && !attempts[i].outcome.OutFailed?)
  {
    assert attempts[..i + 1] == attempts[..i] + [attempts[i]];
    forall key
      ensures SeenTerminal(attempts[..i + 1], key) <==>
                SeenTerminal(attempts[..i], key) || (KeyOf(attempts[i]) == key && !attempts[i].outcome.OutFailed?)
    {
    }
  }

  // ---- what one update does to attempts ----------------------------------------------------

  lemma AppendedAttempt(attempts: seq<Attempt>, a: Attempt, id: string)
    ensures AttemptsOn(attempts + [a], id) == AttemptsOn(attempts, id) + (if a.hypothesis == id then 1 else 0)
    ensures RetryViolations(attempts + [a])
            == RetryViolations(attempts) + (if SeenTerminal(attempts, KeyOf(a)) then 1 else 0)
  {
    assert (attempts + [a])[..|attempts|] == attempts;
  }

  /** An applied observation adds a retry violation exactly when the hypothesis it names already has a
      terminal observation for its current revision and probe. */
  lemma ObservationRetries(e: Episode, o: Observation, attemptId: string)
    requires ApplyObservation(e, o, attemptId).Ok?
    ensures var h := e.hypotheses[Locate(e.hypotheses, o.hypothesis).value];
            RetryViolations(ApplyObservation(e, o, attemptId).value.attempts)
            == RetryViolations(e.attempts) + (if SeenTerminal(e.attempts, KeyFor(h)) then 1 else 0)
  {
    var h := e.hypotheses[Locate(e.hypotheses, o.hypothesis).value];
    AppendedAttempt(e.attempts, AttemptOf(e, o, h, attemptId), "");
  }

  lemma {:induction false} NoAttemptsYet(attempts: seq<Attempt>, id: string)
    requires forall i :: 0 <= i < |attempts| ==> attempts[i].hypothesis != id
    ensures AttemptsOn(attempts, id) == 0
  {
    if attempts != [] {
      NoAttemptsYet(attempts[..|attempts| - 1], id);
    }
  }

  /** A hypothesis added to a valid episode has never been attempted. */
  lemma AddedIsUntried(e: Episode, id: string)
    requires ValidEpisode(e) && id !in HypothesisIds(e.hypotheses)
    ensures AttemptsOn(e.attempts, id) == 0
  {
    forall i | 0 <= i < |e.attempts|
      ensures e.attempts[i].hypothesis != id
    {
      assert AttemptRefs(e.attempts[i], HypothesisIds(e.hypotheses), EvidenceIds(e.evidence));
    }
    NoAttemptsYet(e.attempts, id);
  }

  // ---- what a run keeps --------------------------------------------------------------------

  /** No hypothesis has more attempts than its limit, or than it had when the run began. */
  ghost predicate LimitsKept(initial: Episode, e: Episode) {
    forall i :: 0 <= i < |e.hypotheses| ==> LimitKept(initial, e, e.hypotheses[i])
  }

  predicate LimitKept(initial: Episode, e: Episode, h: Hypothesis) {
    AttemptsOn(e.attempts, h.id) <= Max(h.attemptLimit, AttemptsOn(initial.attempts, h.id))
  }

  /** The hypothesis depends only on supported hypotheses. */
  ghost predicate DependenciesSupported(e: Episode, id: string) {
    var at := Locate(e.hypotheses, id);
    at.Some? && forall d :: d in e.hypotheses[at.value].dependencies ==> IsSupported(e, d)
  }

  /** Everything attempted since the run began depends only on supported hypotheses. */
  ghost predicate GroundedSince(initial: Episode, e: Episode) {
    forall k :: |initial.attempts| <= k < |e.attempts| ==> DependenciesSupported(e, e.attempts[k].hypothesis)
  }

  ghost predicate Sound(initial: Episode, e: Episode) {
    && ValidEpisode(e)
    && initial.attempts <= e.attempts
    && RetryViolations(e.attempts) == RetryViolations(initial.attempts)
    && LimitsKept(initial, e)
    && GroundedSince(initial, e)
    && (WithinMaxima(initial.budget) ==> WithinMaxima(e.budget))
    && e.objective == initial.objective
  }

  lemma InitiallySound(e: Episode)
    requires ValidEpisode(e)
    ensures Sound(e, e)
  {
  }

  /** The hypotheses other than the one at `at` survive in place; later ones have new ids. */
  ghost predicate Appended(e: Episode, u: Episode, at: Option<nat>) {
    && |e.hypotheses| <= |u.hypotheses|
    && Unique(HypothesisIds(u.hypotheses))
    && (forall i :: 0 <= i < |e.hypotheses| && at != Some(i) ==> u.hypotheses[i] == e.hypotheses[i])
    && (forall i :: 0 <= i < |e.hypotheses| ==>
          u.hypotheses[i].id == e.hypotheses[i].id && u.hypotheses[i].dependencies == e.hypotheses[i].dependencies
          && u.hypotheses[i].attemptLimit == e.hypotheses[i].attemptLimit)
  }

  lemma LocatedInPlace(e: Episode, u: Episode, at: Option<nat>, id: string)
    requires Appended(e, u, at) && id in HypothesisIds(e.hypotheses)
    ensures Locate(u.hypotheses, id) == Locate(e.hypotheses, id)
  {
    LocateUnique(u.hypotheses, Locate(e.hypotheses, id).value);
  }

  lemma SupportIsKept(e: Episode, u: Episode, at: Option<nat>, id: string)
    requires Appended(e, u, at) && IsSupported(e, id)
    requires at.Some? ==> at.value < |e.hypotheses| && !e.hypotheses[at.value].status.Supported?
    ensures IsSupported(u, id)
  {
    LocatedInPlace(e, u, at, id);
  }

  lemma GroundIsKept(e: Episode, u: Episode, at: Option<nat>, id: string)
    requires Appended(e, u, at) && DependenciesSupported(e, id)
    requires at.Some? ==> at.value < |e.hypotheses| && !e.hypotheses[at.value].status.Supported?
    ensures DependenciesSupported(u, id)
  {
    LocatedInPlace(e, u, at, id);
    forall d | d in e.hypotheses[Locate(e.hypotheses, id).value].dependencies
      ensures IsSupported(u, d)
    {
      SupportIsKept(e, u, at, d);
    }
  }

  lemma ObservedInPlace(e: Episode, o: Observation, attemptId: string, u: Episode)
    requires o.hypothesis in HypothesisIds(e.hypotheses) && u == Observed(e, o, attemptId)
    requires Unique(HypothesisIds(u.hypotheses))
    ensures Appended(e, u, Locate(e.hypotheses, o.hypothesis))
  {
    var at := Locate(e.hypotheses, o.hypothesis).value;
    assert u.hypotheses[..|e.hypotheses|] == e.hypotheses[at := Revised(e.hypotheses[at], o)];
  }

  lemma ObservedIsAppended(e: Episode, o: Observation, attemptId: string, u: Episode)
    requires ValidEpisode(e) && ApplyObservation(e, o, attemptId) == Ok(u)
    ensures Appended(e, u, Locate(e.hypotheses, o.hypothesis))
  {
    ObservedInPlace(e, o, attemptId, u);
  }

  lemma ExpandedIsAppended(e: Episode, b: Batch, digest: string, expansionId: string, u: Episode)
    requires ValidEpisode(e) && ApplyExpansion(e, b, digest, expansionId) == Ok(u)
    ensures Appended(e, u, None)
  {
  }

  lemma LimitOfAnOldOne(initial: Episode, e: Episode, u: Episode, at: nat, a: Attempt, i: nat)
    requires Unique(HypothesisIds(e.hypotheses)) && LimitsKept(initial, e)
    requires Appended(e, u, Some(at)) && u.attempts == e.attempts + [a] && i < |e.hypotheses|
    requires at < |e.hypotheses| && a.hypothesis == e.hypotheses[at].id
    requires AttemptsOn(e.attempts, a.hypothesis) < e.hypotheses[at].attemptLimit
    ensures LimitKept(initial, u, u.hypotheses[i])
  {
    assert LimitKept(initial, e, e.hypotheses[i]);
    AppendedAttempt(e.attempts, a, e.hypotheses[i].id);
    if e.hypotheses[i].id == a.hypothesis {
      SamePlace(HypothesisIds(e.hypotheses), i, at);
    }
  }

  lemma LimitOfANewOne(initial: Episode, e: Episode, u: Episode, at: nat, a: Attempt, i: nat)
    requires ValidEpisode(e) && Appended(e, u, Some(at)) && u.attempts == e.attempts + [a]
    requires at < |e.hypotheses| && a.hypothesis == e.hypotheses[at].id && |e.hypotheses| <= i < |u.hypotheses|
    ensures LimitKept(initial, u, u.hypotheses[i])
  {
    var id := u.hypotheses[i].id;
    AppendedAttempt(e.attempts, a, id);
    NewIdsAreNew(e, u, Some(at), i);
    AddedIsUntried(e, id);
    IsListed(e.hypotheses, at);
  }

  lemma LimitsAfterObservation(initial: Episode, e: Episode, o: Observation, attemptId: string, u: Episode, at: nat)
    requires Sound(initial, e) && ApplyObservation(e, o, attemptId) == Ok(u)
    requires Locate(e.hypotheses, o.hypothesis) == Some(at) && Eligible(e, e.hypotheses[at])
    ensures LimitsKept(initial, u)
  {
    ObservedIsAppended(e, o, attemptId, u);
    var a := AttemptOf(e, o, e.hypotheses[at], attemptId);
    assert u.attempts == e.attempts + [a];
    forall i | 0 <= i < |u.hypotheses|
      ensures LimitKept(initial, u, u.hypotheses[i])
    {
      if i < |e.hypotheses| {
        LimitOfAnOldOne(initial, e, u, at, a, i);
      } else {
        LimitOfANewOne(initial, e, u, at, a, i);
      }
    }
  }

  lemma NewIdsAreNew(e: Episode, u: Episode, at: Option<nat>, i: nat)
    requires Appended(e, u, at) && |e.hypotheses| <= i < |u.hypotheses|
    ensures u.hypotheses[i].id !in HypothesisIds(e.hypotheses)
  {
    forall j | 0 <= j < |e.hypotheses|
      ensures HypothesisIds(e.hypotheses)[j] != u.hypotheses[i].id
    {
      assert HypothesisIds(u.hypotheses)[j] != HypothesisIds(u.hypotheses)[i];
    }
  }

  lemma GroundAfterObservation(initial: Episode, e: Episode, o: Observation, attemptId: string, u: Episode, at: nat)
    requires Sound(initial, e) && ApplyObservation(e, o, attemptId) == Ok(u)
    requires Locate(e.hypotheses, o.hypothesis) == Some(at) && Eligible(e, e.hypotheses[at])
    ensures GroundedSince(initial, u)
  {
    ObservedIsAppended(e, o, attemptId, u);
    var a := AttemptOf(e, o, e.hypotheses[at], attemptId);
    assert u.attempts == e.attempts + [a];
    GroundKeptFor(initial, e, u, Some(at), a);
  }

  lemma GroundKeptFor(initial: Episode, e: Episode, u: Episode, at: Option<nat>, a: Attempt)
    requires Appended(e, u, at) && GroundedSince(initial, e) && DependenciesSupported(e, a.hypothesis)
    requires at.Some? ==> at.value < |e.hypotheses| && !e.hypotheses[at.value].status.Supported?
    requires u.attempts == e.attempts + [a]
    ensures GroundedSince(initial, u)
  {
    forall k | |initial.attempts| <= k < |u.attempts|
      ensures DependenciesSupported(u, u.attempts[k].hypothesis)
    {
      GroundIsKept(e, u, at, u.attempts[k].hypothesis);
    }
  }

  lemma ObservationAddsNoRetry(e: Episode, o: Observation, attemptId: string, u: Episode, at: nat)
    requires ApplyObservation(e, o, attemptId) == Ok(u)
    requires Locate(e.hypotheses, o.hypothesis) == Some(at) && Eligible(e, e.hypotheses[at])
    ensures RetryViolations(u.attempts) == RetryViolations(e.attempts)
  {
    ObservationRetries(e, o, attemptId);
  }

  lemma ObservationMovesOn(e: Episode, o: Observation, attemptId: string, u: Episode)
    requires ApplyObservation(e, o, attemptId) == Ok(u)
    ensures ValidEpisode(u) && u.objective == e.objective && e.attempts <= u.attempts
            && |u.attempts| == |e.attempts| + 1
    ensures WithinMaxima(e.budget) ==> WithinMaxima(u.budget)
  {
  }

  /** An observation for the hypothesis the planner chose keeps the run sound. */
  lemma ObservationKeepsSound(initial: Episode, e: Episode, o: Observation, attemptId: string, u: Episode, at: nat)
    requires Sound(initial, e) && ApplyObservation(e, o, attemptId) == Ok(u)
    requires Locate(e.hypotheses, o.hypothesis) == Some(at) && Eligible(e, e.hypotheses[at])
    ensures Sound(initial, u) && e.attempts <= u.attempts && |u.attempts| == |e.attempts| + 1
  {
    LimitsAfterObservation(initial, e, o, attemptId, u, at);
    GroundAfterObservation(initial, e, o, attemptId, u, at);
    ObservationAddsNoRetry(e, o, attemptId, u, at);
    ObservationMovesOn(e, o, attemptId, u);
  }

  lemma ExpansionKeepsSound(initial: Episode, e: Episode, b: Batch, digest: string, expansionId: string, u: Episode)
    requires Sound(initial, e) && ApplyExpansion(e, b, digest, expansionId) == Ok(u)
    ensures Sound(initial, u) && u.attempts == e.attempts
  {
    ExpandedIsAppended(e, b, digest, expansionId, u);
    forall i | 0 <= i < |u.hypotheses|
      ensures LimitKept(initial, u, u.hypotheses[i])
    {
      if i < |e.hypotheses| {
        assert LimitKept(initial, e, e.hypotheses[i]);
      } else {
        NewIdsAreNew(e, u, None, i);
        AddedIsUntried(e, u.hypotheses[i].id);
      }
    }
    forall k | |initial.attempts| <= k < |u.attempts|
      ensures DependenciesSupported(u, u.attempts[k].hypothesis)
    {
      GroundIsKept(e, u, None, u.attempts[k].hypothesis);
    }
  }
}
