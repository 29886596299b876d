/** Which work the fleet hands out and takes in: claim order, concurrency, budgets and deduplication. */
module FleetScheduling {
  import opened Basics
  import opened FleetModel
  import opened FleetInvariant
  import opened FleetRuns
  import opened Ordering
  import opened Results

  // ---- claim order -------------------------------------------------------------------------

  lemma RowBeforeIsTransitive(t: Task, u: Task, v: Task)
    requires RowBefore(t, u) && RowBefore(u, v)
    ensures RowBefore(t, v)
  {
    if TextLess(t.taskId, u.taskId) && TextLess(u.taskId, v.taskId) {
      TextLessTransitive(t.taskId, u.taskId, v.taskId);
    }
  }

  lemma RowBeforeIsTotal(t: Task, u: Task)
    requires t.taskId != u.taskId
    ensures RowBefore(t, u) || RowBefore(u, t)
  {
    TextLessTotal(t.taskId, u.taskId);
  }

  /** The row handed out comes before every other claimable row, and none is handed out only when no
      row is claimable. */
  lemma {:induction false} PickIsFirst(ts: seq<Task>, campaigns: map<string, Campaign>, r: Registration, now: nat)
    requires Identified(ts)
    ensures var at := Pick(ts, campaigns, r, now);
            forall j :: 0 <= j < |ts| && Claimable(ts[j], campaigns, r, now) ==>
              at.Some? && (j == at.value || RowBefore(ts[at.value], ts[j]))
  {
    if ts != [] {
      var n := |ts| - 1;
      PickIsFirst(ts[..n], campaigns, r, now);
      var best, at := Pick(ts[..n], campaigns, r, now), Pick(ts, campaigns, r, now);
      forall j | 0 <= j < |ts| && Claimable(ts[j], campaigns, r, now)
        ensures at.Some? && (j == at.value || RowBefore(ts[at.value], ts[j]))
      {
        if j < n {
          assert ts[..n][j] == ts[j];
          if at == Some(n) && best.Some? && j != best.value {
            RowBeforeIsTransitive(ts[n], ts[best.value], ts[j]);
          }
        } else if best.Some? {
          RowBeforeIsTotal(ts[n], ts[best.value]);
        }
      }
    }
  }

  /** Row `i` is the first claimable row, and it alone is leased, to the claimant until `expires`. */
  ghost predicate Granted(swept: Fleet, g: Fleet, i: nat, reply: Reply, r: Registration, token: string, expires: nat,
      now: nat)
    requires i < |swept.tasks| && reply.Leased?
  {
    var t := swept.tasks[i];
    && Claimable(t, swept.campaigns, r, now)
    && (forall j :: 0 <= j < |swept.tasks| && j != i && Claimable(swept.tasks[j], swept.campaigns, r, now)
                    ==> RowBefore(t, swept.tasks[j]))
    && |g.tasks| == |swept.tasks| && (forall j :: 0 <= j < |g.tasks| && j != i ==> g.tasks[j] == swept.tasks[j])
    && reply.token == token && reply.task == g.tasks[i] && SameRow(t, g.tasks[i])
    && g.tasks[i].attempts == t.attempts + 1 && g.tasks[i].expiresAt == Some(expires)
    && LeaseOf(g.tasks[i], r.agentId, token)
  }

  lemma GrantIsGranted(f: Fleet, i: nat, agent: string, token: string, expires: nat, now: nat)
    requires Inv(f) && i < |f.tasks| && agent in f.agents
    requires Claimable(f.tasks[i], f.campaigns, f.agents[agent].registration, now)
    requires forall j ::
               0 <= j < |f.tasks| && j != i && Claimable(f.tasks[j], f.campaigns, f.agents[agent].registration, now)
               ==> RowBefore(f.tasks[i], f.tasks[j])
    ensures var g := GrantLease(f, i, agent, token, expires, now);
            Granted(f, g, i, Leased(g.tasks[i], token, now), f.agents[agent].registration, token, expires, now)
  {
    assert AgentOk(agent, f.agents[agent], f.tasks);
  }

  /** What a claim by `agent` does to the swept tables: with a free slot it grants the first claimable
      row, and it reports no work only when there is no free slot or no claimable row. */
  ghost predicate TakesFirst(swept: Fleet, agent: string, expires: nat, token: string, now: nat, g: Fleet, reply: Reply)
    requires agent in swept.agents
  {
    var r := swept.agents[agent].registration;
    var open := LeaseCount(swept.tasks, agent) < r.maxConcurrency;
    match reply
    case NoWork => g == swept && (open ==> forall t :: t in swept.tasks ==> !Claimable(t, swept.campaigns, r, now))
    case Leased(_, _, _) =>
      open && exists i :: 0 <= i < |swept.tasks| && Granted(swept, g, i, reply, r, token, expires, now)
    case _ => false
  }

  lemma SweptTakesFirst(swept: Fleet, agent: string, leaseSeconds: nat, token: string, now: nat, g: Fleet, reply: Reply)
    requires Inv(swept) && agent in swept.agents && (g, reply) == ClaimSwept(swept, agent, leaseSeconds, token, now)
    ensures TakesFirst(swept, agent, now + leaseSeconds * 1_000_000, token, now, g, reply)
  {
    var r := swept.agents[agent].registration;
    PickIsFirst(swept.tasks, swept.campaigns, r, now);
    if reply.Leased? {
      var i := Pick(swept.tasks, swept.campaigns, r, now).value;
      GrantIsGranted(swept, i, agent, token, now + leaseSeconds * 1_000_000, now);
    }
  }

  lemma ClaimTakesFirst(f: Fleet, agent: string, leaseSeconds: nat, token: string, now: nat, g: Fleet, reply: Reply)
    requires Inv(f) && (g, reply) == ClaimTask(f, agent, leaseSeconds, token, now) && !reply.Failed?
    ensures agent in SweepFleet(f, now).agents
    ensures TakesFirst(SweepFleet(f, now), agent, now + leaseSeconds * 1_000_000, token, now, g, reply)
  {
    SweepKeepsInv(f, now);
    SweptTakesFirst(SweepFleet(f, now), agent, leaseSeconds, token, now, g, reply);
  }

  // ---- concurrency -------------------------------------------------------------------------

  /** The largest concurrency the agent registered with during a run. */
  function Peak(steps: seq<Step>, agent: string): nat {
    if steps == [] then 0
    else
      var s := steps[|steps| - 1];
      var before := Peak(steps[..|steps| - 1], agent);
      if s.Register? && s.registration.agentId == agent then Max(s.registration.maxConcurrency, before) else before
  }

  /** Leases are only taken away, or kept. */
  lemma {:induction false} FewerLeases(ts: seq<Task>, us: seq<Task>, agent: string)
    requires |us| == |ts| && forall i :: 0 <= i < |ts| && LeasedBy(us[i], agent) ==> LeasedBy(ts[i], agent)
    ensures LeaseCount(us, agent) <= LeaseCount(ts, agent)
  {
    if ts != [] {
      FewerLeases(ts[..|ts| - 1], us[..|us| - 1], agent);
    }
  }

  predicate Limited(f: Fleet, agent: string, limit: nat) {
    && LeaseCount(f.tasks, agent) <= limit
    && (agent in f.agents ==> f.agents[agent].registration.maxConcurrency <= limit)
  }

  lemma ClaimStaysLimited(f: Fleet, s: Step, g: Fleet, agent: string, limit: nat)
    requires Inv(f) && s.Claim? && g == ClaimTask(f, s.agent, s.leaseSeconds, s.token, s.now).0
    requires Limited(f, agent, limit)
    ensures Limited(g, agent, limit)
  {
    if g != f {
      var swept := SweepFleet(f, s.now);
      NothingIsExhausted(f, s.now);
      FewerLeases(f.tasks, swept.tasks, agent);
      GrantStaysLimited(swept, s, g, agent, limit);
    }
  }

  lemma GrantStaysLimited(swept: Fleet, s: Step, g: Fleet, agent: string, limit: nat)
    requires s.Claim? && s.agent in swept.agents && g == ClaimSwept(swept, s.agent, s.leaseSeconds, s.token, s.now).0
    requires Limited(swept, agent, limit)
    ensures Limited(g, agent, limit)
  {
    var r := swept.agents[s.agent].registration;
    var at := Pick(swept.tasks, swept.campaigns, r, s.now);
    if LeaseCount(swept.tasks, s.agent) < r.maxConcurrency && at.Some? {
      LeaseCountUpdate(swept.tasks, at.value, g.tasks[at.value], agent);
    } else {
      assert g == swept;
    }
  }

  /** A step other than a claim gives nobody a lease. */
  lemma RowStaysLimited(f: Fleet, s: Step, g: Fleet, reply: Reply, agent: string, i: nat)
    requires Inv(f) && (g, reply) == Perform(f, s) && !s.Claim? && i < |g.tasks| && LeasedBy(g.tasks[i], agent)
    ensures i < |f.tasks| && LeasedBy(f.tasks[i], agent)
  {
    if i < |f.tasks| {
      StepMovesRow(f, s, i, g, reply);
    } else {
      FreshRows(f, s, g, i);
    }
  }

  lemma RowsStayLimited(f: Fleet, s: Step, g: Fleet, reply: Reply, agent: string)
    requires Inv(f) && (g, reply) == Perform(f, s) && !s.Claim?
    ensures LeaseCount(g.tasks, agent) <= LeaseCount(f.tasks, agent)
  {
    StepExtends(f, s, g);
    forall i | 0 <= i < |g.tasks| && LeasedBy(g.tasks[i], agent)
      ensures i < |f.tasks| && LeasedBy(f.tasks[i], agent)
    {
      RowStaysLimited(f, s, g, reply, agent, i);
    }
    FewerLeases(f.tasks, g.tasks[..|f.tasks|], agent);
    UnleasedTail(g.tasks, |f.tasks|, agent);
  }

  lemma {:induction false} UnleasedTail(ts: seq<Task>, n: nat, agent: string)
    requires n <= |ts| && forall i :: n <= i < |ts| ==> !LeasedBy(ts[i], agent)
    ensures LeaseCount(ts, agent) == LeaseCount(ts[..n], agent)
    decreases |ts|
  {
    if n == |ts| {
      assert ts[..n] == ts;
    } else {
      assert ts[..|ts| - 1][..n] == ts[..n];
      UnleasedTail(ts[..|ts| - 1], n, agent);
    }
  }

  lemma RegistrationsChangeOnlyByRegistering(f: Fleet, s: Step, g: Fleet, agent: string)
    requires g == Perform(f, s).0 && !s.Claim? && agent in g.agents
    requires !(s.Register? && s.registration.agentId == agent)
    ensures agent in f.agents && g.agents[agent].registration == f.agents[agent].registration
  {
  }

  /** An agent never holds more leases than the largest concurrency it ever registered. */
  lemma {:induction false} LeasesWithinPeak(steps: seq<Step>, agent: string)
    requires WellTypedRun(steps)
    ensures Limited(After(steps), agent, Peak(steps, agent))
  {
    if steps != [] {
      var n := |steps| - 1;
      var f, g, s := After(steps[..n]), After(steps), steps[n];
      LeasesWithinPeak(steps[..n], agent);
      RunKeepsInvariant(steps[..n]);
      if s.Claim? {
        ClaimStaysLimited(f, s, g, agent, Peak(steps, agent));
      } else {
        RowsStayLimited(f, s, g, ReplyAt(steps, n), agent);
        if agent in g.agents && !(s.Register? && s.registration.agentId == agent) {
          RegistrationsChangeOnlyByRegistering(f, s, g, agent);
        }
      }
    }
  }

  // ---- taking work in ----------------------------------------------------------------------

  /** The row an accepted intent adds, column by column. */
  predicate QueuedFor(t: Task, n: NewTask, m: Manifest, now: nat) {
    && t.taskId == n.taskId && t.dedupKey == n.dedupKey && t.required == n.required
    && t.executionClass == n.executionClass && t.priority == n.priority && t.cost == n.cost
    && t.campaignId == m.campaignId && t.maxAttempts == m.budget.maxAttempts
    && t.state.TaskQueued? && t.attempts == 0 && t.leaseOwner.None? && t.tokenHash.None? && t.expiresAt.None?
    && t.createdAt == now && t.updatedAt == now
  }

  ghost predicate Joined(f: Fleet, n: NewTask, seen: Campaign, now: nat, g: Fleet) {
    var id := seen.manifest.campaignId;
    && id in g.campaigns && !Closed(g.campaigns[id].state) && g.campaigns[id].manifest == seen.manifest
    && (forall t :: t in f.tasks ==> t.dedupKey != n.dedupKey && t.taskId != n.taskId)
    && f.tasks < g.tasks && |g.tasks| == |f.tasks| + 1 && g == f.(tasks := g.tasks)
    && QueuedFor(g.tasks[|f.tasks|], n, seen.manifest, now)
    && WithinBudget(g, id, seen.manifest.budget)
  }

  lemma AcceptedRow(f: Fleet, n: NewTask, seen: Campaign, bound: bool, now: nat, g: Fleet)
    requires (g, Enqueued(true)) == EnqueueTask(f, n, seen, bound, now)
    ensures f.tasks < g.tasks && |g.tasks| == |f.tasks| + 1 && g == f.(tasks := g.tasks)
    ensures QueuedFor(g.tasks[|f.tasks|], n, seen.manifest, now)
  {
  }

  /** An accepted intent joins an open campaign with room for it, whatever happened since the campaign
      was read; anything else changes nothing. */
  lemma EnqueueJoinsOpenCampaign(f: Fleet, n: NewTask, seen: Campaign, bound: bool, now: nat, g: Fleet, reply: Reply)
    requires Inv(f) && (g, reply) == EnqueueTask(f, n, seen, bound, now)
    ensures if reply == Enqueued(true) then Joined(f, n, seen, now, g) else g == f
  {
    if reply == Enqueued(true) {
      EnqueueTaskKeepsInv(f, n, seen, bound, now);
      assert BudgetsOk(g);
      AcceptedRow(f, n, seen, bound, now, g);
    }
  }

  lemma DedupIsKept(f: Fleet, g: Fleet, key: string)
    requires Extends(f, g) && HasDedup(f.tasks, key)
    ensures HasDedup(g.tasks, key)
  {
    var i :| 0 <= i < |f.tasks| && f.tasks[i].dedupKey == key;
    assert Advances(f.tasks[i], g.tasks[..|f.tasks|][i]);
    assert g.tasks[i] in g.tasks;
  }

  lemma AcceptedIsPresent(f: Fleet, n: NewTask, seen: Campaign, bound: bool, now: nat, g: Fleet)
    requires (g, Enqueued(true)) == EnqueueTask(f, n, seen, bound, now)
    ensures HasDedup(g.tasks, n.dedupKey)
  {
    assert g.tasks[|f.tasks|] in g.tasks;
  }

  /** Once an intent has been accepted, enqueueing it again at any later point of any run adds nothing. */
  lemma ReenqueueAddsNothing(steps: seq<Step>, k: nat, n: NewTask, seen: Campaign, bound: bool, now: nat)
    requires WellTypedRun(steps) && k < |steps|
    requires steps[k].Enqueue? && ReplyAt(steps, k) == Enqueued(true) && n.dedupKey == steps[k].newTask.dedupKey
    ensures EnqueueTask(After(steps), n, seen, bound, now).0 == After(steps)
    ensures EnqueueTask(After(steps), n, seen, bound, now).1 != Enqueued(true)
  {
    assert steps[..k + 1][..k] == steps[..k];
    var s := steps[k];
    AcceptedIsPresent(After(steps[..k]), s.newTask, s.seen, s.bound, s.now, After(steps[..k + 1]));
    RunExtends(steps, k + 1);
    DedupIsKept(After(steps[..k + 1]), After(steps), n.dedupKey);
  }
}
