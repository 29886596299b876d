/** What the accepted intents and reports of a campaign add up to over whole runs, and what that lets in. */
module FleetBudgets {
  import opened FleetModel
  import opened FleetInvariant
  import opened FleetRuns
  import opened FleetScheduling
  import opened FleetUpdates
  import opened Results

  // ---- budgets over runs -------------------------------------------------------------------

  /** The step was an accepted intent for the campaign. */
  predicate Accepts(s: Step, reply: Reply, campaign: string) {
    s.Enqueue? && reply == Enqueued(true) && s.seen.manifest.campaignId == campaign
  }

  /** How many intents of the campaign a run accepted. */
  function AcceptedTasks(steps: seq<Step>, campaign: string): nat {
    if steps == [] then 0
    else
      var n := |steps| - 1;
      AcceptedTasks(steps[..n], campaign) + (if Accepts(steps[n], ReplyAt(steps, n), campaign) then 1 else 0)
  }

  /** What the accepted intents of the campaign are estimated to cost. */
  function AcceptedCost(steps: seq<Step>, campaign: string): real {
    if steps == [] then 0.0
    else
      var n := |steps| - 1;
      AcceptedCost(steps[..n], campaign)
      + (if Accepts(steps[n], ReplyAt(steps, n), campaign) then steps[n].newTask.cost else 0.0)
  }

  lemma AcceptAddsUp(f: Fleet, s: Step, g: Fleet, reply: Reply, campaign: string)
    requires s.Enqueue? && (g, reply) == EnqueueTask(f, s.newTask, s.seen, s.bound, s.now)
    ensures TaskCount(g.tasks, campaign)
         == TaskCount(f.tasks, campaign) + (if Accepts(s, reply, campaign) then 1 else 0)
    ensures CostSum(g.tasks, campaign)
         == CostSum(f.tasks, campaign) + (if Accepts(s, reply, campaign) then s.newTask.cost else 0.0)
  {
    if reply == Enqueued(true) {
      AcceptedRow(f, s.newTask, s.seen, s.bound, s.now, g);
      assert g.tasks == f.tasks + [g.tasks[|f.tasks|]];
      AppendedSums(f.tasks, g.tasks[|f.tasks|], campaign);
    }
  }

  lemma StepAddsUp(f: Fleet, s: Step, g: Fleet, reply: Reply, campaign: string)
    requires Inv(f) && (g, reply) == Perform(f, s)
    ensures TaskCount(g.tasks, campaign)
         == TaskCount(f.tasks, campaign) + (if Accepts(s, reply, campaign) then 1 else 0)
    ensures CostSum(g.tasks, campaign)
         == CostSum(f.tasks, campaign) + (if Accepts(s, reply, campaign) then s.newTask.cost else 0.0)
  {
    if s.Enqueue? {
      AcceptAddsUp(f, s, g, reply, campaign);
    } else {
      OnlyEnqueueAdds(f, s, g);
      StepExtends(f, s, g);
      assert g.tasks[..|f.tasks|] == g.tasks;
      RowsKeepAggregates(f.tasks, g.tasks, campaign);
    }
  }

  lemma {:induction false} TasksAddUp(steps: seq<Step>, campaign: string)
    requires WellTypedRun(steps)
    ensures TaskCount(After(steps).tasks, campaign) == AcceptedTasks(steps, campaign)
    ensures CostSum(After(steps).tasks, campaign) == AcceptedCost(steps, campaign)
  {
    if steps != [] {
      var n := |steps| - 1;
      TasksAddUp(steps[..n], campaign);
      RunKeepsInvariant(steps[..n]);
      StepAddsUp(After(steps[..n]), steps[n], After(steps), ReplyAt(steps, n), campaign);
    }
  }

  /** The step was the accepted report of a task of the campaign. */
  ghost predicate Reports(f: Fleet, s: Step, reply: Reply, campaign: string) {
    s.Complete? && reply.Finished? && exists t :: t in f.tasks && t.taskId == s.task && t.campaignId == campaign
  }

  /** How many findings the accepted reports about the campaign's tasks hold. */
  ghost function ReportedFindings(steps: seq<Step>, campaign: string): nat {
    if steps == [] then 0
    else
      var n := |steps| - 1;
      ReportedFindings(steps[..n], campaign)
      + (if Reports(After(steps[..n]), steps[n], ReplyAt(steps, n), campaign) then steps[n].findings else 0)
  }

  lemma InCampaignMeans(f: Fleet, id: string, campaign: string)
    requires Identified(f.tasks)
    ensures InCampaign(f.tasks, id, campaign)
       <==> exists t :: t in f.tasks && t.taskId == id && t.campaignId == campaign
  {
    forall t | t in f.tasks && t.taskId == id
      ensures Find(f.tasks, id).Some? && f.tasks[Find(f.tasks, id).value] == t
    {
      var i :| 0 <= i < |f.tasks| && f.tasks[i] == t;
      FoundAt(f.tasks, i);
    }
  }

  /** A finished task's row is the one the report names; the report is appended to the results. */
  lemma FinishedRow(f: Fleet, s: Step, g: Fleet, reply: Reply)
    requires s.Complete? && reply.Finished?
    requires (g, reply) == CompleteTask(f, s.agent, s.task, s.token, s.outcome, s.findings, s.now)
    ensures g.results == f.results + [ResultRow(s.task, s.agent, s.outcome, s.findings, s.now)]
  {
  }

  lemma ReportedOnce(rs: seq<ResultRow>, r: ResultRow, ts: seq<Task>, us: seq<Task>, campaign: string)
    requires RowsAdvance(ts, us)
    ensures FindingSum(rs + [r], us, campaign)
         == FindingSum(rs, ts, campaign) + (if InCampaign(ts, r.taskId, campaign) then r.findings else 0)
  {
    assert (rs + [r])[..|rs|] == rs;
    RowsKeepFindings(rs, ts, us, campaign);
    RowsKeepFind(ts, us, r.taskId);
  }

  lemma FinishAddsUp(f: Fleet, s: Step, g: Fleet, reply: Reply, campaign: string)
    requires Inv(f) && s.Complete?
    requires (g, reply) == CompleteTask(f, s.agent, s.task, s.token, s.outcome, s.findings, s.now)
    ensures FindingSum(g.results, g.tasks, campaign)
         == FindingSum(f.results, f.tasks, campaign) + (if Reports(f, s, reply, campaign) then s.findings else 0)
  {
    if reply.Finished? {
      FinishedRow(f, s, g, reply);
      CompleteTaskKeepsInv(f, s.agent, s.task, s.token, s.outcome, s.findings, s.now);
      ReportedOnce(f.results, g.results[|f.results|], f.tasks, g.tasks, campaign);
      InCampaignMeans(f, s.task, campaign);
    } else {
      assert g == f;
    }
  }

  lemma OnlyCompletionReports(f: Fleet, s: Step, g: Fleet)
    requires g == Perform(f, s).0 && !s.Complete?
    ensures g.results == f.results
  {
    match s
    case Claim(agent, seconds, token, now) => ClaimFrame(f, agent, seconds, token, now, g);
    case SetState(id, target, now) => SetStateFrame(f, id, target, now, g);
    case Beat(task, agent, token, seconds, now) => HeartbeatFrame(f, task, agent, token, seconds, now, g);
    case _ =>
  }

  lemma RewritingReportsNothing(f: Fleet, s: Step, g: Fleet, campaign: string)
    requires Inv(f) && g == Perform(f, s).0 && !s.Complete? && !s.Enqueue?
    ensures FindingSum(g.results, g.tasks, campaign) == FindingSum(f.results, f.tasks, campaign)
  {
    OnlyCompletionReports(f, s, g);
    OnlyEnqueueAdds(f, s, g);
    StepExtends(f, s, g);
    assert g.tasks[..|f.tasks|] == g.tasks;
    RowsKeepFindings(f.results, f.tasks, g.tasks, campaign);
  }

  lemma AcceptingReportsNothing(f: Fleet, s: Step, g: Fleet, reply: Reply, campaign: string)
    requires ResultsOk(f.results, f.tasks) && s.Enqueue?
    requires (g, reply) == EnqueueTask(f, s.newTask, s.seen, s.bound, s.now)
    ensures FindingSum(g.results, g.tasks, campaign) == FindingSum(f.results, f.tasks, campaign)
  {
    if reply == Enqueued(true) {
      AcceptedRow(f, s.newTask, s.seen, s.bound, s.now, g);
      var t := g.tasks[|f.tasks|];
      assert g.tasks == f.tasks + [t];
      AppendedFindings(f.results, f.tasks, t, campaign);
    }
  }

  lemma {:induction false} FindingsAddUp(steps: seq<Step>, campaign: string)
    requires WellTypedRun(steps)
    ensures FindingSum(After(steps).results, After(steps).tasks, campaign) == ReportedFindings(steps, campaign)
  {
    if steps != [] {
      var n := |steps| - 1;
      var f, s, g := After(steps[..n]), steps[n], After(steps);
      FindingsAddUp(steps[..n], campaign);
      RunKeepsInvariant(steps[..n]);
      if s.Complete? {
        FinishAddsUp(f, s, g, ReplyAt(steps, n), campaign);
      } else if s.Enqueue? {
        AcceptingReportsNothing(f, s, g, ReplyAt(steps, n), campaign);
      } else {
        RewritingReportsNothing(f, s, g, campaign);
      }
    }
  }

  /** The intents a run accepted for a campaign, their estimated cost and the findings reported about them
      never exceed what its manifest allows, whoever enqueued and reported them in whatever order. */
  lemma RunStaysWithinBudget(steps: seq<Step>, campaign: string)
    requires WellTypedRun(steps) && campaign in After(steps).campaigns
    ensures var budget := After(steps).campaigns[campaign].manifest.budget;
            && AcceptedTasks(steps, campaign) <= budget.maxTasks
            && AcceptedCost(steps, campaign) <= budget.maxCost
            && ReportedFindings(steps, campaign) <= budget.maxFindings
  {
    RunKeepsInvariant(steps);
    TasksAddUp(steps, campaign);
    FindingsAddUp(steps, campaign);
    assert WithinBudget(After(steps), campaign, After(steps).campaigns[campaign].manifest.budget);
  }

  // ---- what is accepted --------------------------------------------------------------------

  /** The wall-clock budget of a started campaign is used up. */
  predicate RanOut(c: Campaign, now: nat) {
    c.startedAt.Some? && now - c.startedAt.value > c.manifest.budget.maxWallSeconds * 1_000_000
  }

  /** The persisted campaign is the one that was read, open and within its wall-clock budget. */
  predicate StillOpen(f: Fleet, seen: Campaign, now: nat) {
    var id := seen.manifest.campaignId;
    && id in f.campaigns && f.campaigns[id].manifest == seen.manifest && !Closed(f.campaigns[id].state)
    && !RanOut(f.campaigns[id], now)
  }

  /** What a run has accepted decides what it accepts next: an intent joins exactly if its campaign was and is
      open, unchanged and in time, its key and task are new, and task count and cost leave room for it. */
  lemma AcceptedExactlyIf(steps: seq<Step>, n: NewTask, seen: Campaign, bound: bool, now: nat, reply: Reply)
    requires WellTypedRun(steps) && reply == EnqueueTask(After(steps), n, seen, bound, now).1
    ensures var f, id, budget := After(steps), seen.manifest.campaignId, seen.manifest.budget;
            var open := !Closed(seen.state) && bound && StillOpen(f, seen, now);
            var known := exists t :: t in f.tasks && t.dedupKey == n.dedupKey;
            var room := AcceptedTasks(steps, id) < budget.maxTasks
              && AcceptedCost(steps, id) + n.cost <= budget.maxCost;
            var taken := exists t :: t in f.tasks && t.taskId == n.taskId;
            && (reply == Enqueued(true) <==> open && !known && room && !taken)
            && (reply == Enqueued(false) <==> open && (known || (room && taken)))
            && (reply.Failed? <==> !open || (!known && !room))
  {
    TasksAddUp(steps, seen.manifest.campaignId);
    TakenMeans(After(steps).tasks, n.taskId);
  }

  lemma TakenMeans(ts: seq<Task>, id: string)
    ensures Find(ts, id).Some? <==> exists t :: t in ts && t.taskId == id
  {
    if Find(ts, id).Some? {
      assert ts[Find(ts, id).value] in ts;
    }
  }

  /** A refused intent is refused for the first reason that applies. */
  lemma RefusedBecause(steps: seq<Step>, n: NewTask, seen: Campaign, bound: bool, now: nat, reply: Reply)
    requires WellTypedRun(steps) && reply == EnqueueTask(After(steps), n, seen, bound, now).1 && reply.Failed?
    ensures var f, id, budget := After(steps), seen.manifest.campaignId, seen.manifest.budget;
            reply.error == if Closed(seen.state) then CampaignClosed
                           else if !bound then NotBound
                           else if id !in f.campaigns then UnknownCampaign
                           else if f.campaigns[id].manifest != seen.manifest then ManifestChanged
                           else if Closed(f.campaigns[id].state) then CampaignClosed
                           else if RanOut(f.campaigns[id], now) then WallBudgetExhausted
                           else if AcceptedTasks(steps, id) >= budget.maxTasks then TaskBudgetExhausted
                           else CostBudgetExceeded
  {
    TasksAddUp(steps, seen.manifest.campaignId);
  }

  /** A report joins the results exactly if it comes from the holder of an unexpired lease on the task, and the
      findings reported about the campaign so far leave room for its own. */
  lemma ReportedExactlyIf(
    steps: seq<Step>, agent: string, id: string, token: string, outcome: string, findings: nat, now: nat, reply: Reply)
    requires WellTypedRun(steps) && reply == CompleteTask(After(steps), agent, id, token, outcome, findings, now).1
    ensures reply.Finished? <==> exists t ::
              && t in After(steps).tasks && HoldsLease(After(steps), t, id, agent, token, now)
              && ReportedFindings(steps, t.campaignId) + findings
                 <= After(steps).campaigns[t.campaignId].manifest.budget.maxFindings
    ensures reply == Failed(FindingBudgetExceeded) <==> exists t ::
              && t in After(steps).tasks && HoldsLease(After(steps), t, id, agent, token, now)
              && ReportedFindings(steps, t.campaignId) + findings
                 > After(steps).campaigns[t.campaignId].manifest.budget.maxFindings
  {
    var f := After(steps);
    RunKeepsInvariant(steps);
    LeaseCheckAnswers(f, id, agent, token, now, AssertActiveLease(f, id, agent, token, now).1);
    forall t | t in f.tasks && HoldsLease(f, t, id, agent, token, now)
      ensures CheckLease(f, id, agent, token, now).0.Some? && f.tasks[CheckLease(f, id, agent, token, now).0.value] == t
    {
      var i :| 0 <= i < |f.tasks| && f.tasks[i] == t;
      FoundAt(f.tasks, i);
    }
    var at := CheckLease(f, id, agent, token, now).0;
    if at.Some? {
      FindingsAddUp(steps, f.tasks[at.value].campaignId);
    }
  }
}
