/** One invariant of the fleet tables, kept by every step of every interleaving. */
module FleetInvariant {
  import opened FleetModel
  import opened Results

  predicate Terminal(s: TaskState) {
    s.TaskCompleted? || s.TaskFailed? || s.TaskBlocked? || s.TaskCancelled?
  }

  predicate Closed(s: CampaignState) {
    s.Completed? || s.Cancelled?
  }

  // ---- the invariant -----------------------------------------------------------------------

  /** Task ids are the primary key and deduplication keys are unique. */
  ghost predicate Identified(ts: seq<Task>) {
    && (forall i, j :: 0 <= i < j < |ts| ==> ts[i].taskId != ts[j].taskId)
    && (forall i, j :: 0 <= i < j < |ts| ==> ts[i].dedupKey != ts[j].dedupKey)
  }

  predicate CampaignOk(id: string, c: Campaign) {
    && c.manifest.campaignId == id
    && ValidManifest(c.manifest)
    && (c.state.Running? || c.state.Completed? ==> c.startedAt.Some?)
  }

  ghost predicate CampaignsOk(campaigns: map<string, Campaign>) {
    forall id :: id in campaigns ==> CampaignOk(id, campaigns[id])
  }

  /** A row is leased exactly when owner, token hash and expiry are set. */
  predicate LeaseFields(t: Task) {
    if t.state.TaskLeased? then t.leaseOwner.Some? && t.tokenHash.Some? && t.expiresAt.Some?
    else t.leaseOwner.None? && t.tokenHash.None? && t.expiresAt.None?
  }

  predicate TaskOk(t: Task, campaigns: map<string, Campaign>, agents: set<string>) {
    && LeaseFields(t)
    && (t.leaseOwner.Some? ==> t.leaseOwner.value in agents)
    && t.campaignId in campaigns
    && t.maxAttempts == campaigns[t.campaignId].manifest.budget.maxAttempts
    && t.attempts <= t.maxAttempts
    && (t.state.TaskLeased? ==> campaigns[t.campaignId].state.Running? && t.attempts >= 1)
    && (t.state.TaskQueued? ==> t.attempts < t.maxAttempts)
    && (Closed(campaigns[t.campaignId].state) ==> Terminal(t.state))
  }

  ghost predicate TasksOk(ts: seq<Task>, campaigns: map<string, Campaign>, agents: set<string>) {
    forall i :: 0 <= i < |ts| ==> TaskOk(ts[i], campaigns, agents)
  }

  /** The task rows obey their rules. */
  ghost predicate RowsOk(f: Fleet) {
    Identified(f.tasks) && TasksOk(f.tasks, f.campaigns, f.agents.Keys)
  }

  /** A busy agent holds a lease. */
  predicate AgentOk(id: string, a: Agent, ts: seq<Task>) {
    a.registration.agentId == id && (a.status.Busy? ==> LeaseCount(ts, id) >= 1)
  }

  ghost predicate AgentsOk(agents: map<string, Agent>, ts: seq<Task>) {
    forall id :: id in agents ==> AgentOk(id, agents[id], ts)
  }

  /** Completed and blocked rows have one result, failed rows at most one, the others none. */
  predicate ResultsMatch(t: Task, rs: seq<ResultRow>) {
    var n := ResultCount(rs, t.taskId);
    if t.state.TaskCompleted? || t.state.TaskBlocked? then n == 1
    else if t.state.TaskFailed? then n <= 1
    else n == 0
  }

  ghost predicate ResultsOk(rs: seq<ResultRow>, ts: seq<Task>) {
    && (forall i :: 0 <= i < |ts| ==> ResultsMatch(ts[i], rs))
    && (forall k :: 0 <= k < |rs| ==> Find(ts, rs[k].taskId).Some?)
  }

  predicate WithinBudget(f: Fleet, id: string, b: Budget) {
    && TaskCount(f.tasks, id) <= b.maxTasks
    && CostSum(f.tasks, id) <= b.maxCost
    && FindingSum(f.results, f.tasks, id) <= b.maxFindings
  }

  ghost predicate BudgetsOk(f: Fleet) {
    forall id :: id in f.campaigns ==> WithinBudget(f, id, f.campaigns[id].manifest.budget)
  }

  ghost predicate Inv(f: Fleet) {
    && RowsOk(f)
    && CampaignsOk(f.campaigns)
    && AgentsOk(f.agents, f.tasks)
    && ResultsOk(f.results, f.tasks)
    && BudgetsOk(f)
  }

  // ---- rewriting rows in place -------------------------------------------------------------

  /** `u` is `t` after updates of the lease columns, state, attempts and update time. */
  predicate SameRow(t: Task, u: Task) {
    u == t.(state := u.state, attempts := u.attempts, leaseOwner := u.leaseOwner,
            tokenHash := u.tokenHash, expiresAt := u.expiresAt, updatedAt := u.updatedAt)
  }

  /** A terminal row never changes again. */
  predicate Advances(t: Task, u: Task) {
    SameRow(t, u) && (Terminal(t.state) ==> u == t)
  }

  ghost predicate RowsAdvance(ts: seq<Task>, us: seq<Task>) {
    |us| == |ts| && forall i :: 0 <= i < |ts| ==> Advances(ts[i], us[i])
  }

  ghost predicate SameManifests(campaigns: map<string, Campaign>, later: map<string, Campaign>) {
    later.Keys == campaigns.Keys && forall id :: id in campaigns ==> later[id].manifest == campaigns[id].manifest
  }

  lemma {:induction false} RowsKeepAggregates(ts: seq<Task>, us: seq<Task>, campaign: string)
    requires RowsAdvance(ts, us)
    ensures TaskCount(us, campaign) == TaskCount(ts, campaign)
    ensures CostSum(us, campaign) == CostSum(ts, campaign)
  {
    if ts != [] {
      RowsKeepAggregates(ts[..|ts| - 1], us[..|us| - 1], campaign);
    }
  }

  lemma {:induction false} RowsKeepFind(ts: seq<Task>, us: seq<Task>, id: string)
    requires RowsAdvance(ts, us)
    ensures Find(us, id) == Find(ts, id)
  {
    if ts != [] {
      RowsKeepFind(ts[..|ts| - 1], us[..|us| - 1], id);
    }
  }

  lemma {:induction false} RowsKeepFindings(rs: seq<ResultRow>, ts: seq<Task>, us: seq<Task>, campaign: string)
    requires RowsAdvance(ts, us)
    ensures FindingSum(rs, us, campaign) == FindingSum(rs, ts, campaign)
  {
    if rs != [] {
      RowsKeepFindings(rs[..|rs| - 1], ts, us, campaign);
      RowsKeepFind(ts, us, rs[|rs| - 1].taskId);
    }
  }

  lemma RowsKeepIdentity(f: Fleet, g: Fleet)
    requires RowsAdvance(f.tasks, g.tasks) && g.results == f.results
    requires Identified(f.tasks) && BudgetsOk(f) && SameManifests(f.campaigns, g.campaigns)
    ensures Identified(g.tasks) && BudgetsOk(g)
  {
    forall id | id in g.campaigns
      ensures WithinBudget(g, id, g.campaigns[id].manifest.budget)
    {
      assert WithinBudget(f, id, f.campaigns[id].manifest.budget);
      RowsKeepAggregates(f.tasks, g.tasks, id);
      RowsKeepFindings(f.results, f.tasks, g.tasks, id);
    }
    forall i, j | 0 <= i < j < |g.tasks|
      ensures g.tasks[i].taskId != g.tasks[j].taskId && g.tasks[i].dedupKey != g.tasks[j].dedupKey
    {
      assert Advances(f.tasks[i], g.tasks[i]) && Advances(f.tasks[j], g.tasks[j]);
    }
  }

  /** No update without a result row makes a row completed or blocked. */
  ghost predicate NothingFinishes(ts: seq<Task>, us: seq<Task>)
    requires |us| == |ts|
  {
    forall i :: 0 <= i < |ts| && !Terminal(ts[i].state) ==> !us[i].state.TaskCompleted? && !us[i].state.TaskBlocked?
  }

  lemma RowsKeepResults(rs: seq<ResultRow>, ts: seq<Task>, us: seq<Task>)
    requires RowsAdvance(ts, us) && NothingFinishes(ts, us) && ResultsOk(rs, ts)
    ensures ResultsOk(rs, us)
  {
    forall i | 0 <= i < |us|
      ensures ResultsMatch(us[i], rs)
    {
      assert Advances(ts[i], us[i]) && ResultsMatch(ts[i], rs);
    }
    forall k | 0 <= k < |rs|
      ensures Find(us, rs[k].taskId).Some?
    {
      RowsKeepFind(ts, us, rs[k].taskId);
    }
  }

  // ---- releasing agents --------------------------------------------------------------------

  lemma {:induction false} SameLeases(ts: seq<Task>, us: seq<Task>, agent: string)
    requires |us| == |ts| && forall i :: 0 <= i < |ts| ==> (LeasedBy(us[i], agent) <==> LeasedBy(ts[i], agent))
    ensures LeaseCount(us, agent) == LeaseCount(ts, agent)
  {
    if ts != [] {
      SameLeases(ts[..|ts| - 1], us[..|us| - 1], agent);
    }
  }

  /** Every row whose lease the rewrite takes away is owned by somebody in `ids`. */
  ghost predicate OwnersListed(ts: seq<Task>, us: seq<Task>, ids: set<string>)
    requires |us| == |ts|
  {
    forall i :: 0 <= i < |ts| && us[i] != ts[i] && ts[i].state.TaskLeased? && ts[i].leaseOwner.Some?
                ==> ts[i].leaseOwner.value in ids
  }

  ghost predicate NothingGranted(ts: seq<Task>, us: seq<Task>)
    requires |us| == |ts|
  {
    forall i :: 0 <= i < |ts| && us[i] != ts[i] ==> !us[i].state.TaskLeased?
  }

  lemma ReleaseKeepsAgents(agents: map<string, Agent>, ts: seq<Task>, us: seq<Task>, ids: set<string>, now: nat)
    requires AgentsOk(agents, ts) && |us| == |ts| && OwnersListed(ts, us, ids) && NothingGranted(ts, us)
    ensures AgentsOk(ReleaseIdle(agents, us, ids, now), us)
  {
    var released := ReleaseIdle(agents, us, ids, now);
    forall a | a in released
      ensures AgentOk(a, released[a], us)
    {
      assert AgentOk(a, agents[a], ts);
      if a !in ids {
        SameLeases(ts, us, a);
      }
    }
  }

  // ---- sweeps ------------------------------------------------------------------------------

  lemma ExpireKeepsTasks(f: Fleet, now: nat)
    requires Inv(f)
    ensures var us := ExpireTasks(f.tasks, now);
            && TasksOk(us, f.campaigns, f.agents.Keys)
            && RowsAdvance(f.tasks, us) && NothingFinishes(f.tasks, us)
            && NothingGranted(f.tasks, us) && OwnersListed(f.tasks, us, ExpiredOwners(f.tasks, now))
  {
    var us := ExpireTasks(f.tasks, now);
    forall i | 0 <= i < |us|
      ensures TaskOk(us[i], f.campaigns, f.agents.Keys) && Advances(f.tasks[i], us[i])
    {
      assert TaskOk(f.tasks[i], f.campaigns, f.agents.Keys);
    }
  }

  /** Queued rows always have attempts left, so the second statement of a sweep changes nothing. */
  lemma NothingIsExhausted(f: Fleet, now: nat)
    requires RowsOk(f)
    ensures FailExhausted(f.tasks, now) == f.tasks
    ensures SweepFleet(f, now).tasks == ExpireTasks(f.tasks, now)
  {
    var us := ExpireTasks(f.tasks, now);
    forall i | 0 <= i < |us|
      ensures FailTask(f.tasks[i], now) == f.tasks[i] && FailTask(us[i], now) == us[i]
    {
      assert TaskOk(f.tasks[i], f.campaigns, f.agents.Keys);
    }
    assert FailExhausted(us, now) == us;
  }

  lemma SweepKeepsInv(f: Fleet, now: nat)
    requires Inv(f)
    ensures Inv(SweepFleet(f, now))
    ensures RowsAdvance(f.tasks, SweepFleet(f, now).tasks)
  {
    var g := SweepFleet(f, now);
    NothingIsExhausted(f, now);
    ExpireKeepsTasks(f, now);
    RowsKeepIdentity(f, g);
    RowsKeepResults(f.results, f.tasks, g.tasks);
    ReleaseKeepsAgents(f.agents, f.tasks, g.tasks, ExpiredOwners(f.tasks, now), now);
    assert g.agents.Keys == f.agents.Keys;
  }

  // ---- campaign transitions ----------------------------------------------------------------

  /** Rows keep their rules when the campaign `id` moves to `c`. */
  ghost predicate RowsFit(us: seq<Task>, f: Fleet, id: string, c: Campaign) {
    TasksOk(us, f.campaigns[id := c], f.agents.Keys)
  }

  lemma CampaignMoveKeepsInv(f: Fleet, g: Fleet, id: string, c: Campaign, ids: set<string>, now: nat)
    requires Inv(f) && id in f.campaigns && c.manifest == f.campaigns[id].manifest && CampaignOk(id, c)
    requires RowsAdvance(f.tasks, g.tasks) && NothingFinishes(f.tasks, g.tasks) && RowsFit(g.tasks, f, id, c)
    requires NothingGranted(f.tasks, g.tasks) && OwnersListed(f.tasks, g.tasks, ids)
    requires g == Fleet(f.campaigns[id := c], ReleaseIdle(f.agents, g.tasks, ids, now), g.tasks, f.results)
    ensures Inv(g)
  {
    RowsKeepIdentity(f, g);
    RowsKeepResults(f.results, f.tasks, g.tasks);
    ReleaseKeepsAgents(f.agents, f.tasks, g.tasks, ids, now);
    assert g.agents.Keys == f.agents.Keys;
  }

  lemma RequeueRows(f: Fleet, id: string, c: Campaign, now: nat)
    requires Inv(f) && id in f.campaigns && c.manifest == f.campaigns[id].manifest
    requires !Closed(f.campaigns[id].state) && !Closed(c.state)
    ensures var us := RequeueTasks(f.tasks, id, now);
            && RowsAdvance(f.tasks, us) && NothingFinishes(f.tasks, us) && RowsFit(us, f, id, c)
            && NothingGranted(f.tasks, us) && OwnersListed(f.tasks, us, CampaignOwners(f.tasks, id))
  {
    var us := RequeueTasks(f.tasks, id, now);
    forall i | 0 <= i < |us|
      ensures TaskOk(us[i], f.campaigns[id := c], f.agents.Keys) && Advances(f.tasks[i], us[i])
    {
      assert TaskOk(f.tasks[i], f.campaigns, f.agents.Keys);
    }
  }

  lemma CancelRows(f: Fleet, id: string, c: Campaign, now: nat)
    requires Inv(f) && id in f.campaigns && c.manifest == f.campaigns[id].manifest && c.state.Cancelled?
    ensures var us := CancelTasks(f.tasks, id, now);
            && RowsAdvance(f.tasks, us) && NothingFinishes(f.tasks, us) && RowsFit(us, f, id, c)
            && NothingGranted(f.tasks, us) && OwnersListed(f.tasks, us, CampaignOwners(f.tasks, id))
  {
    var us := CancelTasks(f.tasks, id, now);
    forall i | 0 <= i < |us|
      ensures TaskOk(us[i], f.campaigns[id := c], f.agents.Keys) && Advances(f.tasks[i], us[i])
    {
      assert TaskOk(f.tasks[i], f.campaigns, f.agents.Keys);
    }
  }

  lemma NobodyReleased(agents: map<string, Agent>, ts: seq<Task>, now: nat)
    ensures ReleaseIdle(agents, ts, {}, now) == agents
  {
  }

  lemma RequeueKeepsInv(f: Fleet, id: string, c: Campaign, now: nat)
    requires Inv(f) && id in f.campaigns && c.manifest == f.campaigns[id].manifest && CampaignOk(id, c)
    requires !Closed(f.campaigns[id].state) && !Closed(c.state)
    ensures var g := Requeue(f, id, now).(campaigns := f.campaigns[id := c]); Inv(g) && RowsAdvance(f.tasks, g.tasks)
  {
    RequeueRows(f, id, c, now);
    CampaignMoveKeepsInv(f, Requeue(f, id, now).(campaigns := f.campaigns[id := c]), id, c, CampaignOwners(f.tasks, id),
      now);
  }

  lemma CancelKeepsInv(f: Fleet, id: string, c: Campaign, now: nat)
    requires Inv(f) && id in f.campaigns && c.manifest == f.campaigns[id].manifest && CampaignOk(id, c)
             && c.state.Cancelled?
    ensures var g := Cancel(f, id, now).(campaigns := f.campaigns[id := c]); Inv(g) && RowsAdvance(f.tasks, g.tasks)
  {
    CancelRows(f, id, c, now);
    CampaignMoveKeepsInv(f, Cancel(f, id, now).(campaigns := f.campaigns[id := c]), id, c, CampaignOwners(f.tasks, id),
      now);
  }

  lemma SettledKeepsInv(f: Fleet, id: string, c: Campaign)
    requires Inv(f) && id in f.campaigns && c.manifest == f.campaigns[id].manifest && CampaignOk(id, c)
    requires if Closed(c.state) then !HasActive(f.tasks, id)
             else !f.campaigns[id].state.Running? && !Closed(f.campaigns[id].state)
    ensures Inv(f.(campaigns := f.campaigns[id := c])) && RowsAdvance(f.tasks, f.tasks)
  {
    NobodyReleased(f.agents, f.tasks, 0);
    CampaignMoveKeepsInv(f, f.(campaigns := f.campaigns[id := c]), id, c, {}, 0);
  }

  lemma ResettleKeepsInv(f: Fleet, id: string, now: nat)
    requires Inv(f) && id in f.campaigns
    ensures var g := Resettle(f, id, f.campaigns[id].state, now); Inv(g) && RowsAdvance(f.tasks, g.tasks)
  {
    var c := f.campaigns[id];
    assert CampaignOk(id, c);
    assert f.campaigns[id := c] == f.campaigns;
    if c.state.Paused? {
      RequeueKeepsInv(f, id, c, now);
    } else if c.state.Cancelled? {
      CancelKeepsInv(f, id, c, now);
    }
  }

  lemma MoveKeepsInv(f: Fleet, id: string, target: CampaignState, now: nat)
    requires Inv(f) && id in f.campaigns && Allowed(f.campaigns[id].state, target)
    requires target.Completed? ==> !HasActive(f.tasks, id)
    ensures var g := Move(f, id, target, now); Inv(g) && RowsAdvance(f.tasks, g.tasks)
  {
    var c := EnterState(f.campaigns[id], target, now);
    assert CampaignOk(id, f.campaigns[id]);
    if target.Cancelled? {
      CancelKeepsInv(f, id, c, now);
    } else if target.Paused? || target.Running? {
      RequeueKeepsInv(f, id, c, now);
    } else {
      SettledKeepsInv(f, id, c);
    }
  }

  lemma SetCampaignStateKeepsInv(f: Fleet, id: string, target: CampaignState, now: nat)
    requires Inv(f)
    ensures Inv(SetCampaignState(f, id, target, now).0)
    ensures RowsAdvance(f.tasks, SetCampaignState(f, id, target, now).0.tasks)
  {
    if SetCampaignState(f, id, target, now).1.Done? {
      if target == f.campaigns[id].state {
        ResettleKeepsInv(f, id, now);
      } else {
        MoveKeepsInv(f, id, target, now);
      }
    }
  }

  // ---- creating campaigns, registering agents, enqueueing ------------------------------------

  lemma {:induction false} NoTasksNoBudgetSpent(ts: seq<Task>, campaign: string)
    requires forall i :: 0 <= i < |ts| ==> ts[i].campaignId != campaign
    ensures TaskCount(ts, campaign) == 0 && CostSum(ts, campaign) == 0.0
  {
    if ts != [] {
      NoTasksNoBudgetSpent(ts[..|ts| - 1], campaign);
    }
  }

  lemma {:induction false} NoTasksNoFindings(rs: seq<ResultRow>, ts: seq<Task>, campaign: string)
    requires forall i :: 0 <= i < |ts| ==> ts[i].campaignId != campaign
    ensures FindingSum(rs, ts, campaign) == 0
  {
    if rs != [] {
      NoTasksNoFindings(rs[..|rs| - 1], ts, campaign);
    }
  }

  lemma CreateCampaignKeepsInv(f: Fleet, m: Manifest, state: CampaignState)
    requires Inv(f) && ValidManifest(m)
    ensures Inv(CreateCampaign(f, m, state).0)
  {
    var g := CreateCampaign(f, m, state).0;
    if g != f {
      forall i | 0 <= i < |f.tasks|
        ensures TaskOk(f.tasks[i], g.campaigns, g.agents.Keys) && f.tasks[i].campaignId != m.campaignId
      {
        assert TaskOk(f.tasks[i], f.campaigns, f.agents.Keys);
      }
      NoTasksNoBudgetSpent(f.tasks, m.campaignId);
      NoTasksNoFindings(f.results, f.tasks, m.campaignId);
      forall id | id in g.campaigns
        ensures WithinBudget(g, id, g.campaigns[id].manifest.budget)
      {
        assert id != m.campaignId ==> WithinBudget(f, id, f.campaigns[id].manifest.budget);
      }
    }
  }

  lemma RegisterAgentKeepsInv(f: Fleet, r: Registration, now: nat)
    requires Inv(f)
    ensures Inv(RegisterAgent(f, r, now).0)
  {
    var g := RegisterAgent(f, r, now).0;
    forall i | 0 <= i < |f.tasks|
      ensures TaskOk(f.tasks[i], g.campaigns, g.agents.Keys)
    {
      assert TaskOk(f.tasks[i], f.campaigns, f.agents.Keys);
    }
    forall id | id in g.campaigns
      ensures WithinBudget(g, id, g.campaigns[id].manifest.budget)
    {
      assert WithinBudget(f, id, f.campaigns[id].manifest.budget);
    }
  }

  /** A row that no result mentions adds no finding. */
  lemma {:induction false} AppendedFindings(rs: seq<ResultRow>, ts: seq<Task>, t: Task, campaign: string)
    requires forall k :: 0 <= k < |rs| ==> Find(ts, rs[k].taskId).Some?
    requires Find(ts, t.taskId).None?
    ensures FindingSum(rs, ts + [t], campaign) == FindingSum(rs, ts, campaign)
  {
    if rs != [] {
      AppendedFindings(rs[..|rs| - 1], ts, t, campaign);
    }
  }

  lemma {:induction false} UnmentionedHasNoResult(rs: seq<ResultRow>, ts: seq<Task>, id: string)
    requires forall k :: 0 <= k < |rs| ==> Find(ts, rs[k].taskId).Some?
    requires Find(ts, id).None?
    ensures ResultCount(rs, id) == 0
  {
    if rs != [] {
      UnmentionedHasNoResult(rs[..|rs| - 1], ts, id);
    }
  }

  lemma AppendKeepsIdentity(ts: seq<Task>, t: Task)
    requires Identified(ts) && Find(ts, t.taskId).None? && !HasDedup(ts, t.dedupKey)
    ensures Identified(ts + [t])
  {
    forall i | 0 <= i < |ts|
      ensures ts[i].dedupKey != t.dedupKey && ts[i].taskId != t.taskId
    {
      assert ts[i] in ts;
    }
  }

  lemma AppendedSums(ts: seq<Task>, t: Task, campaign: string)
    ensures TaskCount(ts + [t], campaign) == TaskCount(ts, campaign) + (if t.campaignId == campaign then 1 else 0)
    ensures CostSum(ts + [t], campaign) == CostSum(ts, campaign) + (if t.campaignId == campaign then t.cost else 0.0)
  {
    assert (ts + [t])[..|ts|] == ts;
  }

  /** The new row is within what is left of the budget, if it belongs to the campaign. */
  lemma AppendKeepsBudget(f: Fleet, t: Task, id: string, b: Budget)
    requires WithinBudget(f, id, b) && ResultsOk(f.results, f.tasks) && Find(f.tasks, t.taskId).None?
    requires t.campaignId == id ==> TaskCount(f.tasks, id) < b.maxTasks && CostSum(f.tasks, id) + t.cost <= b.maxCost
    ensures WithinBudget(f.(tasks := f.tasks + [t]), id, b)
  {
    AppendedSums(f.tasks, t, id);
    AppendedFindings(f.results, f.tasks, t, id);
  }

  lemma AppendKeepsBudgets(f: Fleet, t: Task)
    requires ResultsOk(f.results, f.tasks) && BudgetsOk(f) && t.campaignId in f.campaigns
    requires Find(f.tasks, t.taskId).None?
    requires var budget := f.campaigns[t.campaignId].manifest.budget;
             TaskCount(f.tasks, t.campaignId) < budget.maxTasks
               && CostSum(f.tasks, t.campaignId) + t.cost <= budget.maxCost
    ensures BudgetsOk(f.(tasks := f.tasks + [t]))
  {
    forall id | id in f.campaigns
      ensures WithinBudget(f.(tasks := f.tasks + [t]), id, f.campaigns[id].manifest.budget)
    {
      AppendKeepsBudget(f, t, id, f.campaigns[id].manifest.budget);
    }
  }

  lemma AppendKeepsResultsAndAgents(f: Fleet, t: Task)
    requires Inv(f) && Find(f.tasks, t.taskId).None? && t.state.TaskQueued?
    ensures ResultsOk(f.results, f.tasks + [t]) && AgentsOk(f.agents, f.tasks + [t])
  {
    UnmentionedHasNoResult(f.results, f.tasks, t.taskId);
    forall k | 0 <= k < |f.results|
      ensures Find(f.tasks + [t], f.results[k].taskId).Some?
    {
    }
    forall id | id in f.agents
      ensures AgentOk(id, f.agents[id], f.tasks + [t])
    {
      assert AgentOk(id, f.agents[id], f.tasks);
    }
  }

  lemma AppendKeepsInv(f: Fleet, t: Task)
    requires Inv(f) && TaskOk(t, f.campaigns, f.agents.Keys) && t.state.TaskQueued?
    requires Find(f.tasks, t.taskId).None? && !HasDedup(f.tasks, t.dedupKey)
    requires var budget := f.campaigns[t.campaignId].manifest.budget;
             TaskCount(f.tasks, t.campaignId) < budget.maxTasks
               && CostSum(f.tasks, t.campaignId) + t.cost <= budget.maxCost
    ensures Inv(f.(tasks := f.tasks + [t]))
  {
    AppendKeepsIdentity(f.tasks, t);
    AppendKeepsBudgets(f, t);
    AppendKeepsResultsAndAgents(f, t);
  }

  lemma EnqueueTaskKeepsInv(f: Fleet, n: NewTask, seen: Campaign, bound: bool, now: nat)
    requires Inv(f)
    ensures Inv(EnqueueTask(f, n, seen, bound, now).0)
  {
    if EnqueueTask(f, n, seen, bound, now).1 == Enqueued(true) {
      var t := RowOf(n, seen.manifest, now);
      assert CampaignOk(t.campaignId, f.campaigns[t.campaignId]);
      AppendKeepsInv(f, t);
    }
  }

  // ---- leases ------------------------------------------------------------------------------

  lemma {:induction false} LeaseCountUpdate(ts: seq<Task>, at: nat, u: Task, agent: string)
    requires at < |ts|
    ensures LeaseCount(ts[at := u], agent)
         == LeaseCount(ts, agent) - (if LeasedBy(ts[at], agent) then 1 else 0) + (if LeasedBy(u, agent) then 1 else 0)
  {
    var n := |ts| - 1;
    if at == n {
      assert ts[at := u][..n] == ts[..n];
    } else {
      assert ts[at := u][..n] == ts[..n][at := u];
      LeaseCountUpdate(ts[..n], at, u, agent);
    }
  }

  /** `agents` differs from `before` in nothing an invariant reads, except that `owner` may turn busy. */
  ghost predicate OnlyOwnerTurnsBusy(before: map<string, Agent>, agents: map<string, Agent>, owner: string) {
    && agents.Keys == before.Keys
    && forall id :: id in agents ==>
      && agents[id].registration == before[id].registration
      && (agents[id].status.Busy? ==> before[id].status.Busy? || id == owner)
  }

  lemma LeaseUpdateKeepsAgents(f: Fleet, g: Fleet, at: nat, u: Task, owner: string)
    requires AgentsOk(f.agents, f.tasks) && at < |f.tasks| && g.tasks == f.tasks[at := u] && LeasedBy(u, owner)
    requires f.tasks[at].leaseOwner.Some? ==> f.tasks[at].leaseOwner.value == owner
    requires OnlyOwnerTurnsBusy(f.agents, g.agents, owner)
    ensures AgentsOk(g.agents, g.tasks)
  {
    forall id | id in g.agents
      ensures AgentOk(id, g.agents[id], g.tasks)
    {
      assert AgentOk(id, f.agents[id], f.tasks);
      LeaseCountUpdate(f.tasks, at, u, id);
      SameLeasesElsewhere(f.tasks, at, u);
    }
  }

  /** A leased row is counted for its owner. */
  lemma {:induction false} SameLeasesElsewhere(ts: seq<Task>, at: nat, u: Task)
    requires at < |ts| && u.state.TaskLeased? && u.leaseOwner.Some?
    ensures LeaseCount(ts[at := u], u.leaseOwner.value) >= 1
  {
    LeaseCountUpdate(ts, at, u.(state := TaskQueued), u.leaseOwner.value);
    LeaseCountUpdate(ts[at := u.(state := TaskQueued)], at, u, u.leaseOwner.value);
    assert ts[at := u.(state := TaskQueued)][at := u] == ts[at := u];
  }

  lemma LeaseUpdateKeepsInv(f: Fleet, g: Fleet, at: nat, u: Task, owner: string)
    requires Inv(f) && at < |f.tasks| && !Terminal(f.tasks[at].state)
    requires SameRow(f.tasks[at], u) && LeasedBy(u, owner) && TaskOk(u, f.campaigns, f.agents.Keys)
    requires f.tasks[at].leaseOwner.Some? ==> f.tasks[at].leaseOwner.value == owner
    requires g == Fleet(f.campaigns, g.agents, f.tasks[at := u], f.results)
             && OnlyOwnerTurnsBusy(f.agents, g.agents, owner)
    ensures Inv(g) && RowsAdvance(f.tasks, g.tasks)
  {
    RowsKeepIdentity(f, g);
    RowsKeepResults(f.results, f.tasks, g.tasks);
    LeaseUpdateKeepsAgents(f, g, at, u, owner);
  }

  lemma GrantLeaseKeepsInv(f: Fleet, at: nat, agent: string, token: string, expires: nat, now: nat)
    requires Inv(f) && at < |f.tasks| && agent in f.agents && Selectable(f.tasks[at], f.campaigns)
    ensures Inv(GrantLease(f, at, agent, token, expires, now))
    ensures RowsAdvance(f.tasks, GrantLease(f, at, agent, token, expires, now).tasks)
  {
    assert TaskOk(f.tasks[at], f.campaigns, f.agents.Keys);
    var u := LeaseRow(f.tasks[at], agent, token, expires, now);
    LeaseUpdateKeepsInv(f, GrantLease(f, at, agent, token, expires, now), at, u, agent);
  }

  lemma ClaimSweptKeepsInv(g: Fleet, agent: string, leaseSeconds: nat, token: string, now: nat, h: Fleet)
    requires Inv(g) && agent in g.agents && h == ClaimSwept(g, agent, leaseSeconds, token, now).0
    ensures Inv(h) && RowsAdvance(g.tasks, h.tasks)
  {
    var r := g.agents[agent].registration;
    var at := Pick(g.tasks, g.campaigns, r, now);
    if LeaseCount(g.tasks, agent) < r.maxConcurrency && at.Some? {
      GrantLeaseKeepsInv(g, at.value, agent, token, now + leaseSeconds * 1_000_000, now);
    } else {
      assert h == g;
    }
  }

  lemma ClaimTaskKeepsInv(f: Fleet, agent: string, leaseSeconds: nat, token: string, now: nat, h: Fleet)
    requires Inv(f) && h == ClaimTask(f, agent, leaseSeconds, token, now).0
    ensures Inv(h) && RowsAdvance(f.tasks, h.tasks)
  {
    if h != f {
      SweepKeepsInv(f, now);
      ClaimSweptKeepsInv(SweepFleet(f, now), agent, leaseSeconds, token, now, h);
    }
  }

  lemma ExtendLeaseKeepsInv(f: Fleet, at: nat, agent: string, expires: nat, now: nat)
    requires Inv(f) && at < |f.tasks| && LeasedBy(f.tasks[at], agent)
    ensures Inv(ExtendLease(f, at, agent, expires, now))
    ensures RowsAdvance(f.tasks, ExtendLease(f, at, agent, expires, now).tasks)
  {
    assert TaskOk(f.tasks[at], f.campaigns, f.agents.Keys);
    var g := ExtendLease(f, at, agent, expires, now);
    LeaseUpdateKeepsInv(f, g, at, g.tasks[at], agent);
  }

  lemma HeartbeatKeepsInv(f: Fleet, id: string, agent: string, token: string, extendSeconds: nat, now: nat)
    requires Inv(f)
    ensures Inv(Heartbeat(f, id, agent, token, extendSeconds, now).0)
    ensures RowsAdvance(f.tasks, Heartbeat(f, id, agent, token, extendSeconds, now).0.tasks)
  {
    var (g, reply) := Heartbeat(f, id, agent, token, extendSeconds, now);
    if reply.Extended? {
      var at := CheckLease(f, id, agent, token, now).0.value;
      ExtendLeaseKeepsInv(f, at, agent, reply.expires, now);
    }
  }

  // ---- completion --------------------------------------------------------------------------

  lemma FoundAt(ts: seq<Task>, at: nat)
    requires Identified(ts) && at < |ts|
    ensures Find(ts, ts[at].taskId) == Some(at)
  {
  }

  lemma FinishKeepsBudgets(f: Fleet, at: nat, agent: string, outcome: string, findings: nat, now: nat)
    requires Inv(f) && at < |f.tasks| && f.tasks[at].state.TaskLeased? && f.tasks[at].campaignId in f.campaigns
    requires FindingSum(f.results, f.tasks, f.tasks[at].campaignId) + findings
             <= f.campaigns[f.tasks[at].campaignId].manifest.budget.maxFindings
    ensures var g := FinishTask(f, at, agent, outcome, findings, now);
            && Identified(g.tasks) && BudgetsOk(g) && RowsAdvance(f.tasks, g.tasks)
  {
    var g := FinishTask(f, at, agent, outcome, findings, now);
    RowsKeepIdentity(f, g.(results := f.results));
    FoundAt(g.tasks, at);
    forall id | id in g.campaigns
      ensures WithinBudget(g, id, g.campaigns[id].manifest.budget)
    {
      assert WithinBudget(g.(results := f.results), id, g.campaigns[id].manifest.budget);
      RowsKeepFindings(f.results, f.tasks, g.tasks, id);
    }
  }

  lemma FinishKeepsTasksAndAgents(f: Fleet, at: nat, agent: string, outcome: string, findings: nat, now: nat)
    requires Inv(f) && at < |f.tasks| && LeasedBy(f.tasks[at], agent)
    ensures var g := FinishTask(f, at, agent, outcome, findings, now);
            TasksOk(g.tasks, g.campaigns, g.agents.Keys) && AgentsOk(g.agents, g.tasks)
  {
    var g := FinishTask(f, at, agent, outcome, findings, now);
    assert TaskOk(f.tasks[at], f.campaigns, f.agents.Keys);
    ReleaseKeepsAgents(f.agents, f.tasks, g.tasks, {agent}, now);
    assert g.agents.Keys == f.agents.Keys;
  }

  lemma AppendedResult(rs: seq<ResultRow>, r: ResultRow, id: string)
    ensures ResultCount(rs + [r], id) == ResultCount(rs, id) + (if r.taskId == id then 1 else 0)
  {
    assert (rs + [r])[..|rs|] == rs;
  }

  lemma FinishKeepsResults(ts: seq<Task>, rs: seq<ResultRow>, at: nat, u: Task, r: ResultRow)
    requires Identified(ts) && ResultsOk(rs, ts) && at < |ts| && ts[at].state.TaskLeased?
    requires u.taskId == ts[at].taskId == r.taskId && Terminal(u.state) && !u.state.TaskCancelled?
    ensures ResultsOk(rs + [r], ts[at := u])
  {
    var us := ts[at := u];
    forall i | 0 <= i < |us|
      ensures ResultsMatch(us[i], rs + [r])
    {
      assert ResultsMatch(ts[i], rs);
      AppendedResult(rs, r, ts[i].taskId);
    }
    forall k | 0 <= k < |rs + [r]|
      ensures Find(us, (rs + [r])[k].taskId).Some?
    {
      var i := if k < |rs| then Find(ts, rs[k].taskId).value else at;
      assert us[i].taskId == (rs + [r])[k].taskId;
    }
  }

  lemma FinishTaskKeepsInv(f: Fleet, at: nat, agent: string, outcome: string, findings: nat, now: nat)
    requires Inv(f) && at < |f.tasks| && LeasedBy(f.tasks[at], agent)
    requires f.tasks[at].campaignId in f.campaigns
    requires FindingSum(f.results, f.tasks, f.tasks[at].campaignId) + findings
             <= f.campaigns[f.tasks[at].campaignId].manifest.budget.maxFindings
    ensures var g := FinishTask(f, at, agent, outcome, findings, now); Inv(g) && RowsAdvance(f.tasks, g.tasks)
  {
    FinishKeepsTasksAndAgents(f, at, agent, outcome, findings, now);
    var t := f.tasks[at];
    FinishKeepsResults(f.tasks, f.results, at, Unleased(t, TerminalState(outcome), t.attempts, now),
      ResultRow(t.taskId, agent, outcome, findings, now));
    FinishKeepsBudgets(f, at, agent, outcome, findings, now);
  }

  lemma CompleteTaskKeepsInv(f: Fleet, agent: string, id: string, token: string, outcome: string, findings: nat,
      now: nat)
    requires Inv(f)
    ensures Inv(CompleteTask(f, agent, id, token, outcome, findings, now).0)
    ensures RowsAdvance(f.tasks, CompleteTask(f, agent, id, token, outcome, findings, now).0.tasks)
  {
    if CompleteTask(f, agent, id, token, outcome, findings, now).1.Finished? {
      var at := CheckLease(f, id, agent, token, now).0.value;
      FinishTaskKeepsInv(f, at, agent, outcome, findings, now);
    }
  }

  // ---- every step, every run ---------------------------------------------------------------

  /** The invariant survives every step. */
  lemma StepKeepsInvariant(f: Fleet, s: Step)
    requires Inv(f) && WellTyped(s)
    ensures Inv(Perform(f, s).0)
  {
    match s
    case Create(m, initial) => CreateCampaignKeepsInv(f, m, initial);
    case SetState(id, target, now) => SetCampaignStateKeepsInv(f, id, target, now);
    case Register(r, now) => RegisterAgentKeepsInv(f, r, now);
    case Enqueue(n, seen, bound, now) => EnqueueTaskKeepsInv(f, n, seen, bound, now);
    case Claim(agent, seconds, token, now) => ClaimTaskKeepsInv(f, agent, seconds, token, now, Perform(f, s).0);
    case Beat(task, agent, token, seconds, now) => HeartbeatKeepsInv(f, task, agent, token, seconds, now);
    case Complete(agent, task, token, outcome, findings, now) =>
      CompleteTaskKeepsInv(f, agent, task, token, outcome, findings, now);
    case Check(_, _, _, _) =>
  }

  /** The invariant holds in every reachable state. */
  lemma {:induction false} RunKeepsInvariant(steps: seq<Step>)
    requires WellTypedRun(steps)
    ensures Inv(After(steps))
  {
    if steps == [] {
    } else {
      RunKeepsInvariant(steps[..|steps| - 1]);
      StepKeepsInvariant(After(steps[..|steps| - 1]), steps[|steps| - 1]);
    }
  }
}
