/** The fleet store as it works: methods that read and update the tables in place. Each one is proved
    to make exactly the step of the state machine in `FleetModel`, and so to keep the invariant. */
module FleetStore {
  import opened FleetModel
  import opened FleetInvariant
  import opened FleetScheduling
  import opened Ordering
  import opened Results

  /** The rows of the claim query: queued rows of running campaigns with attempts left, in claim order. */
  ghost predicate OrderedRows(rows: seq<nat>, ts: seq<Task>, campaigns: map<string, Campaign>, n: nat)
    requires n <= |ts|
  {
    && (forall k :: 0 <= k < |rows| ==> rows[k] < n && Selectable(ts[rows[k]], campaigns))
    && (forall j, k :: 0 <= j < k < |rows| ==> RowBefore(ts[rows[j]], ts[rows[k]]))
    && (forall i :: 0 <= i < n && Selectable(ts[i], campaigns) ==> i in rows)
  }

  class FleetStore {
    var campaigns: map<string, Campaign>
    var agents: map<string, Agent>
    var tasks: seq<Task>
    var results: seq<ResultRow>

    function Snapshot(): Fleet
      reads this
    {
      Fleet(campaigns, agents, tasks, results)
    }

    ghost predicate Valid()
      reads this
    {
      Inv(Snapshot())
    }

    constructor ()
      ensures Valid() && Snapshot() == EMPTY
    {
      campaigns, agents, tasks, results := map[], map[], [], [];
      new;
    }

    method Rollback(saved: Fleet)
      modifies this
      ensures Snapshot() == saved
    {
      campaigns, agents, tasks, results := saved.campaigns, saved.agents, saved.tasks, saved.results;
    }

    method ReleaseIdleAgents(ids: set<string>, now: nat)
      modifies this`agents
      ensures agents == ReleaseIdle(old(agents), tasks, ids, now)
    {
      var rest := ids;
      while rest != {}
        invariant rest <= ids && agents == ReleaseIdle(old(agents), tasks, ids - rest, now)
        decreases rest
      {
        var id :| id in rest;
        if LeaseCount(tasks, id) == 0 && id in agents {
          agents := agents[id := ReleaseAgent(agents[id], now)];
        }
        rest := rest - {id};
      }
    }

    method CreateCampaign(m: Manifest, state: CampaignState) returns (reply: Reply)
      requires Valid() && ValidManifest(m)
      modifies this`campaigns
      ensures Valid() && (Snapshot(), reply) == FleetModel.CreateCampaign(old(Snapshot()), m, state)
    {
      CreateCampaignKeepsInv(Snapshot(), m, state);
      if !state.Draft? {
        return Failed(NotDraft);
      }
      if !m.reviewed {
        return Failed(Unreviewed);
      }
      if m.campaignId in campaigns {
        if campaigns[m.campaignId].manifest != m {
          return Failed(DifferentManifest);
        }
        return Done;
      }
      campaigns := campaigns[m.campaignId := Campaign(m, Draft, None)];
      return Done;
    }

    method RequeueCampaignLeases(id: string, now: nat) returns (owners: set<string>)
      modifies this`tasks
      ensures owners == CampaignOwners(old(tasks), id) && tasks == RequeueTasks(old(tasks), id, now)
    {
      owners := CampaignOwners(tasks, id);
      tasks := RequeueTasks(tasks, id, now);
    }

    method CancelCampaignWork(id: string, now: nat) returns (owners: set<string>)
      modifies this`tasks
      ensures owners == CampaignOwners(old(tasks), id) && tasks == CancelTasks(old(tasks), id, now)
    {
      owners := CampaignOwners(tasks, id);
      tasks := CancelTasks(tasks, id, now);
    }

    /** Setting the current state again. */
    method RepeatState(id: string, state: CampaignState, now: nat)
      modifies this`agents, this`tasks
      ensures Snapshot() == Resettle(old(Snapshot()), id, state, now)
    {
      var affected: set<string> := {};
      if state.Paused? {
        affected := RequeueCampaignLeases(id, now);
      } else if state.Cancelled? {
        affected := CancelCampaignWork(id, now);
      }
      NobodyReleased(agents, tasks, now);
      ReleaseIdleAgents(affected, now);
    }

    /** An allowed move to another state. */
    method MoveTo(id: string, target: CampaignState, now: nat)
      requires id in campaigns
      modifies this`campaigns, this`agents, this`tasks
      ensures Snapshot() == Move(old(Snapshot()), id, target, now)
    {
      var affected: set<string> := {};
      if target.Paused? || target.Running? {
        affected := RequeueCampaignLeases(id, now);
      } else if target.Cancelled? {
        affected := CancelCampaignWork(id, now);
      }
      if target.Running? && campaigns[id].startedAt.None? {
        campaigns := campaigns[id := campaigns[id].(state := target, startedAt := Some(now))];
      } else {
        campaigns := campaigns[id := campaigns[id].(state := target)];
      }
      NobodyReleased(agents, tasks, now);
      ReleaseIdleAgents(affected, now);
    }

    method SetCampaignState(id: string, target: CampaignState, now: nat) returns (reply: Reply)
      requires Valid()
      modifies this`campaigns, this`agents, this`tasks
      ensures Valid() && (Snapshot(), reply) == FleetModel.SetCampaignState(old(Snapshot()), id, target, now)
    {
      SetCampaignStateKeepsInv(Snapshot(), id, target, now);
      if id !in campaigns {
        return Failed(UnknownCampaign);
      }
      var current := campaigns[id].state;
      if target == current {
        RepeatState(id, target, now);
        return Done;
      }
      if !Allowed(current, target) {
        return Failed(InvalidTransition);
      }
      if target.Completed? && HasActive(tasks, id) {
        return Failed(ActiveTasks);
      }
      MoveTo(id, target, now);
      return Done;
    }

    method RegisterAgent(r: Registration, now: nat) returns (reply: Reply)
      requires Valid()
      modifies this`agents
      ensures Valid() && (Snapshot(), reply) == FleetModel.RegisterAgent(old(Snapshot()), r, now)
    {
      RegisterAgentKeepsInv(Snapshot(), r, now);
      agents := agents[r.agentId := Agent(r, Online, now)];
      return Done;
    }

    method EnqueueTask(n: NewTask, seen: Campaign, bound: bool, now: nat) returns (reply: Reply)
      requires Valid()
      modifies this`tasks
      ensures Valid() && (Snapshot(), reply) == FleetModel.EnqueueTask(old(Snapshot()), n, seen, bound, now)
    {
      EnqueueTaskKeepsInv(Snapshot(), n, seen, bound, now);
      var id := seen.manifest.campaignId;
      var budget := seen.manifest.budget;
      if seen.state.Completed? || seen.state.Cancelled? {
        return Failed(CampaignClosed);
      }
      if !bound {
        return Failed(NotBound);
      }
      if id !in campaigns {
        return Failed(UnknownCampaign);
      }
      var c := campaigns[id];
      if c.manifest != seen.manifest {
        return Failed(ManifestChanged);
      }
      if c.state.Completed? || c.state.Cancelled? {
        return Failed(CampaignClosed);
      }
      if WallExhausted(c.startedAt, budget.maxWallSeconds, now) {
        return Failed(WallBudgetExhausted);
      }
      if HasDedup(tasks, n.dedupKey) {
        return Enqueued(false);
      }
      if TaskCount(tasks, id) >= budget.maxTasks {
        return Failed(TaskBudgetExhausted);
      }
      if CostSum(tasks, id) + n.cost > budget.maxCost {
        return Failed(CostBudgetExceeded);
      }
      if Find(tasks, n.taskId).Some? {
        return Enqueued(false);
      }
      tasks := tasks + [RowOf(n, seen.manifest, now)];
      return Enqueued(true);
    }

    method RequeueExpired(now: nat)
      modifies this`tasks, this`agents
      ensures tasks == ExpireTasks(old(tasks), now)
      ensures agents == ReleaseIdle(old(agents), tasks, ExpiredOwners(old(tasks), now), now)
    {
      var owners := ExpiredOwners(tasks, now);
      tasks := ExpireTasks(tasks, now);
      ReleaseIdleAgents(owners, now);
    }

    /** The claim query. */
    method SelectRows() returns (rows: seq<nat>)
      requires Identified(tasks)
      ensures OrderedRows(rows, tasks, campaigns, |tasks|)
    {
      rows := [];
      for i := 0 to |tasks|
        invariant OrderedRows(rows, tasks, campaigns, i)
      {
        if Selectable(tasks[i], campaigns) {
          rows := InsertRow(rows, i);
        }
      }
    }

    method InsertRow(rows: seq<nat>, i: nat) returns (longer: seq<nat>)
      requires Identified(tasks) && i < |tasks| && OrderedRows(rows, tasks, campaigns, i)
               && Selectable(tasks[i], campaigns)
      ensures OrderedRows(longer, tasks, campaigns, i + 1)
    {
      var k := 0;
      while k < |rows| && RowBefore(tasks[rows[k]], tasks[i])
        invariant k <= |rows| && forall j :: 0 <= j < k ==> RowBefore(tasks[rows[j]], tasks[i])
      {
        k := k + 1;
      }
      longer := rows[..k] + [i] + rows[k..];
      InsertedInOrder(rows, tasks, campaigns, i, k, longer);
    }

    /** The scan over the rows of the claim query: skip rows that do not suit, stop at the first that does. */
    method SelectTask(rows: seq<nat>, r: Registration, now: nat) returns (selected: Option<nat>)
      requires Identified(tasks) && OrderedRows(rows, tasks, campaigns, |tasks|)
      ensures selected == Pick(tasks, campaigns, r, now)
    {
      selected := None;
      var k := 0;
      while k < |rows|
        invariant k <= |rows| && forall j :: 0 <= j < k ==> !Suits(tasks[rows[j]], campaigns, r, now)
      {
        var row := tasks[rows[k]];
        var c := campaigns[row.campaignId];
        k := k + 1;
        if WallExhausted(c.startedAt, c.manifest.budget.maxWallSeconds, now) {
          continue;
        }
        if !(row.required <= r.capabilities) {
          continue;
        }
        if row.executionClass > r.maxClass {
          continue;
        }
        FirstSuitableIsPicked(rows, tasks, campaigns, r, now, k - 1);
        return Some(rows[k - 1]);
      }
    }

    /** The two statements that open a claim. */
    method Sweep(now: nat)
      modifies this`tasks, this`agents
      ensures Snapshot() == SweepFleet(old(Snapshot()), now)
    {
      RequeueExpired(now);
      tasks := FailExhausted(tasks, now);
    }

    /** The two updates that lease a row out. */
    method Grant(at: nat, agent: string, token: string, expires: nat, now: nat) returns (reply: Reply)
      requires at < |tasks| && agent in agents
      modifies this`tasks, this`agents
      ensures Snapshot() == GrantLease(old(Snapshot()), at, agent, token, expires, now)
      ensures reply == Leased(tasks[at], token, now)
    {
      tasks := tasks[at := LeaseRow(tasks[at], agent, token, expires, now)];
      agents := agents[agent := agents[agent].(status := Busy, lastSeen := now)];
      return Leased(tasks[at], token, now);
    }

    /** The part of a claim after the registration look-up. */
    method LeaseNext(agent: string, leaseSeconds: nat, token: string, now: nat) returns (reply: Reply)
      requires Valid() && agent in agents
      modifies this`tasks, this`agents
      ensures Valid() && (Snapshot(), reply) == ClaimSwept(old(Snapshot()), agent, leaseSeconds, token, now)
    {
      ghost var swept := Snapshot();
      ghost var after := ClaimSwept(swept, agent, leaseSeconds, token, now);
      ClaimSweptKeepsInv(swept, agent, leaseSeconds, token, now, after.0);
      var r := agents[agent].registration;
      if LeaseCount(tasks, agent) >= r.maxConcurrency {
        return NoWork;
      }
      var rows := SelectRows();
      var selected := SelectTask(rows, r, now);
      if selected.None? {
        return NoWork;
      }
      reply := Grant(selected.value, agent, token, now + leaseSeconds * 1_000_000, now);
      assert (Snapshot(), reply) == after;
    }

    method ClaimTask(agent: string, leaseSeconds: nat, token: string, now: nat) returns (reply: Reply)
      requires Valid()
      modifies this
      ensures Valid() && (Snapshot(), reply) == FleetModel.ClaimTask(old(Snapshot()), agent, leaseSeconds, token, now)
    {
      if leaseSeconds < 10 || leaseSeconds > 86400 {
        return Failed(BadDuration);
      }
      var saved := Snapshot();
      SweepKeepsInv(saved, now);
      Sweep(now);
      if agent !in agents {
        Rollback(saved);
        return Failed(UnknownAgent);
      }
      reply := LeaseNext(agent, leaseSeconds, token, now);
    }

    method AssertActiveLease(id: string, agent: string, token: string, now: nat) returns (reply: Reply)
      ensures (Snapshot(), reply) == FleetModel.AssertActiveLease(Snapshot(), id, agent, token, now)
    {
      var (at, error) := CheckLease(Snapshot(), id, agent, token, now);
      return if at.None? then Failed(error) else Active(tasks[at.value]);
    }

    /** The two updates of a heartbeat. */
    method ExtendRow(at: nat, agent: string, expires: nat, now: nat)
      requires at < |tasks|
      modifies this`tasks, this`agents
      ensures Snapshot() == ExtendLease(old(Snapshot()), at, agent, expires, now)
    {
      tasks := tasks[at := tasks[at].(expiresAt := Some(expires), updatedAt := now)];
      if agent in agents {
        agents := agents[agent := agents[agent].(lastSeen := now)];
      }
    }

    /** The transaction of a heartbeat, on any tables. */
    method Beat(id: string, agent: string, token: string, extendSeconds: nat, now: nat) returns (reply: Reply)
      modifies this`tasks, this`agents
      ensures (Snapshot(), reply) == FleetModel.Heartbeat(old(Snapshot()), id, agent, token, extendSeconds, now)
    {
      if extendSeconds < 10 || extendSeconds > 86400 {
        return Failed(BadDuration);
      }
      var (at, error) := CheckLease(Snapshot(), id, agent, token, now);
      if at.None? {
        return Failed(error);
      }
      var current := tasks[at.value].expiresAt.value;
      var expires := now + extendSeconds * 1_000_000;
      if current > expires {
        expires := current;
      }
      ExtendRow(at.value, agent, expires, now);
      return Extended(expires);
    }

    method Heartbeat(id: string, agent: string, token: string, extendSeconds: nat, now: nat) returns (reply: Reply)
      requires Valid()
      modifies this`tasks, this`agents
      ensures Valid() && (Snapshot(), reply)
              == FleetModel.Heartbeat(old(Snapshot()), id, agent, token, extendSeconds, now)
    {
      HeartbeatKeepsInv(Snapshot(), id, agent, token, extendSeconds, now);
      reply := Beat(id, agent, token, extendSeconds, now);
    }

    method CompleteTask(agent: string, id: string, token: string, outcome: string, findings: nat, now: nat)
      returns (reply: Reply)
      requires Valid()
      modifies this`tasks, this`agents, this`results
      ensures Valid()
      ensures (Snapshot(), reply) == FleetModel.CompleteTask(old(Snapshot()), agent, id, token, outcome, findings, now)
    {
      CompleteTaskKeepsInv(Snapshot(), agent, id, token, outcome, findings, now);
      var (at, error) := CheckLease(Snapshot(), id, agent, token, now);
      if at.None? {
        return Failed(error);
      }
      var t := tasks[at.value];
      var existing := FindingSum(results, tasks, t.campaignId);
      if existing + findings > campaigns[t.campaignId].manifest.budget.maxFindings {
        return Failed(FindingBudgetExceeded);
      }
      var terminal := TerminalState(outcome);
      tasks := tasks[at.value := Unleased(t, terminal, t.attempts, now)];
      results := results + [ResultRow(id, agent, outcome, findings, now)];
      ReleaseIdleAgents({agent}, now);
      return Finished(terminal);
    }
  }

  /** The new row comes before the rows behind it. */
  lemma InsertedBefore(rows: seq<nat>, ts: seq<Task>, campaigns: map<string, Campaign>, i: nat, k: nat, j: nat)
    requires Identified(ts) && i < |ts| && OrderedRows(rows, ts, campaigns, i) && k <= j < |rows|
    requires !RowBefore(ts[rows[k]], ts[i])
    ensures RowBefore(ts[i], ts[rows[j]])
  {
    RowBeforeIsTotal(ts[i], ts[rows[k]]);
    if j > k {
      RowBeforeIsTransitive(ts[i], ts[rows[k]], ts[rows[j]]);
    }
  }

  lemma InsertedIsListed(rows: seq<nat>, i: nat, k: nat, longer: seq<nat>, j: nat)
    requires k <= |rows| && longer == rows[..k] + [i] + rows[k..]
    ensures j in longer <==> j in rows || j == i
  {
    if j in rows {
      var at :| 0 <= at < |rows| && rows[at] == j;
      assert longer[if at < k then at else at + 1] == j;
    }
    assert longer[k] == i;
  }

  lemma InsertedIsOrdered(rows: seq<nat>, ts: seq<Task>, i: nat, k: nat, longer: seq<nat>)
    requires k <= |rows| && longer == rows[..k] + [i] + rows[k..] && i < |ts|
    requires forall j :: 0 <= j < |rows| ==> rows[j] < |ts|
    requires forall j, m :: 0 <= j < m < |rows| ==> RowBefore(ts[rows[j]], ts[rows[m]])
    requires forall j :: 0 <= j < k ==> RowBefore(ts[rows[j]], ts[i])
    requires forall j :: k <= j < |rows| ==> RowBefore(ts[i], ts[rows[j]])
    ensures forall j :: 0 <= j < |longer| ==> longer[j] < |ts|
    ensures forall j, m :: 0 <= j < m < |longer| ==> RowBefore(ts[longer[j]], ts[longer[m]])
  {
  }

  lemma InsertedInOrder(
    rows: seq<nat>, ts: seq<Task>, campaigns: map<string, Campaign>, i: nat, k: nat, longer: seq<nat>)
    requires Identified(ts) && i < |ts| && OrderedRows(rows, ts, campaigns, i) && Selectable(ts[i], campaigns)
    requires k <= |rows| && longer == rows[..k] + [i] + rows[k..]
    requires forall j :: 0 <= j < k ==> RowBefore(ts[rows[j]], ts[i])
    requires k < |rows| ==> !RowBefore(ts[rows[k]], ts[i])
    ensures OrderedRows(longer, ts, campaigns, i + 1)
  {
    forall j | k <= j < |rows|
      ensures RowBefore(ts[i], ts[rows[j]])
    {
      InsertedBefore(rows, ts, campaigns, i, k, j);
    }
    InsertedIsOrdered(rows, ts, i, k, longer);
    forall j: nat
      ensures j in longer <==> j in rows || j == i
    {
      InsertedIsListed(rows, i, k, longer, j);
    }
    forall j | 0 <= j < |longer|
      ensures longer[j] < i + 1 && Selectable(ts[longer[j]], campaigns)
    {
      assert longer[j] in longer;
    }
  }

  lemma RowBeforeIsAsymmetric(t: Task, u: Task)
    requires RowBefore(t, u)
    ensures !RowBefore(u, t)
  {
    if t.priority == u.priority && t.createdAt == u.createdAt {
      TextLessAsymmetric(t.taskId, u.taskId);
    }
  }

  /** The first suitable row of an ordered list comes before every other suitable row. */
  lemma FirstSuitableIsPicked(
    rows: seq<nat>, ts: seq<Task>, campaigns: map<string, Campaign>, r: Registration, now: nat, k: nat)
    requires Identified(ts) && OrderedRows(rows, ts, campaigns, |ts|) && k < |rows|
    requires forall j :: 0 <= j < k ==> !Suits(ts[rows[j]], campaigns, r, now)
    requires Suits(ts[rows[k]], campaigns, r, now)
    ensures Pick(ts, campaigns, r, now) == Some(rows[k])
  {
    PickIsFirst(ts, campaigns, r, now);
    assert Claimable(ts[rows[k]], campaigns, r, now);
    var at := Pick(ts, campaigns, r, now).value;
    assert at in rows;
    var j :| 0 <= j < |rows| && rows[j] == at;
    assert j >= k;
    if j > k {
      RowBeforeIsAsymmetric(ts[rows[k]], ts[rows[j]]);
    }
  }

}
