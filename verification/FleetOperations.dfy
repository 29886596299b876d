/** What each fleet operation does to the tables, row by row and column by column. */
module FleetOperations {
  import opened FleetModel
  import opened FleetInvariant
  import opened FleetScheduling
  import opened FleetUpdates
  import opened Ordering
  import opened Results

  // ---- agents that lose their last lease ---------------------------------------------------

  /** The agent owned a row of `ts` that it does not own in `us`, and owns none of `us`. */
  ghost predicate LostItsLast(ts: seq<Task>, us: seq<Task>, agent: string)
    requires |us| == |ts|
  {
    && (exists i :: 0 <= i < |ts| && ts[i].leaseOwner == Some(agent) && us[i].leaseOwner != Some(agent))
    && (forall i :: 0 <= i < |us| ==> us[i].leaseOwner != Some(agent))
  }

  /** An agent that loses its last lease is online, seen now; any other stays as it is. */
  ghost predicate Released(f: Fleet, g: Fleet, agent: string, now: nat)
    requires |g.tasks| == |f.tasks| && agent in f.agents && agent in g.agents
  {
    g.agents[agent] == if LostItsLast(f.tasks, g.tasks, agent)
                       then Agent(f.agents[agent].registration, Online, now) else f.agents[agent]
  }

  ghost predicate AgentsReleased(f: Fleet, g: Fleet, now: nat)
    requires |g.tasks| == |f.tasks|
  {
    g.agents.Keys == f.agents.Keys && forall a :: a in f.agents ==> Released(f, g, a, now)
  }

  lemma {:induction false} NoLeaseCounted(ts: seq<Task>, agent: string)
    requires forall i :: 0 <= i < |ts| ==> LeaseFields(ts[i])
    ensures LeaseCount(ts, agent) == 0 <==> forall i :: 0 <= i < |ts| ==> ts[i].leaseOwner != Some(agent)
  {
    if ts != [] {
      NoLeaseCounted(ts[..|ts| - 1], agent);
    }
  }

  /** `ids` are the owners of the rows that lose their lease. */
  ghost predicate OwnersOfLost(ts: seq<Task>, us: seq<Task>, ids: set<string>)
    requires |us| == |ts|
  {
    forall a :: a in ids <==>
      exists i :: 0 <= i < |ts| && ts[i].leaseOwner == Some(a) && us[i].leaseOwner != Some(a)
  }

  lemma ReleaseTouches(f: Fleet, g: Fleet, ids: set<string>, now: nat)
    requires |g.tasks| == |f.tasks| && OwnersOfLost(f.tasks, g.tasks, ids)
    requires forall i :: 0 <= i < |g.tasks| ==> LeaseFields(g.tasks[i])
    requires g.agents == ReleaseIdle(f.agents, g.tasks, ids, now)
    ensures AgentsReleased(f, g, now)
  {
    forall a | a in f.agents
      ensures Released(f, g, a, now)
    {
      NoLeaseCounted(g.tasks, a);
    }
  }

  lemma LeaseFieldsOfRows(f: Fleet)
    requires RowsOk(f)
    ensures forall i :: 0 <= i < |f.tasks| ==> LeaseFields(f.tasks[i])
  {
    forall i | 0 <= i < |f.tasks|
      ensures LeaseFields(f.tasks[i])
    {
      assert TaskOk(f.tasks[i], f.campaigns, f.agents.Keys);
    }
  }

  // ---- moving a campaign -------------------------------------------------------------------

  /** A campaign becomes ready as a draft or out of a pause, runs when ready or paused, pauses when ready or
      running, completes when running, and is cancelled at any time before its end. */
  predicate MayBecome(current: CampaignState, target: CampaignState) {
    match target
    case Draft => false
    case Ready => current.Draft? || current.Paused?
    case Running => current.Ready? || current.Paused?
    case Paused => current.Ready? || current.Running?
    case Completed => current.Running?
    case Cancelled => !current.Completed? && !current.Cancelled?
  }

  /** How a row follows its campaign into a state: leases are given back with their attempt by a pause, all
      unfinished work is ended by a cancellation. */
  predicate FollowsCampaign(t: Task, u: Task, id: string, target: CampaignState, now: nat) {
    if t.campaignId == id && target.Paused? && t.state.TaskLeased? then
      && t.attempts >= 1
      && u == t.(state := TaskQueued, attempts := t.attempts - 1, leaseOwner := None, tokenHash := None,
                 expiresAt := None, updatedAt := now)
    else if t.campaignId == id && target.Cancelled? && (t.state.TaskQueued? || t.state.TaskLeased?) then
      u == t.(state := TaskCancelled, leaseOwner := None, tokenHash := None, expiresAt := None, updatedAt := now)
    else u == t
  }

  lemma RowFollows(f: Fleet, id: string, target: CampaignState, now: nat, g: Fleet, reply: Reply, i: nat)
    requires RowsOk(f) && (g, reply) == SetCampaignState(f, id, target, now) && reply.Done? && i < |f.tasks|
    ensures |g.tasks| == |f.tasks| && FollowsCampaign(f.tasks[i], g.tasks[i], id, target, now)
  {
    assert TaskOk(f.tasks[i], f.campaigns, f.agents.Keys);
  }

  lemma CampaignOwnersLose(ts: seq<Task>, us: seq<Task>, id: string, now: nat)
    requires forall i :: 0 <= i < |ts| ==> LeaseFields(ts[i])
    requires us == RequeueTasks(ts, id, now) || us == CancelTasks(ts, id, now)
    ensures OwnersOfLost(ts, us, CampaignOwners(ts, id))
  {
    forall a
      ensures a in CampaignOwners(ts, id) <==>
              exists i :: 0 <= i < |ts| && ts[i].leaseOwner == Some(a) && us[i].leaseOwner != Some(a)
    {
      if a in CampaignOwners(ts, id) {
        var t :| t in ts && t.campaignId == id && t.state.TaskLeased? && t.leaseOwner == Some(a);
        var i :| 0 <= i < |ts| && ts[i] == t;
        assert ts[i].leaseOwner == Some(a) && us[i].leaseOwner != Some(a);
      }
      forall i | 0 <= i < |ts| && ts[i].leaseOwner == Some(a) && us[i].leaseOwner != Some(a)
        ensures a in CampaignOwners(ts, id)
      {
        assert ts[i] in ts && ts[i].campaignId == id && ts[i].leaseOwner.Some? && ts[i].leaseOwner.value == a;
      }
    }
  }

  lemma UntouchedAgents(f: Fleet, g: Fleet, now: nat)
    requires g.tasks == f.tasks && g.agents == f.agents
    ensures AgentsReleased(f, g, now)
  {
  }

  lemma RequeueReleases(f: Fleet, id: string, now: nat, g: Fleet)
    requires RowsOk(f) && g.tasks == Requeue(f, id, now).tasks && g.agents == Requeue(f, id, now).agents
    ensures AgentsReleased(f, g, now)
  {
    LeaseFieldsOfRows(f);
    CampaignOwnersLose(f.tasks, g.tasks, id, now);
    ReleaseTouches(f, g, CampaignOwners(f.tasks, id), now);
  }

  lemma CancelReleases(f: Fleet, id: string, now: nat, g: Fleet)
    requires RowsOk(f) && g.tasks == Cancel(f, id, now).tasks && g.agents == Cancel(f, id, now).agents
    ensures AgentsReleased(f, g, now)
  {
    LeaseFieldsOfRows(f);
    CampaignOwnersLose(f.tasks, g.tasks, id, now);
    ReleaseTouches(f, g, CampaignOwners(f.tasks, id), now);
  }

  lemma MoveReleases(f: Fleet, id: string, target: CampaignState, now: nat, g: Fleet, reply: Reply)
    requires RowsOk(f) && (g, reply) == SetCampaignState(f, id, target, now) && reply.Done?
    ensures |g.tasks| == |f.tasks| && AgentsReleased(f, g, now)
  {
    if target.Cancelled? {
      CancelReleases(f, id, now, g);
    } else if target.Paused? || (target.Running? && target != f.campaigns[id].state) {
      RequeueReleases(f, id, now, g);
    } else {
      UntouchedAgents(f, g, now);
    }
  }

  /** A campaign moves exactly along the allowed transitions, and completes only without unfinished work. */
  lemma MoveIsAnswered(f: Fleet, id: string, target: CampaignState, now: nat, g: Fleet, reply: Reply)
    requires (g, reply) == SetCampaignState(f, id, target, now)
    ensures reply == Failed(UnknownCampaign) <==> id !in f.campaigns
    ensures id in f.campaigns ==>
              var current := f.campaigns[id].state;
              var active := exists t ::
                t in f.tasks && t.campaignId == id && (t.state.TaskQueued? || t.state.TaskLeased?);
              reply == if target == current then Done
                       else if !MayBecome(current, target) then Failed(InvalidTransition)
                       else if target.Completed? && active then Failed(ActiveTasks) else Done
    ensures reply.Failed? ==> g == f
  {
  }

  lemma MovedCampaign(f: Fleet, id: string, target: CampaignState, now: nat, g: Fleet, reply: Reply)
    requires CampaignsOk(f.campaigns) && (g, reply) == SetCampaignState(f, id, target, now) && reply.Done?
    ensures id in f.campaigns && g.results == f.results
    ensures var c := f.campaigns[id];
            g.campaigns == f.campaigns[id := Campaign(c.manifest, target,
              if target.Running? && c.startedAt.None? then Some(now) else c.startedAt)]
  {
    assert CampaignOk(id, f.campaigns[id]);
    assert f.campaigns[id := f.campaigns[id]] == f.campaigns;
  }

  /** A move sets the state of its campaign, and the start of its first run; its rows follow, and the agents
      that lose their last lease by it go online. Nothing else changes. */
  lemma MoveTakesEffect(f: Fleet, id: string, target: CampaignState, now: nat, g: Fleet, reply: Reply)
    requires Inv(f) && (g, reply) == SetCampaignState(f, id, target, now) && reply.Done?
    ensures id in f.campaigns && g.results == f.results
    ensures var c := f.campaigns[id];
            g.campaigns == f.campaigns[id := Campaign(c.manifest, target,
              if target.Running? && c.startedAt.None? then Some(now) else c.startedAt)]
    ensures |g.tasks| == |f.tasks| && AgentsReleased(f, g, now)
    ensures forall i :: 0 <= i < |f.tasks| ==> FollowsCampaign(f.tasks[i], g.tasks[i], id, target, now)
  {
    MovedCampaign(f, id, target, now, g, reply);
    MoveReleases(f, id, target, now, g, reply);
    forall i | 0 <= i < |f.tasks|
      ensures FollowsCampaign(f.tasks[i], g.tasks[i], id, target, now)
    {
      RowFollows(f, id, target, now, g, reply, i);
    }
  }

  // ---- handing out work --------------------------------------------------------------------

  /** The row can be handed out at `now`: queued, or leased and run out; with an attempt left; in a running
      campaign within its wall-clock time; and the agent is able and allowed to do it. */
  predicate Available(t: Task, campaigns: map<string, Campaign>, r: Registration, now: nat) {
    && (t.state.TaskQueued? || (t.state.TaskLeased? && t.expiresAt.Some? && t.expiresAt.value < now))
    && t.attempts < t.maxAttempts
    && t.campaignId in campaigns
    && var c := campaigns[t.campaignId];
       && c.state.Running?
       && (c.startedAt.Some? ==> now - c.startedAt.value <= c.manifest.budget.maxWallSeconds * 1_000_000)
       && t.required <= r.capabilities && t.executionClass <= r.maxClass
  }

  /** The rows an agent holds that have not run out. */
  ghost function Holding(ts: seq<Task>, agent: string, now: nat): set<nat> {
    set i | 0 <= i < |ts| && ts[i].leaseOwner == Some(agent) && ts[i].expiresAt.Some? && now <= ts[i].expiresAt.value
  }

  /** What becomes of a row that is not handed out: a lease that has run out ends, and was the last if no
      attempt is left. */
  predicate Swept(t: Task, u: Task, now: nat) {
    if t.state.TaskLeased? && t.expiresAt.Some? && t.expiresAt.value < now then
      u == t.(state := if t.attempts < t.maxAttempts then TaskQueued else TaskFailed, leaseOwner := None,
              tokenHash := None, expiresAt := None, updatedAt := now)
    else u == t
  }

  ghost function Owned(ts: seq<Task>, agent: string): set<nat> {
    set i | 0 <= i < |ts| && ts[i].leaseOwner == Some(agent)
  }

  lemma {:induction false} LeasesAreCounted(ts: seq<Task>, agent: string)
    requires forall i :: 0 <= i < |ts| ==> LeaseFields(ts[i])
    ensures LeaseCount(ts, agent) == |Owned(ts, agent)|
  {
    if ts != [] {
      var n := |ts| - 1;
      LeasesAreCounted(ts[..n], agent);
      if LeasedBy(ts[n], agent) {
        assert Owned(ts, agent) == Owned(ts[..n], agent) + {n};
      } else {
        assert Owned(ts, agent) == Owned(ts[..n], agent);
      }
    } else {
      assert Owned(ts, agent) == {};
    }
  }

  lemma RowIsSwept(f: Fleet, r: Registration, now: nat, swept: Fleet, i: nat)
    requires RowsOk(f) && i < |f.tasks| && swept == SweepFleet(f, now)
    ensures i < |swept.tasks| && Swept(f.tasks[i], swept.tasks[i], now)
    ensures LeaseFields(f.tasks[i]) && LeaseFields(swept.tasks[i])
    ensures Claimable(swept.tasks[i], swept.campaigns, r, now) <==> Available(f.tasks[i], f.campaigns, r, now)
    ensures SameRow(f.tasks[i], swept.tasks[i])
  {
    NothingIsExhausted(f, now);
    assert TaskOk(f.tasks[i], f.campaigns, f.agents.Keys);
  }

  lemma SweepReleases(f: Fleet, now: nat, swept: Fleet)
    requires RowsOk(f) && swept == SweepFleet(f, now)
    ensures |swept.tasks| == |f.tasks| && AgentsReleased(f, swept, now)
    ensures swept.campaigns == f.campaigns && swept.results == f.results
  {
    NothingIsExhausted(f, now);
    LeaseFieldsOfRows(f);
    ExpiredOwnersLose(f.tasks, swept.tasks, now);
    ReleaseTouches(f, swept, ExpiredOwners(f.tasks, now), now);
  }

  lemma ExpiredOwnersLose(ts: seq<Task>, us: seq<Task>, now: nat)
    requires forall i :: 0 <= i < |ts| ==> LeaseFields(ts[i])
    requires us == ExpireTasks(ts, now)
    ensures OwnersOfLost(ts, us, ExpiredOwners(ts, now))
    ensures forall i :: 0 <= i < |us| ==> LeaseFields(us[i])
  {
    forall a
      ensures a in ExpiredOwners(ts, now) <==>
              exists i :: 0 <= i < |ts| && ts[i].leaseOwner == Some(a) && us[i].leaseOwner != Some(a)
    {
      if a in ExpiredOwners(ts, now) {
        var t :| t in ts && Expired(t, now) && t.leaseOwner == Some(a);
        var i :| 0 <= i < |ts| && ts[i] == t;
        assert ts[i].leaseOwner == Some(a) && us[i].leaseOwner != Some(a);
      }
      forall i | 0 <= i < |ts| && ts[i].leaseOwner == Some(a) && us[i].leaseOwner != Some(a)
        ensures a in ExpiredOwners(ts, now)
      {
        assert ts[i] in ts && Expired(ts[i], now) && ts[i].leaseOwner.value == a;
      }
    }
  }

  /** What a claim needs to know about the sweep that opens it. */
  ghost predicate SweptFrom(f: Fleet, r: Registration, now: nat, swept: Fleet) {
    && |swept.tasks| == |f.tasks| && swept.campaigns == f.campaigns && swept.results == f.results
    && AgentsReleased(f, swept, now)
    && (forall i :: 0 <= i < |f.tasks| ==>
          && Swept(f.tasks[i], swept.tasks[i], now) && LeaseFields(f.tasks[i]) && LeaseFields(swept.tasks[i])
          && (Claimable(swept.tasks[i], swept.campaigns, r, now) <==> Available(f.tasks[i], f.campaigns, r, now)))
  }

  lemma SweepIsSwept(f: Fleet, r: Registration, now: nat, swept: Fleet)
    requires RowsOk(f) && swept == SweepFleet(f, now)
    ensures SweptFrom(f, r, now, swept)
  {
    SweepReleases(f, now, swept);
    forall i | 0 <= i < |f.tasks|
      ensures Swept(f.tasks[i], swept.tasks[i], now) && LeaseFields(f.tasks[i]) && LeaseFields(swept.tasks[i])
              && (Claimable(swept.tasks[i], swept.campaigns, r, now) <==> Available(f.tasks[i], f.campaigns, r, now))
    {
      RowIsSwept(f, r, now, swept, i);
    }
  }

  lemma HoldingIsCounted(f: Fleet, r: Registration, agent: string, now: nat, swept: Fleet)
    requires SweptFrom(f, r, now, swept)
    ensures LeaseCount(swept.tasks, agent) == |Holding(f.tasks, agent, now)|
  {
    LeasesAreCounted(swept.tasks, agent);
    assert Owned(swept.tasks, agent) == Holding(f.tasks, agent, now);
  }

  /** On any tables, even ones no run reaches: a lease that has run out ends, and fails with its last attempt; a queued
      row without an attempt left fails; every other row stays as it is. */
  lemma SweepOfAnyRow(f: Fleet, now: nat, i: nat)
    requires i < |f.tasks|
    ensures |SweepFleet(f, now).tasks| == |f.tasks|
    ensures var t, u := f.tasks[i], SweepFleet(f, now).tasks[i];
            var last := t.attempts >= t.maxAttempts;
            if t.state.TaskLeased? && t.expiresAt.Some? && t.expiresAt.value < now then
              u == t.(state := if last then TaskFailed else TaskQueued, leaseOwner := None, tokenHash := None,
                      expiresAt := None, updatedAt := now)
            else if t.state.TaskQueued? && last then u == t.(state := TaskFailed, updatedAt := now)
            else u == t
  {
    assert ExpireTasks(f.tasks, now)[i] == ExpireTask(f.tasks[i], now);
  }

  /** A claim is refused only for its duration or an unknown agent, and then even its sweep is undone. It finds
      no work exactly if the agent holds as many unexpired leases as it registered for, or no row is available. */
  lemma ClaimIsAnswered(f: Fleet, agent: string, leaseSeconds: nat, token: string, now: nat, g: Fleet, reply: Reply)
    requires Inv(f) && (g, reply) == ClaimTask(f, agent, leaseSeconds, token, now)
    ensures reply.Failed? || reply.NoWork? || reply.Leased?
    ensures reply == Failed(BadDuration) <==> !(10 <= leaseSeconds <= 86400)
    ensures reply == Failed(UnknownAgent) <==> 10 <= leaseSeconds <= 86400 && agent !in f.agents
    ensures reply.Failed? ==> g == f && reply.error in {BadDuration, UnknownAgent}
    ensures !reply.Failed? ==>
              var r := f.agents[agent].registration;
              reply.NoWork? <==> || |Holding(f.tasks, agent, now)| >= r.maxConcurrency
                                 || forall i :: 0 <= i < |f.tasks| ==> !Available(f.tasks[i], f.campaigns, r, now)
  {
    if !reply.Failed? {
      var swept := SweepFleet(f, now);
      SweepIsSwept(f, f.agents[agent].registration, now, swept);
      HoldingIsCounted(f, f.agents[agent].registration, agent, now, swept);
      SweepAnswers(f, agent, leaseSeconds, token, now, swept, g, reply);
    }
  }

  lemma PickAnswers(f: Fleet, r: Registration, now: nat, swept: Fleet)
    requires RowsOk(f) && Identified(swept.tasks) && swept == SweepFleet(f, now)
    ensures Pick(swept.tasks, swept.campaigns, r, now).None? <==>
              forall i :: 0 <= i < |f.tasks| ==> !Available(f.tasks[i], f.campaigns, r, now)
  {
    SweepIsSwept(f, r, now, swept);
    PickIsFirst(swept.tasks, swept.campaigns, r, now);
    var at := Pick(swept.tasks, swept.campaigns, r, now);
    if at.None? {
      forall i | 0 <= i < |f.tasks|
        ensures !Available(f.tasks[i], f.campaigns, r, now)
      {
        assert !Claimable(swept.tasks[i], swept.campaigns, r, now);
      }
    } else {
      assert Available(f.tasks[at.value], f.campaigns, r, now);
    }
  }

  lemma RegistrationIsSwept(f: Fleet, agent: string, now: nat)
    requires agent in f.agents
    ensures var swept := SweepFleet(f, now);
            agent in swept.agents && swept.agents[agent].registration == f.agents[agent].registration
  {
  }

  lemma SweepAnswers(f: Fleet, agent: string, leaseSeconds: nat, token: string, now: nat, swept: Fleet, g: Fleet,
      reply: Reply)
    requires Inv(f) && agent in f.agents && swept == SweepFleet(f, now)
    requires agent in swept.agents && (g, reply) == ClaimSwept(swept, agent, leaseSeconds, token, now)
    ensures var r := f.agents[agent].registration;
            reply.NoWork? <==> || LeaseCount(swept.tasks, agent) >= r.maxConcurrency
                               || forall i :: 0 <= i < |f.tasks| ==> !Available(f.tasks[i], f.campaigns, r, now)
  {
    RegistrationIsSwept(f, agent, now);
    SweepKeepsInv(f, now);
    PickAnswers(f, f.agents[agent].registration, now, swept);
  }

  /** The row comes first in the order of the claim query. */
  predicate ComesFirst(t: Task, u: Task) {
    t.priority > u.priority
    || (t.priority == u.priority
        && (t.createdAt < u.createdAt || (t.createdAt == u.createdAt && TextLess(t.taskId, u.taskId))))
  }

  /** Row `i` as it is leased out. */
  predicate LeasedOut(t: Task, u: Task, agent: string, token: string, expires: nat, now: nat) {
    u == t.(state := TaskLeased, attempts := t.attempts + 1, leaseOwner := Some(agent),
            tokenHash := Some(Sha256(token)), expiresAt := Some(expires), updatedAt := now)
  }

  /** Of the claimable rows, row `i` comes first. */
  ghost predicate FirstClaimable(swept: Fleet, r: Registration, now: nat, i: nat) {
    && i < |swept.tasks| && Claimable(swept.tasks[i], swept.campaigns, r, now)
    && forall j :: 0 <= j < |swept.tasks| && j != i && Claimable(swept.tasks[j], swept.campaigns, r, now)
                   ==> RowBefore(swept.tasks[i], swept.tasks[j])
  }

  /** No row but row `i` differs. */
  ghost predicate OnlyRowChanges(ts: seq<Task>, us: seq<Task>, i: nat) {
    |us| == |ts| && forall j :: 0 <= j < |ts| && j != i ==> us[j] == ts[j]
  }

  /** The grant of row `i`: the row is leased, the agent busy, and nothing else differs. */
  ghost predicate GrantMade(swept: Fleet, r: Registration, token: string, expires: nat, now: nat, g: Fleet, i: nat) {
    && FirstClaimable(swept, r, now, i)
    && OnlyRowChanges(swept.tasks, g.tasks, i)
    && LeasedOut(swept.tasks[i], g.tasks[i], r.agentId, token, expires, now)
    && g.campaigns == swept.campaigns && g.results == swept.results
    && g.agents == swept.agents[r.agentId := Agent(r, Busy, now)]
  }

  lemma GrantedRow(
    swept: Fleet, r: Registration, leaseSeconds: nat, token: string, now: nat, g: Fleet, reply: Reply)
    returns (i: nat)
    requires Identified(swept.tasks) && r.agentId in swept.agents && swept.agents[r.agentId].registration == r
    requires (g, reply) == ClaimSwept(swept, r.agentId, leaseSeconds, token, now) && reply.Leased?
    ensures GrantMade(swept, r, token, now + leaseSeconds * 1_000_000, now, g, i)
    ensures reply == Leased(g.tasks[i], token, now)
  {
    PickIsFirst(swept.tasks, swept.campaigns, r, now);
    i := Pick(swept.tasks, swept.campaigns, r, now).value;
  }

  /** Of the available rows the claim leases the first; every other row is only swept. */
  ghost predicate FirstLeased(f: Fleet, r: Registration, token: string, expires: nat, now: nat, ts: seq<Task>, i: nat) {
    && |ts| == |f.tasks| && i < |f.tasks|
    && Available(f.tasks[i], f.campaigns, r, now)
    && (forall j :: 0 <= j < |f.tasks| && j != i && Available(f.tasks[j], f.campaigns, r, now)
                    ==> ComesFirst(f.tasks[i], f.tasks[j]))
    && LeasedOut(f.tasks[i], ts[i], r.agentId, token, expires, now)
    && (forall j :: 0 <= j < |f.tasks| && j != i ==> Swept(f.tasks[j], ts[j], now))
  }

  /** The claimant is busy; of the other agents those that lost their last lease by the sweep go online. */
  ghost predicate ClaimantBusy(f: Fleet, g: Fleet, agent: string, now: nat)
    requires agent in f.agents && |g.tasks| == |f.tasks|
  {
    && g.agents.Keys == f.agents.Keys
    && g.agents[agent] == Agent(f.agents[agent].registration, Busy, now)
    && forall a :: a in f.agents && a != agent ==> Released(f, g, a, now)
  }

  lemma GrantLeasesFirst(
    f: Fleet, r: Registration, token: string, expires: nat, now: nat, swept: Fleet, ts: seq<Task>, i: nat)
    requires SweptFrom(f, r, now, swept) && FirstClaimable(swept, r, now, i) && OnlyRowChanges(swept.tasks, ts, i)
    requires LeasedOut(swept.tasks[i], ts[i], r.agentId, token, expires, now)
    ensures FirstLeased(f, r, token, expires, now, ts, i)
    ensures |f.tasks| == |swept.tasks| && swept.tasks[i].leaseOwner.None? && ts[i].leaseOwner == Some(r.agentId)
  {
    forall j | 0 <= j < |f.tasks| && j != i && Available(f.tasks[j], f.campaigns, r, now)
      ensures ComesFirst(f.tasks[i], f.tasks[j])
    {
      assert RowBefore(swept.tasks[i], swept.tasks[j]);
    }
  }

  lemma OthersReleased(f: Fleet, swept: Fleet, g: Fleet, i: nat, agent: string, a: string, now: nat)
    requires |f.tasks| == |swept.tasks| == |g.tasks| && i < |f.tasks|
    requires a in f.agents && a in swept.agents && a in g.agents && g.agents[a] == swept.agents[a]
    requires Released(f, swept, a, now) && a != agent
    requires swept.tasks[i].leaseOwner.None? && g.tasks[i].leaseOwner == Some(agent)
    requires OnlyRowChanges(swept.tasks, g.tasks, i)
    ensures Released(f, g, a, now)
  {
    assert forall j :: 0 <= j < |g.tasks| ==>
             (g.tasks[j].leaseOwner == Some(a) <==> swept.tasks[j].leaseOwner == Some(a));
  }

  lemma GrantMakesBusy(f: Fleet, swept: Fleet, g: Fleet, i: nat, agent: string, now: nat)
    requires |f.tasks| == |swept.tasks| == |g.tasks| && i < |f.tasks| && agent in f.agents
    requires AgentsReleased(f, swept, now)
    requires g.agents == swept.agents[agent := Agent(f.agents[agent].registration, Busy, now)]
    requires swept.tasks[i].leaseOwner.None? && g.tasks[i].leaseOwner == Some(agent)
    requires OnlyRowChanges(swept.tasks, g.tasks, i)
    ensures ClaimantBusy(f, g, agent, now)
  {
    forall a | a in f.agents && a != agent
      ensures Released(f, g, a, now)
    {
      OthersReleased(f, swept, g, i, agent, a, now);
    }
  }

  lemma GrantTakesEffect(
    f: Fleet, r: Registration, token: string, expires: nat, now: nat, swept: Fleet, g: Fleet, i: nat)
    requires SweptFrom(f, r, now, swept) && GrantMade(swept, r, token, expires, now, g, i)
    requires r.agentId in f.agents && f.agents[r.agentId].registration == r
    ensures FirstLeased(f, r, token, expires, now, g.tasks, i) && ClaimantBusy(f, g, r.agentId, now)
    ensures g.campaigns == f.campaigns && g.results == f.results
  {
    GrantLeasesFirst(f, r, token, expires, now, swept, g.tasks, i);
    GrantMakesBusy(f, swept, g, i, r.agentId, now);
  }

  lemma SweptClaimTakesEffect(
    f: Fleet, r: Registration, leaseSeconds: nat, token: string, now: nat, swept: Fleet, g: Fleet, reply: Reply)
    returns (i: nat)
    requires SweptFrom(f, r, now, swept) && Identified(swept.tasks)
    requires r.agentId in f.agents && f.agents[r.agentId].registration == r
    requires r.agentId in swept.agents && swept.agents[r.agentId].registration == r
    requires (g, reply) == ClaimSwept(swept, r.agentId, leaseSeconds, token, now) && reply.Leased?
    ensures FirstLeased(f, r, token, now + leaseSeconds * 1_000_000, now, g.tasks, i)
    ensures ClaimantBusy(f, g, r.agentId, now)
    ensures g.campaigns == f.campaigns && g.results == f.results && reply == Leased(g.tasks[i], token, now)
  {
    i := GrantedRow(swept, r, leaseSeconds, token, now, g, reply);
    GrantTakesEffect(f, r, token, now + leaseSeconds * 1_000_000, now, swept, g, i);
  }

  /** A granted claim takes effect on the rows and on the agents, and on nothing else. */
  lemma ClaimTakesEffect(f: Fleet, agent: string, leaseSeconds: nat, token: string, now: nat, g: Fleet, reply: Reply)
    returns (i: nat)
    requires Inv(f) && (g, reply) == ClaimTask(f, agent, leaseSeconds, token, now) && reply.Leased?
    ensures agent in f.agents && f.agents[agent].registration.agentId == agent
    ensures FirstLeased(f, f.agents[agent].registration, token, now + leaseSeconds * 1_000_000, now, g.tasks, i)
    ensures ClaimantBusy(f, g, agent, now)
    ensures g.campaigns == f.campaigns && g.results == f.results && reply == Leased(g.tasks[i], token, now)
  {
    var swept, r := SweepFleet(f, now), f.agents[agent].registration;
    assert AgentOk(agent, f.agents[agent], f.tasks);
    SweepKeepsInv(f, now);
    RegistrationIsSwept(f, agent, now);
    SweepIsSwept(f, r, now, swept);
    i := SweptClaimTakesEffect(f, r, leaseSeconds, token, now, swept, g, reply);
  }

  /** A claim that finds no work has swept the rows and released agents, and done nothing else. */
  lemma NoWorkTakesEffect(f: Fleet, agent: string, leaseSeconds: nat, token: string, now: nat, g: Fleet)
    requires Inv(f) && (g, NoWork) == ClaimTask(f, agent, leaseSeconds, token, now)
    ensures g.campaigns == f.campaigns && g.results == f.results
    ensures |g.tasks| == |f.tasks| && AgentsReleased(f, g, now)
    ensures forall i :: 0 <= i < |f.tasks| ==> Swept(f.tasks[i], g.tasks[i], now)
  {
    SweepIsSwept(f, f.agents[agent].registration, now, g);
  }

  // ---- keeping and finishing work ----------------------------------------------------------

  lemma HolderHasLease(f: Fleet, id: string, agent: string, token: string, now: nat)
    requires RowsOk(f)
    ensures var at := CheckLease(f, id, agent, token, now).0;
            && (at.Some? ==> HoldsLease(f, f.tasks[at.value], id, agent, token, now))
            && ((exists t :: t in f.tasks && HoldsLease(f, t, id, agent, token, now)) ==> at.Some?)
  {
    LeaseCheckAnswers(f, id, agent, token, now, AssertActiveLease(f, id, agent, token, now).1);
  }

  /** A heartbeat succeeds exactly for the holder of an unexpired lease and a duration in range. The lease then
      lasts at least that long from now on, and no longer unless it did already. */
  lemma HeartbeatTakesEffect(
    f: Fleet, id: string, agent: string, token: string, extendSeconds: nat, now: nat, g: Fleet, reply: Reply)
    requires Inv(f) && (g, reply) == Heartbeat(f, id, agent, token, extendSeconds, now)
    ensures reply.Failed? || reply.Extended?
    ensures reply == Failed(BadDuration) <==> !(10 <= extendSeconds <= 86400)
    ensures reply.Extended? <==>
              10 <= extendSeconds <= 86400 && exists t :: t in f.tasks && HoldsLease(f, t, id, agent, token, now)
    ensures reply.Failed? ==> g == f
    ensures reply.Extended? ==> exists i ::
              && 0 <= i < |f.tasks| && HoldsLease(f, f.tasks[i], id, agent, token, now)
              && var before, asked := f.tasks[i].expiresAt.value, now + extendSeconds * 1_000_000;
                 && reply.expires >= asked && reply.expires >= before && reply.expires in {asked, before}
                 && g.tasks == f.tasks[i := f.tasks[i].(expiresAt := Some(reply.expires), updatedAt := now)]
                 && agent in f.agents && g.agents == f.agents[agent := f.agents[agent].(lastSeen := now)]
                 && g.campaigns == f.campaigns && g.results == f.results
  {
    HolderHasLease(f, id, agent, token, now);
    var at := CheckLease(f, id, agent, token, now).0;
    if at.Some? {
      assert TaskOk(f.tasks[at.value], f.campaigns, f.agents.Keys);
    }
  }

  /** What a reported outcome ends a task in. */
  predicate EndsIn(outcome: string, state: TaskState) {
    && (state.TaskCompleted? <==> outcome in {"completed", "succeeded", "supported", "confirmed"})
    && (state.TaskBlocked? <==> outcome in {"blocked", "out-of-scope"})
    && (state.TaskFailed? || state.TaskCompleted? || state.TaskBlocked?)
  }

  lemma FinishTakesEffect(f: Fleet, at: nat, agent: string, outcome: string, findings: nat, now: nat, g: Fleet)
    requires RowsOk(f) && at < |f.tasks| && f.tasks[at].leaseOwner == Some(agent)
    requires g == FinishTask(f, at, agent, outcome, findings, now)
    ensures EndsIn(outcome, g.tasks[at].state)
    ensures g.tasks == f.tasks[at := f.tasks[at].(state := g.tasks[at].state, leaseOwner := None, tokenHash := None,
                                                  expiresAt := None, updatedAt := now)]
    ensures g.results == f.results + [ResultRow(f.tasks[at].taskId, agent, outcome, findings, now)]
    ensures g.campaigns == f.campaigns && AgentsReleased(f, g, now)
  {
    LeaseFieldsOfRows(f);
    assert g.tasks[at].leaseOwner != Some(agent);
    ReleaseTouches(f, g, {agent}, now);
  }

  /** An accepted report comes from the holder of an unexpired lease. It ends the task as its outcome says, gives
      the lease back, and stores what was reported; a refused one changes nothing. */
  lemma CompletionTakesEffect(
    f: Fleet, agent: string, id: string, token: string, outcome: string, findings: nat, now: nat, g: Fleet,
    reply: Reply)
    requires Inv(f) && (g, reply) == CompleteTask(f, agent, id, token, outcome, findings, now)
    ensures reply.Failed? || reply.Finished?
    ensures reply.Failed? ==> g == f
    ensures reply.Finished? ==> exists i ::
              && 0 <= i < |f.tasks| && HoldsLease(f, f.tasks[i], id, agent, token, now)
              && EndsIn(outcome, reply.state)
              && g.tasks == f.tasks[i := f.tasks[i].(state := reply.state, leaseOwner := None, tokenHash := None,
                                                     expiresAt := None, updatedAt := now)]
              && g.results == f.results + [ResultRow(id, agent, outcome, findings, now)]
              && g.campaigns == f.campaigns && AgentsReleased(f, g, now)
  {
    HolderHasLease(f, id, agent, token, now);
    var at := CheckLease(f, id, agent, token, now).0;
    if reply.Finished? {
      FinishTakesEffect(f, at.value, agent, outcome, findings, now, g);
    }
  }

  // ---- what the campaign and agent tables remember of a run --------------------------------

  /** The step moved the campaign, or set its state again. */
  predicate Enters(s: Step, reply: Reply, id: string) {
    s.SetState? && s.campaign == id && reply.Done?
  }

  function LastTarget(steps: seq<Step>, id: string): CampaignState {
    if steps == [] then Draft
    else
      var n := |steps| - 1;
      if Enters(steps[n], ReplyAt(steps, n), id) then steps[n].target else LastTarget(steps[..n], id)
  }

  function FirstStart(steps: seq<Step>, id: string): Option<nat> {
    if steps == [] then None
    else
      var n := |steps| - 1;
      var before := FirstStart(steps[..n], id);
      if before.None? && Enters(steps[n], ReplyAt(steps, n), id) && steps[n].target.Running? then Some(steps[n].now)
      else before
  }

  /** The k-th step created a reviewed campaign from this manifest. */
  predicate Creates(steps: seq<Step>, k: nat, m: Manifest) {
    k < |steps| && steps[k].Create? && steps[k].manifest == m && m.reviewed && ReplyAt(steps, k) == Done
  }

  lemma CreateIsAnswered(f: Fleet, m: Manifest, state: CampaignState, g: Fleet, reply: Reply)
    requires (g, reply) == CreateCampaign(f, m, state)
    ensures reply == Done <==> state.Draft? && m.reviewed
                               && (m.campaignId in f.campaigns ==> f.campaigns[m.campaignId].manifest == m)
    ensures g == if reply == Done && m.campaignId !in f.campaigns
                 then f.(campaigns := f.campaigns[m.campaignId := Campaign(m, Draft, None)]) else f
  {
  }

  lemma OtherStepsKeepCampaigns(f: Fleet, s: Step, g: Fleet)
    requires g == Perform(f, s).0 && !s.Create? && !s.SetState?
    ensures g.campaigns == f.campaigns
  {
  }

  lemma CampaignSteps(f: Fleet, s: Step, g: Fleet, reply: Reply, id: string)
    requires Inv(f) && (g, reply) == Perform(f, s)
    ensures id in f.campaigns ==>
              && id in g.campaigns
              && var c := f.campaigns[id];
                 g.campaigns[id]
                 == if !Enters(s, reply, id) then c
                    else Campaign(c.manifest, s.target,
                                  if s.target.Running? && c.startedAt.None? then Some(s.now) else c.startedAt)
    ensures id !in f.campaigns ==> !Enters(s, reply, id)
    ensures id !in f.campaigns && id in g.campaigns ==>
              s.Create? && s.manifest.reviewed && reply == Done && g.campaigns[id] == Campaign(s.manifest, Draft, None)
  {
    if s.SetState? {
      if reply.Done? {
        MovedCampaign(f, s.campaign, s.target, s.now, g, reply);
      }
    } else if s.Create? {
      CreateIsAnswered(f, s.manifest, s.initial, g, reply);
    } else {
      OtherStepsKeepCampaigns(f, s, g);
    }
  }

  lemma CreatedEarlier(steps: seq<Step>, n: nat, m: Manifest)
    requires n <= |steps| && exists k: nat :: Creates(steps[..n], k, m)
    ensures exists k: nat :: Creates(steps, k, m)
  {
    var k: nat :| Creates(steps[..n], k, m);
    assert steps[..n][..k] == steps[..k];
    assert Creates(steps, k, m);
  }

  /** In every reachable state a campaign was created, reviewed, from the manifest it has; it is in the state it was
      last set to, and counts its wall-clock time from the first time it was set running. */
  lemma {:induction false} CampaignRemembers(steps: seq<Step>, id: string)
    requires WellTypedRun(steps)
    ensures if id in After(steps).campaigns
            then var c := After(steps).campaigns[id];
                 && c.state == LastTarget(steps, id) && c.startedAt == FirstStart(steps, id)
                 && exists k: nat :: Creates(steps, k, c.manifest)
            else LastTarget(steps, id).Draft? && FirstStart(steps, id).None?
  {
    if steps != [] {
      var n := |steps| - 1;
      var f, s, g, reply := After(steps[..n]), steps[n], After(steps), ReplyAt(steps, n);
      CampaignRemembers(steps[..n], id);
      RunKeepsInvariant(steps[..n]);
      CampaignSteps(f, s, g, reply, id);
      if id in f.campaigns {
        CreatedEarlier(steps, n, g.campaigns[id].manifest);
      } else if id in g.campaigns {
        assert Creates(steps, n, g.campaigns[id].manifest);
      }
    }
  }

  function LastRegistration(steps: seq<Step>, id: string): Option<Registration> {
    if steps == [] then None
    else
      var n := |steps| - 1;
      if steps[n].Register? && steps[n].registration.agentId == id then Some(steps[n].registration)
      else LastRegistration(steps[..n], id)
  }

  lemma ClaimKeepsRegistrations(f: Fleet, s: Step, g: Fleet, id: string)
    requires s.Claim? && g == ClaimTask(f, s.agent, s.leaseSeconds, s.token, s.now).0
    ensures id in g.agents <==> id in f.agents
    ensures id in f.agents ==> g.agents[id].registration == f.agents[id].registration
  {
    if id in f.agents {
      RegistrationIsSwept(f, id, s.now);
    }
  }

  lemma RegistrationSteps(f: Fleet, s: Step, g: Fleet, id: string)
    requires g == Perform(f, s).0 && !(s.Register? && s.registration.agentId == id)
    ensures id in g.agents <==> id in f.agents
    ensures id in f.agents ==> g.agents[id].registration == f.agents[id].registration
  {
    if s.Claim? {
      ClaimKeepsRegistrations(f, s, g, id);
    } else if id in g.agents {
      RegistrationsChangeOnlyByRegistering(f, s, g, id);
    } else {
      AgentsStayKnown(f, s, g);
    }
  }

  lemma AgentsStayKnown(f: Fleet, s: Step, g: Fleet)
    requires g == Perform(f, s).0 && !s.Claim?
    ensures f.agents.Keys <= g.agents.Keys
  {
  }

  /** An agent is known exactly if it registered, with what it registered last. */
  lemma {:induction false} AgentRemembers(steps: seq<Step>, id: string)
    requires WellTypedRun(steps)
    ensures id in After(steps).agents <==> LastRegistration(steps, id).Some?
    ensures id in After(steps).agents ==> Some(After(steps).agents[id].registration) == LastRegistration(steps, id)
  {
    if steps != [] {
      var n := |steps| - 1;
      AgentRemembers(steps[..n], id);
      if !(steps[n].Register? && steps[n].registration.agentId == id) {
        RegistrationSteps(After(steps[..n]), steps[n], After(steps), id);
      }
    }
  }
}
