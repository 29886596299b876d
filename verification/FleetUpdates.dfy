/** What the bulk updates and the lease check mean to the holders of leases. */
module FleetUpdates {
  import opened FleetModel
  import opened FleetInvariant
  import opened Results

  /** How many leases the agent holds on tasks of a campaign. */
  function LeasesIn(ts: seq<Task>, campaign: string, agent: string): nat {
    if ts == [] then 0
    else
      var n := |ts| - 1;
      LeasesIn(ts[..n], campaign, agent) + (if ts[n].campaignId == campaign && LeasedBy(ts[n], agent) then 1 else 0)
  }

  /** How many leases of the agent have run out. */
  function LeasesOut(ts: seq<Task>, now: nat, agent: string): nat {
    if ts == [] then 0
    else
      var n := |ts| - 1;
      LeasesOut(ts[..n], now, agent) + (if LeasedBy(ts[n], agent) && Expired(ts[n], now) then 1 else 0)
  }

  lemma PrefixOfUpdate(ts: seq<Task>, campaign: string, now: nat)
    requires ts != []
    ensures var n := |ts| - 1;
            && RequeueTasks(ts, campaign, now)[..n] == RequeueTasks(ts[..n], campaign, now)
            && CancelTasks(ts, campaign, now)[..n] == CancelTasks(ts[..n], campaign, now)
            && ExpireTasks(ts, now)[..n] == ExpireTasks(ts[..n], now)
  {
  }

  /** A pause or a cancellation takes from each agent exactly its leases on the campaign. */
  lemma {:induction false} CampaignLeasesGo(ts: seq<Task>, campaign: string, now: nat, agent: string)
    ensures LeaseCount(RequeueTasks(ts, campaign, now), agent) + LeasesIn(ts, campaign, agent) == LeaseCount(ts, agent)
    ensures LeaseCount(CancelTasks(ts, campaign, now), agent) + LeasesIn(ts, campaign, agent) == LeaseCount(ts, agent)
  {
    if ts != [] {
      PrefixOfUpdate(ts, campaign, now);
      CampaignLeasesGo(ts[..|ts| - 1], campaign, now, agent);
    }
  }

  lemma {:induction false} ExpiredLeasesGo(ts: seq<Task>, now: nat, agent: string)
    ensures LeaseCount(ExpireTasks(ts, now), agent) + LeasesOut(ts, now, agent) == LeaseCount(ts, agent)
  {
    if ts != [] {
      PrefixOfUpdate(ts, "", now);
      ExpiredLeasesGo(ts[..|ts| - 1], now, agent);
    }
  }

  /** The owners collected before the update are the agents with a lease on the campaign. */
  lemma {:induction false} OwnersHoldLeases(ts: seq<Task>, campaign: string, agent: string)
    ensures agent in CampaignOwners(ts, campaign) <==> LeasesIn(ts, campaign, agent) > 0
  {
    if ts != [] {
      var n := |ts| - 1;
      OwnersHoldLeases(ts[..n], campaign, agent);
      assert ts == ts[..n] + [ts[n]];
    }
  }

  lemma {:induction false} ExpiredOwnersHoldLeases(ts: seq<Task>, now: nat, agent: string)
    ensures agent in ExpiredOwners(ts, now) <==> LeasesOut(ts, now, agent) > 0
  {
    if ts != [] {
      var n := |ts| - 1;
      ExpiredOwnersHoldLeases(ts[..n], now, agent);
      assert ts == ts[..n] + [ts[n]];
    }
  }

  predicate HeldIn(t: Task, campaign: string) {
    t.campaignId == campaign && t.state.TaskLeased?
  }

  /** A pause ends every lease on the campaign and only those. The rows are claimable again, with exactly the
      attempt back that the lease had used; the owners reported are the agents that lost a lease. */
  lemma PauseRevokes(f: Fleet, id: string, now: nat, agent: string)
    requires RowsOk(f)
    ensures var us := RequeueTasks(f.tasks, id, now);
            && |us| == |f.tasks|
            && (forall i :: 0 <= i < |us| ==> !HeldIn(us[i], id))
            && (forall i :: 0 <= i < |us| && !HeldIn(f.tasks[i], id) ==> us[i] == f.tasks[i])
            && (forall i :: 0 <= i < |us| && HeldIn(f.tasks[i], id) ==>
                  && SameRow(f.tasks[i], us[i]) && us[i].state.TaskQueued? && LeaseFields(us[i])
                  && us[i].attempts + 1 == f.tasks[i].attempts && us[i].attempts < us[i].maxAttempts)
            && LeaseCount(us, agent) + LeasesIn(f.tasks, id, agent) == LeaseCount(f.tasks, agent)
    ensures agent in CampaignOwners(f.tasks, id) <==> LeasesIn(f.tasks, id, agent) > 0
  {
    CampaignLeasesGo(f.tasks, id, now, agent);
    OwnersHoldLeases(f.tasks, id, agent);
    forall i | 0 <= i < |f.tasks| && HeldIn(f.tasks[i], id)
      ensures f.tasks[i].attempts >= 1 && f.tasks[i].attempts <= f.tasks[i].maxAttempts
    {
      assert TaskOk(f.tasks[i], f.campaigns, f.agents.Keys);
    }
  }

  lemma CancelledRows(ts: seq<Task>, id: string, now: nat)
    requires forall i :: 0 <= i < |ts| ==> LeaseFields(ts[i])
    ensures var us := CancelTasks(ts, id, now);
            && |us| == |ts|
            && (forall i :: 0 <= i < |us| && us[i].campaignId == id ==> Terminal(us[i].state) && LeaseFields(us[i]))
            && (forall i :: 0 <= i < |us| && (ts[i].campaignId != id || Terminal(ts[i].state)) ==> us[i] == ts[i])
            && (forall i :: 0 <= i < |us| ==> SameRow(ts[i], us[i]) && us[i].attempts == ts[i].attempts)
  {
  }

  /** A cancellation leaves no queued and no leased row in the campaign, gives no attempt back, and touches
      neither finished rows nor other campaigns; again the owners are the agents that lost a lease. */
  lemma CancellationEnds(f: Fleet, id: string, now: nat, agent: string)
    requires RowsOk(f)
    ensures var us := CancelTasks(f.tasks, id, now);
            && |us| == |f.tasks|
            && (forall i :: 0 <= i < |us| && us[i].campaignId == id ==> Terminal(us[i].state) && LeaseFields(us[i]))
            && (forall i :: 0 <= i < |us| && (f.tasks[i].campaignId != id || Terminal(f.tasks[i].state)) ==>
                  us[i] == f.tasks[i])
            && (forall i :: 0 <= i < |us| ==> SameRow(f.tasks[i], us[i]) && us[i].attempts == f.tasks[i].attempts)
            && LeaseCount(us, agent) + LeasesIn(f.tasks, id, agent) == LeaseCount(f.tasks, agent)
    ensures agent in CampaignOwners(f.tasks, id) <==> LeasesIn(f.tasks, id, agent) > 0
  {
    CampaignLeasesGo(f.tasks, id, now, agent);
    OwnersHoldLeases(f.tasks, id, agent);
    forall i | 0 <= i < |f.tasks|
      ensures LeaseFields(f.tasks[i])
    {
      assert TaskOk(f.tasks[i], f.campaigns, f.agents.Keys);
    }
    CancelledRows(f.tasks, id, now);
  }

  /** An expiry sweep ends every lease that has run out and only those; the attempt stays used, so the row
      fails exactly if it was the last. An agent that loses a lease goes online exactly if none is left. */
  lemma ExpirySweeps(f: Fleet, now: nat, agent: string)
    requires RowsOk(f)
    ensures var us := ExpireTasks(f.tasks, now);
            && |us| == |f.tasks|
            && (forall i :: 0 <= i < |us| ==> !Expired(us[i], now))
            && (forall i :: 0 <= i < |us| && !Expired(f.tasks[i], now) ==> us[i] == f.tasks[i])
            && (forall i :: 0 <= i < |us| && Expired(f.tasks[i], now) ==>
                  && SameRow(f.tasks[i], us[i]) && LeaseFields(us[i]) && us[i].attempts == f.tasks[i].attempts
                  && us[i].state == (if us[i].attempts == us[i].maxAttempts then TaskFailed else TaskQueued))
            && LeaseCount(us, agent) + LeasesOut(f.tasks, now, agent) == LeaseCount(f.tasks, agent)
            && (agent in f.agents ==>
                  var after := ReleaseIdle(f.agents, us, ExpiredOwners(f.tasks, now), now)[agent];
                  if LeasesOut(f.tasks, now, agent) > 0 && LeaseCount(us, agent) == 0
                  then after == f.agents[agent].(status := Online, lastSeen := now) else after == f.agents[agent])
  {
    ExpiredLeasesGo(f.tasks, now, agent);
    ExpiredOwnersHoldLeases(f.tasks, now, agent);
    forall i | 0 <= i < |f.tasks| && Expired(f.tasks[i], now)
      ensures f.tasks[i].attempts <= f.tasks[i].maxAttempts
    {
      assert TaskOk(f.tasks[i], f.campaigns, f.agents.Keys);
    }
  }

  /** The row is the task's, and the agent holds it under the token, unexpired, in a running campaign. */
  predicate HoldsLease(f: Fleet, t: Task, id: string, agent: string, token: string, now: nat) {
    && t.taskId == id && t.campaignId in f.campaigns && f.campaigns[t.campaignId].state.Running?
    && t.leaseOwner == Some(agent) && t.tokenHash == Some(Sha256(token))
    && t.expiresAt.Some? && now <= t.expiresAt.value
  }

  /** The lease check answers with the row exactly if the agent holds it; otherwise the error names the first
      thing that is missing: the task, a running campaign, the lease, the token, or time. */
  lemma LeaseCheckAnswers(f: Fleet, id: string, agent: string, token: string, now: nat, reply: Reply)
    requires RowsOk(f) && reply == AssertActiveLease(f, id, agent, token, now).1
    ensures reply.Active? || reply.Failed?
    ensures reply.Active? ==> reply.task in f.tasks && HoldsLease(f, reply.task, id, agent, token, now)
    ensures (exists t :: t in f.tasks && HoldsLease(f, t, id, agent, token, now)) ==> reply.Active?
    ensures reply == Failed(UnknownTask) <==> forall t :: t in f.tasks ==> t.taskId != id
    ensures forall t :: t in f.tasks && t.taskId == id && reply.Failed? ==>
              && t.campaignId in f.campaigns
              && var running := f.campaigns[t.campaignId].state.Running?;
                 reply.error == (if !running then CampaignNotRunning
                                 else if t.leaseOwner != Some(agent) then NotLeasedByAgent
                                 else if t.tokenHash != Some(Sha256(token)) then InvalidToken
                                 else LeaseExpired)
  {
    forall t | t in f.tasks && t.taskId == id
      ensures Find(f.tasks, id).Some? && f.tasks[Find(f.tasks, id).value] == t
      ensures t.campaignId in f.campaigns && LeaseFields(t)
    {
      var i :| 0 <= i < |f.tasks| && f.tasks[i] == t;
      FoundAt(f.tasks, i);
      assert TaskOk(f.tasks[i], f.campaigns, f.agents.Keys);
    }
  }
}
