/** What holds of whole runs of the fleet: attempts are conserved, a lease has one provenance, dead
    tokens stay dead, nothing stored is ever lost. */
module FleetRuns {
  import opened FleetModel
  import opened FleetInvariant
  import opened Results

  // ---- what one step does to one row -------------------------------------------------------

  /** The reply hands out a lease on the task. */
  predicate Grants(reply: Reply, id: string) {
    reply.Leased? && reply.task.taskId == id
  }

  /** The step pauses the campaign of a leased row. */
  predicate Pauses(s: Step, t: Task) {
    s.SetState? && s.target.Paused? && t.state.TaskLeased? && t.campaignId == s.campaign
  }

  /** The step is a pause that takes away the lease on the task. */
  predicate Revokes(f: Fleet, s: Step, reply: Reply, id: string) {
    reply.Done? && var at := Find(f.tasks, id); at.Some? && Pauses(s, f.tasks[at.value])
  }

  /** Both rows are leased, to the same agent, under the same token, in the same attempt. */
  predicate SameLease(t: Task, u: Task) {
    && t.state.TaskLeased? && u.state.TaskLeased?
    && u.leaseOwner == t.leaseOwner && u.tokenHash == t.tokenHash
  }

  predicate ExpiresNoEarlier(t: Task, u: Task) {
    t.expiresAt.Some? && u.expiresAt.Some? && t.expiresAt.value <= u.expiresAt.value
  }

  predicate LeaseOf(t: Task, agent: string, token: string) {
    LeasedBy(t, agent) && t.tokenHash == Some(Sha256(token))
  }

  /** How row `t` becomes row `u` in step `s`. */
  predicate Moved(t: Task, u: Task, s: Step, granted: bool, revoked: bool) {
    && u.attempts == t.attempts + (if granted then 1 else 0) - (if revoked then 1 else 0)
    && (granted ==> s.Claim? && LeaseOf(u, s.agent, s.token))
    && (u.state.TaskLeased? && !granted ==> SameLease(t, u) && ExpiresNoEarlier(t, u))
  }

  lemma RowFields(f: Fleet, i: nat)
    requires RowsOk(f) && i < |f.tasks|
    ensures LeaseFields(f.tasks[i])
  {
    assert TaskOk(f.tasks[i], f.campaigns, f.agents.Keys);
  }

  lemma StaysPut(f: Fleet, s: Step, i: nat)
    requires RowsOk(f) && i < |f.tasks|
    ensures LeaseFields(f.tasks[i]) && Moved(f.tasks[i], f.tasks[i], s, false, false)
  {
    RowFields(f, i);
  }

  lemma SweepMoves(f: Fleet, s: Step, i: nat, now: nat)
    requires RowsOk(f) && i < |f.tasks|
    ensures i < |SweepFleet(f, now).tasks| && Moved(f.tasks[i], SweepFleet(f, now).tasks[i], s, false, false)
    ensures SweepFleet(f, now).tasks[i].taskId == f.tasks[i].taskId
  {
    StaysPut(f, s, i);
    NothingIsExhausted(f, now);
  }

  /** What a step did to row `i`, judged by the reply. */
  ghost predicate RowMoves(f: Fleet, s: Step, i: nat, g: Fleet, reply: Reply)
    requires i < |f.tasks|
  {
    var id := f.tasks[i].taskId;
    i < |g.tasks| && Moved(f.tasks[i], g.tasks[i], s, Grants(reply, id), Revokes(f, s, reply, id))
  }

  lemma ClaimSweptMoves(f: Fleet, s: Step, i: nat, g: Fleet, h: Fleet, reply: Reply)
    requires s.Claim? && Identified(g.tasks) && i < |f.tasks| <= |g.tasks| && s.agent in g.agents
    requires Moved(f.tasks[i], g.tasks[i], s, false, false) && g.tasks[i].taskId == f.tasks[i].taskId
    requires (h, reply) == ClaimSwept(g, s.agent, s.leaseSeconds, s.token, s.now)
    ensures RowMoves(f, s, i, h, reply)
  {
    var r := g.agents[s.agent].registration;
    var at := Pick(g.tasks, g.campaigns, r, s.now);
    if LeaseCount(g.tasks, s.agent) >= r.maxConcurrency || at.None? {
      assert h == g && reply == NoWork;
    }
  }

  lemma ClaimMoves(f: Fleet, s: Step, i: nat, h: Fleet, reply: Reply)
    requires Inv(f) && i < |f.tasks| && s.Claim? && (h, reply) == ClaimTask(f, s.agent, s.leaseSeconds, s.token, s.now)
    ensures RowMoves(f, s, i, h, reply)
  {
    if reply.Failed? {
      RowFields(f, i);
      OtherMoves(f, s, i, h, reply);
    } else {
      SweepMoves(f, s, i, s.now);
      SweepKeepsInv(f, s.now);
      ClaimSweptMoves(f, s, i, SweepFleet(f, s.now), h, reply);
    }
  }

  lemma BeatMoves(f: Fleet, s: Step, i: nat, g: Fleet, reply: Reply)
    requires RowsOk(f) && i < |f.tasks| && s.Beat?
    requires (g, reply) == Heartbeat(f, s.task, s.agent, s.token, s.extendSeconds, s.now)
    ensures RowMoves(f, s, i, g, reply)
  {
    StaysPut(f, s, i);
  }

  lemma CompleteMoves(f: Fleet, s: Step, i: nat, g: Fleet, reply: Reply)
    requires RowsOk(f) && i < |f.tasks| && s.Complete?
    requires (g, reply) == CompleteTask(f, s.agent, s.task, s.token, s.outcome, s.findings, s.now)
    ensures RowMoves(f, s, i, g, reply)
  {
    StaysPut(f, s, i);
  }

  /** The three ways a campaign transition rewrites a row. */
  lemma SetStateRewrites(f: Fleet, s: Step, i: nat, g: Fleet, reply: Reply)
    requires RowsOk(f) && i < |f.tasks| && s.SetState? && (g, reply) == SetCampaignState(f, s.campaign, s.target, s.now)
    ensures !reply.Leased? && i < |g.tasks| && (reply.Done? ==> s.campaign in f.campaigns)
    ensures || (g.tasks[i] == f.tasks[i] && (reply.Done? ==> !Pauses(s, f.tasks[i])))
            || (g.tasks[i] == CancelTask(f.tasks[i], s.campaign, s.now) && reply.Done? && s.target.Cancelled?)
            || (g.tasks[i] == RequeueTask(f.tasks[i], s.campaign, s.now) && reply.Done? && s.target.Paused?)
  {
  }

  lemma SetStateMoves(f: Fleet, s: Step, i: nat, g: Fleet, reply: Reply)
    requires RowsOk(f) && i < |f.tasks| && s.SetState? && (g, reply) == SetCampaignState(f, s.campaign, s.target, s.now)
    ensures RowMoves(f, s, i, g, reply)
  {
    StaysPut(f, s, i);
    FoundAt(f.tasks, i);
    SetStateRewrites(f, s, i, g, reply);
  }

  lemma OtherMoves(f: Fleet, s: Step, i: nat, g: Fleet, reply: Reply)
    requires i < |f.tasks| && LeaseFields(f.tasks[i]) && !s.SetState? && !reply.Leased?
    requires i < |g.tasks| && g.tasks[i] == f.tasks[i]
    ensures RowMoves(f, s, i, g, reply)
  {
    assert !Revokes(f, s, reply, f.tasks[i].taskId);
  }

  /** Steps that rewrite no row. */
  predicate Quiet(s: Step) {
    s.Create? || s.Register? || s.Enqueue? || s.Check?
  }

  lemma QuietAppends(f: Fleet, s: Step, g: Fleet, reply: Reply)
    requires (g, reply) == Perform(f, s) && Quiet(s)
    ensures f.tasks <= g.tasks && !reply.Leased? && (!s.Enqueue? ==> g.tasks == f.tasks)
  {
  }

  lemma StepMovesRow(f: Fleet, s: Step, i: nat, g: Fleet, reply: Reply)
    requires Inv(f) && i < |f.tasks| && (g, reply) == Perform(f, s)
    ensures RowMoves(f, s, i, g, reply)
  {
    RowFields(f, i);
    match s
    case Claim(_, _, _, _) => ClaimMoves(f, s, i, g, reply);
    case Beat(_, _, _, _, _) => BeatMoves(f, s, i, g, reply);
    case Complete(_, _, _, _, _, _) => CompleteMoves(f, s, i, g, reply);
    case SetState(_, _, _) => SetStateMoves(f, s, i, g, reply);
    case _ =>
      QuietAppends(f, s, g, reply);
      OtherMoves(f, s, i, g, reply);
  }

  // ---- what no step ever undoes ------------------------------------------------------------

  predicate CampaignGoesOn(c: Campaign, d: Campaign) {
    && d.manifest == c.manifest
    && (c.startedAt.Some? ==> d.startedAt == c.startedAt)
    && (Closed(c.state) ==> d == c)
  }

  ghost predicate CampaignsGoOn(before: map<string, Campaign>, after: map<string, Campaign>) {
    forall id :: id in before ==> id in after && CampaignGoesOn(before[id], after[id])
  }

  /** Rows keep their identity and terminal rows everything; results are only appended; a closed
      campaign stays closed, and a campaign keeps its manifest and its first start. */
  ghost predicate Extends(f: Fleet, g: Fleet) {
    && |f.tasks| <= |g.tasks|
    && RowsAdvance(f.tasks, g.tasks[..|f.tasks|])
    && f.results <= g.results
    && CampaignsGoOn(f.campaigns, g.campaigns)
    && f.agents.Keys <= g.agents.Keys
  }

  lemma RewriteExtends(f: Fleet, g: Fleet)
    requires RowsAdvance(f.tasks, g.tasks) && f.results <= g.results
    requires CampaignsGoOn(f.campaigns, g.campaigns) && f.agents.Keys <= g.agents.Keys
    ensures Extends(f, g)
  {
    assert g.tasks[..|f.tasks|] == g.tasks;
  }

  lemma SetStateFrame(f: Fleet, id: string, target: CampaignState, now: nat, g: Fleet)
    requires g == SetCampaignState(f, id, target, now).0
    ensures g.results == f.results && f.agents.Keys == g.agents.Keys && CampaignsGoOn(f.campaigns, g.campaigns)
  {
    assert f.agents.Keys == g.agents.Keys;
  }

  lemma ClaimFrame(f: Fleet, agent: string, seconds: nat, token: string, now: nat, g: Fleet)
    requires g == ClaimTask(f, agent, seconds, token, now).0
    ensures g.results == f.results && f.agents.Keys == g.agents.Keys && CampaignsGoOn(f.campaigns, g.campaigns)
  {
    if g != f {
      assert SweepFleet(f, now).agents.Keys == f.agents.Keys;
    }
  }

  lemma HeartbeatFrame(f: Fleet, task: string, agent: string, token: string, seconds: nat, now: nat, g: Fleet)
    requires g == Heartbeat(f, task, agent, token, seconds, now).0
    ensures g.results == f.results && f.agents.Keys == g.agents.Keys && CampaignsGoOn(f.campaigns, g.campaigns)
  {
  }

  lemma CompleteFrame(f: Fleet, agent: string, task: string, token: string, outcome: string, findings: nat, now: nat,
      g: Fleet)
    requires g == CompleteTask(f, agent, task, token, outcome, findings, now).0
    ensures f.results <= g.results && f.agents.Keys == g.agents.Keys && CampaignsGoOn(f.campaigns, g.campaigns)
  {
    assert f.agents.Keys == g.agents.Keys;
  }

  lemma ClaimExtends(f: Fleet, agent: string, seconds: nat, token: string, now: nat, g: Fleet)
    requires Inv(f) && g == ClaimTask(f, agent, seconds, token, now).0
    ensures Extends(f, g)
  {
    ClaimTaskKeepsInv(f, agent, seconds, token, now, g);
    ClaimFrame(f, agent, seconds, token, now, g);
    RewriteExtends(f, g);
  }

  lemma SetStateExtends(f: Fleet, id: string, target: CampaignState, now: nat, g: Fleet)
    requires Inv(f) && g == SetCampaignState(f, id, target, now).0
    ensures Extends(f, g)
  {
    SetCampaignStateKeepsInv(f, id, target, now);
    SetStateFrame(f, id, target, now, g);
    RewriteExtends(f, g);
  }

  lemma HeartbeatExtends(f: Fleet, task: string, agent: string, token: string, seconds: nat, now: nat, g: Fleet)
    requires Inv(f) && g == Heartbeat(f, task, agent, token, seconds, now).0
    ensures Extends(f, g)
  {
    HeartbeatKeepsInv(f, task, agent, token, seconds, now);
    HeartbeatFrame(f, task, agent, token, seconds, now, g);
    RewriteExtends(f, g);
  }

  lemma CompleteExtends(f: Fleet, agent: string, task: string, token: string, outcome: string, findings: nat, now: nat,
      g: Fleet)
    requires Inv(f) && g == CompleteTask(f, agent, task, token, outcome, findings, now).0
    ensures Extends(f, g)
  {
    CompleteTaskKeepsInv(f, agent, task, token, outcome, findings, now);
    CompleteFrame(f, agent, task, token, outcome, findings, now, g);
    RewriteExtends(f, g);
  }

  lemma EnqueueExtends(f: Fleet, n: NewTask, seen: Campaign, bound: bool, now: nat, g: Fleet)
    requires g == EnqueueTask(f, n, seen, bound, now).0
    ensures Extends(f, g)
  {
    assert f.tasks <= g.tasks;
  }

  lemma CreateExtends(f: Fleet, m: Manifest, state: CampaignState, g: Fleet)
    requires g == CreateCampaign(f, m, state).0
    ensures Extends(f, g)
  {
  }

  lemma StepExtends(f: Fleet, s: Step, g: Fleet)
    requires Inv(f) && g == Perform(f, s).0
    ensures Extends(f, g)
  {
    match s
    case Claim(agent, seconds, token, now) => ClaimExtends(f, agent, seconds, token, now, g);
    case SetState(id, target, now) => SetStateExtends(f, id, target, now, g);
    case Beat(task, agent, token, seconds, now) => HeartbeatExtends(f, task, agent, token, seconds, now, g);
    case Complete(agent, task, token, outcome, findings, now) =>
      CompleteExtends(f, agent, task, token, outcome, findings, now, g);
    case Enqueue(n, seen, bound, now) => EnqueueExtends(f, n, seen, bound, now, g);
    case Create(m, initial) => CreateExtends(f, m, initial, g);
    case _ =>
  }

  lemma ExtendsIsTransitive(f: Fleet, g: Fleet, h: Fleet)
    requires Extends(f, g) && Extends(g, h)
    ensures Extends(f, h)
  {
    forall i | 0 <= i < |f.tasks|
      ensures Advances(f.tasks[i], h.tasks[i])
    {
      assert Advances(f.tasks[i], g.tasks[..|f.tasks|][i]) && Advances(g.tasks[i], h.tasks[..|g.tasks|][i]);
    }
    forall id | id in f.campaigns
      ensures id in h.campaigns && CampaignGoesOn(f.campaigns[id], h.campaigns[id])
    {
      assert id in g.campaigns && CampaignGoesOn(f.campaigns[id], g.campaigns[id]);
    }
  }

  lemma ExtendsOneMore(f: Fleet, steps: seq<Step>, n: nat)
    requires WellTypedRun(steps) && n < |steps| && Extends(f, After(steps[..n]))
    ensures Extends(f, After(steps[..n + 1]))
  {
    assert steps[..n + 1][..n] == steps[..n];
    RunKeepsInvariant(steps[..n]);
    StepExtends(After(steps[..n]), steps[n], After(steps[..n + 1]));
    ExtendsIsTransitive(f, After(steps[..n]), After(steps[..n + 1]));
  }

  lemma {:induction false} ExtendsFrom(f: Fleet, steps: seq<Step>, k: nat, n: nat)
    requires WellTypedRun(steps) && k <= n <= |steps| && Extends(f, After(steps[..k]))
    ensures Extends(f, After(steps[..n]))
    decreases n
  {
    if k < n {
      ExtendsFrom(f, steps, k, n - 1);
      ExtendsOneMore(f, steps, n - 1);
    }
  }

  lemma ExtendsIsReflexive(f: Fleet)
    requires RowsOk(f)
    ensures Extends(f, f)
  {
    assert f.tasks[..|f.tasks|] == f.tasks;
  }

  /** Nothing stored in a prefix of a run is lost or rewritten by the rest of it. */
  lemma RunExtends(steps: seq<Step>, k: nat)
    requires WellTypedRun(steps) && k <= |steps|
    ensures Extends(After(steps[..k]), After(steps))
  {
    RunKeepsInvariant(steps[..k]);
    ExtendsIsReflexive(After(steps[..k]));
    ExtendsFrom(After(steps[..k]), steps, k, |steps|);
    assert steps[..|steps|] == steps;
  }

  // ---- conservation of attempts ------------------------------------------------------------

  /** How often a run leased the task out. */
  function Claims(steps: seq<Step>, id: string): nat {
    if steps == [] then 0
    else Claims(steps[..|steps| - 1], id) + (if Grants(ReplyAt(steps, |steps| - 1), id) then 1 else 0)
  }

  /** How often a pause took a lease on the task away. */
  function Revocations(steps: seq<Step>, id: string): nat {
    if steps == [] then 0
    else
      var n := |steps| - 1;
      Revocations(steps[..n], id) + (if Revokes(After(steps[..n]), steps[n], ReplyAt(steps, n), id) then 1 else 0)
  }

  /** Only an accepted enqueue adds a row. */
  lemma OnlyEnqueueAdds(f: Fleet, s: Step, g: Fleet)
    requires Inv(f) && g == Perform(f, s).0 && !s.Enqueue?
    ensures |g.tasks| == |f.tasks|
  {
    match s
    case Claim(agent, seconds, token, now) => ClaimTaskKeepsInv(f, agent, seconds, token, now, g);
    case SetState(id, target, now) => SetCampaignStateKeepsInv(f, id, target, now);
    case Beat(task, agent, token, seconds, now) => HeartbeatKeepsInv(f, task, agent, token, seconds, now);
    case Complete(agent, task, token, outcome, findings, now) =>
      CompleteTaskKeepsInv(f, agent, task, token, outcome, findings, now);
    case _ => QuietAppends(f, s, g, Perform(f, s).1);
  }

  lemma FreshRows(f: Fleet, s: Step, g: Fleet, i: nat)
    requires Inv(f) && g == Perform(f, s).0 && |f.tasks| <= i < |g.tasks|
    ensures g.tasks[i].attempts == 0 && g.tasks[i].state.TaskQueued?
    ensures Find(f.tasks, g.tasks[i].taskId).None? && s.Enqueue?
  {
    if !s.Enqueue? {
      OnlyEnqueueAdds(f, s, g);
    }
  }

  /** A step after which there is no such row neither leased nor revoked it. */
  lemma NothingHappensYet(f: Fleet, s: Step, g: Fleet, reply: Reply, id: string)
    requires Inv(f) && (g, reply) == Perform(f, s) && Find(g.tasks, id).None?
    ensures Find(f.tasks, id).None? && !Grants(reply, id) && !Revokes(f, s, reply, id)
  {
    StepExtends(f, s, g);
    RowWasMissing(f, g, id);
    if Grants(reply, id) {
      GrantNamesARow(f, s, g, reply);
    }
  }

  lemma RowWasMissing(f: Fleet, g: Fleet, id: string)
    requires Extends(f, g) && Find(g.tasks, id).None?
    ensures Find(f.tasks, id).None?
  {
    forall i | 0 <= i < |f.tasks|
      ensures f.tasks[i].taskId != id
    {
      assert Advances(f.tasks[i], g.tasks[..|f.tasks|][i]);
    }
  }

  lemma {:induction false} NothingBeforeTheRow(steps: seq<Step>, id: string)
    requires WellTypedRun(steps) && Find(After(steps).tasks, id).None?
    ensures Claims(steps, id) == 0 && Revocations(steps, id) == 0
  {
    if steps != [] {
      var n := |steps| - 1;
      RunKeepsInvariant(steps[..n]);
      NothingHappensYet(After(steps[..n]), steps[n], After(steps), ReplyAt(steps, n), id);
      NothingBeforeTheRow(steps[..n], id);
    }
  }

  lemma GrantNamesARow(f: Fleet, s: Step, g: Fleet, reply: Reply)
    requires (g, reply) == Perform(f, s) && reply.Leased?
    ensures exists i :: 0 <= i < |g.tasks| && g.tasks[i] == reply.task
    ensures s.Claim?
  {
    assert s.Claim?;
    var swept := SweepFleet(f, s.now);
    var at := Pick(swept.tasks, swept.campaigns, swept.agents[s.agent].registration, s.now).value;
    assert g.tasks[at] == reply.task;
  }

  /** In every reachable state the attempts of a task are its claims less the claims a pause revoked:
      an expired lease has used its attempt up, a paused one has not. */
  lemma {:induction false} AttemptsAreConserved(steps: seq<Step>, i: nat)
    requires WellTypedRun(steps) && i < |After(steps).tasks|
    ensures var t := After(steps).tasks[i];
            && t.attempts == Claims(steps, t.taskId) - Revocations(steps, t.taskId)
            && Claims(steps, t.taskId) <= t.maxAttempts + Revocations(steps, t.taskId)
  {
    RunKeepsInvariant(steps);
    assert TaskOk(After(steps).tasks[i], After(steps).campaigns, After(steps).agents.Keys);
    var n := |steps| - 1;
    var f, g, reply := After(steps[..n]), After(steps), ReplyAt(steps, n);
    var id := g.tasks[i].taskId;
    RunKeepsInvariant(steps[..n]);
    if i < |f.tasks| {
      StepExtends(f, steps[n], g);
      assert Advances(f.tasks[i], g.tasks[..|f.tasks|][i]);
      AttemptsAreConserved(steps[..n], i);
      StepMovesRow(f, steps[n], i, g, reply);
    } else {
      FreshRows(f, steps[n], g, i);
      NothingBeforeTheRow(steps[..n], id);
      if Grants(reply, id) {
        GrantNamesARow(f, steps[n], g, reply);
      }
    }
  }

  // ---- where a lease comes from ------------------------------------------------------------

  /** Row `i` is held by `agent` under `token` in every state from the k-th step's to the n-th's. */
  ghost predicate HeldSince(steps: seq<Step>, k: nat, n: nat, i: nat, agent: string, token: string)
    requires n <= |steps|
  {
    forall j :: k < j <= n ==> HeldAt(steps[..j], i, agent, token)
  }

  ghost predicate HeldAt(steps: seq<Step>, i: nat, agent: string, token: string) {
    var ts := After(steps).tasks;
    i < |ts| && LeaseOf(ts[i], agent, token)
  }

  /** Step `k` is this agent's claim; it minted the token and was granted row `i`. */
  ghost predicate MintedAt(steps: seq<Step>, k: nat, i: nat, agent: string, token: string)
    requires k < |steps| && i < |After(steps[..k + 1]).tasks|
  {
    && steps[k].Claim? && steps[k].agent == agent && steps[k].token == token
    && Grants(ReplyAt(steps, k), After(steps[..k + 1]).tasks[i].taskId)
  }

  /** A row leased after a step was granted by it or held before it. */
  lemma LeaseBefore(f: Fleet, s: Step, g: Fleet, reply: Reply, i: nat, agent: string, token: string)
    requires Inv(f) && (g, reply) == Perform(f, s) && i < |g.tasks| && LeaseOf(g.tasks[i], agent, token)
    ensures i < |f.tasks| && f.tasks[i].taskId == g.tasks[i].taskId
    ensures if Grants(reply, g.tasks[i].taskId) then s.Claim? && s.agent == agent && s.token == token
            else LeaseOf(f.tasks[i], agent, token)
  {
    if |f.tasks| <= i {
      FreshRows(f, s, g, i);
    } else {
      StepExtends(f, s, g);
      assert Advances(f.tasks[i], g.tasks[..|f.tasks|][i]);
      StepMovesRow(f, s, i, g, reply);
    }
  }

  /** Holding is handed on from step to step, or begins. */
  ghost predicate HandedOn(held: nat -> bool, begins: nat -> bool, allowed: nat -> bool, n: nat) {
    && !held(0)
    && forall m: nat {:trigger begins(m)} :: m < n && held(m + 1) ==> if begins(m) then allowed(m) else held(m)
  }

  /** What is held after `n` steps has been held since it last began, as it is allowed to. */
  lemma {:induction false} SinceLastBegin(held: nat -> bool, begins: nat -> bool, allowed: nat -> bool, n: nat)
    returns (k: nat)
    requires HandedOn(held, begins, allowed, n) && held(n)
    ensures k < n && allowed(k) && (forall j :: k < j <= n ==> held(j)) && forall j :: k < j < n ==> !begins(j)
  {
    k := n - 1;
    if !begins(k) {
      k := SinceLastBegin(held, begins, allowed, n - 1);
    }
  }

  /** Row `i` is that of the task, and held. */
  ghost predicate HoldsTask(steps: seq<Step>, i: nat, agent: string, token: string, id: string) {
    HeldAt(steps, i, agent, token) && After(steps).tasks[i].taskId == id
  }

  ghost predicate GrantedAt(steps: seq<Step>, k: nat, id: string) {
    k < |steps| && Grants(ReplyAt(steps, k), id)
  }

  ghost predicate MintedFor(steps: seq<Step>, k: nat, i: nat, agent: string, token: string, id: string) {
    && k < |steps| && i < |After(steps[..k + 1]).tasks| && After(steps[..k + 1]).tasks[i].taskId == id
    && MintedAt(steps, k, i, agent, token)
  }

  /** A held row was leased out by the last step to the agent that holds it, or was held before. */
  lemma LeaseOneStepBack(steps: seq<Step>, n: nat, i: nat, agent: string, token: string, id: string)
    requires WellTypedRun(steps) && n < |steps| && HoldsTask(steps[..n + 1], i, agent, token, id)
    ensures if GrantedAt(steps, n, id) then MintedFor(steps, n, i, agent, token, id)
            else HoldsTask(steps[..n], i, agent, token, id)
  {
    assert steps[..n + 1][..n] == steps[..n];
    RunKeepsInvariant(steps[..n]);
    LeaseBefore(After(steps[..n]), steps[n], After(steps[..n + 1]), ReplyAt(steps, n), i, agent, token);
  }

  lemma LeasesAreHandedOn(
    steps: seq<Step>, i: nat, agent: string, token: string, id: string,
    held: nat -> bool, begins: nat -> bool, allowed: nat -> bool)
    requires WellTypedRun(steps)
    requires forall j: nat :: held(j) <==> j <= |steps| && HoldsTask(steps[..j], i, agent, token, id)
    requires forall j: nat :: begins(j) <==> GrantedAt(steps, j, id)
    requires forall j: nat :: allowed(j) <==> MintedFor(steps, j, i, agent, token, id)
    ensures HandedOn(held, begins, allowed, |steps|)
  {
    forall m: nat | m < |steps| && held(m + 1)
      ensures if begins(m) then allowed(m) else held(m)
    {
      LeaseOneStepBack(steps, m, i, agent, token, id);
    }
  }

  /** Every lease held after `n` steps of a run was granted by one claim of its owner, the last claim that was
      granted the task. It minted the token, and the lease has been held in every state since: no sweep, pause,
      cancellation or completion came between. */
  lemma LeaseProvenance(steps: seq<Step>, n: nat, i: nat, agent: string, token: string, id: string) returns (k: nat)
    requires WellTypedRun(steps) && n <= |steps| && HoldsTask(steps[..n], i, agent, token, id)
    ensures k < n && MintedFor(steps, k, i, agent, token, id)
    ensures HeldSince(steps, k, n, i, agent, token) && forall j :: k < j < n ==> !GrantedAt(steps, j, id)
  {
    var held := (j: nat) => j <= |steps| && HoldsTask(steps[..j], i, agent, token, id);
    var begins, allowed := (j: nat) => GrantedAt(steps, j, id), (j: nat) => MintedFor(steps, j, i, agent, token, id);
    LeasesAreHandedOn(steps, i, agent, token, id, held, begins, allowed);
    k := SinceLastBegin(held, begins, allowed, n);
    forall j | k < j <= n
      ensures HeldAt(steps[..j], i, agent, token)
    {
      assert held(j);
    }
    forall j | k < j < n
      ensures !GrantedAt(steps, j, id)
    {
      assert !begins(j);
    }
  }

  /** A step that only a live lease can take: a heartbeat, a completion or a lease check that succeeded. */
  predicate UsesLease(s: Step, reply: Reply) {
    (s.Beat? && reply.Extended?) || (s.Complete? && reply.Finished?) || (s.Check? && reply.Active?)
  }

  function LeaseUsed(s: Step): (string, string, string)
    requires s.Beat? || s.Complete? || s.Check?
  {
    match s
    case Beat(task, agent, token, _, _) => (task, agent, token)
    case Complete(agent, task, token, _, _, _) => (task, agent, token)
    case Check(task, agent, token, _) => (task, agent, token)
  }

  lemma UseNeedsLease(f: Fleet, s: Step, reply: Reply) returns (i: nat)
    requires reply == Perform(f, s).1 && UsesLease(s, reply)
    ensures var (task, agent, token) := LeaseUsed(s);
            && i < |f.tasks| && f.tasks[i].taskId == task && LeaseOf(f.tasks[i], agent, token)
            && f.tasks[i].expiresAt.Some? && s.now <= f.tasks[i].expiresAt.value
            && f.tasks[i].campaignId in f.campaigns && f.campaigns[f.tasks[i].campaignId].state.Running?
  {
    var (task, agent, token) := LeaseUsed(s);
    i := CheckLease(f, task, agent, token, s.now).0.value;
  }

  /** A heartbeat, completion or lease check succeeds only with the token minted by the claim that
      last granted the task, to the same agent, held without a break since. */
  lemma UseHasProvenance(steps: seq<Step>, n: nat) returns (k: nat, i: nat)
    requires WellTypedRun(steps) && n < |steps| && UsesLease(steps[n], ReplyAt(steps, n))
    ensures var (task, agent, token) := LeaseUsed(steps[n]);
            && k < n && HeldSince(steps, k, n, i, agent, token)
            && i < |After(steps[..k + 1]).tasks| && After(steps[..k + 1]).tasks[i].taskId == task
            && MintedAt(steps, k, i, agent, token)
            && forall j :: k < j < n ==> !Grants(ReplyAt(steps, j), task)
  {
    var (task, agent, token) := LeaseUsed(steps[n]);
    i := UseNeedsLease(After(steps[..n]), steps[n], ReplyAt(steps, n));
    k := LeaseProvenance(steps, n, i, agent, token, task);
    forall j | k < j < n
      ensures !Grants(ReplyAt(steps, j), task)
    {
      assert !GrantedAt(steps, j, task);
    }
  }

  /** Claims never mint the same token twice. */
  ghost predicate FreshTokens(steps: seq<Step>) {
    forall j, k :: 0 <= j < k < |steps| && steps[j].Claim? && steps[k].Claim? ==> steps[j].token != steps[k].token
  }

  lemma OneRowMinted(steps: seq<Step>, k: nat, i: nat, j: nat, agent: string, token: string)
    requires k < |steps| && i < |After(steps[..k + 1]).tasks| && j < |After(steps[..k + 1]).tasks|
    requires Identified(After(steps[..k + 1]).tasks)
    requires MintedAt(steps, k, i, agent, token) && MintedAt(steps, k, j, agent, token)
    ensures i == j
  {
  }

  /** A token holds the row its claim was granted, without a break since, and no other. */
  lemma TokenHoldsItsRow(steps: seq<Step>, k: nat, i: nat, row: nat, agent: string, token: string)
    requires WellTypedRun(steps) && FreshTokens(steps) && k < |steps|
    requires i < |After(steps[..k + 1]).tasks| && MintedAt(steps, k, i, agent, token)
    requires HeldAt(steps, row, agent, token)
    ensures row == i && HeldSince(steps, k, |steps|, i, agent, token)
  {
    assert steps[..|steps|] == steps;
    var j := LeaseProvenance(steps, |steps|, row, agent, token, After(steps).tasks[row].taskId);
    assert steps[j].token == steps[k].token;
    RunKeepsInvariant(steps[..k + 1]);
    OneRowMinted(steps, k, i, row, agent, token);
  }

  /** A token that was minted for row `i` and no longer holds it never holds any row again. */
  lemma DeadTokenStaysDead(steps: seq<Step>, k: nat, m: nat, i: nat, row: nat, agent: string, token: string)
    requires WellTypedRun(steps) && FreshTokens(steps) && k < m <= |steps|
    requires i < |After(steps[..k + 1]).tasks| && MintedAt(steps, k, i, agent, token)
    requires !HeldAt(steps[..m], i, agent, token)
    ensures !HeldAt(steps, row, agent, token)
  {
    if HeldAt(steps, row, agent, token) {
      TokenHoldsItsRow(steps, k, i, row, agent, token);
    }
  }

  // ---- how a lease ends --------------------------------------------------------------------

  /** The only four ways a held lease ends without being granted again: it was completed under its own
      token, a claim swept it after its expiry, or its campaign was paused or cancelled. */
  predicate Ends(t: Task, s: Step, reply: Reply) {
    match s
    case Complete(agent, task, token, _, _, _) => reply.Finished? && task == t.taskId && LeaseOf(t, agent, token)
    case Claim(_, _, _, now) => !reply.Failed? && Expired(t, now)
    case SetState(id, target, _) => reply.Done? && id == t.campaignId && (target.Paused? || target.Cancelled?)
    case _ => false
  }

  /** The lease on row `i` goes on unless the step ends it, in which case only a new grant leases the row. */
  ghost predicate LeaseFate(f: Fleet, s: Step, g: Fleet, reply: Reply, i: nat)
    requires i < |f.tasks|
  {
    && i < |g.tasks|
    && if Ends(f.tasks[i], s, reply) then g.tasks[i].state.TaskLeased? ==> Grants(reply, f.tasks[i].taskId)
       else SameLease(f.tasks[i], g.tasks[i]) && ExpiresNoEarlier(f.tasks[i], g.tasks[i])
  }

  lemma SetStateFate(f: Fleet, s: Step, g: Fleet, reply: Reply, i: nat)
    requires RowsOk(f) && s.SetState? && (g, reply) == SetCampaignState(f, s.campaign, s.target, s.now)
    requires i < |f.tasks| && f.tasks[i].state.TaskLeased?
    ensures LeaseFate(f, s, g, reply, i)
  {
    assert TaskOk(f.tasks[i], f.campaigns, f.agents.Keys);
  }

  lemma SweptRow(f: Fleet, now: nat, i: nat)
    requires RowsOk(f) && i < |f.tasks|
    ensures i < |SweepFleet(f, now).tasks| && SweepFleet(f, now).tasks[i] == ExpireTask(f.tasks[i], now)
  {
    NothingIsExhausted(f, now);
  }

  lemma SweptOrRolledBack(f: Fleet, s: Step, swept: Fleet, g: Fleet, reply: Reply, i: nat)
    requires s.Claim? && i < |f.tasks| && f.tasks[i].state.TaskLeased? && LeaseFields(f.tasks[i])
    requires i < |swept.tasks| && swept.tasks[i] == ExpireTask(f.tasks[i], s.now) && i < |g.tasks|
    requires if reply.Failed? then g == f
             else || g.tasks[i] == swept.tasks[i]
                  || (!swept.tasks[i].state.TaskLeased? && Grants(reply, swept.tasks[i].taskId))
    ensures LeaseFate(f, s, g, reply, i)
  {
  }

  lemma ClaimFate(f: Fleet, s: Step, g: Fleet, reply: Reply, i: nat)
    requires RowsOk(f) && s.Claim? && (g, reply) == ClaimTask(f, s.agent, s.leaseSeconds, s.token, s.now)
    requires i < |f.tasks| && f.tasks[i].state.TaskLeased?
    ensures LeaseFate(f, s, g, reply, i)
  {
    var swept := SweepFleet(f, s.now);
    SweptRow(f, s.now, i);
    RowFields(f, i);
    if !reply.Failed? {
      SweptFate(swept, s, g, reply, i);
    }
    SweptOrRolledBack(f, s, swept, g, reply, i);
  }

  /** A claim rewrites at most the row it grants, which was queued. */
  lemma SweptFate(swept: Fleet, s: Step, g: Fleet, reply: Reply, i: nat)
    requires s.Claim? && i < |swept.tasks| && s.agent in swept.agents
    requires (g, reply) == ClaimSwept(swept, s.agent, s.leaseSeconds, s.token, s.now)
    ensures i < |g.tasks|
    ensures g.tasks[i] == swept.tasks[i] || (!swept.tasks[i].state.TaskLeased? && Grants(reply, swept.tasks[i].taskId))
  {
  }

  lemma CompletedRow(f: Fleet, s: Step, g: Fleet, reply: Reply, i: nat)
    requires Identified(f.tasks) && s.Complete? && i < |f.tasks|
    requires (g, reply) == CompleteTask(f, s.agent, s.task, s.token, s.outcome, s.findings, s.now)
    ensures i < |g.tasks| && !reply.Leased?
    ensures if reply.Finished? && f.tasks[i].taskId == s.task
            then LeaseOf(f.tasks[i], s.agent, s.token)
              && g.tasks[i] == Unleased(f.tasks[i], reply.state, f.tasks[i].attempts, s.now)
                 && reply.state == TerminalState(s.outcome)
            else g.tasks[i] == f.tasks[i]
  {
    FoundAt(f.tasks, i);
  }

  lemma CompleteFate(f: Fleet, s: Step, g: Fleet, reply: Reply, i: nat)
    requires RowsOk(f) && s.Complete?
    requires (g, reply) == CompleteTask(f, s.agent, s.task, s.token, s.outcome, s.findings, s.now)
    requires i < |f.tasks| && f.tasks[i].state.TaskLeased?
    ensures LeaseFate(f, s, g, reply, i)
  {
    RowFields(f, i);
    CompletedRow(f, s, g, reply, i);
  }

  lemma BeatFate(f: Fleet, s: Step, g: Fleet, reply: Reply, i: nat)
    requires RowsOk(f) && s.Beat?
    requires (g, reply) == Heartbeat(f, s.task, s.agent, s.token, s.extendSeconds, s.now)
    requires i < |f.tasks| && f.tasks[i].state.TaskLeased?
    ensures LeaseFate(f, s, g, reply, i)
  {
    StaysPut(f, s, i);
  }

  lemma OtherFate(f: Fleet, s: Step, g: Fleet, reply: Reply, i: nat)
    requires Quiet(s)
    requires i < |f.tasks| && LeaseFields(f.tasks[i]) && f.tasks[i].state.TaskLeased?
    requires i < |g.tasks| && g.tasks[i] == f.tasks[i]
    ensures LeaseFate(f, s, g, reply, i)
  {
  }

  /** A lease is lost in exactly these ways, and its expiry never moves backwards while it is held. */
  lemma LeaseEndsOnlySo(f: Fleet, s: Step, g: Fleet, reply: Reply, i: nat)
    requires Inv(f) && (g, reply) == Perform(f, s)
    requires i < |f.tasks| && f.tasks[i].state.TaskLeased?
    ensures LeaseFate(f, s, g, reply, i)
  {
    RowFields(f, i);
    match s
    case Claim(_, _, _, _) => ClaimFate(f, s, g, reply, i);
    case SetState(_, _, _) => SetStateFate(f, s, g, reply, i);
    case Complete(_, _, _, _, _, _) => CompleteFate(f, s, g, reply, i);
    case Beat(_, _, _, _, _) => BeatFate(f, s, g, reply, i);
    case _ =>
      QuietAppends(f, s, g, reply);
      OtherFate(f, s, g, reply, i);
  }
}
