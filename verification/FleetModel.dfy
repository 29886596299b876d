/** The fleet coordination plane as a state machine over its four tables.

    Every store method is one transaction, so it is one function from the tables and the arguments to
    the new tables and a reply. A raised error leaves the tables as they were. Time is microseconds,
    cost is `real`, and a token hash is the token under an injective constructor. */
module FleetModel {
  import opened Basics
  import opened Ordering
  import opened Results

  datatype CampaignState = Draft | Ready | Running | Paused | Completed | Cancelled

  datatype TaskState = TaskQueued | TaskLeased | TaskCompleted | TaskFailed | TaskBlocked | TaskCancelled

  /** SHA-256 of a lease token. */
  datatype TokenHash = Sha256(token: string)

  datatype Budget = Budget(
    maxTasks: nat, maxCost: real, maxFindings: nat, maxWallSeconds: nat, maxAttempts: nat)

  /** Everything a manifest digest covers; the state is kept beside it. */
  datatype Manifest = Manifest(campaignId: string, reviewed: bool, budget: Budget, body: string)

  datatype Campaign = Campaign(manifest: Manifest, state: CampaignState, startedAt: Option<nat>)

  datatype Registration = Registration(
    agentId: string, capabilities: set<string>, maxClass: nat, maxConcurrency: nat)

  datatype AgentStatus = Online | Busy

  datatype Agent = Agent(registration: Registration, status: AgentStatus, lastSeen: nat)

  datatype Task = Task(
    taskId: string, campaignId: string, dedupKey: string,
    required: set<string>, executionClass: nat, priority: int, cost: real, maxAttempts: nat,
    state: TaskState, attempts: nat,
    leaseOwner: Option<string>, tokenHash: Option<TokenHash>, expiresAt: Option<nat>,
    createdAt: nat, updatedAt: nat)

  datatype ResultRow = ResultRow(taskId: string, agentId: string, outcome: string, findings: nat, completedAt: nat)

  /** The tables. Rows of `tasks` and `results` are in insertion order. */
  datatype Fleet = Fleet(
    campaigns: map<string, Campaign>, agents: map<string, Agent>, tasks: seq<Task>, results: seq<ResultRow>)

  const EMPTY: Fleet := Fleet(map[], map[], [], [])

  datatype Error =
    | NotDraft | Unreviewed | DifferentManifest | UnknownCampaign | InvalidTransition | ActiveTasks
    | NotBound | ManifestChanged | CampaignClosed | WallBudgetExhausted | TaskBudgetExhausted
    | CostBudgetExceeded | BadDuration | UnknownAgent | UnknownTask | CampaignNotRunning
    | NotLeasedByAgent | InvalidToken | LeaseExpired | FindingBudgetExceeded

  datatype Reply =
    | Done
    | Failed(error: Error)
    | Enqueued(accepted: bool)
    | NoWork
    | Leased(task: Task, token: string, leasedAt: nat)
    | Extended(expires: nat)
    | Finished(state: TaskState)
    | Active(task: Task)

  // ---- lookups and aggregates --------------------------------------------------------------

  function Find(ts: seq<Task>, id: string): (at: Option<nat>)
    ensures at.Some? ==> at.value < |ts| && ts[at.value].taskId == id
    ensures at.None? ==> forall i :: 0 <= i < |ts| ==> ts[i].taskId != id
  {
    if ts == [] then None
    else if ts[|ts| - 1].taskId == id then Some(|ts| - 1)
    else
      var at := Find(ts[..|ts| - 1], id);
      assert forall i :: 0 <= i < |ts| - 1 ==> ts[..|ts| - 1][i] == ts[i];
      at
  }

  /** `SELECT COUNT(*) ... WHERE campaign_id = ?` */
  function TaskCount(ts: seq<Task>, campaign: string): nat {
    if ts == [] then 0
    else TaskCount(ts[..|ts| - 1], campaign) + (if ts[|ts| - 1].campaignId == campaign then 1 else 0)
  }

  /** `SELECT COALESCE(SUM(estimated_cost_units), 0) ... WHERE campaign_id = ?` */
  function CostSum(ts: seq<Task>, campaign: string): real {
    if ts == [] then 0.0
    else CostSum(ts[..|ts| - 1], campaign) + (if ts[|ts| - 1].campaignId == campaign then ts[|ts| - 1].cost else 0.0)
  }

  predicate LeasedBy(t: Task, agent: string) {
    t.state.TaskLeased? && t.leaseOwner == Some(agent)
  }

  function LeaseCount(ts: seq<Task>, agent: string): nat {
    if ts == [] then 0
    else LeaseCount(ts[..|ts| - 1], agent) + (if LeasedBy(ts[|ts| - 1], agent) then 1 else 0)
  }

  predicate InCampaign(ts: seq<Task>, id: string, campaign: string) {
    var at := Find(ts, id);
    at.Some? && ts[at.value].campaignId == campaign
  }

  /** Findings in the results of a campaign's tasks (results joined with tasks). */
  function FindingSum(rs: seq<ResultRow>, ts: seq<Task>, campaign: string): nat {
    if rs == [] then 0
    else FindingSum(rs[..|rs| - 1], ts, campaign)
         + (if InCampaign(ts, rs[|rs| - 1].taskId, campaign) then rs[|rs| - 1].findings else 0)
  }

  function ResultCount(rs: seq<ResultRow>, id: string): nat {
    if rs == [] then 0
    else ResultCount(rs[..|rs| - 1], id) + (if rs[|rs| - 1].taskId == id then 1 else 0)
  }

  // ---- bulk updates ------------------------------------------------------------------------

  function Unleased(t: Task, state: TaskState, attempts: nat, now: nat): Task {
    t.(state := state, attempts := attempts, leaseOwner := None, tokenHash := None, expiresAt := None, updatedAt := now)
  }

  predicate Expired(t: Task, now: nat) {
    t.state.TaskLeased? && t.expiresAt.Some? && t.expiresAt.value < now
  }

  function ExpireTask(t: Task, now: nat): Task {
    if Expired(t, now)
    then Unleased(t, if t.attempts >= t.maxAttempts then TaskFailed else TaskQueued, t.attempts, now)
    else t
  }

  function ExpireTasks(ts: seq<Task>, now: nat): (us: seq<Task>)
    ensures |us| == |ts| && forall i :: 0 <= i < |ts| ==> us[i] == ExpireTask(ts[i], now)
  {
    seq(|ts|, i requires 0 <= i < |ts| => ExpireTask(ts[i], now))
  }

  function FailTask(t: Task, now: nat): Task {
    if t.state.TaskQueued? && t.attempts >= t.maxAttempts then t.(state := TaskFailed, updatedAt := now) else t
  }

  function FailExhausted(ts: seq<Task>, now: nat): (us: seq<Task>)
    ensures |us| == |ts| && forall i :: 0 <= i < |ts| ==> us[i] == FailTask(ts[i], now)
  {
    seq(|ts|, i requires 0 <= i < |ts| => FailTask(ts[i], now))
  }

  /** A paused campaign's lease goes back with the attempt it had used. */
  function RequeueTask(t: Task, campaign: string, now: nat): Task {
    if t.campaignId == campaign && t.state.TaskLeased?
    then Unleased(t, TaskQueued, if t.attempts > 0 then t.attempts - 1 else 0, now)
    else t
  }

  function RequeueTasks(ts: seq<Task>, campaign: string, now: nat): (us: seq<Task>)
    ensures |us| == |ts| && forall i :: 0 <= i < |ts| ==> us[i] == RequeueTask(ts[i], campaign, now)
  {
    seq(|ts|, i requires 0 <= i < |ts| => RequeueTask(ts[i], campaign, now))
  }

  function CancelTask(t: Task, campaign: string, now: nat): Task {
    if t.campaignId == campaign && (t.state.TaskQueued? || t.state.TaskLeased?)
    then Unleased(t, TaskCancelled, t.attempts, now)
    else t
  }

  function CancelTasks(ts: seq<Task>, campaign: string, now: nat): (us: seq<Task>)
    ensures |us| == |ts| && forall i :: 0 <= i < |ts| ==> us[i] == CancelTask(ts[i], campaign, now)
  {
    seq(|ts|, i requires 0 <= i < |ts| => CancelTask(ts[i], campaign, now))
  }

  function ExpiredOwners(ts: seq<Task>, now: nat): set<string> {
    set t | t in ts && Expired(t, now) && t.leaseOwner.Some? :: t.leaseOwner.value
  }

  function CampaignOwners(ts: seq<Task>, campaign: string): set<string> {
    set t | t in ts && t.campaignId == campaign && t.state.TaskLeased? && t.leaseOwner.Some? :: t.leaseOwner.value
  }

  function ReleaseAgent(a: Agent, now: nat): Agent {
    a.(status := Online, lastSeen := now)
  }

  /** Agents in `ids` that hold no lease go back online. */
  function ReleaseIdle(agents: map<string, Agent>, ts: seq<Task>, ids: set<string>, now: nat): map<string, Agent> {
    map a | a in agents :: if a in ids && LeaseCount(ts, a) == 0 then ReleaseAgent(agents[a], now) else agents[a]
  }

  // ---- campaigns and agents ----------------------------------------------------------------

  function CreateCampaign(f: Fleet, m: Manifest, state: CampaignState): (Fleet, Reply) {
    if !state.Draft? then (f, Failed(NotDraft))
    else if !m.reviewed then (f, Failed(Unreviewed))
    else if m.campaignId in f.campaigns then
      (f, if f.campaigns[m.campaignId].manifest == m then Done else Failed(DifferentManifest))
    else (f.(campaigns := f.campaigns[m.campaignId := Campaign(m, Draft, None)]), Done)
  }

  predicate Allowed(current: CampaignState, target: CampaignState) {
    match current
    case Draft => target in {Ready, Cancelled}
    case Ready => target in {Running, Paused, Cancelled}
    case Running => target in {Paused, Completed, Cancelled}
    case Paused => target in {Ready, Running, Cancelled}
    case Completed => false
    case Cancelled => false
  }

  predicate HasActive(ts: seq<Task>, campaign: string) {
    exists t :: t in ts && t.campaignId == campaign && (t.state.TaskQueued? || t.state.TaskLeased?)
  }

  function Requeue(f: Fleet, campaign: string, now: nat): Fleet {
    var ts := RequeueTasks(f.tasks, campaign, now);
    f.(tasks := ts, agents := ReleaseIdle(f.agents, ts, CampaignOwners(f.tasks, campaign), now))
  }

  function Cancel(f: Fleet, campaign: string, now: nat): Fleet {
    var ts := CancelTasks(f.tasks, campaign, now);
    f.(tasks := ts, agents := ReleaseIdle(f.agents, ts, CampaignOwners(f.tasks, campaign), now))
  }

  function EnterState(c: Campaign, target: CampaignState, now: nat): Campaign {
    if target.Running? && c.startedAt.None? then c.(state := target, startedAt := Some(now)) else c.(state := target)
  }

  /** Setting the current state again repeats its sweep. */
  function Resettle(f: Fleet, id: string, state: CampaignState, now: nat): Fleet {
    if state.Paused? then Requeue(f, id, now) else if state.Cancelled? then Cancel(f, id, now) else f
  }

  function Move(f: Fleet, id: string, target: CampaignState, now: nat): Fleet
    requires id in f.campaigns
  {
    var g := if target.Paused? || target.Running? then Requeue(f, id, now)
             else if target.Cancelled? then Cancel(f, id, now) else f;
    g.(campaigns := f.campaigns[id := EnterState(f.campaigns[id], target, now)])
  }

  function SetCampaignState(f: Fleet, id: string, target: CampaignState, now: nat): (Fleet, Reply) {
    if id !in f.campaigns then (f, Failed(UnknownCampaign))
    else
      var current := f.campaigns[id].state;
      if target == current then (Resettle(f, id, target, now), Done)
      else if !Allowed(current, target) then (f, Failed(InvalidTransition))
      else if target.Completed? && HasActive(f.tasks, id) then (f, Failed(ActiveTasks))
      else (Move(f, id, target, now), Done)
  }

  function RegisterAgent(f: Fleet, r: Registration, now: nat): (Fleet, Reply) {
    (f.(agents := f.agents[r.agentId := Agent(r, Online, now)]), Done)
  }

  // ---- tasks -------------------------------------------------------------------------------

  predicate WallExhausted(startedAt: Option<nat>, maxSeconds: nat, now: nat) {
    startedAt.Some? && now > startedAt.value + maxSeconds * 1_000_000
  }

  /** The part of a task computed from an intent and the campaign as read before the transaction. */
  datatype NewTask = NewTask(
    taskId: string, dedupKey: string, required: set<string>, executionClass: nat, priority: int, cost: real)

  function RowOf(n: NewTask, m: Manifest, now: nat): Task {
    Task(n.taskId, m.campaignId, n.dedupKey, n.required, n.executionClass, n.priority, n.cost,
         m.budget.maxAttempts, TaskQueued, 0, None, None, None, now, now)
  }

  predicate HasDedup(ts: seq<Task>, key: string) {
    exists t :: t in ts && t.dedupKey == key
  }

  /** The persisting half of `enqueue_intent`. `seen` is the campaign as an earlier transaction read
      it; other steps may have run in between. */
  function EnqueueTask(f: Fleet, n: NewTask, seen: Campaign, bound: bool, now: nat): (Fleet, Reply) {
    var id := seen.manifest.campaignId;
    if seen.state.Completed? || seen.state.Cancelled? then (f, Failed(CampaignClosed))
    else if !bound then (f, Failed(NotBound))
    else if id !in f.campaigns then (f, Failed(UnknownCampaign))
    else
      var c := f.campaigns[id];
      var budget := seen.manifest.budget;
      if c.manifest != seen.manifest then (f, Failed(ManifestChanged))
      else if c.state.Completed? || c.state.Cancelled? then (f, Failed(CampaignClosed))
      else if WallExhausted(c.startedAt, budget.maxWallSeconds, now) then (f, Failed(WallBudgetExhausted))
      else if HasDedup(f.tasks, n.dedupKey) then (f, Enqueued(false))
      else if TaskCount(f.tasks, id) >= budget.maxTasks then (f, Failed(TaskBudgetExhausted))
      else if CostSum(f.tasks, id) + n.cost > budget.maxCost then (f, Failed(CostBudgetExceeded))
      else if Find(f.tasks, n.taskId).Some? then (f, Enqueued(false))  // primary-key clash, rolled back
      else (f.(tasks := f.tasks + [RowOf(n, seen.manifest, now)]), Enqueued(true))
  }

  predicate Selectable(t: Task, campaigns: map<string, Campaign>) {
    && t.state.TaskQueued? && t.attempts < t.maxAttempts
    && t.campaignId in campaigns && campaigns[t.campaignId].state.Running?
  }

  predicate Suits(t: Task, campaigns: map<string, Campaign>, r: Registration, now: nat)
    requires t.campaignId in campaigns
  {
    var c := campaigns[t.campaignId];
    && !WallExhausted(c.startedAt, c.manifest.budget.maxWallSeconds, now)
    && t.required <= r.capabilities
    && t.executionClass <= r.maxClass
  }

  predicate Claimable(t: Task, campaigns: map<string, Campaign>, r: Registration, now: nat) {
    Selectable(t, campaigns) && Suits(t, campaigns, r, now)
  }

  /** `ORDER BY priority DESC, created_at ASC, task_id ASC` */
  predicate RowBefore(t: Task, u: Task) {
    if t.priority != u.priority then t.priority > u.priority
    else if t.createdAt != u.createdAt then t.createdAt < u.createdAt
    else TextLess(t.taskId, u.taskId)
  }

  /** The first claimable row in claim order. */
  function Pick(ts: seq<Task>, campaigns: map<string, Campaign>, r: Registration, now: nat): (at: Option<nat>)
    ensures at.Some? ==> at.value < |ts| && Claimable(ts[at.value], campaigns, r, now)
  {
    if ts == [] then None
    else
      var n := |ts| - 1;
      var best := Pick(ts[..n], campaigns, r, now);
      if Claimable(ts[n], campaigns, r, now) && (best.None? || RowBefore(ts[n], ts[best.value])) then Some(n) else best
  }

  function SweepFleet(f: Fleet, now: nat): Fleet {
    var expired := ExpireTasks(f.tasks, now);
    f.(tasks := FailExhausted(expired, now),
       agents := ReleaseIdle(f.agents, expired, ExpiredOwners(f.tasks, now), now))
  }

  function LeaseRow(t: Task, agent: string, token: string, expires: nat, now: nat): Task {
    t.(state := TaskLeased, attempts := t.attempts + 1, leaseOwner := Some(agent),
       tokenHash := Some(Sha256(token)), expiresAt := Some(expires), updatedAt := now)
  }

  function GrantLease(f: Fleet, at: nat, agent: string, token: string, expires: nat, now: nat): Fleet
    requires at < |f.tasks| && agent in f.agents
  {
    f.(tasks := f.tasks[at := LeaseRow(f.tasks[at], agent, token, expires, now)],
       agents := f.agents[agent := f.agents[agent].(status := Busy, lastSeen := now)])
  }

  /** A claim after the sweep and the registration look-up. */
  function ClaimSwept(g: Fleet, agent: string, leaseSeconds: nat, token: string, now: nat): (Fleet, Reply)
    requires agent in g.agents
  {
    var r := g.agents[agent].registration;
    if LeaseCount(g.tasks, agent) >= r.maxConcurrency then (g, NoWork)
    else
      var at := Pick(g.tasks, g.campaigns, r, now);
      if at.None? then (g, NoWork)
      else
        var h := GrantLease(g, at.value, agent, token, now + leaseSeconds * 1_000_000, now);
        (h, Leased(h.tasks[at.value], token, now))
  }

  /** A claim without work still commits its sweep; a claim by an unknown agent rolls it back. */
  function ClaimTask(f: Fleet, agent: string, leaseSeconds: nat, token: string, now: nat): (Fleet, Reply) {
    if leaseSeconds < 10 || leaseSeconds > 86400 then (f, Failed(BadDuration))
    else if agent !in f.agents then (f, Failed(UnknownAgent))
    else ClaimSwept(SweepFleet(f, now), agent, leaseSeconds, token, now)
  }

  /** `_assert_lease`: the row of the task if this agent and token hold an unexpired lease on it. */
  function CheckLease(f: Fleet, id: string, agent: string, token: string, now: nat): (r: (Option<nat>, Error))
    ensures r.0.Some? ==> r.0.value < |f.tasks| && f.tasks[r.0.value].taskId == id
                          && f.tasks[r.0.value].campaignId in f.campaigns
                          && f.tasks[r.0.value].expiresAt.Some?
  {
    var at := Find(f.tasks, id);
    if at.None? || f.tasks[at.value].campaignId !in f.campaigns then (None, UnknownTask)
    else
      var t := f.tasks[at.value];
      if !f.campaigns[t.campaignId].state.Running? then (None, CampaignNotRunning)
      else if !LeasedBy(t, agent) then (None, NotLeasedByAgent)
      else if t.tokenHash != Some(Sha256(token)) then (None, InvalidToken)
      else if t.expiresAt.None? || t.expiresAt.value < now then (None, LeaseExpired)
      else (at, UnknownTask)
  }

  function AssertActiveLease(f: Fleet, id: string, agent: string, token: string, now: nat): (Fleet, Reply) {
    var (at, error) := CheckLease(f, id, agent, token, now);
    (f, if at.None? then Failed(error) else Active(f.tasks[at.value]))
  }

  function ExtendLease(f: Fleet, at: nat, agent: string, expires: nat, now: nat): Fleet
    requires at < |f.tasks|
  {
    f.(tasks := f.tasks[at := f.tasks[at].(expiresAt := Some(expires), updatedAt := now)],
       agents := if agent in f.agents then f.agents[agent := f.agents[agent].(lastSeen := now)] else f.agents)
  }

  function Heartbeat(f: Fleet, id: string, agent: string, token: string, extendSeconds: nat, now: nat): (Fleet, Reply) {
    if extendSeconds < 10 || extendSeconds > 86400 then (f, Failed(BadDuration))
    else
      var (at, error) := CheckLease(f, id, agent, token, now);
      if at.None? then (f, Failed(error))
      else
        var expires := Max(f.tasks[at.value].expiresAt.value, now + extendSeconds * 1_000_000);
        (ExtendLease(f, at.value, agent, expires, now), Extended(expires))
  }

  /** `outcome` is the reported outcome in lower case. */
  function TerminalState(outcome: string): TaskState {
    if outcome in {"completed", "succeeded", "supported", "confirmed"} then TaskCompleted
    else if outcome in {"blocked", "out-of-scope"} then TaskBlocked
    else TaskFailed
  }

  function FinishTask(f: Fleet, at: nat, agent: string, outcome: string, findings: nat, now: nat): Fleet
    requires at < |f.tasks|
  {
    var t := f.tasks[at];
    var ts := f.tasks[at := Unleased(t, TerminalState(outcome), t.attempts, now)];
    f.(tasks := ts,
       results := f.results + [ResultRow(t.taskId, agent, outcome, findings, now)],
       agents := ReleaseIdle(f.agents, ts, {agent}, now))
  }

  function CompleteTask(f: Fleet, agent: string, id: string, token: string, outcome: string, findings: nat, now: nat)
    : (Fleet, Reply)
  {
    var (at, error) := CheckLease(f, id, agent, token, now);
    if at.None? then (f, Failed(error))
    else
      var c := f.tasks[at.value].campaignId;
      if FindingSum(f.results, f.tasks, c) + findings > f.campaigns[c].manifest.budget.maxFindings
      then (f, Failed(FindingBudgetExceeded))
      else (FinishTask(f, at.value, agent, outcome, findings, now), Finished(TerminalState(outcome)))
  }

  // ---- steps and runs ----------------------------------------------------------------------

  datatype Step =
    | Create(manifest: Manifest, initial: CampaignState)
    | SetState(campaign: string, target: CampaignState, now: nat)
    | Register(registration: Registration, now: nat)
    | Enqueue(newTask: NewTask, seen: Campaign, bound: bool, now: nat)
    | Claim(agent: string, leaseSeconds: nat, token: string, now: nat)
    | Beat(task: string, agent: string, token: string, extendSeconds: nat, now: nat)
    | Complete(agent: string, task: string, token: string, outcome: string, findings: nat, now: nat)
    | Check(task: string, agent: string, token: string, now: nat)

  /** The bounds the typed arguments carry. */
  predicate ValidManifest(m: Manifest) {
    m.budget.maxTasks >= 1 && m.budget.maxCost > 0.0 && m.budget.maxFindings >= 1
    && m.budget.maxWallSeconds >= 1 && 1 <= m.budget.maxAttempts <= 100
  }

  predicate WellTyped(s: Step) {
    match s
    case Create(m, _) => ValidManifest(m)
    case Register(r, _) => 1 <= r.maxConcurrency <= 1000
    case Enqueue(n, seen, _, _) => n.cost >= 0.0 && ValidManifest(seen.manifest)
    case _ => true
  }

  function Perform(f: Fleet, s: Step): (Fleet, Reply) {
    match s
    case Create(m, initial) => CreateCampaign(f, m, initial)
    case SetState(id, target, now) => SetCampaignState(f, id, target, now)
    case Register(r, now) => RegisterAgent(f, r, now)
    case Enqueue(n, seen, bound, now) => EnqueueTask(f, n, seen, bound, now)
    case Claim(agent, seconds, token, now) => ClaimTask(f, agent, seconds, token, now)
    case Beat(task, agent, token, seconds, now) => Heartbeat(f, task, agent, token, seconds, now)
    case Complete(agent, task, token, outcome, findings, now) => CompleteTask(f, agent, task, token, outcome, findings,
      now)
    case Check(task, agent, token, now) => AssertActiveLease(f, task, agent, token, now)
  }

  /** The tables after a run of steps, by any agents and operators in any order, from an empty store. */
  function After(steps: seq<Step>): Fleet {
    if steps == [] then EMPTY else Perform(After(steps[..|steps| - 1]), steps[|steps| - 1]).0
  }

  /** The reply to the k-th step of a run. */
  function ReplyAt(steps: seq<Step>, k: nat): Reply
    requires k < |steps|
  {
    Perform(After(steps[..k]), steps[k]).1
  }

  ghost predicate WellTypedRun(steps: seq<Step>) {
    forall s :: s in steps ==> WellTyped(s)
  }
}
