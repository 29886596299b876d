# White Hat Agent, verified

A Dafny model of the parts of the White Hat Agent repository whose correctness is hard to see from any one
function. One module per file: each models a component and states, as contracts and lemmas, what it promises.

* **Fleet coordination** (`FleetModel`, `FleetInvariant`, `FleetUpdates`, `FleetRuns`, `FleetScheduling`,
  `FleetBudgets`, `FleetOperations`, `FleetStore`, `IsoTimestamps`). A lease protocol over shared tables of
  campaigns, agents, tasks and results. Each method of `FleetStore.FleetStore` is one transaction on those
  tables, and is proved to do what a function of `FleetModel` says. A run is any sequence of such steps by any
  agents and operators. One invariant holds in every reachable state; attempts are conserved; a lease has
  exactly one origin and only a few ends; budgets hold of everything a run accepted; concurrency and claim order
  hold. What each step does to which column is stated without the functions that compute it. Stored timestamps
  are compared as text, which is shown to compare time.
* **Adapter resolution** (`AdapterResolver`, `DependencyGraph`, `ContentTree`, with `Ordering`). The
  capability-set dynamic program equals brute force under a five-level cost; the depth-first check accepts
  exactly the acyclic graphs; the bytes fed to the content-tree hash identify the tree's content.
* **Discovery kernel** (`EpisodeModel`, `EpisodeUpdates`, `EpisodeLaws`, `Planner`, `PlannerLaws`,
  `GreedySelection`, `Simulation`, `SimulationLoop`, `SimulationLaws`, `Replay`, `ReplayRuns`). Validated
  episodes, observations and expansions; the planner with its greedy, diverse and optimal selection; the plan,
  probe, observe, replan loop with its safety over whole runs, and the transcript-driven adapter that meets its
  assumption.
* **Bounded producers and consumers** (`YaraScanner`, `RecordAllocator`, `JsonText`, `Utf8`, `CodeMapDocument`,
  `CodeMapBytes`, `CodeMapNormaliser`, `NativeCodeMap`, `CodeMapRecords`, `CodeMapPipeline`). A hand-written
  scanner against a declarative grammar; a fair two-pass allocator that keeps both of its budgets; a Java script
  whose JSON output the strict Python normaliser accepts whenever the file is small enough to be read.
* **Finding history** (`FindingHistory`). An append-only, digest-linked history beside the table of current
  records.

Conventions. Raised errors are failing results, and the state is then unchanged. Digests (SHA-256 of tokens,
probes, findings) are constructors and so injective; identifiers that are truncated hashes are parameters.
Clocks, fresh tokens, host status, scope decisions and foreign calls are parameters. Floating-point numbers are
reals. Loops and objects that change state are methods and classes, proved against functions on values; the
lemmas are about those functions. `Basics`, `Results` and `Ordering` hold what several modules share.

Four places where code and expectation differ are proved as they are:

* `run_simulation` does not compare an observation with the hypothesis it selected. `Replay.WrongAnswerRun` is
  a run whose retry count grows from 0 to 1; by `SimulationLoop.RunRetries` the count of a run stays as it was
  if and only if no step applied an observation naming a hypothesis whose current probe was already terminal.
* A failed task may or may not have a result row: expiry fails a task without one, a reported failure with one.
* The character limit handed to the code-map script has a floor of 1024, while the reader counts bytes, so under
  a small limit the script may write what the reader refuses. For programs whose format, language, compiler
  specification and image base have together k plain characters, everything written can be read if and only if
  the operation allows 2212 - 2k bytes of output (`CodeMapPipeline.ReadableExactlyFromOrigin`); the failing
  program has a name of 594 - k three-byte characters (`CodeMapPipeline.WideTextIsTooLarge`). Every ASCII
  character of a program's own metadata lowers the limit that is enough for it by two bytes, and below 430 bytes
  and its metadata nothing is readable at all (`CodeMapPipeline.WrittenIsReadable`, `FrameIsTooLarge`).
* The sweep that fails queued tasks without attempts left never finds one (`FleetInvariant.NothingIsExhausted`).

## Model

| member | source | states |
|---|---|---|
| `AdapterResolver.CandidatesComeFromEntries` | src/white_hat_agent/adapter_registry.py:1021-1045 | The candidates are exactly the registry entries that are eligible, each with the required capabilities it serves and at least one, once and in id order; eligible and serving are spelled out field by field |
| `AdapterResolver.OperationCapabilities` | src/white_hat_agent/adapter_registry.py:1547-1553 | A capability is offered if and only if some operation within the execution-class ceiling offers it |
| `AdapterResolver.CostLessTotal` | src/white_hat_agent/adapter_registry.py:1594-1609 | The five-level cost is a strict total order: of two different costs exactly one is less |
| `AdapterResolver.ExtendingKeepsOrder` | src/white_hat_agent/adapter_registry.py:1052-1061 | Appending the same adapter to two selections keeps their cost order, although health, conformance, size, priority and ids are compared level by level; the dynamic program rests on this |
| `AdapterResolver.AddCandidate` | src/white_hat_agent/adapter_registry.py:1048-1062 | One round of the table update: after it every mask holds a cheapest sub-selection with exactly that coverage, over one more candidate, if it held one before |
| `AdapterResolver.WidestIsOptimal` | src/white_hat_agent/adapter_registry.py:1063-1070 | The entry of a widest mask is strictly cheaper than every other sub-selection of the same candidates with the widest coverage (brute force) |
| `AdapterResolver.SelectCheapest` | src/white_hat_agent/adapter_registry.py:1046-1071 | The dynamic program returns a selection of the widest coverage that every other such selection is worse than when adapters are counted one by one: more unhealthy ones, or as many and more tools lacking a capability, or more adapters, or a larger priority sum, or later ids |
| `AdapterResolver.CostCounts` | src/white_hat_agent/adapter_registry.py:1594-1609 | The levels of the cost are the number of selected adapters that are not healthy, the number of healthy tools lacking a capability, and the sum of the priorities |
| `AdapterResolver.OptimumIsPreferred` | src/white_hat_agent/adapter_registry.py:1594-1609 | The cheapest selection is the one preferred by those counts, level by level, with the ids deciding last |
| `AdapterResolver.OptimalIsUnique` | src/white_hat_agent/adapter_registry.py:1063-1069 | There is only one optimum, so the answer does not depend on how it is searched for |
| `AdapterResolver.NothingIsRedundant` | src/white_hat_agent/adapter_registry.py:1046-1071 | Dropping any one selected adapter strictly loses coverage |
| `AdapterResolver.FilterIds` | src/white_hat_agent/adapter_registry.py:1072-1095 | The list names exactly the adapters that meet the condition, in the order of their ids |
| `AdapterResolver.Classify` | src/white_hat_agent/adapter_registry.py:1071-1120 | The ready, provision and conformance lists hold, in id order, exactly the selected adapters whose health, installation, identity and capabilities call for it; what no candidate serves is uncovered; ready means complete with nothing to provision or conform |
| `AdapterResolver.Resolve` | src/white_hat_agent/adapter_registry.py:1007-1120 | A call with no, too many, or unclassified capabilities fails with the matching error; every other call returns the selection preferred over all others of the widest coverage, what no candidate serves, the three lists and the complete and ready flags |
| `DependencyGraph.DependencyWalk.Visit` | src/white_hat_agent/adapter_registry.py:1579-1588 | The nested visit leaves the call stack as it found it, marks the node visited behind all its dependencies, and raises only at a node that lies on a real cycle; it ends because the set of nodes not being visited shrinks |
| `DependencyGraph.Validate` | src/white_hat_agent/models.py:533-549 | A dependency graph is accepted if and only if it has no cycle; acceptance yields an order in which every node follows its dependencies, rejection a cycle through the reported node |
| `DependencyGraph.TopologicalIsAcyclic` | src/white_hat_agent/models.py:537-549 | A graph whose nodes can be ranked above their dependencies has no cycle |
| `DependencyGraph.CheckRequirements` | src/white_hat_agent/adapter_registry.py:1558-1574 | One adapter passes if and only if each managed requirement is another, known, provisionable tool with a probe; each error names a requirement that breaks exactly that rule |
| `DependencyGraph.ValidateManagedRequirements` | src/white_hat_agent/adapter_registry.py:1556-1591 | The registry is accepted if and only if all requirements are good and acyclic; a cycle error comes with a real cycle |
| `DependencyGraph.CyclesLieInAddedNodes` | src/white_hat_agent/models.py:533-549 | Adding nodes to a valid graph keeps it acyclic if and only if the added nodes among themselves are acyclic |
| `ContentTree.SortByNameSorts` | src/white_hat_agent/adapter_registry.py:1472-1473 | Sorting a listing with distinct names yields the same entries in strictly ascending name order |
| `ContentTree.WalkListsContent` | src/white_hat_agent/adapter_registry.py:1471-1507 | The walk lists a record if and only if the tree holds that directory, or that file with that size and digest, at that path |
| `ContentTree.SameContentSameWalk` | src/white_hat_agent/adapter_registry.py:1471-1507 | Two trees with the same content are walked identically, in whatever order the file system enumerates them |
| `ContentTree.OsWalkYieldsWalk` | src/white_hat_agent/adapter_registry.py:1471-1475 | The steps of the top-down directory walk, taken one by one, yield the walk |
| `ContentTree.RealTreeRealSteps` | src/white_hat_agent/adapter_registry.py:1477-1489 | A tree holds no link and no special file if and only if every listing the walk visits is free of them |
| `ContentTree.BigEndianRoundTrip` | src/white_hat_agent/adapter_registry.py:1484-1510 | Reading a fixed-width big-endian number gives back the number that was written |
| `ContentTree.FirstByteCountsMost` | src/white_hat_agent/adapter_registry.py:1484-1510 | The first byte of a number counts most |
| `ContentTree.StreamOfOneFile` | src/white_hat_agent/adapter_registry.py:1467-1510 | The exact bytes for a directory with one file: header, tags, eight-byte lengths and trailer |
| `ContentTree.DecodeInverts` | src/white_hat_agent/adapter_registry.py:1483-1510 | A decoder of the tagged, length-prefixed records recovers every record list and both trailer counts |
| `ContentTree.DecodeStream` | src/white_hat_agent/adapter_registry.py:1468-1510 | The decoder inverts the whole digest input, header and trailer included |
| `ContentTree.StreamIdentifiesContent` | src/white_hat_agent/adapter_registry.py:1459-1511 | Two trees feed the hash the same bytes if and only if they have the same paths, kinds, sizes and file digests |
| `ContentTree.TreeHasher.AddDirectory` | src/white_hat_agent/adapter_registry.py:1475-1485 | One directory record is fed and counted, or the walk stops because the planned records exceed a limit |
| `ContentTree.TreeHasher.AddFile` | src/white_hat_agent/adapter_registry.py:1486-1507 | One file record is fed and its bytes counted, or the walk stops because the planned records exceed a limit |
| `ContentTree.TreeHasher.AddSteps` | src/white_hat_agent/adapter_registry.py:1471-1507 | The loop feeds the records of all steps in order, or stops for a limit they exceed, or at a link or special file that is there |
| `ContentTree.HashSteps` | src/white_hat_agent/adapter_registry.py:1466-1511 | The digest input is the encoding of the steps' records with header and trailer; it is produced exactly when nothing irregular is met and both limits hold |
| `ContentTree.ContentTreeStream` | src/white_hat_agent/adapter_registry.py:1459-1511 | From root check to trailer: the stream of a real tree within the limits, else the error that applies |
| `GreedySelection.SelectDiverse` | src/white_hat_agent/planner.py:279-297 | The loop takes the greatest remaining candidate by score with diversity bonus, fewest reasons and greatest id, until the limit or the candidates are used up |
| `GreedySelection.MaxByKey` | src/white_hat_agent/planner.py:286-293 | The maximum by that three-part key |
| `GreedySelection.EveryChoiceIsBest` | src/white_hat_agent/planner.py:285-296 | Every choice beats all that is left, given the families chosen before it: by score with bonus, then fewer reasons, then the later id |
| `GreedySelection.SelectionIgnoresOrder` | src/white_hat_agent/planner.py:279-297 | Any two greedy selections from the same set of candidates are equal, so no permutation of the input changes the answer |
| `GreedySelection.GreedyChooses` | src/white_hat_agent/planner.py:285-297 | The selection has min(limit, n) members, all different candidates |
| `GreedySelection.Exchange` | src/white_hat_agent/planner.py:286-296 | Any non-empty choice can be changed to contain the greedy pick without losing value |
| `GreedySelection.GreedyIsOptimal` | src/white_hat_agent/planner.py:279-297 | With a non-negative bonus no other choice of min(limit, n) candidates has a larger score sum plus bonus per distinct family |
| `IsoTimestamps.FieldsLessIsEarlier` | src/white_hat_agent/campaign/fleet.py:965-966 | Comparing year to microsecond field by field is comparing instants, leap years included |
| `IsoTimestamps.FractionOrder` | src/white_hat_agent/campaign/fleet.py:965-966 | A missing fraction sorts before every present one, and six-digit fractions sort by value |
| `IsoTimestamps.TextComparesFields` | src/white_hat_agent/campaign/fleet.py:965-966 | Comparing two stored timestamps as text compares their fields |
| `IsoTimestamps.TextOrderIsTimeOrder` | src/white_hat_agent/campaign/fleet.py:499-507 | For all UTC instants text order is time order and equal text is the same instant, although the fraction has none or six digits (beyond the equal-precision rule of section 5.1 of RFC 3339) |
| `FleetInvariant.NothingIsExhausted` | src/white_hat_agent/campaign/fleet.py:484-490 | In every state that satisfies the invariant the second statement of a claim's sweep changes no row: queued rows always have attempts left |
| `FleetInvariant.SweepKeepsInv` | src/white_hat_agent/campaign/fleet.py:778-806 | The expiry sweep keeps the fleet invariant, and terminal rows stay as they are |
| `FleetInvariant.ReleaseKeepsAgents` | src/white_hat_agent/campaign/fleet.py:869-884 | Releasing the owners of revoked leases keeps the rule that a busy agent holds a lease |
| `FleetInvariant.CreateCampaignKeepsInv` | src/white_hat_agent/campaign/fleet.py:206-237 | Creating a campaign keeps the invariant |
| `FleetInvariant.SetCampaignStateKeepsInv` | src/white_hat_agent/campaign/fleet.py:239-297 | Every accepted or refused campaign transition keeps the invariant: completed and cancelled campaigns hold no queued or leased task, and only running campaigns hold leases |
| `FleetInvariant.RegisterAgentKeepsInv` | src/white_hat_agent/campaign/fleet.py:353-367 | Registering an agent, also one that holds leases, keeps the invariant |
| `FleetInvariant.EnqueueTaskKeepsInv` | src/white_hat_agent/campaign/fleet.py:402-474 | An enqueue, also with a stale reading of the campaign, keeps the invariant with task and cost budgets |
| `FleetInvariant.ClaimTaskKeepsInv` | src/white_hat_agent/campaign/fleet.py:476-559 | A claim with its sweep keeps the invariant: leased if and only if owner, token hash and expiry are set, at least one attempt used, never more than allowed |
| `FleetInvariant.HeartbeatKeepsInv` | src/white_hat_agent/campaign/fleet.py:561-585 | A heartbeat keeps the invariant |
| `FleetInvariant.CompleteTaskKeepsInv` | src/white_hat_agent/campaign/fleet.py:587-631 | A completion keeps the invariant: completed and blocked rows have exactly one result, failed rows at most one, all others none, and the findings stay within budget |
| `FleetInvariant.StepKeepsInvariant` | src/white_hat_agent/campaign/fleet.py:206-631 | Every step of every kind keeps the invariant |
| `FleetInvariant.RunKeepsInvariant` | src/white_hat_agent/campaign/fleet.py:206-631 | The invariant holds after every interleaving of steps by any agents and operators |
| `FleetRuns.StepMovesRow` | src/white_hat_agent/campaign/fleet.py:476-631 | What one step may do to one row: attempts rise by one exactly on a grant and fall by one exactly on a pause, a terminal row is never touched, an expiry under the same lease never moves back |
| `FleetRuns.StepExtends` | src/white_hat_agent/campaign/fleet.py:206-631 | A step loses no row, result, agent or campaign, keeps manifests and start times, and never reopens a closed campaign |
| `FleetRuns.RunExtends` | src/white_hat_agent/campaign/fleet.py:206-631 | Nothing stored by a prefix of a run is lost or rewritten by the rest of it |
| `FleetRuns.AttemptsAreConserved` | src/white_hat_agent/campaign/fleet.py:778-843 | In every reachable state a row's attempts equal its claims minus its pause revocations, so it is claimed at most its maximum plus its revocations; expiry gives no attempt back |
| `FleetRuns.LeaseProvenance` | src/white_hat_agent/campaign/fleet.py:527-559 | Whoever holds a lease at any point of a run holds it without a break since a claim of its own that minted the token, the last claim that was granted the task |
| `FleetRuns.UseNeedsLease` | src/white_hat_agent/campaign/fleet.py:921-953 | A heartbeat, completion or lease check succeeds only for the owner with the token of an unexpired lease in a running campaign |
| `FleetRuns.UseHasProvenance` | src/white_hat_agent/campaign/fleet.py:561-631 | Every successful use of a lease goes back to the last claim that was granted the task, which minted the token, held ever since by the same agent |
| `FleetRuns.TokenHoldsItsRow` | src/white_hat_agent/campaign/fleet.py:527-559 | With fresh tokens, a token holds only the row its claim was granted, unbroken since that claim |
| `FleetRuns.DeadTokenStaysDead` | src/white_hat_agent/campaign/fleet.py:921-953 | With fresh tokens, a token that has lost its row never holds any row again |
| `FleetRuns.LeaseEndsOnlySo` | src/white_hat_agent/campaign/fleet.py:778-867 | A lease ends only by expiry in a sweep, by a pause or cancellation of its campaign, or by its own completion; otherwise it goes on and its expiry never moves backwards |
| `FleetScheduling.PickIsFirst` | src/white_hat_agent/campaign/fleet.py:499-522 | The chosen row comes before every other claimable row by priority, creation time and task id, and some row is chosen if any is claimable |
| `FleetScheduling.ClaimTakesFirst` | src/white_hat_agent/campaign/fleet.py:476-559 | A claim answers with no work exactly at the concurrency limit or when nothing is claimable; otherwise it leases the first claimable row and changes no other |
| `FleetScheduling.LeasesWithinPeak` | src/white_hat_agent/campaign/fleet.py:492-498 | No agent ever holds more leases than the largest concurrency it registered during the run, even if it lowers it later |
| `FleetScheduling.EnqueueJoinsOpenCampaign` | src/white_hat_agent/campaign/fleet.py:414-474 | An enqueue either changes nothing or appends one row to a campaign open at that moment, whatever happened since the campaign was read; the row has the intent's id, key, capabilities, class, priority and cost and the manifest's campaign and attempt limit, is queued with no attempt and no lease, and leaves the campaign within budget |
| `FleetScheduling.ReenqueueAddsNothing` | src/white_hat_agent/campaign/fleet.py:430-435 | Once an intent has been accepted, enqueueing the same identity at any later point of any run adds nothing and is not accepted |
| `FleetBudgets.TasksAddUp` | src/white_hat_agent/campaign/fleet.py:436-443 | In every reachable state a campaign's task count and cost sum are the number and the estimated cost of the intents the run accepted for it |
| `FleetBudgets.FindingsAddUp` | src/white_hat_agent/campaign/fleet.py:601-611 | In every reachable state the findings stored for a campaign are those of the reports the run accepted about its tasks |
| `FleetBudgets.RunStaysWithinBudget` | src/white_hat_agent/campaign/fleet.py:436-613 | Over every run the intents accepted for a campaign, their estimated cost and the findings reported about them never exceed its manifest's budget |
| `FleetBudgets.AcceptedExactlyIf` | src/white_hat_agent/campaign/fleet.py:402-474 | After any run an intent joins if and only if its campaign was and is open, unchanged and in time, its key and id are new, and what was accepted so far leaves room for its cost; it is a duplicate, or refused, exactly in the remaining cases |
| `FleetBudgets.RefusedBecause` | src/white_hat_agent/campaign/fleet.py:381-447 | A refused intent is refused for the first of these conditions that fails |
| `FleetBudgets.ReportedExactlyIf` | src/white_hat_agent/campaign/fleet.py:587-613 | After any run a report is accepted if and only if the agent holds an unexpired lease on the task and the findings reported so far leave room for its own |
| `FleetOperations.MoveIsAnswered` | src/white_hat_agent/campaign/fleet.py:36-297 | A campaign moves exactly along the allowed transitions, given target by target, and completes only without queued or leased tasks; any other request changes nothing |
| `FleetOperations.MoveTakesEffect` | src/white_hat_agent/campaign/fleet.py:239-297 | A move sets the state, and the start of the first run only once; a pause gives leases and their attempts back, a cancellation ends unfinished rows, and exactly the agents that lose their last lease go online; nothing else changes |
| `FleetOperations.ClaimIsAnswered` | src/white_hat_agent/campaign/fleet.py:476-536 | A claim is refused exactly for its duration or an unknown agent, and finds no work exactly if the agent holds as many unexpired leases as it registered for or no row is available |
| `FleetOperations.ClaimTakesEffect` | src/white_hat_agent/campaign/fleet.py:476-559 | A claim leases the first available row in claim order, column by column, to the claimant; every other row is at most swept, the claimant is busy, and of the others exactly those that lost their last lease go online |
| `FleetOperations.NoWorkTakesEffect` | src/white_hat_agent/campaign/fleet.py:482-522 | A claim without work has ended the leases that ran out and released their agents, and done nothing else |
| `FleetOperations.SweepOfAnyRow` | src/white_hat_agent/campaign/fleet.py:482-491 | On any tables, even ones no run reaches, the sweep ends a lease that ran out and fails what has no attempt left, and leaves every other row alone |
| `FleetOperations.HeartbeatTakesEffect` | src/white_hat_agent/campaign/fleet.py:561-585 | A heartbeat succeeds exactly for the holder of an unexpired lease; the new expiry is at least as late as asked for and as before, and one of the two |
| `FleetOperations.CompletionTakesEffect` | src/white_hat_agent/campaign/fleet.py:587-631 | A report ends the row in the state its outcome stands for, clears the lease, appends a result with the agent, outcome and findings reported, and releases the agent if that was its last lease |
| `FleetOperations.CampaignRemembers` | src/white_hat_agent/campaign/fleet.py:206-297 | In every reachable state a campaign was created, reviewed, from its manifest, is in the state it was last set to, and counts its time from the first step that set it running |
| `FleetOperations.AgentRemembers` | src/white_hat_agent/campaign/fleet.py:353-367 | An agent is known exactly if it registered during the run, with what it registered last |
| `FleetStore.FleetStore.constructor` | src/white_hat_agent/campaign/fleet.py:71-129 | A new store is empty and satisfies the invariant |
| `FleetStore.FleetStore.CreateCampaign` | src/white_hat_agent/campaign/fleet.py:206-237 | Draft and review checks, the same-digest no-op, the conflict error and the insert, on the stored tables |
| `FleetStore.FleetStore.SetCampaignState` | src/white_hat_agent/campaign/fleet.py:239-297 | The transition table, the repeat sweep, the active-work check, the pause and cancel rewrites and the first start time, on the stored tables |
| `FleetStore.FleetStore.RegisterAgent` | src/white_hat_agent/campaign/fleet.py:353-367 | Insert or overwrite of the registration, which sets the agent online |
| `FleetStore.FleetStore.EnqueueTask` | src/white_hat_agent/campaign/fleet.py:402-474 | All checks of the transaction in their order, then one inserted row |
| `FleetUpdates.ExpirySweeps` | src/white_hat_agent/campaign/fleet.py:778-806 | An expiry sweep ends exactly the leases that have run out; the attempt stays used, so the row fails exactly if it was the last; an agent that loses a lease goes online exactly if it has none left, and nothing else changes |
| `FleetUpdates.PauseRevokes` | src/white_hat_agent/campaign/fleet.py:821-843 | A pause ends exactly the leases on the campaign; their rows are claimable again with the attempt back, other rows are untouched, each agent loses as many leases as it held there, and the owners reported are the agents that lost one |
| `FleetUpdates.CancellationEnds` | src/white_hat_agent/campaign/fleet.py:845-867 | A cancellation leaves every row of the campaign terminal and no attempt given back, touches neither finished rows nor other campaigns, and reports the agents that lost a lease |
| `FleetStore.FleetStore.ReleaseIdleAgents` | src/white_hat_agent/campaign/fleet.py:869-884 | Exactly the listed agents without a lease go online |
| `FleetStore.FleetStore.SelectRows` | src/white_hat_agent/campaign/fleet.py:499-507 | The claim query: exactly the selectable rows, in claim order |
| `FleetStore.FleetStore.SelectTask` | src/white_hat_agent/campaign/fleet.py:508-522 | The scan over the query's rows finds the first claimable row of the whole table |
| `FleetStore.FirstSuitableIsPicked` | src/white_hat_agent/campaign/fleet.py:499-522 | The first suitable row of the ordered query is the first claimable row of the table |
| `FleetStore.FleetStore.ClaimTask` | src/white_hat_agent/campaign/fleet.py:476-559 | Sweep, registration look-up with rollback, concurrency check, scan and lease, on the stored tables |
| `FleetUpdates.LeaseCheckAnswers` | src/white_hat_agent/campaign/fleet.py:921-953 | The lease check answers with the task exactly if the agent holds it, under the token and unexpired, in a running campaign; otherwise the error names the first thing missing, in that order |
| `FleetStore.FleetStore.Heartbeat` | src/white_hat_agent/campaign/fleet.py:561-585 | The later of the two expiries is stored, or the error leaves the tables unchanged |
| `FleetStore.FleetStore.CompleteTask` | src/white_hat_agent/campaign/fleet.py:587-631 | Lease check, finding budget, terminal state, result row and release, or an error that leaves the tables unchanged |
| `EpisodeModel.Validate` | src/white_hat_agent/models.py:499-558 | A manifest is accepted if and only if its times, identities and references are in order and its dependencies acyclic |
| `EpisodeLaws.ValidMeans` | src/white_hat_agent/models.py:500-558 | A manifest is valid if and only if everything in it is well formed and has its own id, everything named is there, it was not updated before its creation, and no chain of dependencies leads back to where it began |
| `EpisodeUpdates.CheckEdges` | src/white_hat_agent/episode.py:58-64 | The error of the first new edge that names an unknown endpoint, evidence or hypothesis, none exactly if there is no such edge |
| `EpisodeUpdates.CheckObservation` | src/white_hat_agent/episode.py:17-76 | The explicit checks of an observation in their order, with the first that fails |
| `EpisodeUpdates.ObservedReferences` | src/white_hat_agent/episode.py:55-129 | After an observation that passes the explicit checks every reference of the new manifest resolves |
| `EpisodeUpdates.ObservationChecksSuffice` | src/white_hat_agent/episode.py:14-129 | Once the explicit checks pass, the final validation rejects an observation exactly for a cycle among the added hypotheses, an observation time before the episode's creation, or an attempt-id clash |
| `EpisodeUpdates.ObservationIsAccounted` | src/white_hat_agent/episode.py:78-129 | All three budgets stay within their maxima, the graph revision rises by one exactly if nodes or edges came, and everything else only grows |
| `EpisodeUpdates.CyclesAreAmongAdded` | src/white_hat_agent/models.py:533-549 | Hypotheses added to a valid episode close a dependency cycle exactly if they do so among themselves |
| `EpisodeUpdates.UpdateCopy` | src/white_hat_agent/episode.py:78-128 | The field-by-field update of the copy yields the observed episode |
| `EpisodeUpdates.Observe` | src/white_hat_agent/episode.py:14-129 | An observation is applied as a whole or refused with the error that applies; what either means is stated field by field in `EpisodeLaws` |
| `EpisodeLaws.ObservationTakesEffect` | src/white_hat_agent/episode.py:78-141 | An applied observation leaves its hypothesis supported exactly if it succeeded conclusively, refuted exactly if it was conclusively negative, blocked or inconclusive exactly as reported, testing otherwise; evidence, nodes, edges, adjacent hypotheses and an attempt with the reported fields are appended, the budget is charged, and nothing else changes |
| `EpisodeLaws.ObservationIsChecked` | src/white_hat_agent/episode.py:17-76 | An observation is refused for the first thing wrong with it: applied before, a stale revision, a cost more than 1e-9 off, a spent budget, an id already taken, or the references of its edges, nodes and hypotheses |
| `EpisodeLaws.StrangerIsRefused` | src/white_hat_agent/episode.py:17-21 | An observation about no hypothesis of the episode is refused as such, unless it was applied before |
| `EpisodeLaws.FirstBadEdge` | src/white_hat_agent/episode.py:58-64 | Edges are refused for the first one with an unknown endpoint, evidence or hypothesis, in that order |
| `EpisodeLaws.FirstBadNode` | src/white_hat_agent/episode.py:65-67 | Nodes are refused for the first one with unknown evidence |
| `EpisodeLaws.FirstBadHypothesis` | src/white_hat_agent/episode.py:68-76 | Added hypotheses are refused for the first one with an unknown anchor, target, dependency or evidence, in the order in which each update looks |
| `EpisodeUpdates.ExpansionChecksSuffice` | src/white_hat_agent/expansion.py:87-132 | Once the explicit checks pass, an expansion is rejected exactly for a cycle among its own hypotheses |
| `EpisodeUpdates.Expand` | src/white_hat_agent/expansion.py:87-132 | An expansion is applied as a whole or refused with the error that applies |
| `EpisodeLaws.ExpansionTakesEffect` | src/white_hat_agent/expansion.py:115-132 | An applied batch appends its hypotheses and a record with its generator, trigger, digest, rationale and time, and moves the update time; nothing else changes |
| `EpisodeLaws.BatchIsChecked` | src/white_hat_agent/expansion.py:87-114 | A batch is refused for the first thing wrong with it: another episode, a stale digest, a time before the last update, a batch or hypothesis seen before, or its references |
| `Planner.IneligibilityReasons` | src/white_hat_agent/planner.py:166-221 | The reasons collected are exactly those that apply, and there is none if and only if the hypothesis is eligible |
| `PlannerLaws.EligibleMeans` | src/white_hat_agent/planner.py:166-221 | A hypothesis may be probed if and only if its status, blockers, alignment, mode, capabilities and mutation level permit it, one more attempt is affordable, its dependencies are supported, its anchors certain, an attempt is left, and no attempt on its current revision and probe ended other than failed |
| `Planner.EffectiveWeightsAreValid` | src/white_hat_agent/planner.py:60-79 | Raised weights stay in range with a positive reward and penalty total, and the diversity bonus is never touched |
| `PlannerLaws.WeightsAdapt` | src/white_hat_agent/planner.py:60-79 | Which weights are lifted, by which factor and at most to 10: some exactly without progress, others exactly after a productive attempt, the rest never |
| `Planner.RewardAndPenaltyAreUnit` | src/white_hat_agent/planner.py:247-250 | Weighted reward and penalty are unit scores, so no ranked hypothesis is refused by its own type and no division is by zero |
| `PlannerLaws.ScoreMeans` | src/white_hat_agent/planner.py:231-277 | The score is a hundred times the average reward less the scaled average penalty, not below nothing, plus the bonuses due for the family and less the penalty for every earlier attempt |
| `PlannerLaws.BetterScoresHigher` | src/white_hat_agent/planner.py:231-251 | At least as much of every reward and at most as much of every penalty never lowers the score; more of a reward or less of a penalty that has any weight raises it, if the measures are worth anything |
| `PlannerLaws.EveryRetryCosts` | src/white_hat_agent/planner.py:260-263 | Each further attempt lowers the bonuses by the retry penalty |
| `Planner.Classify` | src/white_hat_agent/planner.py:103-117 | Every eligible hypothesis is ranked, every other is blocked for exactly the reasons that apply to it |
| `Planner.MakePlan` | src/white_hat_agent/planner.py:81-141 | An exhausted budget plans nothing; otherwise the plan holds the greedy choice among exactly the eligible hypotheses and the mode that follows |
| `PlannerLaws.ModeMeans` | src/white_hat_agent/planner.py:52-141 | The mode of a plan follows the episode: budget spent, nothing eligible with all decided or not, no progress in the last attempts, a productive last attempt |
| `Planner.SelectionIsEligible` | src/white_hat_agent/planner.py:103-120 | What a plan selects is found in the episode and is eligible |
| `Planner.EmptyPlan` | src/white_hat_agent/planner.py:84-139 | A plan selects nothing exactly when the budget is exhausted or no hypothesis is eligible |
| `Simulation.CountRetries` | src/white_hat_agent/evaluation.py:60-67 | The evaluator's loop with its set of seen keys counts the attempts that repeat a probe which already had a terminal observation |
| `SimulationLaws.RetriesAreCounted` | src/white_hat_agent/evaluation.py:60-67 | The count is the number of attempts with an earlier one on the same hypothesis, revision and probe that did not fail |
| `Simulation.ObservationRetries` | src/white_hat_agent/evaluation.py:60-67 | An applied observation adds a retry violation if and only if the hypothesis it names already has a terminal observation for its current revision and probe |
| `Simulation.ObservationKeepsSound` | src/white_hat_agent/simulator.py:107-122 | An observation about the eligible hypothesis chosen adds no retry violation, passes no attempt limit, and keeps every dependency of everything attempted supported |
| `Simulation.ExpansionKeepsSound` | src/white_hat_agent/simulator.py:79-94 | An expansion keeps the same promises and adds no attempt |
| `SimulationLoop.TryExpansion` | src/white_hat_agent/simulator.py:78-94 | Asking for an expansion: nobody to ask, the limit, nothing on offer, a refused or an applied batch |
| `SimulationLoop.TryProbe` | src/white_hat_agent/simulator.py:107-133 | Probing the selected hypothesis: exhausted replay, an exception, or an applied observation with its step record |
| `SimulationLoop.Iterate` | src/white_hat_agent/simulator.py:76-133 | One iteration makes a plan of its own episode and does exactly what that plan, the generator and the adapter call for |
| `SimulationLoop.EventIsAccounted` | src/white_hat_agent/simulator.py:91-133 | An expansion adds one record and no attempt, a probe adds one attempt and its step names it, and no iteration itself reports the cycle limit |
| `SimulationLoop.Loop` | src/white_hat_agent/simulator.py:68-143 | Every episode of the run is linked to the next by a plan, attempts only grow, and steps and expansion records match what was applied one to one |
| `SimulationLoop.RunSimulation` | src/white_hat_agent/simulator.py:49-143 | The loop ends after at most one plan per cycle and expansion; it ends for the reason its last plan leads to, or exactly when all cycles are used up |
| `SimulationLaws.TriggerMeans` | src/white_hat_agent/simulator.py:154-161 | The generator is asked exactly when the episode stalled, when progress did while something is eligible, or when all is decided and the run is to go on |
| `SimulationLaws.RunHaltsBecause` | src/white_hat_agent/simulator.py:146-151 | A run halts for its budget exactly if its last episode's is spent; as complete or stalled only if nothing is eligible and all hypotheses are decided or not; otherwise because the adapter ran out for an eligible hypothesis, or an expansion was due beyond the limit |
| `SimulationLaws.SupportIsEarned` | src/white_hat_agent/episode.py:132-141 | A hypothesis supported at the end of a run was so at the start, was added so, or has an attempt of the run that succeeded |
| `SimulationLoop.RecordedRunIsKept` | src/white_hat_agent/simulator.py:75-133 | If the adapter answers for the selected hypothesis, every episode of the run has no more retry violations than the first, no hypothesis beyond its attempt limit, and supported dependencies of everything attempted |
| `SimulationLoop.RunRetries` | src/white_hat_agent/evaluation.py:60-67 | Over every run, whatever its adapter answers, the retry count grows by the number of steps that applied an observation naming a hypothesis whose current probe was already terminal; it stays the same if and only if there is none |
| `Replay.ReplayAdapter.constructor` | src/white_hat_agent/adapters.py:78-87 | Each queue holds what the transcript files under its key, in order |
| `Replay.ReplayAdapter.Execute` | src/white_hat_agent/adapters.py:89-108 | The queues answer what the transcript files under the probe's key, each observation once and in order, about the hypothesis and revision asked for; nothing else of the adapter moves |
| `Replay.FiledAnswers` | src/white_hat_agent/adapters.py:46-52 | Everything filed under a key is about that hypothesis and revision |
| `Replay.TranscriptAnswers` | src/white_hat_agent/adapters.py:89-108 | The adapter driven by a transcript observes nothing but the hypothesis it was asked to probe, the assumption of the loop's safety |
| `Replay.ReplayedRunIsSound` | src/white_hat_agent/simulator.py:49-143 | Every episode of a run driven by a transcript adds no retry violation, passes no attempt limit and keeps the dependencies of everything attempted supported |
| `ReplayRuns.ReplayProbe` | src/white_hat_agent/simulator.py:107-133 | One probe with the adapter object: it answers what the transcript's adapter answers in the loop, and stays in step with the attempts of the episode when its observation is applied |
| `ReplayRuns.ReplaySimulation` | src/white_hat_agent/simulator.py:49-143 | The whole loop driven by the object, which uses its queues up as it goes, makes a run of the setup whose adapter is the transcript's, so every episode keeps the promises; unless the run ends with an exception, the object has then replayed exactly what the attempts used |
| `Replay.ReplayGenerator.Expand` | src/white_hat_agent/expansion.py:58-81 | The next batch is handed out only if it fits the episode, trigger and limit, and both it and the plan carry the episode's digest; it is kept otherwise |
| `Replay.WrongAnswerRun` | src/white_hat_agent/simulator.py:68-143 | A run of the loop, one cycle long, in which an adapter answers for another hypothesis and the retry count goes from 0 to 1, whatever the planner's configuration |
| `YaraScanner.LexIsTheLexing` | src/white_hat_agent/adapter_execution.py:93-165 | Every text has exactly one cutting into comments, escaped texts, regular expressions with classes, words and symbols, and the lexer finds it |
| `YaraScanner.NextIsValid` | src/white_hat_agent/adapter_execution.py:98-164 | The next lexeme obeys the grammar, also for comments and literals that never end |
| `YaraScanner.ValidIsNext` | src/white_hat_agent/adapter_execution.py:98-164 | Whatever the grammar allows at the front of a text is what the lexer takes |
| `YaraScanner.SkipText` | src/white_hat_agent/adapter_execution.py:111-120 | The index loop over a quoted text leaves exactly what follows its first unescaped quote, even when a final backslash takes the index past the end |
| `YaraScanner.SkipRegex` | src/white_hat_agent/adapter_execution.py:123-137 | The index loop over a regular expression leaves exactly what follows its first unescaped slash outside a class |
| `YaraScanner.Step` | src/white_hat_agent/adapter_execution.py:97-164 | One pass of the loop body finds an include at depth 0 or moves on behind exactly one lexeme with the right flags |
| `YaraScanner.ContainsInclude` | src/white_hat_agent/adapter_execution.py:93-165 | The scanner answers yes if and only if the unique cutting holds a word folding to include at brace depth 0 |
| `YaraScanner.WordsMean` | src/white_hat_agent/adapter_execution.py:140-149 | A word is the longest run of letters, digits and underscores that begins with a letter or an underscore |
| `YaraScanner.RegexEndMeans` | src/white_hat_agent/adapter_execution.py:123-139 | Without escapes, a regular expression ends at the first slash outside a character class |
| `YaraScanner.TextEndMeans` | src/white_hat_agent/adapter_execution.py:111-122 | Without escapes, a quoted text ends at its first quote |
| `YaraScanner.EscapesArePassed` | src/white_hat_agent/adapter_execution.py:111-139 | An escaped character ends neither a text nor a regular expression |
| `YaraScanner.FlagsMean` | src/white_hat_agent/adapter_execution.py:93-165 | What each lexeme does to the scanner's flags: braces move the depth, a slash opens a regular expression after `matches`, `=~` or a lone equals sign |
| `YaraScanner.AnswerIsGrammatical` | src/white_hat_agent/adapter_execution.py:93-165 | The scanner agrees with every cutting the grammar allows |
| `YaraScanner.OnlyWordsAndBracesCount` | src/white_hat_agent/adapter_execution.py:140-155 | The answer is whether some word folds to include where every brace before it is closed; surplus closing braces are ignored |
| `YaraScanner.EditingLiteralsIsInvisible` | src/white_hat_agent/adapter_execution.py:103-139 | Replacing a closed comment, text or regular expression by another closed one of its kind never changes the answer |
| `RecordAllocator.VisitKeepsFair` | src/white_hat_agent/adapter_execution.py:4908-4916 | Each loop pass keeps both budgets, the bytes used being the cost of exactly the records returned, keeps every section an order-preserving selection, and leaves a record out only when it does not fit, now or later |
| `RecordAllocator.ByteBudget` | src/white_hat_agent/adapter_execution.py:4890-4892 | The reserve is a quarter of the output limit, but at least 4096 and at most 262144 bytes |
| `RecordAllocator.QuotasFit` | src/white_hat_agent/adapter_execution.py:4890-4895 | All collections can take their quota at once |
| `RecordAllocator.QuotaLeavesRoom` | src/white_hat_agent/adapter_execution.py:4918-4919 | Within its quota a collection always finds a record left, whatever the others took |
| `RecordAllocator.TotalIsMinimum` | src/white_hat_agent/adapter_execution.py:4918-4934 | When bytes do not bind, exactly min(max_records, available) records are returned |
| `RecordAllocator.GenerosityIsFair` | src/white_hat_agent/adapter_execution.py:4895-4919 | A collection's quota is at least every share that all collections could have at once, so no collection starves another |
| `RecordAllocator.NothingMoreFits` | src/white_hat_agent/adapter_execution.py:4912-4916 | A record left out could not be added to the returned ones at the end either: there are max_records of them already, or their cost and its own exceed the byte budget |
| `RecordAllocator.Allocation.RetainNext` | src/white_hat_agent/adapter_execution.py:4908-4916 | The loop body visits the next record and changes nothing but its section and the two budgets |
| `RecordAllocator.Allocation.Retain` | src/white_hat_agent/adapter_execution.py:4897-4916 | A range of one collection is visited once each, in order; it raises only at a malformed record of that range |
| `RecordAllocator.Allocation.FirstPass` | src/white_hat_agent/adapter_execution.py:4918-4919 | The first pass visits the first quota of every collection |
| `RecordAllocator.Allocation.SecondPass` | src/white_hat_agent/adapter_execution.py:4920-4921 | The second pass visits the rest, so that every raw record is visited exactly once |
| `RecordAllocator.Allocation.Report` | src/white_hat_agent/adapter_execution.py:4923-4937 | A section is truncated if and only if a record was dropped or shortened, and the totals agree |
| `RecordAllocator.Allocation.Allocate` | src/white_hat_agent/adapter_execution.py:4882-4937 | A document exists if and only if every record is well-formed; it holds at most max_records records costing at most the byte budget, and when bytes do not bind each section is a prefix, and returns k records, or all it has, for every k that all collections could have within max_records |
| `FindingHistory.AddFindingKeepsInv` | src/white_hat_agent/evidence/store.py:250-321 | Adding a finding keeps each history a linked chain, removes nothing, changes nothing on an error, and never meets a taken primary key |
| `FindingHistory.RegisterEvidenceKeepsInv` | src/white_hat_agent/evidence/store.py:363-388 | Registering evidence keeps the invariant and changes no stored record |
| `FindingHistory.ReAddingIsNoOp` | src/white_hat_agent/evidence/store.py:264-267 | Adding a record that differs from the current one at most in its update time changes nothing |
| `FindingHistory.AddIsAnswered` | src/white_hat_agent/evidence/store.py:257-321 | With evidence that belongs, a record joins both tables if and only if it is a first revision of a new finding, or continues the current one by number, digest and identity field by field; the current record again is accepted and changes nothing |
| `FindingHistory.FirstForeign` | src/white_hat_agent/evidence/store.py:251-256 | Evidence is refused for the first piece that is unknown, of another campaign, or of another task |
| `FindingHistory.RunKeepsInv` | src/white_hat_agent/evidence/store.py:250-388 | After any run each finding has exactly revisions 1 to n, each links to the digest before it, and the current record is revision n |
| `FindingHistory.RunExtends` | src/white_hat_agent/evidence/store.py:307-320 | The history is append-only: what a prefix of a run stored, the whole run still has |
| `FindingHistory.HistoryWasAdded` | src/white_hat_agent/evidence/store.py:307-320 | Every revision in the history was added, exactly as it stands there, by an accepted step of the run |
| `FindingHistory.AcceptedIsInHistory` | src/white_hat_agent/evidence/store.py:307-320 | What was accepted is in the history under its number for the rest of the run |
| `FindingHistory.IdentityIsFixed` | src/white_hat_agent/evidence/store.py:467-470 | The identity fields are the same in all revisions |
| `FindingHistory.SameDigestSameHistory` | src/white_hat_agent/evidence/models.py:140-141 | Two stores whose current digests of a finding agree hold the same content in every revision of it |
| `FindingHistory.EvidenceErrors` | src/white_hat_agent/evidence/store.py:251-256 | The error of the first piece of evidence that is unknown or belongs elsewhere, none exactly if all fit |
| `FindingHistory.EvidenceStore.RegisterRecord` | src/white_hat_agent/evidence/store.py:363-388 | Insert, no-op on the same digest, or refusal, on the stored table |
| `FindingHistory.EvidenceStore.Add` | src/white_hat_agent/evidence/store.py:250-321 | Evidence checks, no-op, revision checks, update and history insert, on the stored tables; the primary key is never taken |
| `FindingHistory.EvidenceStore.History` | src/white_hat_agent/evidence/store.py:343-355 | The first revisions in order up to the limit, or the error for a bad limit or an unknown finding |
| `JsonText.CharIsRead` | src/white_hat_agent/builtin_adapter_fixtures/WhaNativeCodeMap.java:345-362 | The escape of one character, whatever follows it, is read back as that one character |
| `JsonText.EscapedIsClean` | src/white_hat_agent/builtin_adapter_fixtures/WhaNativeCodeMap.java:342-365 | An escaped text holds no raw control character, and before every quote in it stands an odd run of backslashes |
| `JsonText.EscapedIsRead` | src/white_hat_agent/builtin_adapter_fixtures/WhaNativeCodeMap.java:342-365 | Unescaping as in section 7 of RFC 8259 recovers every text and stops at its closing quote |
| `JsonText.IntIsRead` | src/white_hat_agent/builtin_adapter_fixtures/WhaNativeCodeMap.java:129-130 | A written integer is read back whole, whatever may follow it in a document |
| `JsonText.ValueIsRead` | src/white_hat_agent/builtin_adapter_fixtures/WhaNativeCodeMap.java:278-302 | Every value is read back from its text, whatever may follow it |
| `JsonText.RoundTrip` | src/white_hat_agent/builtin_adapter_fixtures/WhaNativeCodeMap.java:278-302 | Parsing the text of a document gives the document |
| `JsonText.SpaceAround` | src/white_hat_agent/adapter_execution.py:4132 | Insignificant white space around a document makes no difference to the reader |
| `JsonText.JoinAppend` | src/white_hat_agent/builtin_adapter_fixtures/WhaNativeCodeMap.java:379-391 | Appending a record with a comma where needed extends the comma-separated list by that record |
| `CodeMapDocument.DocumentIsRead` | src/white_hat_agent/adapter_execution.py:2631-2760 | Every code-map document passes the normaliser's shape checks, exact key sets and types everywhere, and is read back unchanged |
| `CodeMapNormaliser.CheckFunctions` | src/white_hat_agent/adapter_execution.py:2766-2795 | The loop accepts exactly lists of well-formed functions with distinct non-empty entries, and counts failures, truncations and characters |
| `CodeMapNormaliser.CheckStrings` | src/white_hat_agent/adapter_execution.py:2807-2820 | The loop accepts exactly lists of well-formed strings with distinct non-empty addresses |
| `CodeMapNormaliser.Normalise` | src/white_hat_agent/adapter_execution.py:2729-2828 | A document is accepted if and only if counters, limits, identities and references all hold; the result has its record total and overall truncation |
| `CodeMapNormaliser.AcceptedMeans` | src/white_hat_agent/adapter_execution.py:2729-2828 | Acceptable means: at most max_records records; functions within their limits, named apart and counted, failures and truncations as numbers of records; strings within theirs; every edge and reference tied to a listed function or string |
| `CodeMapNormaliser.NormaliseText` | src/white_hat_agent/adapter_execution.py:2620-2828 | A file is accepted if and only if it is within the byte limit, parses, has the shape, and its document is acceptable |
| `NativeCodeMap.RecordLimits` | src/white_hat_agent/builtin_adapter_fixtures/WhaNativeCodeMap.java:45-50 | The four record limits sum to the record limit; functions get half, at least one, calls half of the rest, strings two thirds of what then remains |
| `NativeCodeMap.CharacterLimits` | src/white_hat_agent/builtin_adapter_fixtures/WhaNativeCodeMap.java:52-62 | The four character limits sum to the items' share; functions get three quarters, calls and strings a tenth each |
| `NativeCodeMap.CodeLimit` | src/white_hat_agent/builtin_adapter_fixtures/WhaNativeCodeMap.java:71-77 | The code limit is an even share of the functions' characters, but at least 256 and at most 64000 |
| `NativeCodeMap.BoundedText` | src/white_hat_agent/builtin_adapter_fixtures/WhaNativeCodeMap.java:321-326 | A prefix within the limit, the whole text if and only if it fits |
| `NativeCodeMap.PreparedArgumentsAreAccepted` | src/white_hat_agent/adapter_execution.py:2588-2605 | The script accepts every argument list the driver prepares, and the record limit does not exceed the operation's |
| `NativeCodeMap.AppendString` | src/white_hat_agent/builtin_adapter_fixtures/WhaNativeCodeMap.java:342-365 | The loop appends the quoted, escaped text |
| `NativeCodeMap.CategoryBuffer.constructor` | src/white_hat_agent/builtin_adapter_fixtures/WhaNativeCodeMap.java:374-377 | An empty buffer with its limits |
| `NativeCodeMap.CategoryBuffer.Append` | src/white_hat_agent/builtin_adapter_fixtures/WhaNativeCodeMap.java:379-391 | A record is added if and only if it fits both limits; the text is always the comma-joined list of exactly the returned records |
| `NativeCodeMap.WriteRecord` | src/white_hat_agent/builtin_adapter_fixtures/WhaNativeCodeMap.java:120-139 | A record is written as the JSON object of its fields |
| `NativeCodeMap.MapReferences` | src/white_hat_agent/builtin_adapter_fixtures/WhaNativeCodeMap.java:159-189 | Call references become edges in order, up to the first that does not fit |
| `NativeCodeMap.MapInstructions` | src/white_hat_agent/builtin_adapter_fixtures/WhaNativeCodeMap.java:156-194 | Instructions are walked until the buffer is full; one edge too long ends only its own instruction |
| `NativeCodeMap.MapFunctions` | src/white_hat_agent/builtin_adapter_fixtures/WhaNativeCodeMap.java:86-199 | Functions are stored up to the first that does not fit, with their edges, counters and flags |
| `NativeCodeMap.MapXrefs` | src/white_hat_agent/builtin_adapter_fixtures/WhaNativeCodeMap.java:235-269 | References to a string are stored up to the first that does not fit |
| `NativeCodeMap.MapStrings` | src/white_hat_agent/builtin_adapter_fixtures/WhaNativeCodeMap.java:208-270 | Strings with a value are stored up to the first that does not fit, with their references and flags |
| `NativeCodeMap.HarvestedFunctions` | src/white_hat_agent/builtin_adapter_fixtures/WhaNativeCodeMap.java:86-199 | The functions stored are a prefix, a proper one exactly if the loop was left; every edge starts at a stored function, and unmarked edges are complete |
| `NativeCodeMap.HarvestedStrings` | src/white_hat_agent/builtin_adapter_fixtures/WhaNativeCodeMap.java:208-270 | The strings stored are those of a prefix; every reference ends at a stored string, and unmarked references are complete |
| `NativeCodeMap.Assemble` | src/white_hat_agent/builtin_adapter_fixtures/WhaNativeCodeMap.java:278-302 | The text written is that of the collected document |
| `NativeCodeMap.Run` | src/white_hat_agent/builtin_adapter_fixtures/WhaNativeCodeMap.java:30-309 | With arguments in range, the script writes exactly the text of the document determined by program and limits, if it is not too long, and nothing otherwise; what the document shows is stated by `CodeMapRecords.DocumentShows` |
| `NativeCodeMap.ScriptDocumentIsAccepted` | src/white_hat_agent/builtin_adapter_fixtures/WhaNativeCodeMap.java:45-302 | For every program the document passes all checks of the normaliser, functions are marked truncated exactly if the program has more, and every unmarked section is complete, with records as spelled out in `CodeMapRecords` |
| `CodeMapRecords.RecordShows` | src/white_hat_agent/builtin_adapter_fixtures/WhaNativeCodeMap.java:96-139 | A function record has the function's own fields, the status and message of its decompilation, and a prefix of its code, flagged as truncated if and only if the code is longer than the limit |
| `CodeMapRecords.StringShows` | src/white_hat_agent/builtin_adapter_fixtures/WhaNativeCodeMap.java:216-228 | A string record has the string's own fields and a prefix of its value, flagged if and only if the value has more than 4096 characters |
| `CodeMapRecords.CallSites` | src/white_hat_agent/builtin_adapter_fixtures/WhaNativeCodeMap.java:156-189 | The edges of some functions are one for each of their call references, in order, each with the fields of its function, reference and target |
| `CodeMapRecords.XrefSites` | src/white_hat_agent/builtin_adapter_fixtures/WhaNativeCodeMap.java:235-263 | The references of some strings are one for each, in order, each with the fields of its reference and source |
| `CodeMapRecords.CountersCount` | src/white_hat_agent/builtin_adapter_fixtures/WhaNativeCodeMap.java:143-150 | The analysis counts the listed functions the decompiler failed on, those whose code was cut, and the characters of code kept |
| `CodeMapRecords.HarvestedAreDrawn` | src/white_hat_agent/builtin_adapter_fixtures/WhaNativeCodeMap.java:86-199 | The functions listed are a prefix with no room for the next; the edges listed keep the order of the calls, and one is missing only if the section was full or had no room for a call |
| `CodeMapRecords.StringsAreDrawn` | src/white_hat_agent/builtin_adapter_fixtures/WhaNativeCodeMap.java:208-270 | The strings listed are those of a prefix with no room for the next, and their references keep their order |
| `CodeMapRecords.DocumentShows` | src/white_hat_agent/builtin_adapter_fixtures/WhaNativeCodeMap.java:86-302 | For every program and limits: which functions, calls, strings and references the document lists, in which order, what every field of every record is, what the counters count, and why a list ends |
| `CodeMapBytes.DocumentBytes` | src/white_hat_agent/builtin_adapter_fixtures/WhaNativeCodeMap.java:278-309 | Whatever the program, the text takes at least 430 bytes beside its metadata, and spares two bytes for each of 430 ASCII characters and whatever the metadata spares; a bare document has exactly its frame and its metadata |
| `CodeMapPipeline.WrittenIsReadable` | src/white_hat_agent/adapter_execution.py:2590 | What is written can be read if the limit is at least 2212 bytes less two for every ASCII character of the program's metadata |
| `CodeMapPipeline.FrameIsTooLarge` | src/white_hat_agent/adapter_execution.py:4127-4132 | Under a limit below 430 bytes and the program's metadata nothing can be read, whatever the program holds |
| `CodeMapPipeline.WideTextIsTooLarge` | src/white_hat_agent/adapter_execution.py:2590 | For every origin (format, language, compiler specification and image base) of together k plain characters, at most 594: under every limit below 2212 - 2k a program of that origin whose text is written, with 1024 characters, and refused, with 2212 - 2k bytes |
| `CodeMapPipeline.ReadableExactlyFromOrigin` | src/white_hat_agent/adapter_execution.py:4127-4132 | For every such origin: whatever the script writes for its programs, under any record limit, is within the reader's byte limit, if and only if that limit is at least 2212 - 2k |
| `CodeMapPipeline.ReadableExactlyFromThreshold` | src/white_hat_agent/adapter_execution.py:4127-4132 | Over programs of every origin, the empty one included, the same holds if and only if the limit is at least 2212 |
| `CodeMapPipeline.ScriptOutputIsAccepted` | src/white_hat_agent/adapter_execution.py:2630-2828 | For every program and limits the text is parsed, read back and passes all content checks of the normaliser |
| `CodeMapPipeline.MapAndNormalise` | src/white_hat_agent/adapter_execution.py:2579-2828 | From the driver's limits to the normalised result: a text is written exactly if it fits its character limit, and accepted exactly if it is written and fits the reader's byte limit; from 2212 bytes less two for every ASCII character of the metadata on it always does, below the frame and the metadata never |

## Left out

- SQLite, its write-ahead log, schema migration and JSON storage: a transaction is one atomic step on sequences and maps.
- SHA-256, `secrets` and `json.dumps`: digests are injective; token freshness is assumed only where a lemma says `FreshTokens`.
- The unlocked read-then-insert of `create_campaign` and `_register`: each is one atomic step here, so the primary-key conflict of two concurrent inserts is not modelled.
- Scope evaluation, playbook binding and contract checks of an enqueue: one input flag, with the campaign as read before the transaction.
- Case folding of a reported outcome: `CompleteTask` takes the outcome in lower case.
- Lease and extension bounds of 10 to 86400 seconds are modelled; agent metadata, learning candidates, opportunities and statistics are not.
- Databases edited from outside or by earlier versions: runs start from an empty store.
- The order in which sets are iterated (depth-first search, released agents): left open where the result does not depend on it.
- Probing of adapters: health, installation, identity and available capabilities are inputs of the resolver, and capability masks are sets rather than machine words.
- Reason texts, plan identities and the sorting of the blocked and candidate lists in a plan; the choice itself does not depend on the latter.
- Rounding of scores to six digits and all other floating-point error.
- Files that change while a content tree is walked, and directories the walk cannot read, which `os.walk` skips.
- File names are byte strings; the names' order by code point is their order as UTF-8 bytes, which is not proved here.
- Minimum lengths and other single-field constraints of typed records, except where a proof needs them.
- An adapter or generator in the simulation loop is a function of the episode and the number of the call. `ReplayAdapter` drives the same loop as an object in `ReplayRuns`; `ReplayGenerator` is modelled as an object beside the loop, which assumes nothing of its generator.
- CodeMapPipeline.WideTextIsTooLarge: the program's name is free. The driver imports a file named `artifact`, so the programs that fail between the frame and the threshold are fewer in practice than in the model.
- CodeMapNormaliser.NormaliseText: texts are sequences of characters of the basic multilingual plane, so surrogate pairs and invalid UTF-8 are not modelled; numbers with fraction or exponent and `null`, which the script never writes and the shape checks refuse, are rejected by the parser already, even where a later duplicate of their key would hide them.
- The decompiler, cancellation and Ghidra's program model: its guarantees (distinct non-empty entries and addresses, references that lead to their string, a count that covers the listed functions) are the predicate `ProgramOk`.
- What the GoReSym normalisers do inside a record: a record is opaque, its normaliser a function that may refuse.
- The other normalisers, sandbox supervision, downloads, archive handling, command line, server and release scripts: they would add field checks and input or output.
- Evaluation scores other than the retry count, causal verification, opportunities and corpus composition: single formulas or case tables.
