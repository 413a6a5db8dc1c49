# Verification of the Agora coordinator

This project models the decision-making core of the Agora coordinator and proves what it
guarantees. The modelled code is single-threaded Python in which each `await` that matters is a
query to storage or the arrival of a finished future. Those answers are data here: every theorem
holds for all answers, all schedules and all inputs unless its statement says otherwise.

- **The parallel executor** (`Executor`, `ExecutorInvariants`, `ExecutorSettling`,
  `ExecutorProgress`, `ExecutorContainment`, `ExecutorRivals`, `ExecutorSlots`, `ExecutorSteps`,
  `Coordinator`)
  drains a priority queue, picks agents by free slots, takes write locks all-or-nothing, waits for
  futures and then completes or fails tasks. It is specified as functions on a state value; the
  class `ParallelExecutionCoordinator` is proved to compute exactly those functions, and
  `ExecuteGraph` returns, as a ghost value, the run it performed, so all theorems about runs hold of the object.
- **The lock table** (`LockTable`, `ResourceTracker`) with holders and waiters.
- **Graph building and validation** (`TaskGraphs`, `Digraphs`, `GraphValidation`, `GraphGeneration`).
- **Reference cycles and deadlock risk** (`ReferenceCycles`, `DeadlockDetection`): the bounded
  backtracking search and the pairwise counts kept next to it.
- **Rate limiting** (`TokenBuckets`, `LimiterRuns`, `TokenLimiter`, `SlidingWindow`): the coordinator's token
  bucket, the client's own bucket, and the sixty-second window.
- **Instant-runoff voting** (`InstantRunoff`).
- **Batch conflict detection** (`ConflictDetection`), what it means for running tasks
  (`ReadersAndWriters`, `TangledTasks`), and **sequential assignment** (`RoundRobin`, `TaskAssignment`).

Each class mirrors a Python class or function with mutable state: its methods are proved equal to
specification functions, and lemmas then say what those functions mean, down to the constants
(sixty seconds, five tasks, two slots, a sixtieth of the limit), which they write out as numbers.

## What turned out not to hold as documented

The code is modelled as it is. Where a promise fails in general, the exact condition under which
it holds is proved:

1. A task refused a lock is dropped from the queue and requeued only by a later completion, so a
   failure can strand a task that depends on nothing that failed. Failures stay contained exactly
   when no two tasks unordered by dependencies list a common path (`ContainmentIffNoRivals`), and
   this is so even if only runs in which storage reports true counts are considered.
   Generated graphs list no paths, so they always meet the condition.
2. A failed `acquire_resources` restores the holders exactly when the task did not already hold
   one of the paths before the refused one (`FailedAcquireKeepsHoldersIff`; `RollbackLosesALock`
   is an instance). The executor never does.
3. `find_cycles` reports exactly the simple cycles iff nobody refers to itself or the bound is
   below two (`SimpleCyclesIff`).
4. A model answer with dependency index -1 makes a task depend on itself; this is the only thing
   validation ever rejects (`ValidIffNoMinusOne`). An index further out raises an error that the
   fallback does not catch.
5. The announced wait for tokens is right exactly when the request fits the bucket
   (`WaitIsExactIffItFits`), and the announced remainder of an action is right exactly when the
   action has a limit (`RemainderExactIffLimited`). The sixty-second limit holds for half-open
   windows; a closed one can hold twice as much, never more (`ClosedWindowCanHoldTwice`,
   `ClosedWindowBound`).
6. The tracker promises that reads share and that a read and a write conflict, but its locks are
   taken on the path as listed. What the detector reports about two tasks agrees with whether
   they compete for a lock exactly when both write some path, or when they share a read path if
   and only if one writes what the other reads (`ReportsMatchLocksIff`). For running tasks:
   clashing tasks never run together if every unordered reader and writer of a path also share a
   listed path (`SharedLocksKeepClashesApart`). This is also necessary (`ClashesStayApartIff`,
   `MixedPairMeets`) unless such a pair is tangled, one of the two being a rival of something the
   other depends on; a tangle can keep the pair apart by itself (`TangledTasksStayApart`).
7. Instant runoff is described as eliminating the lowest-ranked options. Options that are nobody's
   first choice are not in the round's counter, so it does so exactly when the first round decides
   at once or every listed option is somebody's first choice (`EliminatesFewestIff`,
   `CountEliminatesFewestIff`); otherwise an option that was nobody's first choice can even win
   (`NobodysFirstChoiceCanWin`).
8. Sequential assignment proceeds in dependency order, but a task that found no agent counts as
   done for those that depend on it. Dependencies are honoured whatever agents there are exactly
   when no processed task depends on one that was not done beforehand (`DependenciesHonouredIff`);
   with room for all, nobody is turned away (`RoomForAllAssignsAll`).

## Model

| member | source | states |
|---|---|---|
| ExecutorRivals.ContainmentIffNoRivals | agora/coordinator/task_parallel_events.py:27-51 | On an acyclic graph with known dependencies: every run that does not end for want of an agent completes precisely the tasks that neither raise nor depend on one that does, for every set of raising tasks and every schedule, iff no two dependency-unordered tasks list a common path; and likewise when only runs are considered in which every query is answered and storage reports each agent's limit and counts at least its tasks in flight |
| ExecutorRivals.RivalStranded | agora/coordinator/task_parallel_dispatch.py:42-47 | The failing half: a task refused because its rival holds the path is never requeued when the rival fails, so a legal, served run with true storage counts ends without it |
| ExecutorRivals.DrainOthers | agora/coordinator/task_parallel.py:44-55 | For any two tasks there is a legal, served schedule with true storage counts that completes everything else first and leaves at most these two running |
| ExecutorRivals.RecordedServes | agora/coordinator/task_parallel_dispatch.py:50-51 | Answering every query with the number of tasks the coordinator has recorded as assigned is honest throughout the drain, and an agent with room for the whole graph empties the queue |
| ExecutorContainment.Containment | agora/coordinator/task_parallel_events.py:34-51 | If no raising task has a rival and the run does not end for want of an agent, the completed set is exactly the tasks with no raising task among themselves and their ancestors, and the tasks that really raise are the raising ones whose dependencies are all sound; drains that stopped at busy agents on the way do not matter |
| ExecutorContainment.NoLostWakeup | agora/coordinator/task_parallel_events.py:27-31 | If nothing raises and queries asked while nothing is in flight find an agent, every task completes exactly once, however often tasks were refused a lock and dropped from the queue or agents were at their limit |
| ExecutorContainment.IdleServiceSuffices | agora/coordinator/task_parallel_dispatch.py:22-33 | A run whose queries are answered whenever nothing is in flight does not end for want of an agent: its last drain empties the queue |
| ExecutorContainment.FreeAgentsServe | agora/coordinator/task_parallel_dispatch.py:22-33 | If every query offers an agent below its limit, a drain empties the queue |
| ExecutorContainment.CompletedIsSound | agora/coordinator/task_parallel_events.py:54-55 | Once nothing ready is left, completed equals the tasks no failure stands behind |
| ExecutorProgress.RunsAreSafe | agora/coordinator/task_parallel.py:44-55 | At every loop head of every run and after every drain from there: no task starts twice or before its dependencies have finished, completed and failed are disjoint, no two running tasks share an artifact path, and nothing below a failed task has ever started |
| ExecutorProgress.RunsAreShort | agora/coordinator/task_parallel.py:44-55 | The main loop turns at most twice per task: rounds plus twice the unlaunched plus the running tasks never exceed twice the number of tasks |
| ExecutorProgress.PlayProgress | agora/coordinator/task_parallel.py:44-55 | Every turn of the loop lowers the measure, whatever the queries answer and whichever futures finish |
| ExecutorProgress.FinalFacts | agora/coordinator/task_parallel.py:49-56 | On exit the invariant holds, nothing runs, no lock is left, and every task is completed, failed or listed as blocked |
| ExecutorProgress.MarkBlockedMeaning | agora/coordinator/task_parallel.py:78-81 | Marking adds exactly the unsettled tasks to the blocked list and changes nothing else |
| ExecutorProgress.RunsKeepWakeups | agora/coordinator/task_parallel_events.py:27-31 | While raising tasks have no rivals, every ready pending task is queued or a rival of it is running that will complete and requeue it |
| ExecutorProgress.RefusedByRival | agora/coordinator/task_parallel_dispatch.py:43-47 | A ready task is refused its locks only by a running task that shares a path and is unordered with it |
| ExecutorProgress.AncestorsCompleted | agora/coordinator/task_parallel_events.py:54-55 | Everything a ready or launched task depends on, however indirectly, has completed |
| ExecutorProgress.DescendantsOfFailedNeverStart | agora/coordinator/task_parallel_events.py:46-51 | Although the cascade is one level deep, no transitive dependent of a failed task is ever dispatched |
| ExecutorProgress.DispatchProgress | agora/coordinator/task_parallel_dispatch.py:22-33 | A drain settles nothing, stops nothing, and pays for every launch in the measure |
| ExecutorSettling.RunsKeepInv | agora/coordinator/task_parallel.py:36-56 | After any legal rounds: running, completed and failed partition; a node has left PENDING iff its future was created; the failed set is exactly the raised tasks and their direct dependents; a path is locked by a task iff it is running and lists the path; each settled task is listed once |
| ExecutorSettling.SettleInv | agora/coordinator/task_parallel.py:58-73 | Completing or failing one future keeps that invariant and removes exactly it from the running set |
| ExecutorSettling.FailShape | agora/coordinator/task_parallel_events.py:40-51 | The whole effect of one failure: itself and its direct dependents become failed, each listed once, slot and locks are given back, the queue is untouched |
| ExecutorSettling.CascadeMeaning | agora/coordinator/task_parallel_events.py:46-51 | The cascade adds exactly the direct dependents that had not failed before |
| ExecutorSettling.RequeueMeaning | agora/coordinator/task_parallel_events.py:27-31 | A completion queues every unsettled pending task whose dependencies are met, and nothing else |
| ExecutorInvariants.DispatchInv | agora/coordinator/task_parallel_dispatch.py:15-33 | A drain keeps the invariant whatever the agent queries answer |
| ExecutorInvariants.InitialInv | agora/coordinator/task_parallel.py:38-43 | The invariant holds once the dependency-free tasks are queued |
| ExecutorInvariants.StartedInv | agora/coordinator/task_parallel_dispatch.py:48-53 | Starting a ready task keeps the invariant, including dependency order of the history |
| ExecutorInvariants.RefusedInv | agora/coordinator/task_parallel_dispatch.py:43-47 | Being refused keeps the invariant: the refused task holds nothing afterwards |
| ExecutorSlots.RunsKeepSlotBound | agora/coordinator/task_parallel_helpers.py:28-37 | If storage counts at least the running tasks, then at every loop head and after every drain each agent's recorded free slots plus running tasks stay within its limit, hence so do its running tasks |
| ExecutorSlots.StartKeepsAccount | agora/coordinator/task_parallel_dispatch.py:51-53 | Starting a task turns one free slot of its agent into one running task and touches no other agent |
| ExecutorSlots.SettleKeepsAccount | agora/coordinator/task_parallel_events.py:23-25 | Completion and failure give the slot back, so free plus running is unchanged for every agent |
| ExecutorSlots.PickKeepsBound | agora/coordinator/task_parallel_helpers.py:28-37 | Refreshing from honest counts keeps the bound, and only an agent with a free slot is picked |
| Executor.LeastExists | agora/coordinator/task_parallel_dispatch.py:23 | A non-empty queue has an entry that comes first by priority, then by id |
| Executor.LeastUnique | agora/coordinator/task_parallel_dispatch.py:23 | That entry is unique, so popping is deterministic |
| Coordinator.ParallelExecutionCoordinator.ExecuteGraph | agora/coordinator/task_parallel.py:36-56 | Terminates; the object ends in the final state of the run it returns, with the invariant, no locks, nothing running, at most two rounds per task no task forgotten, and result lists that tell exactly what the futures returned or raised; in an environment that has a free agent whenever nothing is in flight, however busy the agents are otherwise, all tasks complete if no future raises, and exactly the sound tasks complete if the raising ones have no rivals |
| Coordinator.EnvironmentOutcome | agora/coordinator/task_parallel.py:44-56 | What the environment promises of the queries asked while nothing is in flight, and of its outcomes, decides which tasks a run played with it completes |
| Coordinator.ParallelExecutionCoordinator.ProcessFuture | agora/coordinator/task_parallel.py:58-73 | The new state of the object is exactly the settled state of the specification |
| Coordinator.ParallelExecutionCoordinator.DispatchReady | agora/coordinator/task_parallel_dispatch.py:15-33 | The loop over the queue, asking the environment turn by turn with the tasks then in flight, computes exactly the specified drain |
| Coordinator.ParallelExecutionCoordinator.DispatchOne | agora/coordinator/task_parallel_dispatch.py:23-33 | One popped entry: skipped, put back with a stop, assigned, or dropped as blocked |
| Coordinator.ParallelExecutionCoordinator.AssignTask | agora/coordinator/task_parallel_dispatch.py:36-53 | Locks first; if they are granted, status, slot and future change and nothing is noted; if not, only the task is noted as blocked |
| Coordinator.ParallelExecutionCoordinator.Pick | agora/coordinator/task_parallel_helpers.py:28-37 | Computes the specified choice; for distinct agents the first candidate in the given order with a recorded free slot, or with a stored count below its limit (two if it names none), is picked, the candidates looked at without a recorded free slot get limit minus count recorded, and no other slot changes |
| ExecutorSteps.FirstFreeIsPicked | agora/coordinator/task_parallel_helpers.py:28-37 | Of distinct agents the first free one is picked and all earlier ones are not free; nobody is picked iff none is free; exactly the candidates looked at without a recorded free slot get their room recorded |
| ExecutorSteps.OfferOutcome | agora/coordinator/task_parallel_dispatch.py:26-33 | A popped task goes back and the drain stops iff no candidate is free or the first free one has an empty name; otherwise it is out of the queue, and running iff all its locks were granted, else noted as blocked |
| ExecutorSteps.RequeueExact | agora/coordinator/task_parallel_events.py:27-31 | Requeueing adds exactly one entry for each pending unsettled task all of whose dependencies are completed |
| ExecutorSteps.StartExact | agora/coordinator/task_parallel.py:38-43 | A run starts with one entry per task without dependencies, all nodes pending, empty lists and locks, and the slot records of before |
| ExecutorSteps.MarkBlockedExact | agora/coordinator/task_parallel.py:78-81 | Marking appends the unsettled tasks to the blocked list once each, in the order of the graph |
| ExecutorSteps.CascadeExact | agora/coordinator/task_parallel_events.py:46-51 | A failure appends its direct dependents that had not failed, in the order of the graph, each with this cause |
| ExecutorSteps.ListsTellOutcomes | agora/coordinator/task_parallel_events.py:20-51 | After any rounds the completed list is exactly the futures that returned, in the order they finished; the failures that are errors of their own are exactly the futures that raised with what they raised, in that order; every other failure names a dependency of the task whose own error is listed before it |
| ExecutorSteps.FinalListsTellOutcomes | agora/coordinator/task_parallel.py:44-56 | The same of the lists a whole run returns |
| Coordinator.ParallelExecutionCoordinator.AcquireResources | agora/coordinator/task_parallel_helpers.py:40-53 | The acquire loop with its rollback loop leaves exactly the specified lock table |
| Coordinator.ParallelExecutionCoordinator.OnTaskComplete | agora/coordinator/task_parallel_events.py:14-31 | Computes the specified completion, requeueing included |
| Coordinator.ParallelExecutionCoordinator.OnTaskFailed | agora/coordinator/task_parallel_events.py:34-51 | Computes the specified failure, cascade included |
| Coordinator.ParallelExecutionCoordinator.MarkRest | agora/coordinator/task_parallel.py:78-81 | Lists exactly the unsettled tasks, in graph order, after what was listed before |
| Coordinator.ParallelExecutionCoordinator.LoadGraph | agora/coordinator/task_parallel.py:38-43 | Sets up the initial state: all nodes pending, roots queued, slot records kept from before |
| LockTable.AcquireAllMeaning | agora/coordinator/task_parallel_helpers.py:40-53 | For a task holding nothing: success iff every path is free; failure leaves the table as it was except for one more waiter on the first taken path |
| LockTable.FailedAcquireKeepsHoldersIff | agora/coordinator/task_parallel_helpers.py:47-52 | A failed acquisition leaves every path with its holder iff no path listed before the refused one was already in the table |
| LockTable.TablesStayOrderly | agora/coordinator/task_resource.py:30-63 | From the empty table on, every operation keeps holders out of their own queues and queues free of repetition, which is what the previous row presupposes |
| LockTable.RollbackLosesALock | agora/coordinator/task_parallel_helpers.py:47-52 | Witness for the failing half: a task that holds the first of two paths loses it when the second is refused |
| LockTable.RollbackDeletes | agora/coordinator/task_resource.py:51-63 | Rolling back grants nobody waits on deletes exactly those entries; the hand-over branch is never taken |
| LockTable.SequentialOutcome | agora/coordinator/task_resource.py:30-43 | Path-by-path acquiring stops at the first path somebody else holds, with exactly the earlier paths granted |
| LockTable.ReleaseUndoesAcquire | agora/coordinator/task_resource_compat.py:28-35 | Acquiring everything and releasing everything gives the old table back |
| LockTable.FirstComeFirstServed | agora/coordinator/task_resource.py:30-63 | Tasks that ask for a free path one after the other hold it in that order as each gives it up, with the later ones waiting behind in order; when the last gives it up the table is as before |
| LockTable.AskingAgain | agora/coordinator/task_resource.py:34-43 | Asking again while holding or waiting changes nothing |
| ResourceTracker.FileResourceTracker.Acquire | agora/coordinator/task_resource.py:23-43 | One write lock: granted iff nobody else holds the path, otherwise one more waiter |
| ResourceTracker.FileResourceTracker.Release | agora/coordinator/task_resource.py:45-63 | Hands the lock to the first waiter or deletes it, and returns the task unblocked |
| ResourceTracker.FileResourceTracker.AcquireSync | agora/coordinator/task_resource_compat.py:11-26 | The list form succeeds exactly when path-by-path acquisition does, with the same table, and changes nothing on failure |
| ResourceTracker.FileResourceTracker.ReleaseEverything | agora/coordinator/task_resource_compat.py:28-35 | Drops exactly the locks of one task and returns exactly those who waited behind them |
| GraphValidation.Validate | agora/coordinator/task_gen/validation.py:11-43 | Accepts iff there is no self-dependency, no unknown dependency and no cycle; reports a cycle iff that is the only thing wrong; otherwise names the first node with a fault, its self-dependency before its first unknown dependency |
| GraphValidation.FindCycle | agora/coordinator/task_gen/validation.py:25-43 | The search terminates and finds a cycle iff there is one; if not, the nodes have a topological order |
| GraphValidation.CycleSearch.HasCycle | agora/coordinator/task_gen/validation.py:27-38 | One recursive call: true only if a cycle exists; false restores the recursion stack and leaves everything visited topologically sorted |
| GraphValidation.CheckNodes | agora/coordinator/task_gen/validation.py:13-23 | Returns the first fault: the first offending node, and on it the self-dependency or else the first unknown dependency; none iff there is none |
| GraphValidation.FirstFaultIff | agora/coordinator/task_gen/validation.py:15-23 | No fault is found iff every node is free of self- and unknown dependencies |
| GraphValidation.FirstFaultNamed | agora/coordinator/task_gen/validation.py:15-23 | All nodes before the one named are free of faults, and so are the dependencies before the one named |
| Digraphs.AcyclicIffTopo | agora/coordinator/task_gen/validation.py:27-43 | A closed graph is acyclic iff it has a topological order |
| GraphGeneration.GenerateTaskGraph | agora/coordinator/task_gen/__init__.py:20-49 | Every graph returned is valid; the proposal is used iff no dependency index is -1, with the edges as listed, and otherwise the chain in which each task depends on the one before; an index error escapes exactly when some index is out of range |
| GraphGeneration.LlmGenerate | agora/coordinator/task_gen/generator.py:46-65 | Builds one node per item or raises iff some negative index is out of range; when all indices of item i are below i its dependencies are, index by index, the tasks they name: index k the task at position k, index -k the k-th task back counting the item itself; an index of i or above adds nothing, and nothing else is added |
| GraphGeneration.ResolveMeaning | agora/coordinator/task_gen/generator.py:53 | The resolved dependencies are exactly the ids that the kept indices point to, negative ones counted from the end (the positions themselves are pinned by the next row) |
| GraphGeneration.ResolveInOrder | agora/coordinator/task_gen/generator.py:53 | The dependencies are the indices below i in their order, each replaced by the id at that position, or at i + 1 + j for a negative index j |
| GraphGeneration.ResolvesIffInRange | agora/coordinator/task_gen/generator.py:53 | Resolution raises iff an index lies before the start of the list |
| GraphGeneration.ValidIffNoMinusOne | agora/coordinator/task_gen/generator.py:46-65 | A built graph passes validation iff no item lists index -1 |
| GraphGeneration.PointsBackValid | agora/coordinator/task_gen/generator.py:52-53 | Any list whose tasks depend only on earlier ids is valid |
| GraphGeneration.HeuristicGenerate | agora/coordinator/task_gen/heuristic.py:30-50 | One task per item, each depending on exactly the one before |
| GraphGeneration.ChainEdges | agora/coordinator/task_gen/heuristic.py:31-48 | In the chain each task depends on the one before it and on nothing else, the first on nothing |
| GraphGeneration.ChainValid | agora/coordinator/task_gen/heuristic.py:30-50 | The chain is always valid, so the fallback never needs validation |
| GraphGeneration.NewTasksArePlain | agora/coordinator/task_gen/generator.py:55-63 | Generated nodes have distinct non-empty ids and no artifact paths |
| GraphGeneration.GeneratedGraphsContainFailures | agora/coordinator/task_gen/__init__.py:43-49 | On a generated graph failures always stay contained, whatever raises and in whatever order |
| ReferenceCycles.EnumerationExact | agora/coordinator/deadlock_prevention.py:18-32 | A node list is reported exactly as often as there are ways to follow it over parallel references, hence at all iff it is a closed loop-free walk of length 2 to d |
| ReferenceCycles.SimpleCyclesIff | agora/coordinator/deadlock_prevention.py:26-32 | The reports are exactly the simple cycles of length 2 to d iff nobody refers to itself or d is below 2 |
| ReferenceCycles.RotationsReported | agora/coordinator/deadlock_prevention.py:18-22 | Every simple cycle within the bound is reported from each of its nodes |
| ReferenceCycles.ExploreCounts | agora/coordinator/deadlock_prevention.py:23-32 | One search call reports a list once per way of completing it from the current path, and nothing else |
| ReferenceCycles.ReferenceGraph.FindCycles | agora/coordinator/deadlock_prevention.py:18-22 | The loop over start nodes returns exactly the specified enumeration |
| ReferenceCycles.ReportsByStart | agora/coordinator/deadlock_prevention.py:18-22 | Reports come start by start, in the order in which agents first referred to somebody |
| ReferenceCycles.PathSearch.Dfs | agora/coordinator/deadlock_prevention.py:23-32 | The in-place search appends exactly the specified reports and restores `visited` |
| ReferenceCycles.ReferenceGraph.AddEdge | agora/coordinator/deadlock_prevention.py:16-17 | Appends one reference, keeping parallel ones |
| DeadlockDetection.MutualReferencesReported | agora/coordinator/deadlock_prevention.py:42-50 | Two agents' mutual cycle is reported once per pair of opposite references: the product of their two counters |
| DeadlockDetection.TrackedOnce | agora/coordinator/deadlock_prevention.py:42-44 | Tracking a reference keeps every counter equal to the number of parallel edges |
| DeadlockDetection.RiskComplete | agora/coordinator/deadlock_prevention.py:51-63 | With a positive window, every pair at or above it must appear in the report, one way round |
| Prelude.LexMeaning | agora/coordinator/deadlock_prevention.py:57 | The order on ids compares at the first difference, a prefix coming first |
| DeadlockDetection.AtRiskMeaning | agora/coordinator/deadlock_prevention.py:46-63 | With a positive window a pair is listed, smaller id first, iff the graph holds at least one window of references between the two, as a deadlock from two windows on and as a warning below |
| DeadlockDetection.DeadlockDetector.TrackReference | agora/coordinator/deadlock_prevention.py:42-44 | Graph and counters change together and stay in agreement |
| DeadlockDetection.DeadlockDetector.CheckCircular | agora/coordinator/deadlock_prevention.py:46-50 | Deadlock iff the graph holds at least two windows of references between the two agents in either direction, clear iff below both thresholds; the same whichever agent is named first |
| DeadlockDetection.TrackingOnlyRaises | agora/coordinator/deadlock_prevention.py:42-50 | One more reference never lowers a verdict and changes it for no other pair |
| DeadlockDetection.DeadlockDetector.GetDeadlockRisk | agora/coordinator/deadlock_prevention.py:51-63 | Reports each pair of known agents that is not clear, once, in id order, and nothing else |
| TokenBuckets.Envelope | agora/coordinator/rate_limiter.py:73-86 | In any run of spends, status reads and positive reconfigurations, the tokens granted inside a window are at most the largest capacity plus the largest rate times its length |
| TokenBuckets.EnvelopeInEveryWindow | agora/coordinator/token_rate_limiter.py:19-49 | The envelope holds for every window of every run of a bucket that starts full |
| TokenBuckets.GrantedFromLevel | agora/coordinator/rate_limiter.py:73-93 | From a given level on, grants are paid for by that level and the time passing |
| TokenBuckets.NewLimitGrants | agora/coordinator/token_rate_limiter.py:27-37 | A new limit grants up to tpm times the burst factor at once, and after a spend exactly what is left plus a sixtieth of tpm per second, up to the same amount |
| TokenBuckets.ChangedLimitGrants | agora/coordinator/token_rate_limiter.py:27-33 | A changed limit keeps the tokens there, and credits the time since the last refill at the new rate |
| TokenBuckets.WaitIsExactIffItFits | agora/coordinator/rate_limiter.py:102-109 | The announced wait is the first moment the spend succeeds iff the request fits the capacity |
| TokenBuckets.WaitShape | agora/coordinator/rate_limiter.py:102-109 | The wait is zero iff the spend can be granted at once, without end iff it cannot and nothing is earned, and never negative |
| TokenBuckets.PassingCheckIsGranted | agora/agent_client/rate_limit.py:51-57 | With the same settings and reports, the client's level never exceeds the coordinator's, so a call the client lets pass is granted |
| TokenBuckets.PaidClientIsExact | agora/agent_client/rate_limit.py:51-86 | As long as every reported usage was one the coordinator could pay for, the client lets pass exactly the calls the coordinator grants |
| TokenBuckets.ReportMeaning | agora/agent_client/rate_limit.py:80-101 | A report takes exactly what was used from the refilled level, or all of it when more was used |
| TokenBuckets.RunStaysConservative | agora/agent_client/rate_limit.py:80-101 | Reports, checks and status reads in any order keep the client's level at or below the coordinator's |
| TokenBuckets.ConservativeUse | agora/agent_client/rate_limit.py:80-86 | One report keeps it so, although the client clamps at zero and the coordinator refuses without deducting |
| TokenLimiter.TokenBucket.Spend | agora/coordinator/rate_limiter.py:73-80 | Succeeds iff the refilled level covers the amount; only then deducts it |
| TokenLimiter.TokenBucket.TimeUntilAvailable | agora/coordinator/rate_limiter.py:102-109 | Zero, never, or the specified wait |
| TokenLimiter.TokenRateLimiter.Configure | agora/coordinator/token_rate_limiter.py:19-37 | The step the runs of `LimiterRuns` are made of: a non-positive limit removes the bucket, a live one keeps its level, a new one starts full; nobody else's bucket changes |
| LimiterRuns.LimiterEnvelope | agora/coordinator/token_rate_limiter.py:12-49 | However agents, spends, status reads and limits interleave: what is granted against an agent's limit within a window, since the limit was last removed, is at most the largest capacity plus the largest rate times the window's length |
| LimiterRuns.LifeLeadsToBucket | agora/coordinator/token_rate_limiter.py:12-49 | Other agents do not interfere: an agent's bucket is the one that its own limits, spends and reads since the last removal lead to |
| LimiterRuns.RemovalRefills | agora/coordinator/token_rate_limiter.py:23-37 | Setting the limit to zero and then to a positive value fills the bucket up at once, whatever happened before, which is why the envelope counts from the last removal |
| TokenLimiter.TokenRateLimiter.Spend | agora/coordinator/token_rate_limiter.py:44-49 | Without a bucket everything is allowed; with one, exactly that bucket decides and changes |
| TokenLimiter.TokenRateLimiter.TimeUntilAvailable | agora/coordinator/token_rate_limiter.py:70-75 | Asks exactly the agent's own bucket |
| TokenLimiter.RateLimitTracker.Check | agora/agent_client/rate_limit.py:51-57 | Passes iff unlimited or the refilled level covers the estimate |
| TokenLimiter.RateLimitTracker.Deduct | agora/agent_client/rate_limit.py:80-86 | Deducts what was used, down to zero at most |
| SlidingWindow.WindowBound | agora/coordinator/rate_limiter.py:24-35 | Over any run with a forward clock, at most the limit of accepted calls has stamps in (from, from + 60.0], for every from |
| SlidingWindow.AcceptedIffRoom | agora/coordinator/rate_limiter.py:24-35 | A call is accepted, and its stamp recorded, iff fewer than the limit of the calls accepted before are later than 60.0 seconds before it |
| SlidingWindow.StoredIsHistory | agora/coordinator/rate_limiter.py:29-34 | The pruned list equals the full accepted history cut to the window |
| SlidingWindow.DecidedOnHistory | agora/coordinator/rate_limiter.py:29-33 | Pruning never changes an answer: each call is decided as on the full history |
| SlidingWindow.ClosedWindowCanHoldTwice | agora/coordinator/rate_limiter.py:30 | The window is half-open: for every positive limit some run puts twice the limit into a closed window [at, at + 60.0] |
| SlidingWindow.ClosedWindowBound | agora/coordinator/rate_limiter.py:24-35 | No closed window [from, from + 60.0] ever holds more than twice the limit |
| SlidingWindow.LimiterWindowBound | agora/coordinator/rate_limiter.py:24-47 | In every run of the limiter, whatever agents, actions, looks and resets are interleaved: each agent has at most the limit of accepted calls per action in any window (from, from + 60.0] since its last reset |
| SlidingWindow.LimiterAcceptsIffRoom | agora/coordinator/rate_limiter.py:21-35 | In every run of the limiter a call of a limited action is accepted iff, since the agent's last reset, fewer than the limit of its accepted calls are later than 60.0 seconds before it |
| SlidingWindow.LimiterAnnouncesRoom | agora/coordinator/rate_limiter.py:37-43 | In every run what is announced is the limit less the accepted calls later than 60.0 seconds before, and never negative |
| SlidingWindow.PairsAreSeparate | agora/coordinator/rate_limiter.py:29-34 | Each agent and action sees only its own calls: the stored stamps and the accepted calls are those of its own run |
| SlidingWindow.RemainderExactIffLimited | agora/coordinator/rate_limiter.py:37-43 | The announced remainder is the number of further immediate accepts iff the action has a limit |
| SlidingWindow.RemainderExact | agora/coordinator/rate_limiter.py:37-43 | Of n immediate calls, exactly min(n, announced remainder) are accepted |
| SlidingWindow.RateLimiter.CheckRate | agora/coordinator/rate_limiter.py:24-35 | Passes iff the action has no limit or fewer than the limit of the stored stamps are later than 60.0 seconds before; stores the pruned stamps, plus the new one iff accepted |
| SlidingWindow.RateLimiter.GetRemaining | agora/coordinator/rate_limiter.py:37-43 | Announces the limit (zero for an action without one) less the stored stamps later than 60.0 seconds before, or zero if that is negative, and stores the pruned stamps |
| SlidingWindow.RateLimiter.Reset | agora/coordinator/rate_limiter.py:45-47 | Afterwards the agent has no stamps for any action and every other agent has the stamps it had |
| SlidingWindow.OnlyOneChanges | agora/coordinator/rate_limiter.py:30-31 | A call touches the stamps of its own agent and action only |
| InstantRunoff.OutcomePermuted | agora/coordinator/voting/ranked_choice.py:12-68 | Decision, winner, counts and tied options depend only on the multiset of ballots |
| InstantRunoff.MajorityWins | agora/coordinator/voting/ranked_choice.py:50-55 | An option listed first on more than half of the non-empty ballots is adopted |
| InstantRunoff.WinnerBeatsRemaining | agora/coordinator/voting/ranked_choice.py:50-55 | Any adopted option is ranked above each other option of the last round on more than half of the ballots counted there |
| InstantRunoff.AdoptedResults | agora/coordinator/voting/ranked_choice.py:50-55 | The results reported with a winner are the first choices of the last round, without options that have none, and the winner's are strictly the most |
| InstantRunoff.MajorityUnique | agora/coordinator/voting/ranked_choice.py:51-52 | At most one option can pass the majority test, so the order of the counter does not matter |
| InstantRunoff.Progress | agora/coordinator/voting/ranked_choice.py:37-66 | At most as many rounds as options; from each round to any later one options are lost and the number of counted ballots never grows; the loop never runs empty |
| InstantRunoff.ClosingReturnUnreachable | agora/coordinator/voting/ranked_choice.py:47-68 | Neither the return after the loop nor the one for a round without votes is ever reached from `count` |
| InstantRunoff.VerdictShape | agora/coordinator/voting/ranked_choice.py:12-32 | No ballots, only empty ballots, or some option listed: exactly then the count reports no ballots, reports no options, or ends with a winner or a tie |
| InstantRunoff.AlwaysVotesLeft | agora/coordinator/voting/ranked_choice.py:46-48 | While every remaining option stands on some ballot, every round has a ballot to count |
| InstantRunoff.CountedMeaning | agora/coordinator/voting/ranked_choice.py:39-46 | The ballots counted in a round are those that still list a remaining option |
| InstantRunoff.TieIsEven | agora/coordinator/voting/ranked_choice.py:61-63 | A tie leaves exactly the tied options, all with equally many first choices |
| InstantRunoff.EliminatesFewestIff | agora/coordinator/voting/ranked_choice.py:57-66 | Every elimination takes exactly the remaining options with the fewest first choices, zero included, iff the first round decides at once or every option has a first choice in it |
| InstantRunoff.CountEliminatesFewestIff | agora/coordinator/voting/ranked_choice.py:12-66 | For a whole count: iff the first round decides at once or every listed option is first on some ballot |
| InstantRunoff.SupportStays | agora/coordinator/voting/ranked_choice.py:39-44 | An option that stays in never loses first choices when others are eliminated |
| InstantRunoff.UnsupportedOptionSurvives | agora/coordinator/voting/ranked_choice.py:58-59 | An option without first choices is not eliminated as lowest |
| InstantRunoff.NobodysFirstChoiceCanWin | agora/coordinator/voting/ranked_choice.py:58-66 | Witness for the failing half: two ballots whose elimination does not take the fewest and whose winner was nobody's first choice |
| InstantRunoff.Count | agora/coordinator/voting/ranked_choice.py:12-32 | Collects options and rank tables in any order and returns exactly the specified outcome; it reports missing ballots iff there are none, and missing options iff all are empty |
| InstantRunoff.IrvIterate | agora/coordinator/voting/ranked_choice.py:34-68 | The elimination loop terminates with exactly the specified verdict |
| InstantRunoff.CountFirst | agora/coordinator/voting/ranked_choice.py:39-44 | The counting loop yields each remaining option's first choices, options without any absent |
| InstantRunoff.Total | agora/coordinator/voting/ranked_choice.py:46 | A round's counts sum to the ballots that still rank a remaining option |
| InstantRunoff.FindMajority | agora/coordinator/voting/ranked_choice.py:51-55 | Returns an option with more than half, none iff there is none |
| InstantRunoff.FewestFirst | agora/coordinator/voting/ranked_choice.py:58 | The least count in the round's counter |
| InstantRunoff.RankTable | agora/coordinator/voting/ranked_choice.py:28-30 | Repeated options collapse onto their first place, which changes no top choice |
| ConflictDetection.DetectConflicts | agora/coordinator/task_resource_detect.py:8-36 | The reports are, as a multiset, exactly one per pair of path uses with equal cleaned path that are not both reads; which path and kind that gives is `ReportedKinds` |
| ConflictDetection.ReportedKinds | agora/coordinator/task_resource_detect.py:17-35 | About an earlier and a later task, path p is reported "write-write" iff both list p unprefixed, and "read-write" iff one lists p and the other "r:" + p, with p itself unprefixed; the earlier task is always named first |
| ConflictDetection.GroupingKeepsPairs | agora/coordinator/task_resource_detect.py:16-24 | Grouping uses by path loses and adds no pair |
| ConflictDetection.ReportsPerPath | agora/coordinator/task_resource_detect.py:24-35 | A path with n uses, r of them reads, gets n(n-1)/2 - r(r-1)/2 reports |
| ConflictDetection.ReportedIffPathsClash | agora/coordinator/task_resource_detect.py:27-35 | An earlier and a later task are reported iff some two of their paths clash |
| ConflictDetection.ReportsMatchLocksIff | agora/coordinator/task_resource_detect.py:17-35 | A report about two tasks coincides with their competing for a lock iff both write some path, or they share a read path iff one of them writes what the other reads |
| ConflictDetection.PathsClashIff | agora/coordinator/task_resource_detect.py:19-31 | Two tasks clash iff both write a path or one writes what the other reads |
| ConflictDetection.ReportsAreLockConflicts | agora/coordinator/task_resource_detect.py:19-22 | The special case of two tasks without read paths: they are reported iff they list a common path |
| ConflictDetection.ReadPrefixesDisagreeWithLocks | agora/coordinator/task_resource_detect.py:19-20 | Witnesses for both ways of disagreeing: two readers of one path, and a reader next to a writer |
| ReadersAndWriters.SharedLocksKeepClashesApart | agora/coordinator/task_resource.py:16-17 | In every run, tasks the detector would report are never in flight together, provided every unordered reader and writer of a path also share a listed path |
| ReadersAndWriters.ClashesStayApartIff | agora/coordinator/task_resource.py:16-17 | On any acyclic graph with known dependencies whose unordered readers and writers are not tangled (where such a pair shares no listed path, neither is a rival of what the other depends on), that proviso is also necessary: clashing tasks stay apart in all runs iff every unordered reader and writer share a listed path |
| ReadersAndWriters.MixedPairMeets | agora/coordinator/task_resource.py:16-17 | On any acyclic graph with known dependencies, one reader and writer that neither order, locks nor tangles keep apart already run together in some run |
| ReadersAndWriters.UnorderedTasksMeet | agora/coordinator/task_parallel_dispatch.py:42-53 | Any two unordered tasks that share no listed path, and neither of which is a rival of what the other depends on, are in flight together in some legal, served run with true storage counts, whatever other rivals there are |
| ReadersAndWriters.ReaderAndWriterMeet | agora/coordinator/task_parallel_dispatch.py:42-53 | Instance: a task listing "x" and one listing "r:x" do run together |
| TangledTasks.NeverTogether | agora/coordinator/task_parallel_dispatch.py:22-47 | If `y` is ready from the start, queued ahead of `a` and contends with `a` alone, then no task that depends on `a` ever runs next to `y`, in any run |
| TangledTasks.RunsStayInTurn | agora/coordinator/task_parallel_dispatch.py:22-53 | In every run `y` stays queued until it is launched, and by the time `a` is launched `y` has been and is over |
| TangledTasks.TangledTasksStayApart | agora/coordinator/task_parallel_dispatch.py:42-47 | Instance: a tangled reader and writer that share no listed path, and yet clashing tasks stay apart in all runs, so the exclusion of tangles cannot be dropped |
| ConflictDetection.GroupByPath | agora/coordinator/task_resource_detect.py:16-23 | The path map holds, under each cleaned path, its uses in order |
| ConflictDetection.ComparePath | agora/coordinator/task_resource_detect.py:25-35 | The double loop adds one report per clashing pair of the group |
| RoundRobin.NoChoiceIffAllFull | agora/coordinator/task_assign.py:52-64 | Nobody is chosen iff every candidate is at capacity; whoever is chosen is a candidate with room |
| RoundRobin.SearchMeaning | agora/coordinator/task_assign.py:55-64 | The choice is the first agent with room counting turns from the index, which advances by the turns looked at |
| RoundRobin.FirstWithRoomInTurn | agora/coordinator/task_assign.py:52-64 | Going round the candidates from the remembered position, the first whose load is below its cap (five if it names none) is chosen and the position moves past it; if all are full nobody is, and it has gone once round |
| RoundRobin.TurnsCover | agora/coordinator/task_assign.py:55-57 | n consecutive turns fall on every position of the list |
| RoundRobin.ChoicesGoRound | agora/coordinator/task_assign.py:45-64 | With distinct candidates, a uniform cap and zero loads, m choices give each candidate exactly its share of m turns |
| RoundRobin.LoadsWithinOne | agora/coordinator/task_assign.py:45-64 | However many choices are made, the loads stay within one of each other |
| RoundRobin.FullForGood | agora/coordinator/task_assign.py:62-64 | Once every place is taken all loads equal the cap and nobody is chosen any more |
| TaskAssignment.LeastFixpoint | agora/coordinator/task_assign.py:109-145 | The waves process exactly the least set of pending tasks closed under "all dependencies done or processed" |
| TaskAssignment.ProcessedIff | agora/coordinator/task_assign.py:93-111 | A task is processed iff it is pending and each dependency is done, accepted or itself processed |
| TaskAssignment.ProcessedByStatus | agora/coordinator/task_assign.py:97-106 | A pending task whose dependencies are all done or accepted is processed; one with a dependency that is assigned, running, rejected, failed or unknown never is |
| TaskAssignment.WavesOrdered | agora/coordinator/task_assign.py:110-145 | Each task is processed at most once and after its dependencies |
| TaskAssignment.ProcessedRoundByRound | agora/coordinator/task_assign.py:103-145 | Tasks come in rounds, each taking all tasks made ready by the rounds before, and within a round in the order of the graph |
| TaskAssignment.NothingLeftOverIff | agora/coordinator/task_assign.py:111-116 | Every pending task is processed iff each of their dependencies is pending or done and the open dependencies have no cycle |
| TaskAssignment.AcyclicGraphIsExhausted | agora/coordinator/task_assign.py:109-145 | On an acyclic graph whose pending tasks depend on pending or done ones, nothing is left over |
| TaskAssignment.AssignmentOutcome | agora/coordinator/task_assign.py:117-147 | Each load is its stored count plus the tasks given and within the limit unless it began above; only pending tasks are assigned, to candidates of their own; a processed task goes without only if all its candidates end full |
| TaskAssignment.DependenciesHonouredIff | agora/coordinator/task_assign.py:131-144 | Every assigned task has its dependencies done or assigned too, whatever agents there are, iff no processed task depends on one that was not done before the call: a task turned away still counts as done |
| TaskAssignment.AssignedDependencies | agora/coordinator/task_assign.py:131-144 | In general each dependency of a processed task was done before, has an agent, or was turned away because all its candidates were full |
| TaskAssignment.RoomForAllAssignsAll | agora/coordinator/task_assign.py:117-143 | If every task has a candidate whose stored count plus the tasks that might ask for it is within the limit, every processed task gets an agent |
| TaskAssignment.ServedAllOutcome | agora/coordinator/task_assign.py:117-143 | The same for any order of service without repetition |
| TaskAssignment.EachServedInTurn | agora/coordinator/task_assign.py:45-143 | Each task in its place in the order goes to the first of its candidates, round from the remembered position, whose stored count plus the tasks given so far is below five, and to nobody iff there is none; later tasks change nothing about it |
| TaskAssignment.ServedInTurn | agora/coordinator/task_assign.py:118-143 | The same for one task, with the position left behind the agent chosen |
| TaskAssignment.TaskAssigner.AssignTasks | agora/coordinator/task_assign.py:83-147 | The wave loop terminates, serves exactly the specified tasks in the specified order, and returns and marks ASSIGNED exactly those that got an agent, all of them pending before and given to candidates of their own; every other status is unchanged |
| TaskAssignment.TaskAssigner.RoundRobinPick | agora/coordinator/task_assign.py:45-64 | The loop makes exactly the specified choice and leaves the advanced index |
| TaskAssignment.TaskAssigner.AssignOne | agora/coordinator/task_assign.py:118-143 | One task: loads of new candidates fetched, a choice made, load, status and assignment updated together |
| TaskAssignment.FilterReady | agora/coordinator/task_assign.py:111 | Selects the tasks all of whose dependencies are done, in order |

## Left out

- WebSocket and REST endpoints, storage, SDKs, dashboards, bridges and migrations: input and output. Storage queries appear as arbitrary answers.
- The handlers in `agora/coordinator/task_exec.py`: they count the same completion and slot a second time, so the once-only facts are about the executor's own steps.
- Read-mode locking in `acquire` and `acquire_sync`: the executor only writes, and second readers are not recorded, so read/write exclusion is not a property of that code.
- Wait events of the lock table: setting one wakes nobody in the modelled code.
- Task priority: the source's task node carries no priority, so its value is always 2; the model allows any integer.
- Task ids are taken as distinct and non-empty (they are UUIDs); an executor run starts with an empty queue and an empty lock table, and all nodes pending.
- An exception raised by the completion handler itself: it has no raising statement.
- Floating point: amounts and times are real numbers, and time is an argument that never runs backwards.
- `usage_ratio`, `get_status`, the client's `update_config` and waiting loop: rounding for display, or loops over a clock.
- Log lines, rationale texts, message sending and edge metadata of the reference graph.
- The `seen` set in `get_deadlock_risk`: the order test before it already admits each pair once.
- The order in which sets and dictionaries are iterated is left open wherever the result does not depend on it; the `leading` list of a tie does depend on it and is not part of the verdict.
- ConflictDetection.DetectConflicts: gives the reports as a multiset; that they come path by path as first seen is not stated; no modelled code reads their order.
- ReferenceCycles.ReferenceGraph.FindCycles: gives the reports from one start with their number but not their order among each other.
- Rank numbers inside a ballot's table: only the order of its keys is ever used.
- Task nodes in sequential assignment are values next to a map of statuses rather than objects; the modelled code never reads a status back, so aliasing cannot be observed.
- `capability_match_score` and `reassign_task`: one division, and one call of the modelled choice.
- Token manager, roles, audit, sanitising, motion states, retries, quality scores and the other voting methods: table lookups or single-branch arithmetic.
