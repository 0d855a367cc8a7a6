# Verified model of the tmux orchestrator's workflow engine

The workflow engine turns a nested description of phases into a flat list of tasks with
dependencies, schedules those tasks over a pool of agents, and keeps track of the workflow's
progress. This project models that path from end to end and proves what it guarantees, for all
workflows, all inputs and all runs.

`dafny verify dfyconfig.toml` checks everything.

## What is modelled

**The phase-block compiler** (`PhaseSpecs`, `PhaseStrategies`, `Text`, `PhaseExecutor`). Phases with
the single, parallel, competitive and debate patterns, sequence, parallel and loop blocks, skip
conditions, terminals threaded from item to item, loop unrolling and renaming. Each expander is a
loop proved against a recursive specification. `BlockPlan`, `BlockMeaning` and `BlockTheorems` give
the blocks a meaning of their own — an order on tasks — and compare it with the transitive
dependencies of the emitted list; `BlockReading` reads tasks and order off the items directly and shows
that the emitted list says the same. The expanders work on id strings, as the program does; the plan's
tasks have structured ids, which `TaskNaming` writes out, and it says exactly when two tasks get the
same string. `BlockCapture` says exactly when the emitted list is accepted, and the meaning is
preserved for everything that is; `BlockNaming` gives a naming discipline that suffices. `BlockNames`
is the route's replacement of block names in dependencies, which comes between expansion and check;
`PostedMeaning` says exactly when the list that is posted still means the blocks, with `BlockEmission`
and `BlockRoots` for workflows of any names and `BlockNameClashes` for the inputs on which it does not.
`Dag` is the check itself (Kahn's algorithm), `WorkflowService` the same algorithm over steps with
`after` edges.

**The dependency scheduler**. `TaskQueue` is the priority queue with lazy deletion, proved to be a
plain map from which the least item is taken. `Scheduler` describes the orchestrator's tables as a
transition system: submission, dispatch, results, retries, escalation, cancellation, expiry,
failure cascade, priority updates. `Orchestrator` is the object itself, which updates its tables in
place; each operation is proved to take exactly one allowed step. `SchedulerMeaning` says what each step
does to the tables, field by field. `SchedulerSafety`, `SchedulerIndex`, `SchedulerRuns`,
`SchedulerBudget`, `SchedulerEnds` and `SchedulerLives` prove what every run keeps.
`Submission` puts compiler and scheduler together: if the posted list keeps the plan's dependencies, then
in every run no task becomes dispatchable before everything the block structure puts before it has
completed, and nothing runs after what has failed or was cancelled.

**The workflow tracker** (`WorkflowRuns`, `WorkflowPhases`, `WorkflowManager`, `LoopHistories`): run
status, phase status, and the early exit of loops, cancellation and cleanup over whole histories of
the manager. `TrackedRuns` puts a tracked run beside the scheduler that reports to it, and
`PhasesWithExits` says what the status of a phase means there when loops end early.

**Controllers**: the token bucket (`RateLimiter`), the autoscaler (`AutoScaler`) and broadcast groups
(`Broadcast`).

Assumptions about the environment, all stated in `Scheduler.Allowed`: submitted ids are new; a result
comes from the agent the task was sent to and at most once per dispatch (a watchdog result replaces
the agent's own); the reaper lists each expired waiting task. Clocks, registries, the circuit
breaker's answer and fresh ids are parameters. In the autoscaler's runs outsiders only remove agents.

## What the proofs found

Where a property does not hold for all inputs, the project proves exactly when it does.

- A parallel block without tasks has no terminals, so a task after it does not wait for what came
  before it. The order is preserved if and only if no such hollow part is followed by a task
  (`BlockTheorems.MeaningPreserved`).
- A loop phase that follows a task whose id string is one of its own, before or after the iteration's
  prefix is added — for example a phase of the same name just before the loop — is renamed into
  depending on itself. This and repeated id strings are the only reasons for which an expansion fails the
  check (`BlockCapture.AcceptedExactly`).
- Names that contain `phase_` can cause either, even if all phases and loops are named differently
  (`TaskNaming.CollideExactly`, `BlockNaming.MarkedNameIsRejected`). Without them, distinct names
  suffice (`BlockNaming.WellNamedIsAccepted`).
- The route replaces every dependency that equals the name of a top-level block by the block's terminals,
  and block names are free. A block named like a task can make the route lose an order and accept the
  workflow (`BlockNameClashes.BlockNameLosesOrder`), reject a workflow whose expansion passes the check
  (`BlockNameClashes.BlockNameMakesCycle`), or add an order that no block asks for
  (`BlockNameClashes.BlockNameAddsOrder`). The exact conditions are `PostedMeaning.OrderKeptExactly` and
  `PostedMeaning.PostedMeaningExact`; block names without `phase_` are always safe
  (`PostedMeaning.PlainBlocksKeepMeaning`).
- Phases behind a loop wait for its last iteration. When the loop ends early that iteration is cancelled,
  so they never run (`Submission.NothingBehindEnded`).
- A submission that fails at once, because a dependency has failed, does not fail tasks that were
  already waiting for its id; they wait for ever (`SchedulerRuns.StepUndoomed`).
- An agent that timed out can be given the task again when escalation is off or used up and a retry
  is left (`SchedulerBudget.TimeoutExcludes`).
- Phases are looked up by name, so a phase whose name occurred before is never updated. Loop phases
  without `{iter}` in their names are such phases from the second iteration on
  (`WorkflowPhases.PhasesShowTruthExactly`).
- A cancelled run ignores completions and failures, but not retries: a reported retry gives it an ordinary
  status again (`WorkflowRuns.CancelledStays`).
- A caller waiting for a token divides by zero if `TokenBucketRateLimiter.reconfigure` switches limiting
  off meanwhile (`RateLimiter.SwitchedOffWhileWaiting`). The orchestrator's own
  `reconfigure_rate_limiter` replaces the limiter instead, so only a direct call reaches the division
  (`RateLimiter.OrchestratorNeverDivides`).
- The debate strategy's documentation (phase_strategy.py:800-806) lets the judge also depend on the
  advocate; the code, and the model, make it depend on the last critic only.
- Loop items ignore skip conditions, and a nested loop is expanded once per outer iteration instead
  of up to its own maximum. The model follows the code.

## Model

| member | source | states |
|---|---|---|
| PhaseStrategies.ExpandSingle | src/tmux_orchestrator/domain/phase_strategy.py:646-668 | the single pattern yields one worker task waiting for everything before the phase |
| PhaseStrategies.ExpandParallel | src/tmux_orchestrator/domain/phase_strategy.py:674-707 | n workers, or one if n is below one, each waiting for everything before the phase, and nothing else |
| PhaseStrategies.ExpandCompetitive | src/tmux_orchestrator/domain/phase_strategy.py:733-790 | n solvers, or one if n is below one, wait for what precedes the phase; exactly if a judge is configured, one more task waits for all solvers |
| PhaseStrategies.ExpandDebate | src/tmux_orchestrator/domain/phase_strategy.py:808-877 | 2r + 1 tasks for r rounds, or three if r is below one: advocate and critic of each round in turn, then the judge, and each waits for the one before it |
| PhaseStrategies.TerminalIds | src/tmux_orchestrator/phase_executor.py:66-74 | a following phase waits for a debate's judge alone, and for every task of any other pattern |
| PhaseStrategies.LeafIdsDistinct | src/tmux_orchestrator/domain/phase_strategy.py:653-877 | one phase never produces the same id twice |
| PhaseStrategies.LeafIdsExactly | src/tmux_orchestrator/domain/phase_strategy.py:653-877 | the ids of a phase are exactly those of its scope, its name and the slots of its pattern, with the clamping to one written out, and how many they are |
| PhaseExecutor.ExpandLoopPhase | src/tmux_orchestrator/phase_executor.py:357-392 | a loop phase is expanded with `{iter}` substituted, then its ids and its internal dependencies are moved into the iteration's namespace |
| PhaseExecutor.ExpandLoopIter | src/tmux_orchestrator/phase_executor.py:338-394 | one iteration threads terminals from item to item; a nested loop is expanded once with the outer iteration number |
| PhaseExecutor.ExpandAllLoopIters | src/tmux_orchestrator/phase_executor.py:439-462 | iterations 1 to max are chained by their terminals |
| PhaseExecutor.ExpandSequenceBlock | src/tmux_orchestrator/phase_executor.py:499-517 | items of a sequence are chained by their terminals |
| PhaseExecutor.ExpandParallelBlock | src/tmux_orchestrator/phase_executor.py:555-573 | branches share what they wait for; the terminals are those of all branches |
| PhaseExecutor.ExpandSingleItem | src/tmux_orchestrator/phase_executor.py:603-646 | dispatch on the kind of item; a skipped phase passes on what it would have waited for |
| PhaseExecutor.ExpandPhaseItemsWithStatus | src/tmux_orchestrator/phase_executor.py:697-744 | the whole list: tasks, statuses, and the terminals recorded for each named block |
| PhaseExecutor.SequenceStatuses | src/tmux_orchestrator/phase_executor.py:386-388 | the ids listed by the phase statuses, in order, are exactly the ids of the emitted tasks, so each task lies in exactly one phase status |
| PhaseExecutor.SkippingMeans | src/tmux_orchestrator/phase_executor.py:603-646 | a phase is shown as skipped, and has no tasks, exactly if there is a scratchpad and the key is on it with the right value, or is not if the test is negated; what it would have waited for is passed on |
| PhaseExecutor.LastBlockRecorded | src/tmux_orchestrator/phase_executor.py:697-744 | under a name the terminals of the last block of that name are recorded, expanded after everything before it |
| Text.ReplaceFirst | src/tmux_orchestrator/phase_executor.py:189-209 | `{iter}` is substituted from left to right: the first occurrence is replaced and the substitution goes on behind it |
| BlockReading.TasksExactly | src/tmux_orchestrator/phase_executor.py:286-744 | for every workflow, in terms of the items alone: the emitted ids are exactly those of the tasks the blocks call for, loops unrolled from one to their maximum with the iteration number in their names, nested loops once per outer iteration, skipped phases left out |
| BlockReading.OrderExactly | src/tmux_orchestrator/phase_executor.py:286-744 | the order with which the emitted dependencies are compared is the one read off the items: sequences and loops put each part before the later ones, parallel blocks put none, and inside a phase its pattern decides |
| BlockReading.MeansWhatItSays | src/tmux_orchestrator/phase_executor.py:286-744 | of any two tasks an accepted workflow calls for, one depends on the other exactly if the blocks put the other first, whenever the plan is faithful and in particular if no parallel block is empty |
| BlockPlan.RenamedLeaf | src/tmux_orchestrator/phase_executor.py:371-392 | prefixing the id strings of a freshly expanded phase gives exactly the strings of the phase in the iteration's namespace, unless it follows a task whose string is one of its own |
| BlockPlan.ExpansionTranslates | src/tmux_orchestrator/phase_executor.py:649-744 | every accepted workflow, whatever its phases are called, expands to the written-out emission of the series-parallel plan it denotes, and no two tasks of the plan get the same id string |
| BlockPlan.CapturedPhaseDependsOnItself | src/tmux_orchestrator/phase_executor.py:371-384 | why acceptance is asked for: a phase named like the one before its loop ends up depending on itself |
| BlockMeaning.EmitImposes | src/tmux_orchestrator/phase_executor.py:286-646 | the ancestors of every task, computed from the emitted edges, are exactly those the plan imposes |
| BlockTheorems.SeriesOrders | src/tmux_orchestrator/phase_executor.py:465-517 | everything in an earlier part of a series is before everything in a later part, and never the other way round |
| BlockTheorems.ForkIncomparable | src/tmux_orchestrator/phase_executor.py:520-573 | tasks of different parallel branches are never ordered |
| BlockTheorems.ImposedExact | src/tmux_orchestrator/phase_executor.py:520-573 | the order the emitted edges impose is the intended one if and only if no part that drops its predecessors is followed by a task |
| BlockTheorems.AncestorsAreReachable | src/tmux_orchestrator/phase_executor.py:286-646 | being an ancestor is the same as being reachable along `depends_on` edges |
| BlockTheorems.ExpansionWellFormed | src/tmux_orchestrator/phase_executor.py:649-744 | the expansion of an accepted workflow lists exactly the tasks the blocks call for, in order, and every dependency names an earlier task (that ids are distinct is part of being accepted) |
| BlockTheorems.MeaningPreserved | src/tmux_orchestrator/phase_executor.py:286-646 | for every nesting of items that the DAG check accepts, transitive dependency between the emitted id strings is the order of the block structure if and only if no hollow parallel part is followed by a task |
| BlockTheorems.FilledMeaningPreserved | src/tmux_orchestrator/phase_executor.py:286-646 | with no empty parallel block at any depth the meaning is always preserved |
| BlockTheorems.FilledTerminalsCoverAll | src/tmux_orchestrator/phase_executor.py:520-573 | each task of a filled workflow is a terminal or a transitive dependency of one, so waiting for the terminals means waiting for all |
| BlockCapture.ClashIsCyclic | src/tmux_orchestrator/phase_executor.py:371-384 | wherever a loop phase that follows one of its own id strings ends up, the task list has a dependency cycle |
| BlockCapture.AcceptedExactly | src/tmux_orchestrator/application/workflow_manager.py:747-781 | for all workflows, with no naming assumption: the DAG check accepts the expansion if and only if its id strings are distinct and no loop phase follows a task whose id string is, before or after prefixing, one of its own |
| BlockNaming.WellNamedIsAccepted | src/tmux_orchestrator/phase_executor.py:371-392 | a discipline an author can check by reading: if names do not contain `phase_`, are distinct within each loop iteration and outside loops, and no loop phase is named like an earlier phase outside loops, the workflow is accepted |
| BlockNaming.MarkedNameIsRejected | src/tmux_orchestrator/phase_executor.py:371-384 | why names must not contain `phase_`: two loops with differently named phases and distinct id strings whose second task is renamed into depending on itself |
| BlockNames.ResolveBlockNames | src/tmux_orchestrator/web/routers/workflows.py:281-296 | the two loops of the route replace each dependency on a block name by the block's terminals |
| BlockNames.ResolvedMembers | src/tmux_orchestrator/web/routers/workflows.py:281-296 | after the replacement a task depends on exactly the terminals of the blocks it named and on whatever it named that is no block |
| BlockNames.ResolvingChangesNothing | src/tmux_orchestrator/web/routers/workflows.py:281-296 | as long as no block name contains `phase_`, the replacement leaves every expansion as it is |
| BlockNames.ResolvingExact | src/tmux_orchestrator/web/routers/workflows.py:281-296 | if no replaced name stands for an empty block, the replacement leaves a task list as it is exactly if every block name among its dependencies is its own block's only terminal |
| BlockNames.HollowNamesCancel | src/tmux_orchestrator/web/routers/workflows.py:281-296 | the exception: names of empty blocks can make up for others, so that the list stays the same although names are replaced |
| BlockEmission.SequenceMatches | src/tmux_orchestrator/phase_executor.py:371-392 | for every workflow, accepted or not: the ids and terminals of the expansion are the plan's, and each dependency is the plan's, or leads to a task that depends on itself or must come later |
| BlockRoots.CarriedShowsSeries | src/tmux_orchestrator/phase_executor.py:286-646 | an order that a plan drops is not won back: if something still carried on at some point is missed by a task that must come after it, then some such task waits for nothing at all |
| PostedMeaning.OrderKeptExactly | src/tmux_orchestrator/web/routers/workflows.py:281-302 | for every workflow whose posted list passes the check, whatever its phases and blocks are called: all that the blocks put first is reached if and only if no hollow parallel part is followed by a task and every dependency of the plan is still reached after block names are replaced |
| PostedMeaning.PostedMeaningExact | src/tmux_orchestrator/web/routers/workflows.py:281-302 | the transitive dependencies of the posted list are the block order if and only if, besides, no posted dependency goes beyond the block order |
| PostedMeaning.PlainBlocksKeepMeaning | src/tmux_orchestrator/web/routers/workflows.py:281-302 | a condition to read off: for accepted workflows whose block names do not contain `phase_` nothing is lost and nothing added |
| BlockNameClashes.BlockNameLosesOrder | src/tmux_orchestrator/web/routers/workflows.py:281-296 | a block named like a task: the list is accepted, and `c` no longer waits for `a`, which the blocks put before it |
| BlockNameClashes.BlockNameMakesCycle | src/tmux_orchestrator/web/routers/workflows.py:281-296 | a block named like a task: a workflow without loops and repeated ids is rejected, because two tasks are made to wait for each other |
| BlockNameClashes.BlockNameAddsOrder | src/tmux_orchestrator/web/routers/workflows.py:281-296 | a block named like a task: no order is lost, but a task waits for one in a parallel branch |
| TaskNaming.CollideExactly | src/tmux_orchestrator/phase_executor.py:371-376 | two different tasks get the same id string if and only if they have the same slot and one phase name spells out the other's loop prefix and phase |
| TaskNaming.PlainNamesAreInjective | src/tmux_orchestrator/phase_executor.py:371-376 | if phase names do not contain `phase_`, id strings identify tasks, whatever loops are called |
| TaskNaming.DistinctAsStrings | src/tmux_orchestrator/phase_executor.py:371-376 | with such names, tasks are distinct as strings exactly if they are distinct |
| TaskNaming.CollisionExists | src/tmux_orchestrator/phase_executor.py:371-376 | a collision that the naming scheme allows |
| TaskNaming.IdsAsWritten | src/tmux_orchestrator/domain/phase_strategy.py:653-866 | what the id strings look like |
| Dag.OrderedIsAcyclic | src/tmux_orchestrator/application/workflow_manager.py:765-781 | an order with dependencies first rules out cycles |
| Dag.StuckHasCycle | src/tmux_orchestrator/application/workflow_manager.py:777-780 | if some tasks all wait inside their own set, there is a cycle |
| Dag.BuildIndex | src/tmux_orchestrator/application/workflow_manager.py:757-769 | in-degrees and dependents counted once per listed dependency; unknown dependencies are refused before |
| Dag.Kahn | src/tmux_orchestrator/application/workflow_manager.py:765-781 | the queue loop emits a dependency-first order of distinct nodes, and emits all of them if and only if there is no cycle |
| Dag.ValidateDag | src/tmux_orchestrator/application/workflow_manager.py:747-781 | accepts exactly the lists with distinct ids, known dependencies and no cycle, and returns such a list permuted with dependencies first |
| Dag.ForwardListIsAcyclic | src/tmux_orchestrator/application/workflow_manager.py:747-781 | a list whose dependencies all name earlier tasks always passes |
| WorkflowService.TopologicalSort | src/tmux_orchestrator/application/workflow_service.py:158-191 | accepts exactly the self-contained acyclic step lists and returns them permuted with prerequisites first |
| WorkflowService.Workflow.Run | src/tmux_orchestrator/application/workflow_service.py:133-150 | submits every step once with the task ids of all its `after` steps: no edge is silently dropped; a rejected workflow submits nothing |
| TaskQueue.AsyncPriorityTaskQueue.Put | src/tmux_orchestrator/application/task_queue.py:118-121 | adds one item to the plain map of pending items, under a number larger than those of all others |
| TaskQueue.AsyncPriorityTaskQueue.Get | src/tmux_orchestrator/application/task_queue.py:123-135 | skips stale heap entries, terminates, and hands out and removes the item of the smallest priority value, among equal ones that of the smallest number; nothing only if nothing is pending |
| TaskQueue.AsyncPriorityTaskQueue.UpdatePriority | src/tmux_orchestrator/application/task_queue.py:157-205 | replaces exactly one pending item by itself under the new priority and a number smaller than those of all others, so it goes ahead of its equals |
| TaskQueue.AsyncPriorityTaskQueue.Remove | src/tmux_orchestrator/application/orchestrator.py:1492-1514 | removes all heap entries of the task, stale ones included, and leaves all other pending items |
| TaskQueue.TakeLive | src/tmux_orchestrator/application/task_queue.py:123-135 | the least heap entry that is not stale is the least pending item |
| TaskQueue.Superseded | src/tmux_orchestrator/application/task_queue.py:183-205 | after an update the entries that are not stale are again exactly the pending items |
| Orchestrator.Orchestrator.SubmitTask | src/tmux_orchestrator/application/orchestrator.py:1076-1206 | takes the submission step; the returned task is as submitted, with the inherited priority and all counters at zero |
| Orchestrator.Orchestrator.OnDepSatisfied | src/tmux_orchestrator/application/orchestrator.py:2743-2780 | releases from the waiting table as the transition system says |
| Orchestrator.Orchestrator.OnDepFailed | src/tmux_orchestrator/application/orchestrator.py:2794-2831 | the recursive cascade terminates and takes the failure step of the transition system |
| Orchestrator.Orchestrator.DispatchNext | src/tmux_orchestrator/application/orchestrator.py:1772-1996 | one turn of the dispatch loop takes an item of the smallest priority value and is one allowed dispatch step; nothing happens only if nothing is queued |
| Orchestrator.Orchestrator.PutBack | src/tmux_orchestrator/application/orchestrator.py:1881-1932 | a task for which there is nobody goes back to the queue under its own priority with one more try counted if that leaves tries, and otherwise to the dead letters |
| Orchestrator.Orchestrator.FindIdleWorker | src/tmux_orchestrator/application/registry.py:147-162 | the first registered agent that passes every filter, or none if none does |
| Orchestrator.Orchestrator.HandleTaskTimeout | src/tmux_orchestrator/application/orchestrator.py:2129-2148 | escalates exactly if `task_escalation_enabled` and `escalation_count < max_task_escalations`: then the task is queued again one priority up, with one more escalation and the agent excluded; otherwise nothing changes |
| Orchestrator.Orchestrator.OnResult | src/tmux_orchestrator/application/orchestrator.py:2384-2546 | a result is one allowed result step: dropped, success, escalation, retry or final failure |
| Orchestrator.Orchestrator.CancelTask | src/tmux_orchestrator/application/orchestrator.py:1429-1534 | a task that was sent is marked and stays where it is; any other is out of the waiting table and the queue afterwards, and withdrawn if it was there; success is reported exactly if the task was active, waiting or in the heap, stale entries included |
| Orchestrator.Orchestrator.ReaperTick | src/tmux_orchestrator/application/orchestrator.py:2322-2347 | one reaper step for exactly the waiting tasks that are not cancelled and whose expiry time is before now |
| Orchestrator.Orchestrator.UpdateTaskPriority | src/tmux_orchestrator/application/orchestrator.py:1361-1397 | one priority step, successful exactly if the task is queued |
| Scheduler.LeastPriority | src/tmux_orchestrator/application/orchestrator.py:1082-1090 | the inherited priority is the least among the caller's and the known dependencies' priorities |
| Scheduler.FirstEligible | src/tmux_orchestrator/application/registry.py:147-162 | no eligible agent is passed over: the result is the first that fits, or none fits |
| Scheduler.SelectMeans | src/tmux_orchestrator/application/orchestrator.py:1870-1912 | whom a task is given to, with all filters written out: a named target only while it is idle, and nobody while it is not; otherwise the first fitting agent that is not excluded, and nobody only if none fits; only an unknown target or group is beyond routing |
| SchedulerSafety.UnmetExact | src/tmux_orchestrator/application/orchestrator.py:1132-1133 | the unmet dependencies are exactly those not completed |
| SchedulerMeaning.SubmitMeans | src/tmux_orchestrator/application/orchestrator.py:1076-1206 | field by field: what a submission records, and whether its task fails at once, is queued behind its equals, or is held and listed under each incomplete dependency as often as it names it; nothing else changes |
| SchedulerMeaning.DispatchMeans | src/tmux_orchestrator/application/orchestrator.py:1772-1932 | field by field: a dispatched task is dropped, expires with all that waits for it, is sent, is given up, or is put back with one more try counted exactly while tries are left; nothing else changes |
| SchedulerMeaning.ResultMeans | src/tmux_orchestrator/application/orchestrator.py:2384-2511 | field by field, over the configuration: a result is dropped, completes the task and queues exactly the tasks for which it was the last dependency, escalates, retries, or fails for good with exactly what waits for the task |
| SchedulerMeaning.ReleasedInOrder | src/tmux_orchestrator/application/orchestrator.py:2743-2780 | of two tasks released by one completion the one listed first gets the smaller number, so it goes first at equal priority |
| SchedulerMeaning.CancelMeans | src/tmux_orchestrator/application/orchestrator.py:1429-1534 | field by field: an active task is marked; a waiting or queued one is in no queue, no waiting table and no list of the index, and withdrawn; all other tasks stay where they are and as often listed; for an unknown id nothing changes |
| SchedulerMeaning.ReapMeans | src/tmux_orchestrator/application/orchestrator.py:2322-2347 | the reaper fails exactly the expired waiting tasks that are not cancelled and exactly what waits for them |
| SchedulerMeaning.ReprioritiseMeans | src/tmux_orchestrator/application/orchestrator.py:1361-1397 | a queued task gets the new priority in its record and in the queue; nothing else changes |
| SchedulerSafety.StepSound | src/tmux_orchestrator/application/orchestrator.py:1132-2831 | every step keeps each submitted task in exactly one place and nothing queued, active or completed before its dependencies |
| SchedulerSafety.EveryRunIsSafe | src/tmux_orchestrator/application/orchestrator.py:1132-1206 | in every run all transitive dependencies of a queued, active or completed task are completed |
| SchedulerIndex.CascadeExact | src/tmux_orchestrator/application/orchestrator.py:2782-2831 | a final failure takes down exactly the tasks that wait for it through waiting tasks, diamonds and cycles included, and marks exactly those failed |
| SchedulerIndex.CompletionWakesAll | src/tmux_orchestrator/application/orchestrator.py:2743-2780 | after a completion every task still waiting has an unmet dependency and the index agrees |
| SchedulerRuns.StepHealthy | src/tmux_orchestrator/application/orchestrator.py:1132-2831 | every step keeps safety, index agreement and the absence of lost wake-ups |
| SchedulerRuns.EveryRunIsIndexed | src/tmux_orchestrator/application/orchestrator.py:2743-2807 | after every run the index lists a waiting task under an incomplete dependency exactly as often as the task names it, and each waiting task has something to wait for |
| SchedulerRuns.StepUndoomed | src/tmux_orchestrator/application/orchestrator.py:1132-1147 | no waiting task depends on a failed one: kept by every step except exactly a submission that fails at once while a task already waits for it |
| SchedulerRuns.EveryBackwardRunIsUndoomed | src/tmux_orchestrator/application/orchestrator.py:1132-1188 | if submissions name only earlier ids, no waiting task ever depends on a failed one |
| SchedulerRuns.OrphanKeepsWaiting | src/tmux_orchestrator/application/orchestrator.py:1132-1147 | a concrete run that ends with a task waiting for a failed one |
| SchedulerBudget.StepPays | src/tmux_orchestrator/application/orchestrator.py:1881-1932 | every step keeps the counters within budget and pays for each dispatch turn |
| SchedulerBudget.EveryRunIsBounded | src/tmux_orchestrator/application/orchestrator.py:1881-1932 | a task is sent at most 1 + max_retries + max_task_escalations times and re-queued fewer than dlq_max_retries times; the dispatch loop turns to it a bounded number of times in all |
| SchedulerBudget.EveryRunExcludes | src/tmux_orchestrator/application/orchestrator.py:2136-2148 | excluded agents are distinct, one per escalation, and none of them is executing the untargeted task |
| SchedulerBudget.TimeoutExcludes | src/tmux_orchestrator/application/orchestrator.py:2462-2479 | after a watchdog timeout the agent can be given the task again if and only if the timeout was handled by a retry |
| SchedulerBudget.NeverGivenAgain | src/tmux_orchestrator/application/orchestrator.py:2136-2148 | after any other watchdog timeout the task never executes on that agent again, whatever happens later |
| SchedulerBudget.TimedOutAgentGivenAgain | src/tmux_orchestrator/application/orchestrator.py:2476-2479 | a concrete run in which a retry goes to the agent that timed out |
| Submission.ExpansionPassesCheck | src/tmux_orchestrator/application/workflow_manager.py:747-781 | whatever well-named items expand to passes the DAG check, and if no block name contains `phase_` it is what the route posts |
| Submission.PostWorkflow | src/tmux_orchestrator/web/routers/workflows.py:281-393 | expansion, block names, check and submission: accepted exactly if the posted list has distinct id strings, known dependencies and no cycle, which for block names without `phase_` is acceptance of the workflow (always, if well named); then every task is submitted under its own global id with its dependencies' global ids and its own priority, target, group, tags, retries and expiry; rejected workflows submit nothing |
| Submission.BlockOrderIsRespected | src/tmux_orchestrator/application/orchestrator.py:1132-1206 | end to end, over the list the route posts: if no hollow parallel part is followed by a task and every dependency of the plan is still reached, then in every run a queued, executing or completed workflow task has everything the block structure puts before it completed |
| Submission.HeldForAReason | src/tmux_orchestrator/application/orchestrator.py:1152-1188 | end to end, over the list the route posts: if no posted dependency goes beyond the block order, a workflow task that is still held waits for something the block structure puts before it |
| SchedulerEnds.DependentsNeverRun | src/tmux_orchestrator/application/orchestrator.py:1429-1534 | a failed, cancelled or dead-lettered task stays so in every continuation of a run, and whatever depends on it, however indirectly, is never queued, executing or completed |
| SchedulerLives.StepSpares | src/tmux_orchestrator/application/orchestrator.py:1132-2831 | whatever step is taken for one task, to every other task nothing happens except that it may stop waiting, being queued as it is or failing |
| SchedulerLives.CancelledNeverRuns | src/tmux_orchestrator/application/orchestrator.py:1429-1534 | over every run: once an active, waiting or queued task is cancelled, then in every continuation it is not completed and not sent again, and a result still to come or a queue entry still there is marked to be dropped |
| SchedulerLives.GivenUpExactly | src/tmux_orchestrator/application/orchestrator.py:1881-1932 | over every run: a task is in the dead letters if and only if at some turn it was beyond routing or exactly max(1, dlq_max_retries) turns found nobody for it, and there are never more such turns |
| Submission.NothingAfterEnded | src/tmux_orchestrator/application/orchestrator.py:1429-1534 | end to end: once a workflow task has failed, was cancelled or was given up, nothing that the block structure puts after it runs in any continuation |
| Submission.NothingBehindEnded | src/tmux_orchestrator/application/workflow_manager.py:577-591 | so after an early exit has cancelled the last iteration of a loop, no task of any item behind the loop ever runs |
| WorkflowRuns.StatusFromLastEvents | src/tmux_orchestrator/application/workflow_manager.py:310-414 | after any uncancelled history the completed and failed sets hold exactly the tasks whose last event says so, and the status is a function of them |
| WorkflowRuns.OrderDoesNotMatter | src/tmux_orchestrator/application/workflow_manager.py:684-699 | reordering the events of different tasks cannot change a run's status |
| WorkflowRuns.CancelledStays | src/tmux_orchestrator/application/workflow_manager.py:310-414 | over every history after a cancellation: the run stays cancelled and unchanged if and only if no retry is reported, because only retries are not ignored |
| WorkflowPhases.StepShowsTruth | src/tmux_orchestrator/application/workflow_manager.py:508-539 | the status shown for each phase stays right in every step except exactly a retry of a task of a complete phase |
| WorkflowPhases.PhasesShowTruthExactly | src/tmux_orchestrator/application/workflow_manager.py:465-539 | phase statuses are right after all histories if and only if no phase with tasks has the name of an earlier phase |
| WorkflowPhases.PhaseStepMeans | src/tmux_orchestrator/application/workflow_manager.py:480-539 | what each event does to each phase: running with its first ended task, failed or complete once all its tasks have ended, running again after a retry of a failed one; no other phase moves |
| TrackedRuns.ReportedRetriesNeverReopen | src/tmux_orchestrator/application/orchestrator.py:2384-2511 | scheduler and tracked run together, over every run with cancellations and early exits: no retry the orchestrator reports is of a task of a complete phase, and a complete phase holds only tasks the scheduler completed |
| TrackedRuns.ReportsMean | src/tmux_orchestrator/application/orchestrator.py:2384-2511 | over the configuration: which results and expiries are reported, and as what |
| TrackedRuns.JointPhasesShowTruth | src/tmux_orchestrator/application/orchestrator.py:2384-2511 | in every joint run without early exits the phase statuses are right, if no phase with tasks has the name of an earlier one |
| PhasesWithExits.JointPhasesMean | src/tmux_orchestrator/application/workflow_manager.py:465-627 | in every uncancelled joint run, early exits included: a phase with tasks shows complete exactly if the scheduler has completed all of them since registration, failed exactly if all have ended and some were reported as failed, skipped exactly if neither and an early exit has left some of them, provided no earlier phase has its name |
| WorkflowManager.ExitLoopExact | src/tmux_orchestrator/application/workflow_manager.py:577-627 | leaving a loop counts exactly the given tasks as completed, skips exactly their unfinished phases, and completes the run exactly if everything else is completed without failure |
| WorkflowManager.FireExact | src/tmux_orchestrator/application/workflow_manager.py:577-597 | leaving one of several loops changes its own run only, as an early exit must, and keeps the other loops registered |
| WorkflowManager.OneLoopFires | src/tmux_orchestrator/application/workflow_manager.py:561-597 | among any number of registered loops over any runs of which no other holds the completed task, checking all of them is checking the one |
| WorkflowManager.FiresExactly | src/tmux_orchestrator/application/workflow_manager.py:561-579 | when a loop is left, written out: condition given, iteration complete, and the key, value and negation test met |
| WorkflowManager.EarlyExit | src/tmux_orchestrator/application/workflow_manager.py:541-598 | with any number of registered loops of which no other holds the task: completing it leaves its loop if and only if the loop has a condition, all other tasks of the first iteration holding it have completed, and the key is on the scratchpad with the right value (or is not, if negated); then exactly the later iterations are cancelled, exactly this loop is forgotten and no other run is touched |
| WorkflowManager.CancelledOnce | src/tmux_orchestrator/application/workflow_manager.py:577-584 | each task of a later iteration is cancelled once, no task of an earlier or the current one is |
| WorkflowManager.RemainingAreLater | src/tmux_orchestrator/application/workflow_manager.py:577-578 | the cancelled tasks are exactly those of later iterations |
| LoopHistories.CheckedByFiring | src/tmux_orchestrator/application/workflow_manager.py:541-598 | whatever tasks loops share: checking all registered loops is leaving, one after the other, exactly those whose time has come |
| LoopHistories.EveryEndWasDue | src/tmux_orchestrator/application/workflow_manager.py:541-598 | over every history, whatever is registered: each loop that ended was registered, its condition held on the scratchpad of that moment, and every task of the iteration that ended it was by then reported complete or cancelled with a loop |
| LoopHistories.EndsPerRegistration | src/tmux_orchestrator/application/workflow_manager.py:541-598 | over every history, whatever is registered: a loop ends at most as often as it was registered, less one if it still is |
| LoopHistories.CancelledInOrder | src/tmux_orchestrator/application/workflow_manager.py:577-584 | over every history: the cancelled tasks are, in order, those of the iterations after the ones that ended loops |
| LoopHistories.EachLoopOnce | src/tmux_orchestrator/application/workflow_manager.py:541-598 | over every history whose registrations share no task: each loop ends at most once, each task is cancelled at most once, and no task of the iteration that ended a loop or of an earlier one is ever cancelled |
| LoopHistories.RunsLive | src/tmux_orchestrator/application/workflow_manager.py:310-414 | in every history, whatever is registered, each run is exactly what its own events and its own loops' exits make of it, whatever happens to others |
| LoopHistories.CleanupOnce | src/tmux_orchestrator/application/workflow_manager.py:684-714 | over every history of the manager, early exits included: cleanup of a run is triggered exactly once if completed, failed and skipped tasks ever cover it before a cancellation, and otherwise never |
| WorkflowManager.WorkflowManager.Submit | src/tmux_orchestrator/application/workflow_manager.py:149-161 | a new run, and the ownership of its tasks |
| WorkflowManager.WorkflowManager.AttachPhases | src/tmux_orchestrator/application/workflow_manager.py:187-199 | phases are attached and their tasks recorded, skipped and empty ones are not |
| WorkflowManager.WorkflowManager.RegisterLoop | src/tmux_orchestrator/application/workflow_manager.py:301-304 | a registration is added, or overwrites the one for the same workflow and loop name |
| WorkflowManager.WorkflowManager.OnTaskComplete | src/tmux_orchestrator/application/workflow_manager.py:310-334 | moves the task's run as the event says, leaves all other runs alone, then checks the loops; for a cancelled run nothing changes |
| WorkflowManager.WorkflowManager.OnTaskFailed | src/tmux_orchestrator/application/workflow_manager.py:336-357 | moves the task's run as the event says and nothing else |
| WorkflowManager.WorkflowManager.OnTaskRetrying | src/tmux_orchestrator/application/workflow_manager.py:382-414 | moves the task's run as the event says and nothing else, cancelled or not |
| WorkflowManager.WorkflowManager.CancelWorkflow | src/tmux_orchestrator/application/workflow_manager.py:359-380 | marks the run cancelled and finished; returns its tasks |
| WorkflowManager.WorkflowManager.CheckLoopUntil | src/tmux_orchestrator/application/workflow_manager.py:541-598 | checks all registered loops in order and leaves each whose condition and iteration are due |
| RateLimiter.WindowBound | src/tmux_orchestrator/application/rate_limiter.py:118-216 | any interval of length T grants at most B + R * T tokens, across reconfigurations within rate R and burst B |
| RateLimiter.RunSane | src/tmux_orchestrator/application/rate_limiter.py:118-216 | tokens always stay between zero and the current burst |
| RateLimiter.StepMeans | src/tmux_orchestrator/application/rate_limiter.py:118-216 | what each use does, in numbers: while limiting is on a caller gets a token exactly if tokens plus rate times elapsed time, up to the burst, make a whole one; new limits keep the tokens that fit |
| RateLimiter.WaitMeans | src/tmux_orchestrator/application/rate_limiter.py:176-183 | a caller that gets no token is told to wait exactly until there is a whole one |
| RateLimiter.TokensConserved | src/tmux_orchestrator/application/rate_limiter.py:118-151 | conservation over every run: every token that was there or was earned has been granted, has spilled over the burst, or is still there |
| RateLimiter.RefusedOnlyWhenSpent | src/tmux_orchestrator/application/rate_limiter.py:138-151 | while the bucket cannot overflow: when a caller is refused, the tokens granted so far are what it held and has earned, rounded down |
| RateLimiter.TurnDividesByZero | src/tmux_orchestrator/application/rate_limiter.py:176-216 | in every run of a limiter from its creation, a waiting caller divides by zero if and only if the rate configured last is zero |
| RateLimiter.SwitchedOffWhileWaiting | src/tmux_orchestrator/application/rate_limiter.py:176-216 | a concrete run in which a caller waits, the limiter is switched off by `reconfigure`, and the next turn divides by zero |
| RateLimiter.OrchestratorNeverDivides | src/tmux_orchestrator/application/orchestrator.py:990-1005 | over every sequence of the orchestrator's own reconfigurations, mixed with other callers: a caller waiting on a limiter that was on never divides by zero, because rate zero puts a new limiter in place |
| RateLimiter.TooSmallToGrant | src/tmux_orchestrator/application/rate_limiter.py:172-183 | with a burst below one nothing is ever granted, so a caller without timeout waits for ever |
| RateLimiter.TokenBucketRateLimiter.Acquire | src/tmux_orchestrator/application/rate_limiter.py:153-195 | an undisturbed caller gets its token after exactly the time the bucket needs, and is refused at once exactly if that is not less than its timeout |
| RateLimiter.TokenBucketRateLimiter.Try | src/tmux_orchestrator/application/rate_limiter.py:138-151 | one attempt grants exactly if a token is there after refilling |
| RateLimiter.TokenBucketRateLimiter.Configure | src/tmux_orchestrator/application/rate_limiter.py:197-216 | clamps the tokens to the new burst, empties the bucket when switched off |
| AutoScaler.CountBounds | src/tmux_orchestrator/infrastructure/autoscaler.py:190-277 | the tracked count never exceeds max and a stop never takes it below min |
| AutoScaler.TimerIsTrusted | src/tmux_orchestrator/infrastructure/autoscaler.py:223-237 | above the minimum, a running timer means that every poll since it started saw an empty queue, although the timer is not reset at or below the minimum |
| AutoScaler.StopsAfterCooldown | src/tmux_orchestrator/infrastructure/autoscaler.py:223-277 | every stop follows at least cooldown seconds of empty polls and the previous stop by at least cooldown seconds |
| AutoScaler.AutoScaler.ScaleOnce | src/tmux_orchestrator/infrastructure/autoscaler.py:288-299 | one turn of the scale loop is one poll of the model |
| AutoScaler.PollMeans | src/tmux_orchestrator/infrastructure/autoscaler.py:190-277 | one poll, in numbers: when an agent is added, when one is stopped, and what becomes of the timer |
| Broadcast.RaceOutcome | src/tmux_orchestrator/application/orchestrator.py:2578-2647 | race: complete exactly if some task succeeded, the first to succeed is the winner for ever, failed exactly if all failed |
| Broadcast.RaceCancels | src/tmux_orchestrator/application/orchestrator.py:2594-2604 | race: nothing is cancelled before the first success, then exactly the tasks without a result, each once, and nothing afterwards |
| Broadcast.GatherOutcome | src/tmux_orchestrator/application/orchestrator.py:2578-2630 | gather: ends exactly when all results are in, complete exactly if at least one succeeded |
| Broadcast.AllPlaced | src/tmux_orchestrator/application/orchestrator.py:2578-2590 | only the first final result of each task counts |
| Broadcast.BroadcastGroup.OnFinalResult | src/tmux_orchestrator/application/orchestrator.py:2578-2647 | handling one final result takes the step of the model |
| Broadcast.BroadcastGroup.CancelOthers | src/tmux_orchestrator/application/orchestrator.py:2594-2604 | the winner cancels exactly the tasks without a result |

## Left out

- Prompts, contexts, iteration headers, tags and timeouts inside task specs: they do not affect the graph.
- Which tasks the route registers for a loop: it collects them by the prefix of their id strings (workflows.py:459-487), so tasks of nested loops belong to no iteration of the outer one; registered iterations are given here.
- Workflows given as a plain task list: only the shared DAG check is modelled, which is generic in the ids.
- The rate-limit, idempotency-key and queue-full paths of submission, and the `_unfinished_tasks` counter.
- Ephemeral agents, chain-branch spawning, drain, agent restart and recovery: process lifecycle.
- Checkpoints and resume: released waiting tasks stay in the waiting table there, so there is no clean round trip.
- Messages, webhooks, telemetry and logging: I/O without influence on the tables.
- The circuit breaker's state: its answer is an arbitrary boolean of each dispatch.
- The binary heap: a set from which the least entry is taken; re-heapifying is not modelled.
- Interleaving inside an operation: each operation is one atomic step, as between two awaits of the event loop.
- TaskQueue.AsyncPriorityTaskQueue.Put: asks for an id that is not pending and a number larger than all earlier ones; `Orchestrator.Put`, its only caller, is proved to respect both.
- Orchestrator.Orchestrator.OnResult: asks that the task is in flight on the agent that answers, which is the environment's part of a run.
- Orchestrator.Orchestrator.ReaperTick: the order in which expired tasks are visited is left open, because it is the iteration order of a dictionary.
- Orchestrator.Orchestrator.SubmitTask: the task's own submission and expiry times are given, not computed from a clock.
- WorkflowManager.WorkflowManager.OnTaskComplete: runs are values in a map, so aliasing of one run object from outside the manager is not modelled.
- WorkflowManager.EarlyExit: asks that no other registered loop holds the task. The route's prefixes let two loops share tasks only if the name of one begins with an iteration prefix of the other (`a` and `a_i1_b`); then `LoopHistories.CheckedByFiring` and `WorkflowManager.FireExact` say what happens, one loop after the other.
- LoopHistories.EachLoopOnce: asks the same of all registrations; without it, `LoopHistories.EndsPerRegistration` and `LoopHistories.CancelledInOrder` hold, and a shared task can be cancelled twice.
- RateLimiter.TokenBucketRateLimiter.Acquire: stated for a caller that nobody disturbs and a burst of at least one; interleaved turns are covered by `RateLimiter.WindowBound`, smaller bursts by `RateLimiter.TooSmallToGrant`.
- RateLimiter.WindowBound: uses exact real arithmetic instead of floating point.
- AutoScaler.CountBounds: configuration is fixed during a run; live reconfiguration is not modelled.
- Broadcast.RaceOutcome: results of tasks that expire, are dead-lettered or fail in a cascade never reach the group, so such a group stays open; the lemma speaks of the results that arrive.
- Eventual completion: no liveness is claimed. `SchedulerEnds.DependentsNeverRun` says what never runs; that everything else runs in the end depends on agents and clocks.
