# A verified model of the Pharae runtime

Pharae turns an objective into a plan, routes each task to a capability, executes the plan, judges the
run, and learns from it. This project models that path in Dafny and proves what it promises.

**Plan execution.** `Dag`, `Semantics` and `SchedulerSpec` define what a plan means: a recursion on the
dependency graph from one verdict per task. `Kahn` and `Scheduling` are the scheduler, with Kahn's
algorithm and the recursive blocking walk. `Execution` is the executor's run loop as transitions;
everything a run does not decide itself is a parameter: the outcome of the n-th call of a task's
handler, the guard's verdict, and what each pass observes (the cancel flag, both reads of the pause
flag, which futures finished, in which order). A theorem about all values of these parameters is a
theorem about all interleavings. `RunInvariant`, `RunLoop`, `RunProgress`, `RunTheorems`,
`RunGuarantees`, `RunAudit`, `RunResults`, `Resume` and `PinnedPlans` prove the invariant of every step
and what follows for whole runs: one meaning for all interleavings, the cancel rule, what the status
says, termination, truthful and real results, an exact log, exact checkpoints, chains of resumes, runs
from any checkpoint. `PlanExecutor` is the
executor in its imperative form, proved to do exactly those transitions with no scheduler call ever
refused; `SequentialRuntime` is the simple runtime, proved to reach the same meaning. `Verification`
shows that every run the executor returns is verifiable, and `Planning` that plans are accepted and
that replanning keeps their meaning.

**Learning.** `Policies`, `Memory` and `Learning` keep skills, denials and policy versions step by step
and prove that they are functions of the whole history. `Rewards` and `Capabilities` give scores in
closed form. `Routing` proves the choice optimal, undominated, independent of order and stable under
success. `Pipeline` joins the two halves: capabilities that keep failing in executed runs are not routed
to again, at-signs in versions apart.

**Plugins and statistics.** `Plugins` proves what every lifecycle operation does to plugin records,
registry and handler table, what stays in service and what stays out of it. `Statistics` proves Holm's
step-down procedure equal to closed Bonferroni testing, and `Bootstrap` bounds the bootstrap estimates
for every stream of draws.

Where the code and its documentation differ, the model follows the code:

- The executor's documentation says that unpausing restarts dispatch. The loop reads the pause flag twice
  per pass; an unpause between the reads, with nothing in flight, ends the run with tasks still pending.
  `RunTheorems.EveryInterleavingMeansFinal` gives the exact condition.
- The plugin manager promises that a rejected plugin leaves no trace. A refused install leaves one
  exactly when it got as far as wiring and the registry takes the package's first capability: wiring
  then stops at the first capability that the registry's own permission or type list refuses or that is
  active already, with those before it active. `Plugins.PluginManager.Install` states this and
  `Plugins.RefusedInstall` is such an input. An update refused in wiring has unwired the old version
  already: if the plugin was installed, it is out of service while its record says installed
  (`Plugins.RefusedUpdate`). If it was disabled, everything installed stays in service, but the refused
  update puts a capability of the disabled plugin back in service, with no handler, exactly when the new
  version names it before the first capability the registry refuses; enabling the plugin then fails, and
  removing it leaves the capability active. `Plugins.PluginManager.Update` states the condition,
  `Plugins.RefusedUpdateOfDisabled` and `Plugins.RevivedForGood` are such an input.
- A cancelled run is meant to leave no task unfinished. A cancel that comes after the final sweep was
  decided and before the status is leaves the task pending that the pause race stranded;
  `RunGuarantees.CancelAnyTime` gives the exact condition and `RunGuarantees.LateCancelLeavesATask` is
  such an input.
- A capability that keeps failing is meant to be denied. Cog denies the part of the binding before its
  last at-sign, which is another name if the version has an at-sign of its own;
  `Learning.FailingCapabilityIsNotRouted` states what is denied. `Learning.AtSignEscapesDenial` shows that
  no such capability is denied: the router goes on choosing those after whose last at-sign it can read
  numbers, as with the suffix "-a@1".
- Routing is meant never to raise for a task. It breaks ties by the numbers after the last at-sign of the
  written version, and raises if any eligible candidate has none there, as with the suffix "-a@b".
  `Routing.Router.Route` and `Routing.Router.RoutePlan` say exactly when and what is recorded by then.
- The scheduler says that a failed task blocks all its transitive dependents. Tasks submitted after the
  failure are not blocked; `Scheduling.LateSubmission` says exactly when a later submission is safe and
  `Scheduling.SubmitOnFailed` is an input where it is not.
- Version comparison follows only the numeric part of section 11 of Semantic Versioning 2.0.0, so
  pre-releases tie with their release.

`dafny verify dfyconfig.toml` checks the project.

## Model

| member | source | states |
|---|---|---|
| Scheduling.Scheduler.constructor | nexus/kernel/scheduler.py:18-21 | A new scheduler is empty and valid |
| Scheduling.Scheduler.Submit | nexus/kernel/scheduler.py:23-42 | A batch is accepted exactly when its ids are fresh and distinct, its dependencies are closed and the combined graph has no cycle; the error is the first of these rules broken, and a rejection changes nothing; pending tasks added to a sound state leave it sound exactly when none depends directly on a failed or blocked task |
| Scheduling.RejectionSays | nexus/kernel/scheduler.py:23-37 | Ids repeated in a batch are reported before ids already scheduled, these before unknown dependencies, and these before a cycle; a batch with none of these is accepted |
| Scheduling.Scheduler.Register | nexus/kernel/scheduler.py:38-42 | An accepted batch is appended in order, every dependency lists its dependents, and the scheduler stays valid |
| Scheduling.LinkTask | nexus/kernel/scheduler.py:41-42 | Each task is listed under exactly the tasks it depends on |
| Scheduling.AcceptedGraph | nexus/kernel/scheduler.py:23-37 | An accepted plan's graph is closed and acyclic and its nodes are the plan's ids |
| Kahn.CheckAcyclic | nexus/kernel/scheduler.py:44-63 | Kahn's loop answers whether the graph has a cycle, repeated dependencies included |
| Kahn.ReverseEdges | nexus/kernel/scheduler.py:51-54 | The reversed graph counts every edge as often as the original lists it |
| Kahn.Sources | nexus/kernel/scheduler.py:48-49 | The initial queue holds exactly the nodes without dependencies, once each |
| Kahn.Release | nexus/kernel/scheduler.py:58-61 | Releasing a node lowers each child by the number of its edges and queues exactly the children that reach zero |
| Kahn.VisitTask | nexus/kernel/scheduler.py:55-61 | One visit keeps the loop's state: visited in dependency order, indegrees equal to unvisited dependencies, queue equal to the released unvisited nodes |
| Kahn.KahnDecides | nexus/kernel/scheduler.py:62-63 | With an empty queue the visited count equals the graph's size if and only if the graph is acyclic |
| Dag.StuckMeansCycle | nexus/kernel/scheduler.py:55-63 | A nonempty set of nodes each depending on another member contains a cycle |
| Dag.OrderedIsAcyclic | nexus/kernel/scheduler.py:55-63 | A graph with a topological order has no cycle |
| Scheduling.ReadyListIsExact | nexus/kernel/scheduler.py:71-81 | The ready list holds exactly the pending tasks whose dependencies completed, once each, in the scheduler's order |
| Scheduling.ReadyPair | nexus/kernel/scheduler.py:78-81 | Of any two entries of the ready list the one with the higher priority comes first, and of two with the same priority the one submitted first |
| Scheduling.Scheduler.Start | nexus/kernel/scheduler.py:83-87 | Only a pending or ready task starts; anything else is refused and changes nothing |
| Scheduling.Scheduler.Complete | nexus/kernel/scheduler.py:89-90 | Only a running task completes; anything else is refused and changes nothing |
| Scheduling.Scheduler.Fail | nexus/kernel/scheduler.py:92-94 | Failing a running task also blocks everything unfinished that is reachable from it through unfinished tasks, and nothing else |
| Scheduling.Scheduler.BlockDependents | nexus/kernel/scheduler.py:107-112 | The recursive walk changes only unfinished tasks reachable from the start, to blocked, and leaves everything below them finished |
| Scheduling.BlockWalkIsExact | nexus/kernel/scheduler.py:107-112 | A walk with those two properties computes exactly the declarative blocking |
| SchedulerSpec.FailBlocksExactlyDependents | nexus/kernel/scheduler.py:92-112 | In a sound state the walk blocks exactly the transitive dependents of the failed task, although it stops at finished children |
| SchedulerSpec.StartSound | nexus/kernel/scheduler.py:83-87 | Starting a ready task keeps the state sound: only tasks with completed dependencies have begun |
| SchedulerSpec.CompleteSound | nexus/kernel/scheduler.py:89-90 | Completing a running task keeps the state sound |
| SchedulerSpec.FailSound | nexus/kernel/scheduler.py:92-112 | Failing a running task keeps the state sound |
| SchedulerSpec.NothingReadyMeansDone | nexus/kernel/scheduler.py:71-81 | Progress: with nothing running and nothing ready every task of a sound acyclic graph is finished |
| Scheduling.LateSubmission | nexus/kernel/scheduler.py:23-42 | A later submission onto a sound state keeps it sound, and leaves the scheduler sure to finish every task however they turn out, if and only if no new task depends directly on a failed or blocked one |
| SchedulerSpec.SoundAlwaysFinishes | nexus/kernel/scheduler.py:71-112 | From a sound state no sequence of starts, completions and failures stops with an unfinished task |
| Scheduling.SubmitOnFailed | nexus/kernel/scheduler.py:23-42 | The failing input: a task submitted on top of a failed one stays pending with nothing ready or running |
| Scheduling.Scheduler.Cancel | nexus/kernel/scheduler.py:96-99 | Cancelling turns an unfinished task into a cancelled one and leaves every other status alone |
| Scheduling.Scheduler.Finish | nexus/kernel/scheduler.py:101-105 | Only a running task can be given an outcome |
| Scheduling.Scheduler.Done | nexus/kernel/scheduler.py:114-116 | Done is true exactly when every task is in a terminal status |
| Semantics.SolutionIsFinal | nexus/executor/executor.py:200-233 | A plan's meaning is the one solution of: pinned tasks complete, others complete or fail by their own verdict when all dependencies completed, and are blocked otherwise |
| Semantics.FinalClosedForm | nexus/executor/executor.py:200-233 | That meaning in closed form: completed iff the task and all its ancestors succeed, failed iff it alone does not, blocked iff an ancestor does not |
| Semantics.FinalMonotone | nexus/executor/executor.py:200-233 | More successes never turn a completed task into anything else |
| SchedulerSpec.SoundAndDoneIsFinal | nexus/executor/executor.py:200-233 | A sound, finished state in which every task kept its own verdict is the plan's meaning |
| RunInvariant.BeginInv | nexus/executor/executor.py:176-195 | The run invariant holds when a run starts, restored results included |
| RunInvariant.DispatchKeeps | nexus/executor/executor.py:247-291 | Every dispatch keeps the run invariant: guard refusal, missing handler and launch alike |
| RunInvariant.SettleKeeps | nexus/executor/executor.py:299-333 | Every settlement keeps the run invariant: success, retry and final failure alike |
| RunLoop.ReadyTasksExact | nexus/executor/executor.py:203-204 | What one pass dispatches is exactly the ready tasks, each once |
| RunLoop.AfterDispatchKeeps | nexus/executor/executor.py:202-204 | After an unpaused pass has dispatched, nothing is ready |
| RunAudit.PassStarts | nexus/executor/executor.py:202-216 | One pass starts exactly the ready tasks, the more urgent before the less and equals in the plan's order, and none while it reads a pause; settling starts none |
| RunLoop.LoopKeeps | nexus/executor/executor.py:200-216 | The run invariant holds however the loop goes on, whatever it observes |
| RunLoop.BreakMeansDone | nexus/executor/executor.py:205-209 | A loop left by its break has finished every task unless the pause flag changed between its two reads |
| RunTheorems.EveryInterleavingMeansFinal | nexus/executor/executor.py:200-233 | Every uncancelled run that ends has the plan's meaning as its final statuses if and only if the loop was not left through the pause race |
| RunTheorems.SteadyPauseMeansFinal | nexus/executor/executor.py:200-233 | A run whose schedule never unpauses between the two reads of one pass ends in the plan's meaning |
| RunTheorems.AnyTwoRunsAgree | nexus/executor/executor.py:200-233 | Any two such runs of a plan whose tasks have the same verdicts agree on every status, whatever their interleavings and attempts |
| RunTheorems.UnpauseRaceStrandsATask | nexus/executor/executor.py:202-209 | The race is real: an unpause between the two reads ends a run of one task with that task still pending |
| RunProgress.SettleLowersMeasure | nexus/executor/executor.py:311-333 | Each settled future strictly lowers a measure of unfinished tasks and remaining attempts |
| RunProgress.LandingsAreBounded | nexus/executor/executor.py:201-216 | In every environment, pauses and idle polls included, the passes that settle something plus the work left at the end are at most the work at the start |
| RunProgress.SuspendedPasses | nexus/executor/executor.py:201-216 | A loop not left yet has spent every pass on settling, on waiting for a handler or on a pause |
| RunProgress.NothingInFlightIsDone | nexus/executor/executor.py:202-209 | An unpaused pass that finds nothing in flight leaves the loop with every task finished |
| RunProgress.PausesAreRead | nexus/executor/executor.py:205-208 | A pass waits for a pause only if its second read found one |
| RunProgress.LoopEnds | nexus/executor/executor.py:201-216 | The loop ends once its passes outnumber the work, not counting those that waited |
| RunGuarantees.RunsEnd | nexus/executor/executor.py:201-216 | A run ends within tasks times (attempts + 1) passes, not counting idle polls and passes that read a pause |
| RunGuarantees.EndlessRunsWait | nexus/executor/executor.py:201-216 | A run that never ends does nothing but wait from some pass on: no handler finishes, or the pause never does |
| RunGuarantees.HandlerCallsAreBounded | nexus/executor/executor.py:290-320 | A run makes at most tasks times attempts handler calls, none for a restored, refused or unhandled task, and none past the last attempt |
| RunResults.CallsAreNumbered | nexus/executor/executor.py:290-320 | No handler call is made twice, the calls of a task are its attempts 1, 2, 3 and so on in that order, and a task settled by its handler was called as often as its result says, any other not at all |
| RunTheorems.DrainSettles | nexus/executor/executor.py:217-224 | Draining settles every future in flight with the real result of its attempt and retries none, in any order |
| RunGuarantees.CancelRule | nexus/executor/executor.py:217-235 | A run whose cancel is seen before the final sweep ends CANCELLED with every task finished: what was in flight keeps its real result, what had finished keeps its own, nothing is tried again once the loop was left, and every other task is blocked if an ancestor failed and cancelled otherwise |
| RunGuarantees.CancelAnyTime | nexus/executor/executor.py:217-238 | A cancel seen at any time before the status is decided makes the run CANCELLED; every task is then finished if and only if the sweep saw the cancel too or the loop was not left through the pause race |
| RunGuarantees.LateCancelLeavesATask | nexus/executor/executor.py:226-238 | The failing input: cancelled after the sweep was decided, a raced run is CANCELLED with its task pending |
| RunGuarantees.NoCallAfterCancel | nexus/executor/executor.py:210-224 | If the cancel flag stays set, no handler is called from the first settlement that sees it to the end of the run |
| RunGuarantees.BlockedIffFailedAncestor | nexus/executor/executor.py:217-235 | In a sound state a task is blocked if and only if some ancestor failed |
| RunGuarantees.EveryRunIsTruthful | nexus/executor/executor.py:231-242 | Every returned run has a result for each plan task and no other, agreeing with the scheduler, and each task started at most once and settled exactly as often |
| RunResults.EveryResultIsReal | nexus/executor/executor.py:247-333 | Every completed or failed task carries the result of the attempt that decided it, all earlier attempts having raised, or its refusal or restored output; and no task starts before its dependencies' completions are on the log |
| RunGuarantees.CheckpointIsExact | nexus/executor/executor.py:337-360 | A checkpoint that exists holds exactly the completed results, contains the dependencies of everything in it and keeps every restored output |
| PinnedPlans.SettledRunsAreSaved | nexus/executor/executor.py:299-360 | A run with checkpoints on leaves a checkpoint if and only if a task completed or failed in it, whether it ended or was interrupted |
| PinnedPlans.SettledInResults | nexus/executor/executor.py:299-360 | In a finished run that is if and only if a task failed or one that was not restored completed |
| RunResults.EveryLogIsExact | nexus/executor/executor.py:186-360 | The log opens with the restored tasks, if any, and the start, and closes with one terminal event; checkpoints follow exactly the settlements and count what is complete; exactly the tasks the guard refuses are refused, between their start and their failure; retries are numbered as the calls they announce |
| PinnedPlans.AnyCheckpointLogIsExact | nexus/executor/executor.py:186-360 | The same of the log of a run from any checkpoint |
| RunGuarantees.RunStatusSays | nexus/executor/executor.py:233-241 | A run is CANCELLED if and only if a cancel was seen before its status was decided; otherwise COMPLETED if all tasks are, PARTIAL if some are and FAILED if none is; the last event says which |
| RunGuarantees.CompletedIffAllSucceed | nexus/executor/executor.py:362-370 | An uncancelled, unraced run is COMPLETED if and only if every task was restored or succeeds by itself |
| PinnedPlans.AnyCheckpointStatusSays | nexus/executor/executor.py:362-370 | The status rule for a run from any checkpoint |
| PinnedPlans.AnyCheckpointCompletes | nexus/executor/executor.py:362-370 | An uncancelled, unraced run from any checkpoint is COMPLETED if and only if every task was restored or succeeds by itself |
| RunGuarantees.SucceedsSays | nexus/executor/executor.py:299-320 | A task succeeds by itself if the guard allows it, it has a handler, and its first attempt or a later one within the configured number returns |
| Resume.PinningSuccessesChangesNothing | nexus/executor/executor.py:176-186 | Pinning tasks that succeed anyway changes no status of the plan's meaning |
| Resume.ResumeRefinesUninterrupted | nexus/executor/executor.py:138-146 | Interrupting a fresh run anywhere and resuming it ends every task as the uninterrupted plan would |
| Resume.ResumeStep | nexus/executor/executor.py:176-186 | One resume keeps the stored outputs and their closure and invokes nothing that is stored |
| Resume.ResumesOnlyAdd | nexus/executor/executor.py:138-146 | Along any chain of resumes the checkpoint only grows, stays dependency-closed, and nothing in it is ever invoked again |
| Resume.ChainMeansFinal | nexus/executor/executor.py:138-146 | However often a plan is interrupted and resumed, the first resume that ends uncancelled and unraced leaves every task as one undisturbed run would, if the verdicts stay the same |
| PinnedPlans.RunsAlike | nexus/executor/executor.py:150-243 | A run from any checkpoint, dependency-closed or not, is state by state the run of the plan in which the restored tasks have no dependencies, so all that is proved of closed checkpoints holds of it |
| PinnedPlans.AnyCheckpointMeansFinal | nexus/executor/executor.py:176-233 | An uncancelled run from any checkpoint ends in the plan's meaning with the restored tasks pinned, exactly unless the loop was left through the pause race |
| PinnedPlans.AnyCheckpointIsTruthful | nexus/executor/executor.py:176-242 | The record of a finished run from any checkpoint is complete and truthful |
| PlanExecutor.Dispatcher.constructor | nexus/executor/executor.py:162-195 | Submitting fresh copies, replaying the checkpoint and publishing the start reach the modelled first state |
| PlanExecutor.Dispatcher.Replay | nexus/executor/executor.py:176-190 | Replaying starts and completes exactly the checkpointed tasks of the plan, with their recorded outputs |
| PlanExecutor.Dispatcher.SaveCheckpoint | nexus/executor/executor.py:337-360 | A checkpoint is taken of the completed outputs, when checkpoints are on |
| PlanExecutor.Dispatcher.DispatchTask | nexus/executor/executor.py:247-291 | A first dispatch does what the modelled step does: guard, then handler, then launch |
| PlanExecutor.Dispatcher.SettleTask | nexus/executor/executor.py:299-333 | A settlement does what the modelled step does, and no scheduler call in it is refused |
| PlanExecutor.Dispatcher.SettleInRun | nexus/executor/executor.py:299-333 | Within a run a settlement also keeps the run invariant |
| PlanExecutor.Dispatcher.DispatchReady | nexus/executor/executor.py:202-204 | Dispatching the ready list task by task is the modelled dispatch: a task stays ready until its turn, and the more urgent start first |
| PlanExecutor.Dispatcher.SettleLandings | nexus/executor/executor.py:210-216 | Settling the finished futures of a pass is the modelled settlement |
| PlanExecutor.Dispatcher.DrainFlights | nexus/executor/executor.py:217-224 | Draining is the modelled drain |
| PlanExecutor.Dispatcher.RunLoop | nexus/executor/executor.py:200-216 | The loop reaches the modelled end and leaves the way the model says |
| PlanExecutor.Dispatcher.CancelUnfinished | nexus/executor/executor.py:226-229 | Exactly the unfinished tasks become cancelled |
| PlanExecutor.Dispatcher.DrainAndSweep | nexus/executor/executor.py:217-229 | After a cancel what is in flight settles and the rest is cancelled, and nothing else happens |
| PlanExecutor.Dispatcher.FinishRun | nexus/executor/executor.py:217-243 | Drain, sweep, missing results and terminal event are the modelled ending; the status is CANCELLED if and only if a cancel was seen, else COMPLETED, PARTIAL or FAILED as all, some or none of the results are completed |
| PlanExecutor.CopiesKeepThePlan | nexus/executor/executor.py:162-174 | Copying a plan keeps ids, dependencies and priorities, so a plan is accepted iff its copy is, and all copies are fresh |
| PlanExecutor.Executor.Execute | nexus/executor/executor.py:116-119 | A run is refused unless the runtime is started and the plan accepted; otherwise it is the modelled run, and its last checkpoint is stored under the plan's id |
| PlanExecutor.Executor.Resume | nexus/executor/executor.py:138-146 | Without a checkpoint resuming is an error; with one it is the modelled run from it, whatever it holds |
| PlanExecutor.Executor.ExecuteThenResume | nexus/executor/executor.py:116-146 | After a run in which any task completed or failed with checkpoints on, resuming the plan finds its checkpoint |
| PlanExecutor.OwnCheckpointCloses | nexus/executor/executor.py:138-146 | What a run left in the store comes with its dependencies in every plan of the same tasks |
| PlanExecutor.Executor.RunPlan | nexus/executor/executor.py:150-243 | A runtime that is not started is refused before anything changes, and a rejected plan after the run counter was raised; both before any task starts |
| SequentialRuntime.Runtime.Start | nexus/kernel/runtime.py:66-70 | Starting is idempotent |
| SequentialRuntime.Runtime.Stop | nexus/kernel/runtime.py:72-78 | Stopping is idempotent |
| SequentialRuntime.Runtime.RegisterHandler | nexus/kernel/runtime.py:82-88 | A blank key is refused; any other key gets the handler |
| SequentialRuntime.Runtime.UnregisterHandler | nexus/kernel/runtime.py:90-91 | Unregistering removes the key and says whether it was there |
| SequentialRuntime.Runtime.Execute | nexus/kernel/runtime.py:108-139 | A plan of fresh tasks ends in its meaning, with real results, dependencies first on the log and nothing left unsettled; any accepted plan ends with nothing ready, a result for every task, and as COMPLETED, PARTIAL or FAILED as all, some or none of its tasks are completed |
| SequentialRuntime.HandlersSay | nexus/kernel/runtime.py:99-104 | The handler under a task's binding runs it, else the one for its type, else none; nothing is refused or tried twice |
| SequentialRuntime.Runtime.ExecuteTask | nexus/kernel/runtime.py:141-171 | Running one ready task to its end is a dispatch followed at once by its settlement |
| SequentialRuntime.Runtime.ExecuteRound | nexus/kernel/runtime.py:128-129 | Every task of a round is still ready when its turn comes, the tasks start in the order listed, and a round leaves fewer pending tasks |
| SequentialRuntime.Runtime.RunRounds | nexus/kernel/runtime.py:124-129 | The rounds end, and then nothing is ready |
| SequentialRuntime.ExecutorAgreesWithRuntime | nexus/kernel/runtime.py:108-139 | Any uncancelled, unraced executor run with the same verdicts ends in the statuses this runtime reaches on fresh tasks |
| SequentialRuntime.ReadyStays | nexus/kernel/runtime.py:128-129 | Executing one ready task, even one that fails, leaves the other ready tasks ready, from any statuses |
| Verification.VerificationEngine.RegisterCheck | nexus/verify/engine.py:56-59 | A check is appended to those of its capability type |
| Verification.VerificationEngine.TraceProblems | nexus/verify/engine.py:159-181 | No problem is reported exactly when the trace starts, ends and settles every started task |
| Verification.TrustworthySays | nexus/verify/engine.py:63-84 | Evidence is trustworthy if and only if the run is over, every planned task has a result and, on a bus, the run started and ended and every task that started has settled |
| Verification.TrustworthyOnTheBus | nexus/verify/engine.py:63-84 | The same for the bus, whose log holds the events of every run: only those under the run's own id count |
| Verification.EventsSay | nexus/verify/engine.py:164 | A run's events are exactly those that the log holds under its id |
| Verification.EventsJoin | nexus/verify/engine.py:164 | They are in the log's order |
| Verification.AllChecksPassSays | nexus/verify/engine.py:134-143 | The checks that apply are those in the table for the type of a planned task with a result, and one passes only if it returns and says so |
| Verification.VerdictsJoin | nexus/verify/engine.py:134-143 | The verdicts on several tasks are those on each, one after another |
| Verification.FractionSays | nexus/verify/engine.py:185-203 | A rate times its whole is its part, and a rate of nothing is 1 |
| Verification.CountTrueJoins | nexus/verify/engine.py:185-203 | Every positive verdict counts one |
| Verification.VerificationEngine.RunChecks | nexus/verify/engine.py:118-143 | One verdict for the run and one per check of every planned task with a result, in order |
| Verification.VerificationEngine.CheckTask | nexus/verify/engine.py:134-155 | A check that raises counts as failed |
| Verification.VerdictsMeaning | nexus/verify/engine.py:88-89 | All verdicts are positive if and only if the run completed and every applicable check passes |
| Verification.VerificationEngine.Verify | nexus/verify/engine.py:63-114 | Evidence is verified exactly when the run is over, every planned task has a result and the trace is consistent; confidence is the weighted mean of the four rates, 0 when unverified; the verdict is published and leaves every run's events as they were |
| Verification.ConfidenceMeaning | nexus/verify/engine.py:185-210 | Confidence before rounding lies in [0, 1] and is 1 exactly for a flawless run |
| Verification.EveryRunVerifies | nexus/verify/engine.py:63-84 | Evidence about any run the executor returns, retried, refused, resumed or cancelled, is verified, on any log that holds the run's events, verdicts published before included |
| Planning.Planner.MakePlan | nexus/planner/planner.py:68-149 | Without goals planning is an error; otherwise the plan is the optional gather task, the chained goal tasks and the verify task, with the id digested from the intent alone, published if there is a bus |
| Planning.GoalTaskSays | nexus/planner/planner.py:96-117 | The task for a goal has the type the goal is classified as and the goal as its payload, waits for the task before it, and is new, unbound and of priority 0 |
| Planning.PlanEndsSay | nexus/planner/planner.py:87-130 | The context is gathered first if there is any and the budget allows it, and last comes the verification, waiting for every goal |
| Planning.PlannedIsChained | nexus/planner/planner.py:96-130 | Ids are distinct, dependencies point backwards and every task waits for the one before it |
| Planning.PlansAreAccepted | nexus/planner/planner.py:87-130 | Every plan the planner makes is accepted by a fresh scheduler |
| Planning.ChainedMeaning | nexus/planner/planner.py:96-130 | A plan's tasks succeed up to the first bad one, which fails, and everything after it is blocked |
| Planning.VerifyCompletesLast | nexus/planner/planner.py:119-130 | The verify task completes if and only if every task of the plan does |
| Planning.Planner.Replan | nexus/planner/planner.py:153-197 | Replanning a completed plan is an error; otherwise the successor keeps the rest, with provenance |
| Planning.SuccessorSays | nexus/planner/planner.py:164-181 | The successor holds the tasks that are not completed, in their order, each with its id, type, payload and priority, new and unbound, waiting for what it waited for among them |
| Planning.SuccessorGraph | nexus/planner/planner.py:164-181 | The successor's graph is the kept tasks with their dependencies on each other |
| Planning.SuccessorAccepted | nexus/planner/planner.py:164-181 | The successor of an accepted plan is accepted, whatever set is said to be completed |
| Planning.SuccessorMeansRest | nexus/planner/planner.py:164-181 | Each kept task ends in the successor exactly as in the original with the completed tasks pinned |
| Planning.ReplansCompose | nexus/planner/planner.py:164-181 | Two replans in a row are one replan with everything completed so far |
| Planning.ReplannedRunMeansRest | nexus/planner/planner.py:164-181 | Any uncancelled run of the successor ends every kept task as the original plan would have |
| Statistics.HolmCorrection | nexus/experiments/stats.py:66-80 | Every name gets the step-down verdict; for every level closed Bonferroni testing rejects exactly the rejected hypotheses whose p-value is within the level, which with a nonnegative level is all of them |
| Statistics.StepDown | nexus/experiments/stats.py:73-79 | The loop marks a position rejected exactly when it and every smaller p-value passed their thresholds |
| Statistics.StepsDownSays | nexus/experiments/stats.py:73-79 | A position is rejected if and only if it and every one before it, times the number of positions from it on, is at most alpha |
| Statistics.StepDownIsClosed | nexus/experiments/stats.py:73-79 | For every level, every intersection containing a hypothesis is rejected if and only if stepping down reaches it and its p-value is within the level |
| Statistics.NegativeLevelSeparates | nexus/experiments/stats.py:73-79 | At level -1 two p-values of -0.6 part the two tests, and which of them is rejected depends on the order |
| Statistics.FamilywiseControl | nexus/experiments/stats.py:66-80 | If the procedure rejects any hypothesis of a set, some p-value of the set times the set's size is at most alpha |
| Statistics.MonotoneInP | nexus/experiments/stats.py:66-80 | Smaller p-values only add rejections, in whatever order the dictionaries list them |
| Statistics.MonotoneInAlpha | nexus/experiments/stats.py:66-80 | A higher level only adds rejections |
| Statistics.BetweenBonferroniAndUncorrected | nexus/experiments/stats.py:66-80 | The procedure rejects all that plain Bonferroni rejects and nothing above the level |
| Statistics.OrderIsIrrelevant | nexus/experiments/stats.py:69-75 | The verdict does not depend on the order the dictionary lists its hypotheses in, ties included |
| Bootstrap.BootstrapInterval | nexus/experiments/stats.py:32-45 | On nonempty data with confidence in [0, 1] and at least one iteration the interval exists, is ordered and lies within the data's range, for every stream of draws |
| Bootstrap.MeanJoins | nexus/experiments/stats.py:14-15 | The mean of a whole is that of its parts, each weighed by its size |
| Bootstrap.MeanOfOne | nexus/experiments/stats.py:14-15 | The mean of one value is that value |
| Bootstrap.MeanRearranged | nexus/experiments/stats.py:14-15 | The mean does not depend on the order of the values |
| Bootstrap.MeanShifts | nexus/experiments/stats.py:14-15 | Moving every value moves the mean by as much |
| Bootstrap.EverySampleIsDrawn | nexus/experiments/stats.py:37-41 | A resample is made of the values drawn, in order, and every sample can be drawn |
| Bootstrap.IndicesSay | nexus/experiments/stats.py:43-44 | For every confidence, the two percentile indices are the points that cut off half of the rest at either end, truncated towards zero, the upper one no later than the last mean |
| Bootstrap.IntervalShifts | nexus/experiments/stats.py:37-45 | Moving all the data moves the interval's ends by as much, whatever is drawn |
| Bootstrap.IntervalCoversConfidence | nexus/experiments/stats.py:39-45 | Of the means actually drawn at least the asked-for share lies in the interval and at most half of the rest on either side |
| Bootstrap.WiderWithConfidence | nexus/experiments/stats.py:43-45 | More confidence on the same draws never narrows the interval |
| Bootstrap.Compare | nexus/experiments/stats.py:55-62 | The loop counts the comparisons that the treatment did not win, each on the draws that follow those before |
| Bootstrap.NoImprovement | nexus/experiments/stats.py:48-63 | The estimate lies in [0, 1], is 1 for short arms, 0 when all treatment values exceed all baseline values and 1 when none exceeds any |
| Bootstrap.RatioSays | nexus/experiments/stats.py:63 | The estimate times the number of comparisons is the count of those in which the treatment is no better |
| Bootstrap.CountShifts | nexus/experiments/stats.py:57-62 | Moving both arms by as much leaves every comparison as it was |
| Bootstrap.SortedMeansWithin | nexus/experiments/stats.py:39-45 | Every resample mean lies within the data's range |
| Bootstrap.BetterDataHelps | nexus/experiments/stats.py:57-62 | Raising treatment values or lowering baseline values never raises the count |
| Policies.PolicyEngine.Proposing | nexus/cog/policy.py:64-74 | A proposal is the next version of its kind, stored and journaled |
| Policies.PolicyEngine.Activating | nexus/cog/policy.py:76-88 | Activation supersedes the active version, pushes the new one and is a no-op for the active one; unknown versions are an error |
| Policies.ProposedSays | nexus/cog/policy.py:64-74 | A proposal is numbered after the versions of its kind, journaled, and changes neither the stack nor anything else |
| Policies.ActivatedSays | nexus/cog/policy.py:76-88 | Activating makes exactly that version active and pushes it; the one active before is deprecated as superseded by it; both are journaled, the older first, and nothing else changes |
| Policies.RolledBackSays | nexus/cog/policy.py:90-104 | Rolling back deprecates the top version for the reason given, pops it and makes the one below active; both are journaled in that order, and nothing else changes |
| Policies.TriedSays | nexus/cog/policy.py:106-120 | A trial without improvement only notes on the version that it was rejected and why, and journals it |
| Policies.PolicyEngine.RollingBack | nexus/cog/policy.py:90-104 | Rolling back deprecates the top version and reactivates the one below it; with fewer than two it is an error |
| Policies.PolicyEngine.ActivateIfImproved | nexus/cog/policy.py:106-120 | Only an improvement activates; a rejected trial records its reason |
| Policies.PolicyEngine.ActiveIndex | nexus/cog/policy.py:133-137 | The first active version is the top of the activation stack |
| Policies.PolicyEngine.Require | nexus/cog/policy.py:139-143 | A version is found exactly when its number is in range |
| Policies.PolicyEngine.Supersede | nexus/cog/policy.py:80-84 | The active version, if any, is deprecated as superseded, and journaled |
| Policies.PolicyEngine.Store | nexus/cog/policy.py:145-154 | A changed version is written back and journaled |
| Policies.EveryStateIsValid | nexus/cog/policy.py:64-120 | In every reachable state versions are numbered in order, the active one is the top of a stack whose neighbours differ, and folding the journal by last write gives back every version |
| Policies.AtMostOneActive | nexus/cog/policy.py:133-137 | At most one version of a kind is active, and it is the top of the stack |
| Policies.PayloadsNeverChange | nexus/cog/policy.py:1-7 | Versions and their payloads are immutable and the journal only grows |
| Policies.BalancedRestoresActive | nexus/cog/policy.py:90-104 | Whatever happened in between, a stack that never fell below its depth and is back at it has the same version active |
| Policies.RollbacksUndoActivations | nexus/cog/policy.py:90-104 | k activations that took effect followed by k rollbacks restore the version active before |
| Memory.MemorySystem.Promote | nexus/memory/store.py:194-252 | Nothing is added without verified evidence and a policy id; otherwise exactly one item is |
| Memory.MemorySystem.Deprecate | nexus/memory/store.py:254-275 | Deprecating marks the item, idempotently; unknown ids are an error |
| Memory.DeprecateSkill | nexus/memory/store.py:279-288 | Deprecating a live skill removes exactly it from what is read |
| Learning.Cog.Learn | nexus/cog/cog.py:80-117 | Unverified evidence changes nothing; otherwise memory, policies and recorded outcomes move as the history functions say |
| Learning.Cog.Record | nexus/cog/cog.py:121-154 | One reflection and one item per failed task are promoted |
| Learning.FailuresSay | nexus/cog/cog.py:137-154 | One failure item per failed task, in order, with the run, the task, its binding and the plan's signature |
| Learning.SuccessSays | nexus/cog/cog.py:85-87 | A lesson is a success if the evidence says so, or says nothing and the run completed |
| Learning.SignatureJoins | nexus/cog/cog.py:87-89 | A signature joins the types of the plan's tasks by arrows |
| Learning.BindingSays | nexus/cog/cog.py:90-92 | A task's binding is the one the plan gives it, and a task of no plan has none |
| Learning.OutcomesSay | nexus/cog/cog.py:158-177 | A capability gets one outcome per settled task bound to it, in order, a success if and only if the task completed, with the evidence's confidence and reward |
| Learning.NewSkillSays | nexus/cog/cog.py:192-220 | A skill holds the types of the plan's tasks in order and the runs of the signature's first successes, as many as the threshold, with their mean confidence |
| Learning.MeanConfidenceSays | nexus/cog/cog.py:211-213 | The mean times the number of episodes is the sum of their confidences |
| Learning.RecordedSays | nexus/cog/cog.py:121-154 | A lesson adds its reflection and then its failures, after everything remembered before |
| Learning.Cog.UpdateScores | nexus/cog/cog.py:158-177 | Every settled task with a known binding records one shaped outcome; unknown bindings are skipped |
| Learning.Cog.PromoteSkill | nexus/cog/cog.py:181-220 | A skill is promoted when none is live and the successes reach the threshold |
| Learning.Cog.DeprecateFirst | nexus/cog/cog.py:222-234 | The first live skill of the signature is deprecated |
| Learning.Cog.ReviseRouting | nexus/cog/cog.py:238-263 | Each failed binding with enough recorded failures gets its name denied by a new active policy version |
| Learning.SkillsFollowHistory | nexus/cog/cog.py:181-234 | A signature has at most one live skill, and has one if and only if its latest planned lesson succeeded and its successes reach the threshold |
| Learning.LearnTogether | nexus/cog/cog.py:80-117 | Any number of Cogs sharing one memory, taking turns in any way, leave in it what one would; from an empty memory its skills are those of the whole verified history |
| Learning.DenialsFollowHistory | nexus/cog/cog.py:238-263 | Exactly the names of bindings that failed in an unsuccessful lesson after reaching the threshold are denied |
| Learning.DeniedIffEnoughFailures | nexus/cog/cog.py:238-263 | With genuine evidence a name is denied if and only if some binding of it has the threshold of recorded failures |
| Learning.UngenuineEvidenceDeniesNothing | nexus/cog/cog.py:115-116 | Failures recorded in runs that are called a success deny nothing |
| Learning.DenialsOnlyGrow | nexus/cog/cog.py:238-263 | The denied set never shrinks |
| Capabilities.BindingKeepsItsName | nexus/cog/cog.py:243-244 | A binding the router wrote is split back into the name it came from if and only if the version has no at-sign of its own |
| Learning.BindingResolves | nexus/cog/cog.py:158-177 | Without one, the binding leads back to the very record it was written for |
| Learning.RulesSay | nexus/cog/cog.py:43-52 | The active routing policy replaces the denied names and nothing else of the base policy |
| Learning.FailingCapabilityIsNotRouted | nexus/cog/cog.py:43-52 | Once a binding failed often enough nothing is chosen that carries the name it is split into; this is the capability's own name if and only if its version has no at-sign |
| Learning.AtSignEscapesDenial | nexus/cog/cog.py:243-262 | The failing inputs: any eligible capability whose version has an at-sign may fail as often as the threshold says without being denied; without rivals it is still chosen if and only if the router can read numbers after the last at-sign, and if it cannot the router stops wherever the capability is a candidate |
| Pipeline.RunLessonsAreGenuine | nexus/cog/cog.py:85-87 | Lessons from executed runs judged by the verification engine are genuine |
| Pipeline.FailingCapabilitiesAreRoutedAround | nexus/cog/cog.py:115-116 | End to end: after learning from any executed runs no task is routed to a name that a binding with the threshold of failures is split into; this is the capability's own name if and only if its version has no at-sign |
| Rewards.RewardIsMonotone | nexus/cog/reward.py:42-51 | The reward stays in [0, 1], is 0 for a failure and never falls when outcome, confidence or cost improves |
| Rewards.RewardSays | nexus/cog/reward.py:42-51 | A success pays its base less the weighted share of its cost, and a failure nothing |
| Rewards.BaseSays | nexus/cog/reward.py:44-50 | The base is the weighted mean of the confidence and 1, or the confidence if the weights add up to nothing |
| Rewards.CostSays | nexus/cog/reward.py:54-69 | The cost reported counts if it is a number; missing retries count as none, missing attempts as one |
| Rewards.RetryShare | nexus/cog/reward.py:54-69 | Without a cost the signal is the share of the attempts that were retries |
| Rewards.RewardGeneralizesConfidence | nexus/cog/reward.py:33-38 | Without outcome and cost weights the reward of a success is exactly the clamped confidence |
| Rewards.MoreRetriesCostMore | nexus/cog/reward.py:54-69 | Over the same attempts more retries cost more |
| Capabilities.SuffixSays | nexus/schemas/capability.py:14 | A version may end in nothing or in a sign and at least one more character of the same line; one line break at the very end goes unnoticed |
| Capabilities.Registry.Register | nexus/capabilities/registry.py:84-114 | A manifest is refused if and only if a field is blank or out of range, its type or a permission is not allowed, or it is active already; anything else is stored afresh, a retired entry included |
| Capabilities.Registry.Retire | nexus/capabilities/registry.py:116-121 | Retiring keeps the record and marks it retired |
| Capabilities.Registry.Latest | nexus/capabilities/registry.py:125-138 | The numerically newest active version of the name, or none if none is active |
| Capabilities.Registry.Find | nexus/capabilities/registry.py:140-154 | Exactly the matching records, once each, by name and then numeric version |
| Capabilities.FoundIsExact | nexus/capabilities/registry.py:140-154 | The same for any registry contents |
| Capabilities.FoundOrder | nexus/capabilities/registry.py:140-154 | What is found is in order of the names, and under one name of major, minor and patch |
| Capabilities.StringSays | nexus/capabilities/registry.py:153 | Names compare by their first difference, and a text that ends before any comes first |
| Capabilities.VersionTextInjective | nexus/capabilities/registry.py:61-63 | Two versions that pass validation are written the same only if they are the same |
| Capabilities.VersionKeyOfText | nexus/capabilities/registry.py:61-63 | A version that passed validation is read back as its three numbers, so ordering by the numbers read is ordering by the version's own |
| Capabilities.Registry.CheckHealth | nexus/capabilities/registry.py:167-184 | A probe's verdict becomes the health; without a probe it stays |
| Capabilities.Registry.RecordOutcome | nexus/capabilities/registry.py:194-235 | Only verified evidence about a known capability moves its scores |
| Capabilities.ScoredSays | nexus/capabilities/registry.py:212-235 | An outcome moves reliability a fifth of the way to 1 or 0, and trust a tenth of the way to 0 after a failure and to the reward, or without one the confidence, after a success |
| Capabilities.ScoresInClosedForm | nexus/capabilities/registry.py:212-220 | Since registration the scores are the closed-form weighted sums of the recorded targets with decay 4/5 and 9/10, stay in [0, 1], and the clamp never acts |
| Capabilities.BetterHistoryScoresHigher | nexus/capabilities/registry.py:212-220 | A history no worse at any point never yields lower scores |
| Capabilities.BetterEvidenceIsNoWorse | nexus/capabilities/registry.py:212-220 | Better evidence is never a worse outcome, and a shaped outcome keeps scores in range |
| Routing.ScoreAll | nexus/router/router.py:178-194 | Every eligible record gets its weighted score, normalized within the eligible set |
| Routing.ScoreSays | nexus/router/router.py:178-194 | A score is the weighted reliability and trust, less the weighted cost and latency relative to the greatest, plus the bonus of the preferred |
| Routing.UnitsDoNotMatter | nexus/router/router.py:178-194 | Measuring all costs or all latencies in another unit changes no score |
| Routing.OptimalSays | nexus/router/router.py:196-218 | The chosen capability has the greatest score, cost and latency measured against the greatest among the eligible; equals are decided by name and then by version |
| Routing.Choose | nexus/router/router.py:196-218 | The choice is optimal by score, then name, then the numbers read off the written version, greatest first; there is none exactly when nothing is eligible, and an error exactly when the version of an eligible record cannot be read |
| Routing.KeyMeaning | nexus/router/router.py:54-56 | The numbers read are the version's own if it has no at-sign, and otherwise those after its last at-sign |
| Routing.KeySamples | nexus/router/router.py:54-56 | After -a@1 the router reads 1; after -a@b it cannot read the version |
| Routing.NewestFirst | nexus/router/router.py:54-56 | Between versions of one name without at-signs the tie-break prefers the newer |
| Routing.PlainVersionsAreRead | nexus/router/router.py:54-56 | On a registry whose versions have no at-signs reading never fails |
| Routing.Router.Route | nexus/router/router.py:78-128 | A decision is recorded for every task unless a version cannot be read, which is an error that records nothing; the chosen capability is active, of the task's type, eligible and optimal |
| Routing.ExclusionSays | nexus/router/router.py:158-175 | The reason given for an exclusion is the first rule that is broken |
| Routing.RoutedByTheRules | nexus/router/router.py:158-175 | What a decision chooses is not denied, is healthy as far as the policy asks, and keeps every minimum and cap; nothing is chosen if and only if every active capability of the type breaks one of these rules |
| Routing.Router.RoutePlan | nexus/router/router.py:132-149 | Every task is decided and bound in order before unroutable tasks are reported; a version that cannot be read ends it there, with the tasks before it decided and bound |
| Routing.NeverDenied | nexus/router/router.py:159-163 | A denied name is never chosen |
| Routing.NeverDominated | nexus/router/router.py:178-194 | No eligible candidate is at least as good in every respect and better in one that carries weight |
| Routing.RoutedIsUndominated | nexus/router/router.py:78-128 | The same of every decision on a valid registry and every active, eligible capability of the task's type |
| Routing.FoundIsValid | nexus/router/router.py:78-85 | What a valid registry offers has costs and latencies of at least 0, however its scores moved |
| Routing.StaysChosen | nexus/router/router.py:178-194 | A chosen capability stays chosen when its own reliability or trust rises |
| Routing.StaysRouted | nexus/router/router.py:78-128 | A decision stays right when only the decided capability's scores rise in the registry |
| Routing.SuccessKeepsTheRoute | nexus/router/router.py:78-128 | A recorded success that pays at least the present trust never takes the task away from the capability |
| Routing.OrderIsIrrelevant | nexus/router/router.py:196-218 | The choice does not depend on registration order when names and the numbers read are unique |
| Plugins.PluginManager.Install | nexus/plugins/manager.py:69-83 | The error is decided by rules a caller can check; a refused install leaves a trace if and only if it got as far as wiring and the registry takes the first capability, and what is left is the capabilities before the first it does not take; an accepted one puts exactly the package's capabilities and handlers in service, and nothing of others is touched |
| Plugins.PluginManager.Update | nexus/plugins/manager.py:85-101 | An update retires the old capabilities and puts the new ones and their handlers in service, touching nothing else; after a refused one everything installed is still in service if and only if it did not get as far as wiring or the plugin was not installed; disabled plugins stay out of service if and only if it did not get as far as wiring, the plugin was not disabled, or the new version names none of the old capabilities before the first one the registry refuses; what is active beyond the installed plugins is stated in every case |
| Plugins.RefusedInstall | nexus/plugins/manager.py:69-83 | A failing input: the first capability stays active without a plugin or a handler |
| Plugins.RefusedUpdate | nexus/plugins/manager.py:85-101 | A failing input: the old version's capability and handler are gone while its record says installed |
| Plugins.RefusedUpdateOfDisabled | nexus/plugins/manager.py:85-101 | A failing input: a disabled plugin's capability is active after a refused update |
| Plugins.RevivedForGood | nexus/plugins/manager.py:111-127 | After that the plugin can not be enabled, and removing it leaves the capability active |
| Plugins.PluginManager.constructor | nexus/plugins/manager.py:54-65 | With no plugins, everything installed is in service and everything disabled is out of it |
| Plugins.PluginManager.Disable | nexus/plugins/manager.py:105-109 | Disabling retires exactly the plugin's capabilities, drops exactly their handlers and leaves every other record and past alone; what is disabled stays out of service |
| Plugins.PluginManager.Enable | nexus/plugins/manager.py:111-116 | Enabling registers exactly the plugin's capabilities afresh, with the handlers loaded again; its wiring fails if and only if one of them is active already, never if everything disabled is out of service |
| Plugins.PluginManager.Remove | nexus/plugins/manager.py:118-127 | Removing an installed plugin leaves exactly its capabilities retired and without handlers, removing a disabled one touches neither store; every record stays |
| Plugins.PluginManager.ValidateAndLoad | nexus/plugins/manager.py:146-165 | A package is accepted exactly when it is valid, permitted, free of name collisions and its entrypoint covers its capabilities |
| Plugins.AcceptableSays | nexus/plugins/manager.py:146-163 | What a package is checked for, field by field: its name, version, capabilities and entrypoint, permissions, and capability names of other plugins |
| Plugins.PluginManager.IsProvided | nexus/plugins/manager.py:167-173 | A name is taken exactly when another plugin that is not removed provides it |
| Plugins.PluginManager.Wire | nexus/plugins/manager.py:203-220 | Wiring registers all capabilities and handlers if none is inadmissible or active already; otherwise it stops at the first that is, with no handler in place |
| Plugins.PluginManager.Unwire | nexus/plugins/manager.py:222-227 | Unwiring retires exactly the package's capabilities and drops exactly their handlers |
| Plugins.WiredServes | nexus/plugins/manager.py:203-220 | Wiring a package keeps everything installed in service and changes nothing that others registered |
| Plugins.UnwiredServes | nexus/plugins/manager.py:222-227 | Unwiring a plugin keeps every other installed plugin in service and leaves what others registered |
| Plugins.WiredRests | nexus/plugins/manager.py:203-220 | Wiring a package leaves everything of disabled plugins inactive and without handlers |
| Plugins.UnwiredRests | nexus/plugins/manager.py:222-227 | Unwiring a plugin that is disabled or removed puts all it provides out of service and keeps other disabled plugins so |
| Plugins.RefusedRests | nexus/plugins/manager.py:85-101 | What a refused update leaves of disabled plugins is out of service exactly unless the plugin was disabled and some of its own capabilities went in |
| Plugins.RefusedLeaves | nexus/plugins/manager.py:85-101 | What is active beyond the installed plugins after a refused update, for an installed and for a disabled plugin |
| Plugins.UpdateRefused | nexus/plugins/manager.py:85-101 | What a refused update leaves is in service if and only if the plugin was not installed |
| Plugins.AdmittedRefusal | nexus/plugins/manager.py:203-210 | A package that was admitted once is refused only for a capability that is active already |
| Plugins.RegisteredAllAt | nexus/plugins/manager.py:203-220 | Registering a package leaves its capabilities active, unprobed and scored as their manifests say, and touches no other record or past |
| Plugins.TraceIff | nexus/plugins/manager.py:203-220 | A wiring that stopped halfway changed the registry exactly when it registered something |
| Plugins.PluginManager.DisableThenEnable | nexus/plugins/manager.py:105-116 | Disable then enable restores plugin records and puts exactly the plugin's ids and handlers back in service, leaving other capabilities alone; the plugin's own health and learned scores are not restored |

## Left out

- Working memory: a checkpoint's session state and the state manager are not modelled, only the completed outputs.
- Handlers: the outcome of a call is a function of the task and the attempt number, the guard and the handler table do not change during a run, and handlers publish no run events of their own; exceptions outside `Exception` are not modelled.
- Futures are identified by their task id, and the worker pool's size does not matter to any statement; the order in which futures finish is arbitrary.
- Planning.Planner.MakePlan: payloads are reduced to a description, the keyword classification is an uninterpreted function, and plan ids are the lists they are digests of.
- Verification.VerificationEngine.Verify: confidence is stated before rounding; log lines, artifacts, the evidence id and the cost report are left out.
- Bootstrap.BootstrapInterval: means are exact real numbers; floating-point rounding of means and of the index products is not modelled, and neither is `cohens_d`.
- Statistics.HolmCorrection: p-values and levels are real numbers; not-a-number values are not modelled.
- Policies.PolicyEngine.Proposing: creation times and bus events are left out, and the sink is always wired.
- Memory.MemorySystem.Promote: secret scanning, JSON conversion, provenance and times are left out; working memory and search are not modelled.
- Learning.Cog.Learn: results arrive listed in the order of their task ids, the registry is always wired, thresholds are at least one, and the skill's confidence is stated before rounding; the returned report is left out.
- Capabilities.Registry.Register: version strings arrive parsed, so leading zeros are lost, and permission syntax is not checked; the probe's verdict is a parameter of the health check; bus events are left out.
- Plugins.PluginManager.Install: what the entrypoint returns is a parameter, handlers are keyed by (name, version) and the signature is not modelled.
- Routing.Choose: numbers in versions are read as `int` reads ASCII digits, underscores and white space; digits of other scripts, the four ASCII separator characters and its limit on the number of digits are not modelled.
- Routing.Router.Route: the decision's list of candidate evaluations, the decision sink and bus events are left out.
- SequentialRuntime.Runtime.Execute: sessions are not modelled; what a plan of tasks that are not fresh means is stated only as far as it goes (nothing ready at the end, results agree with statuses).
- Intent parsing, the thinking budget's own rules, security policy branches, economics, organizations, representations and the theory ledger would mostly add easy members.
- The browser, research sources, live models, sandbox, command line and SQLite storage are I/O.
