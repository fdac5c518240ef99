/** The kernel runtime: handler table and sequential plan execution. On fresh tasks its result is
    the plan's meaning, the same one every interleaving of the executor ends in. */
module SequentialRuntime {
  import opened Schemas
  import opened Dag
  import opened Semantics
  import opened SchedulerSpec
  import opened Kahn
  import opened Scheduling
  import opened Execution
  import opened RunInvariant
  import opened RunLoop
  import opened RunTheorems
  import opened RunGuarantees
  import opened RunAudit
  import opened RunResults

  /** A handler; what it does to working memory is not part of the model. */
  type Handler = TaskId -> Outcome

  type HandlerTable = map<string, Handler>

  /** The router's binding wins; the capability type is the fallback. */
  function Resolve(handlers: HandlerTable, task: Task): Option<Handler> {
    if task.binding.Some? && task.binding.value != "" && task.binding.value in handlers
    then Some(handlers[task.binding.value])
    else if task.capabilityType in handlers then Some(handlers[task.capabilityType])
    else None
  }

  function ResolveId(handlers: HandlerTable, tasks: map<TaskId, Task>, t: TaskId): Option<Handler> {
    if t in tasks then Resolve(handlers, tasks[t]) else None
  }

  /** The runtime seen as an executor: one attempt, no guard, no checkpoints. */
  function SequentialConfig(tasks: seq<Task>, handlers: HandlerTable): Config {
    var m := TaskMap(tasks);
    Config(tasks, 1, false, _ => true, t => ResolveId(handlers, m, t).Some?,
           (t, a) => var h := ResolveId(handlers, m, t); if h.Some? then h.value(t) else Raised("no handler"))
  }

  /** Which handler runs a task: the one registered under its binding, else the one for its type, else none;
      nothing is refused and nothing is tried twice. */
  lemma HandlersSay(tasks: seq<Task>, handlers: HandlerTable, i: nat)
    requires i < |tasks| && NoDuplicates(Ids(tasks))
    ensures var (cfg, task) := (SequentialConfig(tasks, handlers), tasks[i]);
            && cfg.guard(task.id) && cfg.Limit() == 1
            && (task.binding.Some? && task.binding.value != "" && task.binding.value in handlers ==>
                  cfg.resolves(task.id) && cfg.invoke(task.id, 1) == handlers[task.binding.value](task.id))
            && (!(task.binding.Some? && task.binding.value != "" && task.binding.value in handlers) ==>
                  && (cfg.resolves(task.id) <==> task.capabilityType in handlers)
                  && (task.capabilityType in handlers ==>
                        cfg.invoke(task.id, 1) == handlers[task.capabilityType](task.id)))
  {
    TaskMapAt(tasks, i);
    hide TaskMap, Ids, NoDuplicates;
  }

  predicate Fresh(tasks: seq<Task>) {
    forall i :: 0 <= i < |tasks| ==> tasks[i].status == PENDING
  }

  /** Running one ready task to its end is a dispatch followed at once by its settlement. */
  ghost function SequentialStep(cfg: Config, s: RunState, t: TaskId): RunState {
    var s1 := Dispatch(cfg, s, t);
    if t in s1.inflight then Settle(cfg, s1, t, true) else s1
  }

  ghost predicate StepIs(s: RunState, t: TaskId, s': RunState, st': Statuses, r: TaskResult, settled: Event) {
    && s'.st == st' && s'.results == s.results[t := r] && s'.inflight == map[]
    && s'.trace == s.trace + [EvTaskStarted(t)] + [settled]
  }

  /** With one attempt, no guard and no checkpoints a step has three outcomes. */
  lemma SequentialSteps(cfg: Config, s: RunState, t: TaskId)
    requires s.inflight == map[] && cfg.guard(t) && cfg.maxAttempts == 1 && !cfg.checkpoints
    ensures var s', failed := SequentialStep(cfg, s, t), FailTask(cfg.G(), s.st[t := RUNNING], t);
            && (!cfg.resolves(t) ==> StepIs(s, t, s', failed, TaskResult(FAILED, NoValue, Some(NoHandler), 1),
                                            EvTaskFailed(t)))
            && (cfg.resolves(t) ==>
                  match cfg.invoke(t, 1)
                  case Returned(output) =>
                    StepIs(s, t, s', s.st[t := COMPLETED], TaskResult(COMPLETED, output, None, 1), EvTaskCompleted(t))
                  case Raised(m) =>
                    StepIs(s, t, s', failed, TaskResult(FAILED, NoValue, Some(HandlerError(m)), 1), EvTaskFailed(t)))
  {
    hide FailTask, PlanGraph, CompletedOutputs;
    assert map[][t := 1 as nat] - {t} == map[];
    assert s.trace + [EvTaskStarted(t)] + [] == s.trace + [EvTaskStarted(t)];
    assert s.st[t := RUNNING][t := COMPLETED] == s.st[t := COMPLETED];
  }

  lemma KnownTask(cfg: Config, st: Statuses, t: TaskId, tasks: map<TaskId, Task>)
    requires IsReady(cfg.G(), st, t) && tasks == TaskMap(cfg.tasks)
    ensures t in tasks && t in st && st[t] == PENDING && GraphOf(tasks) == cfg.G()
  {}

  /** What one step leaves, against the state of the executor model that it mirrors. */
  lemma StepOutcome(cfg: Config, s: RunState, t: TaskId, st: Statuses, results: map<TaskId, TaskResult>,
                    trace: seq<Event>)
    requires Mirrors(s, st, results, trace) && cfg.guard(t) && cfg.maxAttempts == 1 && !cfg.checkpoints
    ensures var s', started, failed := SequentialStep(cfg, s, t), trace + [EvTaskStarted(t)],
                                       FailTask(cfg.G(), st[t := RUNNING], t);
            && (!cfg.resolves(t) ==>
                  Mirrors(s', failed, results[t := TaskResult(FAILED, NoValue, Some(NoHandler), 1)],
                          started + [EvTaskFailed(t)]))
            && (cfg.resolves(t) ==>
                  match cfg.invoke(t, 1)
                  case Returned(output) =>
                    Mirrors(s', st[t := COMPLETED], results[t := TaskResult(COMPLETED, output, None, 1)],
                            started + [EvTaskCompleted(t)])
                  case Raised(m) =>
                    Mirrors(s', failed, results[t := TaskResult(FAILED, NoValue, Some(HandlerError(m)), 1)],
                            started + [EvTaskFailed(t)]))
  {
    hide FailTask, SequentialStep, PlanGraph;
    SequentialSteps(cfg, s, t);
  }

  lemma SequentialStepKeeps(cfg: Config, s: RunState, t: TaskId)
    requires Accepted(cfg.tasks) && RunsFresh(cfg, s) && IsReady(cfg.G(), s.st, t)
    ensures RunsFresh(cfg, SequentialStep(cfg, s, t))
  {
    hide Accepted, Inv, Dispatch, Settle, IsReady, Faithful;
    DispatchKeeps(cfg, {}, true, s, t);
    WeakenInv(cfg, {}, true, s);
    DispatchFaithful(cfg, None, s, t);
    var s1 := Dispatch(cfg, s, t);
    if t in s1.inflight {
      SettleKeeps(cfg, {}, true, s1, t, true);
      WeakenInv(cfg, {}, true, s1);
      SettleFaithful(cfg, None, s1, t, true);
    }
  }

  /** The executor model's invariants, for a run that restored nothing. */
  ghost predicate RunsFresh(cfg: Config, s: RunState) {
    Inv(cfg, {}, true, s) && Faithful(cfg, None, s) && Pins(cfg.tasks, None) == {}
  }

  // -- readiness within one round ---------------------------------------------------------

  /** What executing `t` does to the statuses. */
  ghost predicate ExecutedAt(g: Graph, st: Statuses, t: TaskId, st': Statuses) {
    st' == st[t := COMPLETED] || st' == FailTask(g, st[t := RUNNING], t)
  }

  lemma ReadyNotReached(g: Graph, st: Statuses, t: TaskId, u: TaskId)
    requires IsReady(g, st, t) && IsReady(g, st, u) && t != u
    ensures !LiveReach(g, st[t := RUNNING][t := FAILED], t, u)
  {
    forall p | IsPath(g, p) ensures !(LivePath(g, st[t := RUNNING][t := FAILED], p) && p[0] == t && p[|p| - 1] == u) {
      assert p[|p| - 2] in g[p[|p| - 1]];
    }
  }

  /** Executing one ready task leaves the other ready tasks of the round ready, whatever the
      statuses the round started from. */
  lemma ReadyStays(g: Graph, st: Statuses, t: TaskId, st': Statuses, u: TaskId)
    requires IsReady(g, st, t) && IsReady(g, st, u) && t != u && ExecutedAt(g, st, t, st')
    ensures IsReady(g, st', u)
  {
    ReadyNotReached(g, st, t, u);
    hide LiveReach;
    forall d | d in g[u] ensures d in st' && st'[d] == COMPLETED {
      assert st[d] == COMPLETED;
      if st' != st[t := COMPLETED] { FinishedUnreached(g, st[t := RUNNING][t := FAILED], t, d); }
    }
  }

  lemma FinishedUnreached(g: Graph, st: Statuses, a: TaskId, b: TaskId)
    requires b in st && st[b].Terminal()
    ensures !LiveReach(g, st, a, b)
  {}

  ghost function Pending(st: Statuses): set<TaskId> {
    set t | t in st && st[t] == PENDING
  }

  lemma ExecutionSettlesOne(g: Graph, st: Statuses, t: TaskId, st': Statuses)
    requires IsReady(g, st, t) && ExecutedAt(g, st, t, st') && st.Keys == g.Keys && Closed(g) && Acyclic(g)
    ensures st'.Keys == st.Keys && st'[t].Terminal() && Pending(st') < Pending(st)
    ensures forall u :: u in st && u != t ==> st'[u] == st[u] || (!st[u].Terminal() && st'[u] == BLOCKED)
  {
    if st' != st[t := COMPLETED] {
      assert !DependsOn(g, t, t);
    }
    hide LiveReach;
    assert t in Pending(st) && t !in Pending(st');
  }

  // -- the runtime ---------------------------------------------------------------------------

  datatype RuntimeError = NotStarted | Rejected(error: SchedulerError) | EmptyKey

  class Runtime {
    var handlers: HandlerTable
    var running: bool
    var runCounter: nat

    constructor ()
      ensures handlers == map[] && !running && runCounter == 0
    {
      handlers, running, runCounter := map[], false, 0;
    }

    method Start()
      modifies this`running
      ensures running
    {
      if running { return; }
      running := true;
    }

    method Stop()
      modifies this`running
      ensures !running
    {
      if !running { return; }
      running := false;
    }

    method RegisterHandler(key: string, handler: Handler) returns (err: Option<RuntimeError>)
      modifies this`handlers
      ensures err == if Blank(key) then Some(EmptyKey) else None
      ensures handlers == if Blank(key) then old(handlers) else old(handlers)[key := handler]
    {
      if Blank(key) { return Some(EmptyKey); }
      handlers := handlers[key := handler];
      err := None;
    }

    method UnregisterHandler(key: string) returns (found: bool)
      modifies this`handlers
      ensures found <==> key in old(handlers)
      ensures handlers == old(handlers) - {key}
    {
      found := key in handlers;
      handlers := handlers - {key};
    }

    /** Runs one ready task to its end. `s` mirrors the run as a state of the executor model. */
    method ExecuteTask(cfg: Config, t: TaskId, scheduler: Scheduler, results: map<TaskId, TaskResult>,
                       trace: seq<Event>, ghost s: RunState)
      returns (results': map<TaskId, TaskResult>, trace': seq<Event>)
      requires scheduler.Valid() && cfg == SequentialConfig(cfg.tasks, handlers)
      requires scheduler.tasks == TaskMap(cfg.tasks)
      requires IsReady(cfg.G(), scheduler.status, t) && Mirrors(s, scheduler.status, results, trace)
      modifies scheduler`status
      ensures scheduler.Valid()
      ensures ExecutedAt(cfg.G(), old(scheduler.status), t, scheduler.status)
      ensures Mirrors(SequentialStep(cfg, s, t), scheduler.status, results', trace')
      ensures t in scheduler.status && t in results' && results' == results[t := results'[t]]
      ensures results'[t].status == scheduler.status[t]
      ensures trace <= trace' && Starts(trace') == Starts(trace) + [t]
    {
      hide Registered, FailTask, SequentialStep, AllDepsCompleted, TaskMap, PlanGraph, GraphOf, Mirrors, StepIs;
      hide Starts, CompletedIn, RunEvents, Retries, HasSettlement;
      TraceAppend(trace, EvTaskStarted(t));
      TraceAppend(trace + [EvTaskStarted(t)], EvTaskFailed(t));
      TraceAppend(trace + [EvTaskStarted(t)], EvTaskCompleted(t));
      ghost var st := scheduler.status;
      KnownTask(cfg, st, t, scheduler.tasks);
      StepOutcome(cfg, s, t, st, results, trace);
      assert st[t := RUNNING][t := COMPLETED] == st[t := COMPLETED];
      var err := scheduler.Start(t);
      trace' := trace + [EvTaskStarted(t)];
      var handler := Resolve(handlers, scheduler.tasks[t]);
      if handler.None? {
        results', trace' := RecordFailure(cfg, t, NoHandler, scheduler, results, trace');
        return;
      }
      match handler.value(t)
      case Raised(message) =>
        results', trace' := RecordFailure(cfg, t, HandlerError(message), scheduler, results, trace');
      case Returned(output) =>
        err := scheduler.Complete(t);
        results' := results[t := TaskResult(COMPLETED, output, None, 1)];
        trace' := trace' + [EvTaskCompleted(t)];
    }

    method RecordFailure(cfg: Config, t: TaskId, error: TaskError, scheduler: Scheduler,
                         results: map<TaskId, TaskResult>, trace: seq<Event>)
      returns (results': map<TaskId, TaskResult>, trace': seq<Event>)
      requires scheduler.Valid() && GraphOf(scheduler.tasks) == cfg.G()
      requires t in scheduler.status && scheduler.status[t] == RUNNING
      modifies scheduler`status
      ensures scheduler.Valid() && scheduler.status == FailTask(cfg.G(), old(scheduler.status), t)
      ensures t in scheduler.status && scheduler.status[t] == FAILED
      ensures results' == results[t := TaskResult(FAILED, NoValue, Some(error), 1)]
      ensures trace' == trace + [EvTaskFailed(t)]
    {
      hide FailTask, Indexed, ListsDependents, Closed, Acyclic, GraphOf, PlanGraph;
      FailedStays(cfg.G(), scheduler.status, t);
      var err := scheduler.Fail(t);
      results' := results[t := TaskResult(FAILED, NoValue, Some(error), 1)];
      trace' := trace + [EvTaskFailed(t)];
    }

    /** One task of a round: the round's invariant holds again afterwards. */
    method ExecuteInRound(cfg: Config, t: TaskId, scheduler: Scheduler, results: map<TaskId, TaskResult>,
                          trace: seq<Event>, ghost s: RunState, ghost unstarted: bool)
      returns (results': map<TaskId, TaskResult>, trace': seq<Event>, ghost s': RunState)
      requires scheduler.Valid() && cfg == SequentialConfig(cfg.tasks, handlers)
      requires Accepted(cfg.tasks) && scheduler.tasks == TaskMap(cfg.tasks) && IsReady(cfg.G(), scheduler.status, t)
      requires Round(cfg, unstarted, s, scheduler.status, results, trace)
      modifies scheduler`status
      ensures scheduler.Valid() && Round(cfg, unstarted, s', scheduler.status, results', trace')
      ensures ExecutedAt(cfg.G(), old(scheduler.status), t, scheduler.status)
      ensures Pending(scheduler.status) < Pending(old(scheduler.status))
      ensures Starts(trace') == Starts(trace) + [t]
    {
      hide Accepted, ExecutedAt, Registered, Round, Mirrors, Starts, SequentialStep, AllDepsCompleted;
      ghost var before := scheduler.status;
      MirrorsOfRound(cfg, unstarted, s, before, results, trace);
      results', trace' := ExecuteTask(cfg, t, scheduler, results, trace, s);
      RoundStep(cfg, unstarted, s, before, results, trace, t, scheduler.status, results', trace');
      s' := SequentialStep(cfg, s, t);
    }

    /** Executes the ready tasks of one round in order. */
    method ExecuteRound(cfg: Config, ready: seq<TaskId>, scheduler: Scheduler,
                        results: map<TaskId, TaskResult>, trace: seq<Event>, ghost s: RunState, ghost unstarted: bool)
      returns (results': map<TaskId, TaskResult>, trace': seq<Event>, ghost s': RunState)
      requires scheduler.Valid() && cfg == SequentialConfig(cfg.tasks, handlers)
      requires Accepted(cfg.tasks) && scheduler.tasks == TaskMap(cfg.tasks)
      requires NoDuplicates(ready) && ready != [] && forall t :: t in ready ==> IsReady(cfg.G(), scheduler.status, t)
      requires Round(cfg, unstarted, s, scheduler.status, results, trace)
      modifies scheduler`status
      ensures scheduler.Valid() && Round(cfg, unstarted, s', scheduler.status, results', trace')
      ensures Pending(scheduler.status) < Pending(old(scheduler.status))
      ensures Starts(trace') == Starts(trace) + ready
    {
      hide Accepted, IsReady, ExecutedAt, Registered, Round, Mirrors, Starts, Pending;
      ghost var st := scheduler.status;
      results', trace', s' := results, trace, s;
      for i := 0 to |ready|
        invariant scheduler.Valid() && Round(cfg, unstarted, s', scheduler.status, results', trace')
        invariant forall j :: i <= j < |ready| ==> IsReady(cfg.G(), scheduler.status, ready[j])
        invariant i == 0 ==> scheduler.status == st
        invariant i > 0 ==> Pending(scheduler.status) < Pending(st)
        invariant Starts(trace') == Starts(trace) + ready[..i]
      {
        assert ready[..i + 1] == ready[..i] + [ready[i]];
        var t := ready[i];
        ghost var before := scheduler.status;
        results', trace', s' := ExecuteInRound(cfg, t, scheduler, results', trace', s', unstarted);
        forall j | i < j < |ready| ensures IsReady(cfg.G(), scheduler.status, ready[j]) {
          ReadyStays(cfg.G(), before, t, scheduler.status, ready[j]);
        }
      }
      assert ready[..|ready|] == ready;
    }

    /** Rounds until every task is finished or nothing is ready. */
    method RunRounds(cfg: Config, scheduler: Scheduler, ghost unstarted: bool)
      returns (results: map<TaskId, TaskResult>, trace: seq<Event>, ghost s: RunState)
      requires scheduler.Valid() && cfg == SequentialConfig(cfg.tasks, handlers)
      requires Accepted(cfg.tasks) && scheduler.tasks == TaskMap(cfg.tasks)
      requires Round(cfg, unstarted, Begin(cfg, None).(st := scheduler.status), scheduler.status, map[], [EvRunStarted])
      modifies scheduler`status
      ensures scheduler.Valid() && Round(cfg, unstarted, s, scheduler.status, results, trace)
      ensures forall t :: !IsReady(cfg.G(), scheduler.status, t)
    {
      hide Accepted, IsReady, Round;
      results, trace := map[], [EvRunStarted];
      s := Begin(cfg, None).(st := scheduler.status);
      while true
        invariant scheduler.Valid() && Round(cfg, unstarted, s, scheduler.status, results, trace)
        decreases Pending(scheduler.status)
      {
        var done := scheduler.Done();
        if done {
          NoneReadyWhenDone(cfg.G(), scheduler.status);
          break;
        }
        var ready := scheduler.Ready();
        ReadyListIsExact(scheduler.tasks, scheduler.keys, scheduler.order, scheduler.status);
        if ready == [] { break; }
        results, trace, s := ExecuteRound(cfg, ready, scheduler, results, trace, s, unstarted);
      }
    }

    /** Runs a plan until nothing more can run. The tasks' own statuses count, and `statuses` is
        what they are afterwards: a plan of fresh tasks ends in its meaning. */
    method Execute(tasks: seq<Task>) returns (err: Option<RuntimeError>, run: Run, statuses: map<TaskId, TaskStatus>)
      modifies this`runCounter
      ensures err == Some(NotStarted) <==> !running
      ensures running ==> (err.None? <==> Accepted(tasks))
      ensures runCounter == old(runCounter) + (if running then 1 else 0)
      ensures err.None? ==> statuses.Keys == PlanGraph(tasks).Keys && run.results.Keys == statuses.Keys
      ensures err.None? ==> forall t :: t in statuses ==> run.results[t].status == statuses[t]
      ensures err.None? ==> Reported(statuses, run)
      ensures err.None? ==> forall t :: !IsReady(PlanGraph(tasks), statuses, t)
      ensures err.None? && Fresh(tasks) ==>
                && Startable(SequentialConfig(tasks, handlers), None)
                && statuses == Meaning(SequentialConfig(tasks, handlers), None)
      ensures err.None? && Fresh(tasks) ==>
                FreshRun(SequentialConfig(tasks, handlers), statuses, run)
    {
      hide Acceptable, Registered, IsReady, Meaning, SettlesWhatItStarts, Startable, Fresh, FinalStatus,
           InitialStatuses, NoDuplicates, Resolve, TaskMap, Ids, FreshRun, Reported;
      EmptySubmit(tasks);
      run, statuses := Run(RunRunning, map[], []), map[];
      if !running { return Some(NotStarted), run, statuses; }
      runCounter := runCounter + 1;
      var scheduler := new Scheduler();
      var rejected := scheduler.Submit(tasks);
      if rejected.Some? { return Some(Rejected(rejected.value)), run, statuses; }
      run, statuses := ExecuteAccepted(SequentialConfig(tasks, handlers), scheduler);
      err := None;
    }

    /** Everything after an accepted submission. */
    method ExecuteAccepted(cfg: Config, scheduler: Scheduler) returns (run: Run, statuses: map<TaskId, TaskStatus>)
      requires scheduler.Valid() && cfg == SequentialConfig(cfg.tasks, handlers) && Accepted(cfg.tasks)
      requires scheduler.tasks == TaskMap(cfg.tasks) && scheduler.status == InitialStatuses(TaskMap(cfg.tasks))
      modifies scheduler`status
      ensures statuses.Keys == cfg.G().Keys && run.results.Keys == statuses.Keys
      ensures forall t :: t in statuses ==> run.results[t].status == statuses[t]
      ensures Reported(statuses, run)
      ensures forall t :: !IsReady(cfg.G(), statuses, t)
      ensures Fresh(cfg.tasks) ==> Startable(cfg, None) && statuses == Meaning(cfg, None)
      ensures Fresh(cfg.tasks) ==> FreshRun(cfg, statuses, run)
    {
      hide Accepted, Registered, IsReady, Round, Meaning, SettlesWhatItStarts, Startable, Fresh, SequentialConfig,
           AllCompleted, SomeCompleted;
      hide InitialStatuses, Reported;
      FirstRound(cfg, Fresh(cfg.tasks));
      ghost var s;
      var results, trace;
      results, trace, s := RunRounds(cfg, scheduler, Fresh(cfg.tasks));
      statuses := scheduler.status;
      run := CloseRun(statuses, results, trace);
      RoundResults(cfg, Fresh(cfg.tasks), s, statuses, results, trace);
      ClosedIsReported(statuses, results, trace);
      if Fresh(cfg.tasks) { FreshEnd(cfg, s, statuses, results, trace, run.status); }
    }
  }

  // -- invariants of the rounds --------------------------------------------------------------

  /** The record of a run of fresh tasks: real results, nothing left unsettled, dependencies first. */
  ghost predicate FreshRun(cfg: Config, statuses: Statuses, run: Run) {
    && (forall t :: t in statuses ==>
          t in run.results && SettlesWhatItStarts(run.trace, t) &&
          (if statuses[t] == COMPLETED || statuses[t] == FAILED then RealAt(cfg, None, t, run.results[t])
           else run.results[t] == TaskResult(statuses[t], NoValue, None, 1)))
    && Ordered(cfg.G(), {}, run.trace)
  }

  /** `s` is the same run as a state of the executor model. */
  ghost predicate Mirrors(s: RunState, st: Statuses, results: map<TaskId, TaskResult>, trace: seq<Event>) {
    s.st == st && s.results == results && s.trace == trace && s.inflight == map[]
  }

  /** Results agree with the statuses; and when the tasks were fresh, the run invariant holds. */
  ghost predicate Round(cfg: Config, unstarted: bool, s: RunState, st: Statuses, results: map<TaskId, TaskResult>,
                        trace: seq<Event>)
  {
    && Mirrors(s, st, results, trace) && [EvRunStarted] <= trace
    && (forall t :: t in results ==> t in st && st[t].Terminal() && results[t].status == st[t])
    && (unstarted ==> RunsFresh(cfg, s))
  }

  lemma MirrorsOfRound(cfg: Config, unstarted: bool, s: RunState, st: Statuses, results: map<TaskId, TaskResult>,
                       trace: seq<Event>)
    requires Round(cfg, unstarted, s, st, results, trace)
    ensures Mirrors(s, st, results, trace)
  {}

  lemma RoundResults(cfg: Config, unstarted: bool, s: RunState, st: Statuses, results: map<TaskId, TaskResult>,
                     trace: seq<Event>)
    requires Round(cfg, unstarted, s, st, results, trace)
    ensures forall t :: t in results ==> t in st && results[t].status == st[t]
    ensures [EvRunStarted] <= trace
  {
    hide Inv;
  }

  /** What the record says about the run as a whole, by what became of its tasks: it is completed if all
      of them are, partial if some are and failed if none is, and its log says the same. */
  ghost predicate Reported(st: Statuses, run: Run) {
    && (run.status == RunCompleted <==> forall t :: t in st ==> st[t] == COMPLETED)
    && (run.status == RunPartial <==> (exists t :: t in st && st[t] == COMPLETED)
                                      && (exists t :: t in st && st[t] != COMPLETED))
    && (run.status == RunFailed <==> st.Keys != {} && forall t :: t in st ==> st[t] != COMPLETED)
    && |run.trace| >= 2 && run.trace[0] == EvRunStarted
    && run.trace[|run.trace| - 1]
       == if forall t :: t in st ==> st[t] == COMPLETED then EvRunCompleted else EvRunFailed
  }

  lemma ClosedIsReported(st: Statuses, results: map<TaskId, TaskResult>, trace: seq<Event>)
    requires [EvRunStarted] <= trace && forall t :: t in results ==> t in st && results[t].status == st[t]
    ensures Reported(st, CloseRun(st, results, trace))
  {
    hide FinalStatus, TerminalEvent;
    var run := CloseRun(st, results, trace);
    StatusFrom(st, run.results, false, run.status);
  }

  lemma FailedStays(g: Graph, st: Statuses, t: TaskId)
    requires Closed(g) && Acyclic(g) && t in st
    ensures t in FailTask(g, st, t) && FailTask(g, st, t)[t] == FAILED
  {
    assert !DependsOn(g, t, t) by { if DependsOn(g, t, t) { var d := DependsLastEdge(g, t, t); } }
  }

  /** One more result, for the task whose status just became final. */
  lemma ResultsStep(st: Statuses, results: map<TaskId, TaskResult>, t: TaskId, st': Statuses,
                    results': map<TaskId, TaskResult>)
    requires forall u :: u in results ==> u in st && st[u].Terminal() && results[u].status == st[u]
    requires st'.Keys == st.Keys && t in st' && st'[t].Terminal()
    requires forall u :: u in st && u != t ==> st'[u] == st[u] || (!st[u].Terminal() && st'[u] == BLOCKED)
    requires t in results' && results' == results[t := results'[t]] && results'[t].status == st'[t]
    ensures forall u :: u in results' ==> u in st' && st'[u].Terminal() && results'[u].status == st'[u]
  {}

  lemma RoundStep(cfg: Config, unstarted: bool, s: RunState, st: Statuses, results: map<TaskId, TaskResult>,
                  trace: seq<Event>, t: TaskId, st': Statuses, results': map<TaskId, TaskResult>, trace': seq<Event>)
    requires Accepted(cfg.tasks) && st.Keys == cfg.G().Keys && t in st
    requires Round(cfg, unstarted, s, st, results, trace) && IsReady(cfg.G(), st, t)
    requires ExecutedAt(cfg.G(), st, t, st') && Mirrors(SequentialStep(cfg, s, t), st', results', trace')
    requires t in st' && t in results' && results' == results[t := results'[t]] && results'[t].status == st'[t]
    requires trace <= trace'
    ensures Round(cfg, unstarted, SequentialStep(cfg, s, t), st', results', trace')
    ensures Pending(st') < Pending(st)
  {
    hide RunsFresh, Accepted, SequentialStep, ExecutedAt, Acyclic, Closed, IsReady, PlanGraph;
    AcceptedGraph(cfg.tasks);
    ExecutionSettlesOne(cfg.G(), st, t, st');
    ResultsStep(st, results, t, st', results');
    if unstarted { SequentialStepKeeps(cfg, s, t); }
  }

  /** The record of a run that ended in these statuses. */
  function CloseRun(st: Statuses, results: map<TaskId, TaskResult>, trace: seq<Event>): Run {
    var filled := map t | t in st :: if t in results then results[t] else TaskResult(st[t], NoValue, None, 1);
    var status := FinalStatus(filled, false);
    Run(status, filled, trace + [TerminalEvent(status)])
  }

  lemma NoneReadyWhenDone(g: Graph, st: Statuses)
    requires AllTerminal(st)
    ensures forall t :: !IsReady(g, st, t)
  {}

  lemma {:induction false} FreshStatuses(tasks: seq<Task>)
    requires Fresh(tasks)
    ensures forall t :: t in TaskMap(tasks) ==> TaskMap(tasks)[t].status == PENDING
  {
    TaskMapKeys(tasks);
  }

  lemma FirstRound(cfg: Config, unstarted: bool)
    requires Accepted(cfg.tasks) && (unstarted ==> Fresh(cfg.tasks))
    ensures Round(cfg, unstarted, Begin(cfg, None).(st := InitialStatuses(TaskMap(cfg.tasks))),
                  InitialStatuses(TaskMap(cfg.tasks)), map[], [EvRunStarted])
  {
    hide Accepted, Inv, Faithful;
    if unstarted {
      FreshStatuses(cfg.tasks);
      assert Begin(cfg, None).st == InitialStatuses(TaskMap(cfg.tasks));
      assert DependencyClosed(cfg.G(), {});
      assert Pins(cfg.tasks, None) == {};
      BeginInv(cfg, None);
      BeginFaithful(cfg, None);
    }
  }

  lemma TracedSettles(trace: seq<Event>, t: TaskId, status: TaskStatus)
    requires TracedAt(trace, t, status, false) && status != RUNNING
    ensures SettlesWhatItStarts(trace, t)
  {
    hide Count;
  }

  lemma FreshRecord(cfg: Config, s: RunState, st: Statuses, results: map<TaskId, TaskResult>, trace: seq<Event>,
                    status: RunStatus)
    requires Round(cfg, true, s, st, results, trace)
    ensures Ordered(cfg.G(), {}, trace + [TerminalEvent(status)]) && Inv(cfg, {}, true, s)
    ensures forall t :: t in st ==>
              if t in results then RealAt(cfg, None, t, results[t]) && (st[t] == COMPLETED || st[t] == FAILED)
              else st[t] != COMPLETED && st[t] != FAILED
  {
    hide Inv, RealAt, Ordered, PlanGraph;
    WeakenInv(cfg, {}, true, s);
    OrderedAppend(cfg.G(), {}, trace, TerminalEvent(status));
    forall t | t in st
      ensures if t in results then RealAt(cfg, None, t, results[t]) && (st[t] == COMPLETED || st[t] == FAILED)
              else st[t] != COMPLETED && st[t] != FAILED
    {
      StatusKinds(cfg, {}, false, s, t);
    }
  }

  lemma FreshEnd(cfg: Config, s: RunState, st: Statuses, results: map<TaskId, TaskResult>, trace: seq<Event>,
                 status: RunStatus)
    requires Accepted(cfg.tasks) && Round(cfg, true, s, st, results, trace)
    requires forall t :: !IsReady(cfg.G(), st, t)
    ensures Startable(cfg, None) && st == Meaning(cfg, None)
    ensures forall t :: t in st ==> SettlesWhatItStarts(trace + [TerminalEvent(status)], t)
    ensures Ordered(cfg.G(), {}, trace + [TerminalEvent(status)])
    ensures forall t :: t in st ==>
              if t in results then RealAt(cfg, None, t, results[t]) && (st[t] == COMPLETED || st[t] == FAILED)
              else st[t] != COMPLETED && st[t] != FAILED
  {
    FreshRecord(cfg, s, st, results, trace, status);
    hide RunsFresh, Faithful, RealAt, Ordered;
    hide Accepted, Inv, Closed, Acyclic, IsReady, FinalMap, TerminalEvent, PlanGraph, SettlesWhatItStarts;
    AcceptedGraph(cfg.tasks);
    NothingRunning(cfg, {}, true, s);
    InvSound(cfg, {}, true, s);
    VerdictsOwned(cfg, {}, s);
    WeakenInv(cfg, {}, true, s);
    hide Sound, Owned;
    NothingReadyMeansDone(cfg.G(), st);
    SoundAndDoneIsFinal(cfg.G(), st, cfg.Ok(), {});
    assert Pins(cfg.tasks, None) == {};
    assert DependencyClosed(cfg.G(), {});
    forall t | t in st ensures SettlesWhatItStarts(trace + [TerminalEvent(status)], t) {
      TracedOne(cfg, {}, s, t);
      TerminalEventDoesNotCount(trace, status, t, st[t], false);
      TracedSettles(trace + [TerminalEvent(status)], t, st[t]);
    }
  }

  /** The executor and the simple runtime agree: any uncancelled, unraced run of a plan whose tasks
      have the same verdicts ends in the statuses the simple runtime reaches on fresh tasks. */
  lemma ExecutorAgreesWithRuntime(tasks: seq<Task>, handlers: HandlerTable, cfg: Config, sched: Schedule)
    requires cfg.tasks == tasks && cfg.Ok() == SequentialConfig(tasks, handlers).Ok()
    requires Startable(cfg, None) && Uncancelled(sched) && Finishes(cfg, None, sched)
    requires !Raced(EndOfLoop(cfg, None, sched))
    ensures Startable(SequentialConfig(tasks, handlers), None)
    ensures FinalState(cfg, None, sched).st == Meaning(SequentialConfig(tasks, handlers), None)
  {
    EveryInterleavingMeansFinal(cfg, None, sched);
    hide Accepted, DependencyClosed, FinalState, Finishes, EndOfLoop, Uncancelled, Raced, Final, FinalMap, PlanGraph,
         TaskMap;
  }
}
