/** The plan executor in its imperative form: a dispatcher that owns a scheduler and mutates its
    results, its futures, the event log and the checkpoint, and an executor that keeps
    checkpoints per plan. Every method does exactly what the run model says, and no call to the
    scheduler is ever refused. */
module PlanExecutor {
  import opened Schemas
  import opened Dag
  import opened Semantics
  import opened SchedulerSpec
  import opened Kahn
  import opened Scheduling
  import opened Execution
  import opened RunInvariant
  import opened RunLoop
  import opened RunTheorems
  import opened RunGuarantees
  import opened RunAudit
  import opened PinnedPlans
  import opened Resume
  import opened Sorting

  datatype Exit = OutOfObservations | SawCancel | Broke(last: Observation)

  /** One run in progress. */
  class Dispatcher {
    const cfg: Config
    const scheduler: Scheduler
    ghost const pins: set<TaskId>
    ghost const free: Config  // the plan with its pinned tasks freed
    var results: map<TaskId, TaskResult>
    var inflight: map<TaskId, nat>
    var trace: seq<Event>
    var saved: Option<Checkpoint>
    ghost var calls: seq<Call>

    ghost function State(): RunState
      reads this, scheduler`status
    {
      RunState(scheduler.status, results, inflight, trace, calls, saved)
    }

    /** The scheduler holds this plan. */
    ghost predicate Wired()
      reads this, scheduler
    {
      && scheduler.Valid() && SamePlan(scheduler.tasks, TaskMap(cfg.tasks)) && scheduler.keys == Ids(cfg.tasks)
      && scheduler.G() == cfg.G()
    }

    ghost predicate Valid()
      reads this, scheduler
    {
      && Wired() && Accepted(cfg.tasks)
      && Frees(cfg, pins, free) && Accepted(free.tasks) && Inv(free, pins, false, State())
    }

    /** The scheduler holds the freshly submitted copies; the checkpoint's results are replayed. */
    constructor (cfg: Config, scheduler: Scheduler, restored: Option<Checkpoint>)
      requires scheduler.Valid() && SamePlan(scheduler.tasks, TaskMap(cfg.tasks)) && scheduler.keys == Ids(cfg.tasks)
      requires scheduler.status == ReplayStatus(cfg.G().Keys, {})
      requires Accepted(cfg.tasks)
      modifies scheduler`status
      ensures Valid() && State() == Begin(cfg, restored)
      ensures this.cfg == cfg && this.scheduler == scheduler && pins == Pins(cfg.tasks, restored)
    {
      hide Accepted, DependencyClosed, Inv, Registered, SamePlan, ReplayStatus, ReplayResults, Begin, Pins, GraphOf;
      hide Freed, Config.Ok;
      this.cfg, this.scheduler, this.pins := cfg, scheduler, Pins(cfg.tasks, restored);
      free := FreedConfig(cfg, restored);
      results, inflight, trace, saved, calls := map[], map[], [], None, [];
      new;
      SameGraph(scheduler.tasks, TaskMap(cfg.tasks));
      FreedStartable(cfg, restored);
      BeginAlike(cfg, restored);
      BeginInv(free, restored);
      WeakenInv(free, pins, true, Begin(cfg, restored));
      BeginIsReplay(cfg, restored);
      if restored.Some? { Replay(restored.value); }
      trace := trace + [EvRunStarted];
      assert Wired();
      assert Accepted(cfg.tasks);
      assert State() == Begin(cfg, restored);
    }

    /** Starts and completes every checkpointed task of the plan. */
    method Replay(completed: Checkpoint)
      requires Wired() && results == map[] && scheduler.status == ReplayStatus(cfg.G().Keys, {})
      modifies this`results, this`trace, scheduler`status
      ensures Wired()
      ensures scheduler.status == ReplayStatus(cfg.G().Keys, Pins(cfg.tasks, Some(completed)))
      ensures results == ReplayResults(completed, Pins(cfg.tasks, Some(completed)))
      ensures trace == old(trace) + [EvRunResumed(Pins(cfg.tasks, Some(completed)))]
    {
      hide Registered, ReplayStatus, ReplayResults, SamePlan, TaskMap;
      ghost var nodes := cfg.G().Keys;
      TaskMapKeys(cfg.tasks);
      var left, done: set<TaskId> := completed.Keys, {};
      ReplayNone(completed);
      while left != {}
        invariant Wired() && left <= completed.Keys && done <= completed.Keys
        invariant forall t :: t in done <==> t in completed && t !in left && t in Ids(cfg.tasks)
        invariant scheduler.status == ReplayStatus(nodes, done) && results == ReplayResults(completed, done)
        modifies this`results, scheduler`status
        decreases left
      {
        var t :| t in left;
        if t in Ids(cfg.tasks) {
          ReplayOne(t, completed, done);
          done := done + {t};
        }
        left := left - {t};
      }
      assert done == Pins(cfg.tasks, Some(completed));
      trace := trace + [EvRunResumed(done)];
    }

    method ReplayOne(t: TaskId, completed: Checkpoint, ghost done: set<TaskId>)
      requires Wired() && t in completed && done <= completed.Keys && t !in done && t in cfg.G()
      requires scheduler.status == ReplayStatus(cfg.G().Keys, done) && results == ReplayResults(completed, done)
      modifies this`results, scheduler`status
      ensures Wired()
      ensures scheduler.status == ReplayStatus(cfg.G().Keys, done + {t})
      ensures results == ReplayResults(completed, done + {t})
    {
      hide Registered, ReplayStatus, ReplayResults, SamePlan, PlanGraph;
      ReplayStep(cfg.G().Keys, completed, done, t);
      var err := scheduler.Start(t);
      err := scheduler.Complete(t);
      results := results[t := TaskResult(COMPLETED, completed[t], None, 1)];
    }

    method SaveCheckpoint()
      modifies this`saved, this`trace
      ensures State() == Save(cfg, old(State()))
    {
      if !cfg.checkpoints { return; }
      var completed := CompletedOutputs(results);
      saved := Some(completed);
      trace := trace + [EvCheckpointed(|completed|)];
    }

    /** Records a failure; the task must be running. */
    method RecordFailure(t: TaskId, error: TaskError, attempts: nat, before: seq<Event>)
      requires Wired() && t in scheduler.status && scheduler.status[t] == RUNNING
      modifies this`results, this`trace, this`saved, scheduler`status
      ensures Wired() && State() == FailRun(cfg, old(State()), t, error, attempts, before)
    {
      hide Registered, FailTask, CompletedOutputs, SamePlan;
      var err := scheduler.Fail(t);
      results := results[t := TaskResult(FAILED, NoValue, Some(error), attempts)];
      trace := trace + before + [EvTaskFailed(t)];
      SaveCheckpoint();
    }

    /** Hands attempt number `attempt` of a task to the worker pool. */
    method Launch(t: TaskId, attempt: nat)
      modifies this`inflight, this`calls
      ensures inflight == old(inflight)[t := attempt] && calls == old(calls) + [Call(t, attempt)]
    {
      inflight := inflight[t := attempt];
      calls := calls + [Call(t, attempt)];
    }

    /** First dispatch of a pending task: the guard may refuse it, and it may have no handler. */
    method DispatchTask(t: TaskId)
      requires Wired() && t in scheduler.status && scheduler.status[t] == PENDING
      modifies this`results, this`trace, this`saved, this`inflight, this`calls, scheduler`status
      ensures Wired() && State() == Dispatch(cfg, old(State()), t)
    {
      hide Registered, FailRun, SamePlan;
      var err := scheduler.Start(t);
      trace := trace + [EvTaskStarted(t)];
      assert State() == MarkStarted(old(State()), t);
      if !cfg.guard(t) {
        RecordFailure(t, BlockedBySecurity, 1, [EvSecurityBlocked(t)]);
      } else if !cfg.resolves(t) {
        RecordFailure(t, NoHandler, 1, []);
      } else {
        Launch(t, 1);
      }
    }

    /** Settles a finished future of a running task, or submits the task again. */
    method SettleTask(t: TaskId, allowRetry: bool)
      requires Wired() && t in inflight && t in scheduler.status && scheduler.status[t] == RUNNING
      modifies this`results, this`trace, this`saved, this`inflight, this`calls, scheduler`status
      ensures Wired() && State() == Settle(cfg, old(State()), t, allowRetry)
    {
      hide Registered, FailRun, CompleteRun, SamePlan;
      var attempt := inflight[t];
      inflight := inflight - {t};
      ghost var landed := old(State()).(inflight := inflight);
      assert State() == landed;
      match cfg.invoke(t, attempt)
      case Raised(message) =>
        if allowRetry && attempt < cfg.maxAttempts {
          trace := trace + [EvTaskRetried(t, attempt + 1)];
          Launch(t, attempt + 1);
        } else {
          RecordFailure(t, HandlerError(message), attempt, []);
        }
      case Returned(output) =>
        RecordSuccess(t, output, attempt);
    }

    method RecordSuccess(t: TaskId, output: Value, attempts: nat)
      requires Wired() && t in scheduler.status && scheduler.status[t] == RUNNING
      modifies this`results, this`trace, this`saved, scheduler`status
      ensures Wired() && State() == CompleteRun(cfg, old(State()), t, output, attempts)
    {
      hide Registered, CompletedOutputs, SamePlan;
      var err := scheduler.Complete(t);
      results := results[t := TaskResult(COMPLETED, output, None, attempts)];
      trace := trace + [EvTaskCompleted(t)];
      SaveCheckpoint();
    }

    /** A future settles within a run: the run's invariant holds again afterwards. */
    method SettleInRun(t: TaskId, allowRetry: bool)
      requires Valid() && t in inflight
      modifies this`results, this`trace, this`saved, this`inflight, this`calls, scheduler`status
      ensures Valid() && State() == Settle(cfg, old(State()), t, allowRetry)
    {
      hide Wired, Inv, Accepted, Settle, Frees, PinsDone;
      SettleKeeps(free, pins, false, State(), t, allowRetry);
      FlightsRun(free, pins, false, State());
      InvPinsDone(free, pins, State());
      SettleAlike(cfg, pins, free, State(), t, allowRetry);
      SettleTask(t, allowRetry);
    }

    /** Dispatches every task the scheduler calls ready, the most urgent first. */
    method DispatchReady() returns (ghost started: seq<TaskId>)
      requires Valid()
      modifies this`results, this`trace, this`saved, this`inflight, this`calls, scheduler`status
      ensures Valid() && State() == DispatchAll(cfg, old(State()), ReadyTasks(cfg, old(State()).st))
      ensures Starts(trace) == Starts(old(trace)) + started && DispatchOrder(cfg.tasks, started)
      ensures forall t :: t in started <==> IsReady(cfg.G(), old(scheduler.status), t)
    {
      hide Wired, Inv, Accepted, IsReady, Dispatch, ReadyTasks, NoDuplicates, PlanGraph, Frees, DispatchOrder, Starts;
      ghost var s := State();
      var ready := ReadyNowInPlan();
      ReadyTasksAlike(cfg, pins, free, s);
      for i := 0 to |ready|
        invariant Wired() && State() == DispatchAll(cfg, s, ready[..i])
      {
        assert ready[..i + 1] == ready[..i] + [ready[i]];
        PrefixReady(cfg, pins, free, s, ready, i);
        DispatchTask(ready[i]);
      }
      assert ready[..|ready|] == ready;
      DispatchAllKeeps(free, pins, false, s, ready);
      DispatchAllAlike(cfg, pins, free, s, ready);
      DispatchAllLog(cfg, s, ready);
      started := ready;
    }

    method ReadyNowInPlan() returns (ready: seq<TaskId>)
      requires Valid()
      ensures ready == ReadyTasks(cfg, scheduler.status) && scheduler.status.Keys == cfg.G().Keys
      ensures DispatchOrder(cfg.tasks, ready) && forall t :: t in ready <==> IsReady(cfg.G(), scheduler.status, t)
    {
      hide DispatchOrder, IsReady, Sooner, ReadyList, TaskMap, Positions, Ids, PlanGraph, GraphOf, NoDuplicates;
      hide Accepted, Inv, Frees, SamePlan, ListsDependents, Closed, Acyclic;
      GraphAt(scheduler.tasks);
      ready := scheduler.Ready();
      SameOrder(cfg.tasks, scheduler.tasks, scheduler.order);
      SameReady(scheduler.tasks, TaskMap(cfg.tasks), scheduler.keys, scheduler.order, scheduler.status);
      ReadyTasksOrdered(cfg, scheduler.status);
      ReadyTasksExact(cfg, scheduler.status);
    }

    method SettleLandings(landings: seq<Landing>)
      requires Valid()
      modifies this`results, this`trace, this`saved, this`inflight, this`calls, scheduler`status
      ensures Valid() && State() == SettleAll(cfg, old(State()), landings)
    {
      hide Registered, Inv, Accepted, Settle;
      ghost var s := State();
      for i := 0 to |landings|
        invariant Valid() && State() == SettleAll(cfg, s, landings[..i])
      {
        assert landings[..i + 1] == landings[..i] + [landings[i]];
        if landings[i].task in inflight { SettleInRun(landings[i].task, !landings[i].cancelSeen); }
      }
      assert landings[..|landings|] == landings;
    }

    method DrainFlights(ids: seq<TaskId>)
      requires Valid()
      modifies this`results, this`trace, this`saved, this`inflight, this`calls, scheduler`status
      ensures Valid() && State() == Drain(cfg, old(State()), ids)
    {
      hide Registered, Inv, Accepted, Settle;
      ghost var s := State();
      for i := 0 to |ids|
        invariant Valid() && State() == Drain(cfg, s, ids[..i])
      {
        assert ids[..i + 1] == ids[..i] + [ids[i]];
        if ids[i] in inflight { SettleInRun(ids[i], false); }
      }
      assert ids[..|ids|] == ids;
    }

    /** The run loop, for as long as there are observations. */
    method RunLoop(env: seq<Observation>) returns (exit: Exit)
      requires Valid()
      modifies this`results, this`trace, this`saved, this`inflight, this`calls, scheduler`status
      ensures Valid()
      ensures var end := Loop(cfg, old(State()), env);
              && end.s == State()
              && (exit == OutOfObservations <==> end.Suspended?)
              && (exit == SawCancel <==> end.LeftByCancel?)
              && (exit.Broke? <==> end.LeftByBreak?)
    {
      hide Registered, SamePlan, PlanGraph, Inv, Accepted, DispatchAll, SettleAll, ReadyTasks, Frees, TaskMap, Ids;
      hide Loop, DispatchOrder, Starts, IsReady, AllTerminal, NoDuplicates, Closed, Acyclic;
      ghost var s0 := State();
      assert env[0..] == env;
      var i := 0;
      while i < |env|
        invariant 0 <= i <= |env| && Valid()
        invariant Loop(cfg, s0, env) == Loop(cfg, State(), env[i..])
      {
        var o := env[i];
        LoopTurn(cfg, State(), env, i);
        if o.cancelled { return SawCancel; }
        if !o.pausedFirst { var started := DispatchReady(); }
        if inflight == map[] {
          var done := scheduler.Done();
          if o.pausedSecond && !done { i := i + 1; continue; }
          return Broke(o);
        }
        SettleLandings(o.landings);
        i := i + 1;
      }
      exit := OutOfObservations;
      LoopOver(cfg, State(), env, i);
    }

    /** Cancels whatever is unfinished. */
    method CancelUnfinished()
      requires scheduler.Valid()
      modifies scheduler`status
      ensures scheduler.Valid() && scheduler.status == Sweep(old(scheduler.status))
    {
      hide Registered;
      ghost var st := scheduler.status;
      var left := scheduler.status.Keys;
      while left != {}
        invariant scheduler.Valid() && left <= st.Keys && scheduler.status.Keys == st.Keys
        invariant forall t :: t in st ==>
                    scheduler.status[t] == if t in left || st[t].Terminal() then st[t] else CANCELLED
        decreases left
      {
        var t :| t in left;
        var err := scheduler.Cancel(t);
        left := left - {t};
      }
    }

    /** What a cancel does before the results are filled up: what is in flight settles, the rest is swept. */
    method DrainAndSweep(exit: Exit, ghost end: LoopEnd, order: seq<TaskId>, late: LateCancel)
      returns (cancelled: bool)
      requires Valid() && exit != OutOfObservations && !end.Suspended? && end.s == State()
      requires exit == SawCancel <==> end.LeftByCancel?
      modifies this`results, this`trace, this`saved, this`inflight, this`calls, scheduler`status
      ensures State() == AfterSweep(cfg, end, order, late) && cancelled == SeenAtSweep(end, late)
    {
      hide Registered, Inv, Accepted, Drain, Sweep, Frees, TaskMap, Ids, SamePlan, PlanGraph, GraphOf;
      cancelled := exit == SawCancel || late == BeforeDrain;
      if cancelled { DrainFlights(order + Ids(cfg.tasks)); }
      assert State() == AfterDrain(cfg, end, order, late);
      cancelled := cancelled || late == BeforeSweep;
      if cancelled { CancelUnfinished(); }
    }

    /** Drain, sweep, fill in the missing results and decide the run's status. */
    method FinishRun(exit: Exit, ghost end: LoopEnd, order: seq<TaskId>, late: LateCancel) returns (run: Run)
      requires Valid() && exit != OutOfObservations && !end.Suspended? && end.s == State()
      requires exit == SawCancel <==> end.LeftByCancel?
      modifies this, scheduler`status
      ensures (State(), run) == Finish(cfg, end, order, late)
      ensures run.status == RunCancelled <==> exit == SawCancel || late != Never
      ensures run.status == RunCompleted
              <==> !(exit == SawCancel || late != Never)
                   && forall t :: t in run.results ==> run.results[t].status == COMPLETED
      ensures run.status == RunPartial
              <==> !(exit == SawCancel || late != Never)
                   && (exists t :: t in run.results && run.results[t].status == COMPLETED)
                   && (exists t :: t in run.results && run.results[t].status != COMPLETED)
      ensures run.status == RunFailed
              <==> !(exit == SawCancel || late != Never) && run.results.Keys != {}
                   && forall t :: t in run.results ==> run.results[t].status != COMPLETED
    {
      hide Registered, Inv, Accepted, AllCompleted, SomeCompleted, TerminalEvent, Frees, TaskMap, Ids;
      hide SamePlan, PlanGraph, FinalStatus, AfterSweep;
      var cancelled := DrainAndSweep(exit, end, order, late);
      results := map t | t in scheduler.status.Keys + results.Keys ::
        if t in results then results[t] else TaskResult(scheduler.status[t], NoValue, None, 1);
      cancelled := cancelled || late == BeforeStatus;
      var status := FinalStatus(results, cancelled);
      FinalStatusSays(results, cancelled);
      trace := trace + [TerminalEvent(status)];
      run := Run(status, results, trace);
    }
  }

  // -- one turn of the loop -------------------------------------------------------------------

  lemma LoopTurn(cfg: Config, s: RunState, env: seq<Observation>, i: nat)
    requires i < |env|
    ensures var o := env[i];
            var s1 := AfterDispatch(cfg, s, o);
            Loop(cfg, s, env[i..])
            == if o.cancelled then LeftByCancel(s)
               else if s1.inflight != map[] then Loop(cfg, SettleAll(cfg, s1, o.landings), env[i + 1..])
               else if o.pausedSecond && !AllTerminal(s1.st) then Loop(cfg, s1, env[i + 1..])
               else LeftByBreak(s1, s, o)
  {
    hide AfterDispatch, SettleAll, AllTerminal;
    assert env[i..][0] == env[i] && env[i..][1..] == env[i + 1..];
  }

  lemma LoopOver(cfg: Config, s: RunState, env: seq<Observation>, i: nat)
    requires i == |env|
    ensures Loop(cfg, s, env[i..]) == Suspended(s)
  {}

  // -- replaying a checkpoint ----------------------------------------------------------------

  ghost function ReplayStatus(nodes: set<TaskId>, done: set<TaskId>): Statuses {
    map t | t in nodes :: if t in done then COMPLETED else PENDING
  }

  ghost function ReplayResults(completed: Checkpoint, done: set<TaskId>): map<TaskId, TaskResult>
    requires done <= completed.Keys
  {
    map t | t in done :: TaskResult(COMPLETED, completed[t], None, 1)
  }

  lemma ReplayNone(completed: Checkpoint)
    ensures ReplayResults(completed, {}) == map[]
  {}

  lemma ReplayStep(nodes: set<TaskId>, completed: Checkpoint, done: set<TaskId>, t: TaskId)
    requires t in nodes && t !in done && done <= completed.Keys && t in completed
    ensures var st := ReplayStatus(nodes, done);
            && t in st && st[t] == PENDING
            && st[t := RUNNING][t := COMPLETED] == ReplayStatus(nodes, done + {t})
    ensures ReplayResults(completed, done)[t := TaskResult(COMPLETED, completed[t], None, 1)]
            == ReplayResults(completed, done + {t})
  {}

  ghost predicate ResumedBegin(cfg: Config, completed: Checkpoint, pins: set<TaskId>)
    requires pins <= completed.Keys
  {
    Begin(cfg, Some(completed)) ==
    RunState(ReplayStatus(cfg.G().Keys, pins), ReplayResults(completed, pins), map[],
             [EvRunResumed(pins)] + [EvRunStarted], [], None)
  }

  lemma BeginIsReplay(cfg: Config, restored: Option<Checkpoint>)
    ensures var pins := Pins(cfg.tasks, restored);
            && (restored.None? ==>
                  Begin(cfg, restored)
                  == RunState(ReplayStatus(cfg.G().Keys, {}), map[], map[], [EvRunStarted], [], None))
            && (restored.Some? ==> pins <= restored.value.Keys && ResumedBegin(cfg, restored.value, pins))
  {
    if restored.None? { assert Begin(cfg, restored).trace == [EvRunStarted]; }
  }

  // -- submitting copies ---------------------------------------------------------------------

  /** Two task records that agree on everything the scheduler reads but the status. */
  ghost predicate SamePlan(tasks: map<TaskId, Task>, plan: map<TaskId, Task>) {
    && tasks.Keys == plan.Keys
    && forall t :: t in tasks ==> tasks[t].dependsOn == plan[t].dependsOn && tasks[t].priority == plan[t].priority
  }

  lemma SameGraph(tasks: map<TaskId, Task>, plan: map<TaskId, Task>)
    requires SamePlan(tasks, plan)
    ensures GraphOf(tasks) == GraphOf(plan)
  {}

  lemma SameReady(tasks: map<TaskId, Task>, plan: map<TaskId, Task>, keys: seq<TaskId>, order: map<TaskId, nat>,
                  st: Statuses)
    requires SamePlan(tasks, plan)
    ensures ReadyList(tasks, keys, order, st) == ReadyList(plan, keys, order, st)
  {
    SameFilter(tasks, plan, keys, st);
    SortByAgrees(FilterReady(tasks, st, keys), (a, b) => Before(tasks, order, a, b),
                 (a, b) => Before(plan, order, a, b));
  }

  lemma {:induction false} SameFilter(tasks: map<TaskId, Task>, plan: map<TaskId, Task>, keys: seq<TaskId>,
                                      st: Statuses)
    requires SamePlan(tasks, plan)
    ensures FilterReady(tasks, st, keys) == FilterReady(plan, st, keys)
    decreases |keys|
  {
    if keys != [] { SameFilter(tasks, plan, keys[..|keys| - 1], st); }
  }

  lemma SameOrder(tasks: seq<Task>, records: map<TaskId, Task>, order: map<TaskId, nat>)
    requires Accepted(tasks) && Indexed(records, Ids(tasks), order)
    ensures order == Positions(Ids(tasks))
  {
    PositionsIndex(Ids(tasks));
    hide Accepted, Acyclic;
    var keys := Ids(tasks);
    forall t | t in order ensures t in Positions(keys) && order[t] == Positions(keys)[t] {
      assert t in keys;
      var i :| 0 <= i < |keys| && keys[i] == t;
    }
    forall t | t in Positions(keys) ensures t in order {}
  }

  /** After dispatching a prefix of the ready list, the next task is still ready. */
  lemma PrefixReady(cfg: Config, pins: set<TaskId>, free: Config, s: RunState, ready: seq<TaskId>, i: nat)
    requires Frees(cfg, pins, free) && Accepted(free.tasks) && Inv(free, pins, false, s) && i < |ready|
    requires NoDuplicates(ready) && forall t :: t in ready ==> IsReady(free.G(), s.st, t)
    ensures var st := DispatchAll(cfg, s, ready[..i]).st; ready[i] in st && st[ready[i]] == PENDING
  {
    hide Inv, Accepted, Dispatch, DispatchAll, PlanGraph, AllDepsCompleted, Frees;
    DispatchAllKeeps(free, pins, false, s, ready[..i]);
    DispatchAllAlike(cfg, pins, free, s, ready[..i]);
    assert ready[i] in ready && ready[i] !in ready[..i];
    assert IsReady(free.G(), DispatchAll(free, s, ready[..i]).st, ready[i]);
  }

  // -- the executor ---------------------------------------------------------------------

  datatype ExecutorError = NotStarted | NoCheckpoint | Rejected(error: SchedulerError)

  /** Runs plans and keeps the latest checkpoint of each, by plan id. */
  class Executor {
    var running: bool  // the runtime's lifecycle flag
    var counter: nat
    var store: map<string, Checkpoint>

    constructor ()
      ensures !running && counter == 0 && store == map[]
    {
      running, counter, store := false, 0, map[];
    }

    /** Runs a plan from scratch. `run` is None when the schedule ends before the run does. With checkpoints
        on, a plan of which any task completed or failed can be resumed afterwards. */
    method Execute(planId: string, cfg: Config, sched: Schedule) returns (err: Option<ExecutorError>, run: Option<Run>)
      modifies this`counter, this`store
      ensures !running ==> err == Some(NotStarted)
      ensures running && !Accepted(cfg.tasks) ==> err.Some? && err.value.Rejected?
      ensures running && Accepted(cfg.tasks) ==>
                && err == None
                && (run.Some? <==> Finishes(cfg, None, sched))
                && (run.Some? ==> run.value == FinalRun(cfg, None, sched))
                && (var saved := Reached(cfg, None, sched).saved;
                    store == if saved.Some? then old(store)[planId := saved.value] else old(store))
      ensures err.Some? ==> run == None && store == old(store)
      ensures counter == old(counter) + if running then 1 else 0
      ensures err.None? && cfg.checkpoints
              && (exists t :: EvTaskCompleted(t) in Reached(cfg, None, sched).trace
                              || EvTaskFailed(t) in Reached(cfg, None, sched).trace) ==>
                planId in store
      ensures run.Some? && cfg.checkpoints
              && (exists t :: t in run.value.results && run.value.results[t].status in {COMPLETED, FAILED}) ==>
                planId in store
    {
      err, run := RunPlan(planId, cfg, None, sched);
      hide Accepted, Reached, Finishes, FinalRun, Recorded;
      if err.None? {
        SettledRunsAreSaved(cfg, None, sched);
        if run.Some? { SettledInResults(cfg, None, sched); }
        SavedIsStored(old(store), planId, Reached(cfg, None, sched).saved);
      }
    }

    /** Continues a plan from its checkpoint; a plan without one is an error. A plan id does not name one
        graph, so the checkpoint may come from another plan and hold tasks without their dependencies in
        this one; a checkpoint left by a run of the same tasks does not (`OwnCheckpointCloses`). */
    method Resume(planId: string, cfg: Config, sched: Schedule) returns (err: Option<ExecutorError>, run: Option<Run>)
      modifies this`counter, this`store
      ensures planId !in old(store) ==> err == Some(NoCheckpoint)
      ensures planId in old(store) && !running ==> err == Some(NotStarted)
      ensures planId in old(store) && running && !Accepted(cfg.tasks) ==> err.Some? && err.value.Rejected?
      ensures planId in old(store) && running && Accepted(cfg.tasks) ==>
                && err == None
                && (run.Some? <==> Finishes(cfg, Some(old(store)[planId]), sched))
                && (run.Some? ==> run.value == FinalRun(cfg, Some(old(store)[planId]), sched))
                && (var saved := Reached(cfg, Some(old(store)[planId]), sched).saved;
                    store == if saved.Some? then old(store)[planId := saved.value] else old(store))
      ensures err.Some? ==> run == None && store == old(store)
      ensures counter == old(counter) + if running && planId in old(store) then 1 else 0
    {
      if planId !in store { return Some(NoCheckpoint), None; }
      err, run := RunPlan(planId, cfg, Some(store[planId]), sched);
    }

    /** After a run that settled anything with checkpoints on, resuming the plan finds its checkpoint. */
    method ExecuteThenResume(planId: string, cfg: Config, first: Schedule, next: Config, second: Schedule)
      returns (run: Option<Run>, err: Option<ExecutorError>, resumed: Option<Run>)
      modifies this`counter, this`store
      ensures run.Some? && cfg.checkpoints
              && (exists t :: t in run.value.results && run.value.results[t].status in {COMPLETED, FAILED}) ==>
                err != Some(NoCheckpoint)
    {
      hide Accepted, Reached, Finishes, FinalRun, Recorded;
      var refused;
      refused, run := Execute(planId, cfg, first);
      err, resumed := Resume(planId, next, second);
    }

    /** What a call to the run loop does: nothing unless the runtime is started and the plan is
        accepted; otherwise the modelled run, whose checkpoint lands in the store. */
    ghost predicate RunContract(planId: string, cfg: Config, restored: Option<Checkpoint>, sched: Schedule,
                                before: map<string, Checkpoint>, err: Option<ExecutorError>, run: Option<Run>)
      reads this`running, this`store
    {
      && (!running <==> err == Some(NotStarted))
      && (err.None? <==> running && Accepted(cfg.tasks))
      && (err.Some? ==> err.value == NotStarted || err.value.Rejected?)
      && (err.Some? ==> run == None && store == before)
      && (err.None? ==>
            && store == Recorded(before, planId, Reached(cfg, restored, sched).saved)
            && (run.Some? <==> Finishes(cfg, restored, sched))
            && (run.Some? ==> run.value == FinalRun(cfg, restored, sched)))
    }

    method RunPlan(planId: string, cfg: Config, restored: Option<Checkpoint>, sched: Schedule)
      returns (err: Option<ExecutorError>, run: Option<Run>)
      modifies this`counter, this`store
      ensures RunContract(planId, cfg, restored, sched, old(store), err, run)
      ensures counter == old(counter) + if running then 1 else 0
    {
      hide DependencyClosed, Accepted, Acceptable, Inv, Reached, SamePlan, Registered, FreshCopies, InitialStatuses,
           ReplayStatus, TaskMap, Recorded, Finishes, FinalRun, NoDuplicates, Pins, PlanGraph;
      hide Sound, AlwaysFinishes, OnFirmGround, AllPending, Rejection, GraphOf, Ids;
      run := None;
      if !running { return Some(NotStarted), None; }
      counter := counter + 1;
      var scheduler := new Scheduler();
      var copies := FreshCopies(cfg.tasks);
      CopiesKeepThePlan(cfg.tasks);
      EmptySubmit(copies);
      var rejected := scheduler.Submit(copies);
      if rejected.Some? { return Some(Rejected(rejected.value)), None; }
      err := None;
      run := Drive(planId, cfg, restored, sched, scheduler);
    }

    /** The run itself, on a scheduler that accepted the copies. */
    method Drive(planId: string, cfg: Config, restored: Option<Checkpoint>, sched: Schedule, scheduler: Scheduler)
      returns (run: Option<Run>)
      requires Accepted(cfg.tasks)
      requires scheduler.Valid() && SamePlan(scheduler.tasks, TaskMap(cfg.tasks)) && scheduler.keys == Ids(cfg.tasks)
      requires scheduler.status == ReplayStatus(cfg.G().Keys, {})
      modifies this`store, scheduler`status
      ensures store == Recorded(old(store), planId, Reached(cfg, restored, sched).saved)
      ensures run.Some? <==> Finishes(cfg, restored, sched)
      ensures run.Some? ==> run.value == FinalRun(cfg, restored, sched)
    {
      hide DependencyClosed, Accepted, Inv, Loop, Begin, Finish, SamePlan, Registered, PlanGraph, ReplayStatus;
      var dispatcher := new Dispatcher(cfg, scheduler, restored);
      var exit := dispatcher.RunLoop(sched.env);
      run := None;
      if exit != OutOfObservations {
        var r := dispatcher.FinishRun(exit, EndOfLoop(cfg, restored, sched), sched.drainOrder, sched.late);
        run := Some(r);
      }
      assert dispatcher.saved == Reached(cfg, restored, sched).saved;
      if dispatcher.saved.Some? { store := store[planId := dispatcher.saved.value]; }
    }
  }

  ghost function Recorded(store: map<string, Checkpoint>, planId: string, saved: Option<Checkpoint>)
    : map<string, Checkpoint>
  {
    if saved.Some? then store[planId := saved.value] else store
  }

  lemma SavedIsStored(store: map<string, Checkpoint>, planId: string, saved: Option<Checkpoint>)
    ensures saved.Some? ==> planId in Recorded(store, planId, saved)
  {}

  /** Whatever a run leaves in the store may be resumed with any plan that has the same tasks. */
  lemma OwnCheckpointCloses(cfg: Config, restored: Option<Checkpoint>, sched: Schedule, cfg': Config)
    requires Startable(cfg, restored) && Reached(cfg, restored, sched).saved.Some? && cfg'.tasks == cfg.tasks
    ensures DependencyClosed(cfg'.G(), Pins(cfg'.tasks, Some(Reached(cfg, restored, sched).saved.value)))
  {
    hide DependencyClosed, Accepted, Reached, Pins, PlanGraph;
    CheckpointIsExact(cfg, restored, sched);
    SavedPins(cfg', Reached(cfg, restored, sched).saved.value);
  }

  /** The executor schedules copies of the tasks whose status is fresh. */
  function FreshCopies(tasks: seq<Task>): seq<Task> {
    seq(|tasks|, i requires 0 <= i < |tasks| => tasks[i].(status := PENDING))
  }

  lemma {:induction false} CopiesOneByOne(tasks: seq<Task>)
    ensures SamePlan(TaskMap(FreshCopies(tasks)), TaskMap(tasks))
    ensures forall t :: t in TaskMap(FreshCopies(tasks)) ==> TaskMap(FreshCopies(tasks))[t].status == PENDING
    decreases |tasks|
  {
    var n := |tasks|;
    if n > 0 {
      CopiesOneByOne(tasks[..n - 1]);
      assert FreshCopies(tasks)[..n - 1] == FreshCopies(tasks[..n - 1]);
    }
  }

  /** Copying keeps ids, dependencies and priorities, so a plan is accepted iff its copy is. */
  lemma CopiesKeepThePlan(tasks: seq<Task>)
    ensures Ids(FreshCopies(tasks)) == Ids(tasks)
    ensures SamePlan(TaskMap(FreshCopies(tasks)), TaskMap(tasks))
    ensures InitialStatuses(TaskMap(FreshCopies(tasks))) == ReplayStatus(PlanGraph(tasks).Keys, {})
    ensures Acceptable(map[], FreshCopies(tasks)) <==> Accepted(tasks)
  {
    CopiesOneByOne(tasks);
    var copies := FreshCopies(tasks);
    assert Ids(copies) == Ids(tasks);
    SameGraph(TaskMap(copies), TaskMap(tasks));
    assert map[] + TaskMap(copies) == TaskMap(copies) && map[] + TaskMap(tasks) == TaskMap(tasks);
    assert DepsKnown(map[], copies) <==> DepsKnown(map[], tasks) by {
      forall i | 0 <= i < |tasks| ensures copies[i].dependsOn == tasks[i].dependsOn {}
    }
    hide Acyclic, SamePlan;
  }
}
