/** Runs from any checkpoint, whether or not it holds the dependencies of what it holds: the
    dependencies of a pinned task play no part, so the run is that of the plan in which pinned tasks
    have none. */
module PinnedPlans {
  import opened Schemas
  import opened Dag
  import opened Semantics
  import opened SchedulerSpec
  import opened Kahn
  import opened Sorting
  import opened Scheduling
  import opened Execution
  import opened RunInvariant
  import opened RunLoop
  import opened RunTheorems
  import opened RunGuarantees
  import opened RunAudit
  import opened RunResults

  // -- freeing the pinned tasks ---------------------------------------------------------------

  function FreeTask(task: Task, pins: set<TaskId>): Task {
    if task.id in pins then task.(dependsOn := []) else task
  }

  function Freed(tasks: seq<Task>, pins: set<TaskId>): seq<Task> {
    seq(|tasks|, i requires 0 <= i < |tasks| => FreeTask(tasks[i], pins))
  }

  /** The run's configuration with the restored tasks freed of their dependencies. */
  function FreedConfig(cfg: Config, restored: Option<Checkpoint>): Config {
    cfg.(tasks := Freed(cfg.tasks, Pins(cfg.tasks, restored)))
  }

  ghost function FreedGraph(g: Graph, pins: set<TaskId>): Graph {
    map t | t in g :: if t in pins then [] else g[t]
  }

  lemma FreedIds(tasks: seq<Task>, pins: set<TaskId>)
    ensures Ids(Freed(tasks, pins)) == Ids(tasks)
  {
    hide Ids;
    forall i | 0 <= i < |tasks| ensures Ids(Freed(tasks, pins))[i] == Ids(tasks)[i] {}
  }

  lemma {:induction false} FreedMap(tasks: seq<Task>, pins: set<TaskId>)
    ensures TaskMap(Freed(tasks, pins)).Keys == TaskMap(tasks).Keys
    ensures forall t :: t in TaskMap(tasks) ==> TaskMap(Freed(tasks, pins))[t] == FreeTask(TaskMap(tasks)[t], pins)
    decreases |tasks|
  {
    if tasks != [] {
      var init := tasks[..|tasks| - 1];
      FreedMap(init, pins);
      assert Freed(tasks, pins)[..|tasks| - 1] == Freed(init, pins);
    }
  }

  lemma FreedPlanGraph(tasks: seq<Task>, pins: set<TaskId>)
    ensures PlanGraph(Freed(tasks, pins)) == FreedGraph(PlanGraph(tasks), pins)
  {
    FreedMap(tasks, pins);
    TaskMapKeys(tasks);
    hide TaskMap, Freed;
  }

  lemma FreedAcyclic(g: Graph, pins: set<TaskId>)
    requires Closed(g) && Acyclic(g)
    ensures Closed(FreedGraph(g, pins)) && Acyclic(FreedGraph(g, pins))
    ensures pins <= g.Keys ==> DependencyClosed(FreedGraph(g, pins), pins)
  {
    var free := FreedGraph(g, pins);
    forall t | t in free ensures !DependsOn(free, t, t) { FreedDepends(g, pins, t, t); }
  }

  lemma FreedDepends(g: Graph, pins: set<TaskId>, b: TaskId, a: TaskId)
    ensures DependsOn(FreedGraph(g, pins), b, a) ==> DependsOn(g, b, a)
  {
    if DependsOn(FreedGraph(g, pins), b, a) {
      var p :| IsPath(FreedGraph(g, pins), p) && p[0] == a && p[|p| - 1] == b;
      assert IsPath(g, p);
    }
  }

  lemma FreedAccepted(tasks: seq<Task>, pins: set<TaskId>)
    requires Accepted(tasks)
    ensures Accepted(Freed(tasks, pins))
  {
    AcceptedGraph(tasks);
    FreedIds(tasks, pins);
    FreedPlanGraph(tasks, pins);
    FreedAcyclic(PlanGraph(tasks), pins);
    hide Acyclic, Closed, Freed, NoDuplicates, TaskMap;
    assert map[] + TaskMap(Freed(tasks, pins)) == TaskMap(Freed(tasks, pins));
    FreedDepsKnown(tasks, pins);
  }

  lemma FreedDepsKnown(tasks: seq<Task>, pins: set<TaskId>)
    requires DepsKnown(map[], tasks)
    ensures DepsKnown(map[], Freed(tasks, pins))
  {
    FreedIds(tasks, pins);
    hide Ids;
    forall i | 0 <= i < |tasks| ensures forall d :: d in Freed(tasks, pins)[i].dependsOn ==> d in Ids(tasks) {}
  }

  /** The meaning of a plan does not ask for the dependencies of pinned tasks. */
  lemma FreedMeaning(g: Graph, ok: set<TaskId>, pins: set<TaskId>)
    requires Closed(g) && Acyclic(g) && Closed(FreedGraph(g, pins)) && Acyclic(FreedGraph(g, pins))
    ensures FinalMap(FreedGraph(g, pins), ok, pins) == FinalMap(g, ok, pins)
  {
    var free, f := FreedGraph(g, pins), FinalMap(g, ok, pins);
    FinalMapSolves(g, ok, pins);
    hide Closed, Acyclic, FinalMap;
    assert Solves(free, ok, pins, f);
    SolutionIsFinal(free, ok, pins, f);
  }

  // -- what a run reads of the graph ------------------------------------------------------------

  /** The graphs agree on every task that is not finished. */
  ghost predicate AgreeOnLive(g: Graph, g': Graph, st: Statuses) {
    g.Keys == g'.Keys && forall t :: t in g && t in st && !st[t].Terminal() ==> g[t] == g'[t]
  }

  lemma LivePathAgrees(g: Graph, g': Graph, st: Statuses, p: seq<TaskId>)
    requires AgreeOnLive(g, g', st) && LivePath(g, st, p)
    ensures LivePath(g', st, p)
  {
    forall i, j | 0 <= i && j == i + 1 && j < |p| ensures p[i] in g'[p[j]] { assert p[i] in g[p[j]]; }
  }

  lemma BlockFromAgrees(g: Graph, g': Graph, st: Statuses, a: TaskId)
    requires AgreeOnLive(g, g', st)
    ensures BlockFrom(g, st, a) == BlockFrom(g', st, a)
  {
    forall t ensures LiveReach(g, st, a, t) <==> LiveReach(g', st, a, t) {
      if LiveReach(g, st, a, t) {
        var p :| LivePath(g, st, p) && p[0] == a && p[|p| - 1] == t;
        LivePathAgrees(g, g', st, p);
      }
      if LiveReach(g', st, a, t) {
        var p :| LivePath(g', st, p) && p[0] == a && p[|p| - 1] == t;
        LivePathAgrees(g', g, st, p);
      }
    }
  }

  /** Failing a task blocks the same tasks in both graphs. */
  lemma FailTaskAgrees(g: Graph, g': Graph, st: Statuses, t: TaskId)
    requires AgreeOnLive(g, g', st)
    ensures FailTask(g, st, t) == FailTask(g', st, t)
  {
    hide BlockFrom;
    assert AgreeOnLive(g, g', st[t := FAILED]);
    BlockFromAgrees(g, g', st[t := FAILED], t);
  }

  /** Two task records that agree on everything the ready list reads. */
  ghost predicate AgreeOnPending(tasks: map<TaskId, Task>, tasks': map<TaskId, Task>, st: Statuses) {
    && tasks.Keys == tasks'.Keys
    && (forall t :: t in tasks ==> tasks[t].priority == tasks'[t].priority)
    && (forall t :: t in tasks && t in st && st[t] == PENDING ==> tasks[t].dependsOn == tasks'[t].dependsOn)
  }

  lemma {:induction false} FilterAgrees(tasks: map<TaskId, Task>, tasks': map<TaskId, Task>, keys: seq<TaskId>,
                                        st: Statuses)
    requires AgreeOnPending(tasks, tasks', st)
    ensures FilterReady(tasks, st, keys) == FilterReady(tasks', st, keys)
    decreases |keys|
  {
    if keys != [] { FilterAgrees(tasks, tasks', keys[..|keys| - 1], st); }
  }

  lemma ReadyAgrees(tasks: map<TaskId, Task>, tasks': map<TaskId, Task>, keys: seq<TaskId>,
                    order: map<TaskId, nat>, st: Statuses)
    requires AgreeOnPending(tasks, tasks', st)
    ensures ReadyList(tasks, keys, order, st) == ReadyList(tasks', keys, order, st)
  {
    FilterAgrees(tasks, tasks', keys, st);
    SortByAgrees(FilterReady(tasks, st, keys), (a, b) => Before(tasks, order, a, b),
                 (a, b) => Before(tasks', order, a, b));
  }

  /** With its pinned tasks completed, a plan and its freed form look alike to a run. */
  ghost predicate PinsDone(pins: set<TaskId>, st: Statuses) {
    forall t :: t in pins ==> t in st && st[t] == COMPLETED
  }

  lemma FreedAgrees(tasks: seq<Task>, pins: set<TaskId>, st: Statuses)
    requires PinsDone(pins, st)
    ensures AgreeOnLive(PlanGraph(tasks), PlanGraph(Freed(tasks, pins)), st)
    ensures AgreeOnPending(TaskMap(tasks), TaskMap(Freed(tasks, pins)), st)
  {
    FreedPlanGraph(tasks, pins);
    FreedMap(tasks, pins);
    TaskMapKeys(tasks);
    hide TaskMap, Freed;
  }

  // -- the two runs, step by step ----------------------------------------------------------------

  /** `free` is `cfg` with the tasks of `pins` freed. */
  ghost predicate Frees(cfg: Config, pins: set<TaskId>, free: Config) {
    free == cfg.(tasks := Freed(cfg.tasks, pins))
  }

  lemma FailRunAlike(cfg: Config, pins: set<TaskId>, free: Config, s: RunState, t: TaskId, error: TaskError,
                     attempts: nat, before: seq<Event>)
    requires Frees(cfg, pins, free) && AgreeOnLive(cfg.G(), free.G(), s.st)
    ensures FailRun(cfg, s, t, error, attempts, before) == FailRun(free, s, t, error, attempts, before)
  {
    FailTaskAgrees(cfg.G(), free.G(), s.st, t);
    hide FailTask, PlanGraph, CompletedOutputs, AgreeOnLive;
  }

  lemma DispatchAlike(cfg: Config, pins: set<TaskId>, free: Config, s: RunState, t: TaskId)
    requires Frees(cfg, pins, free) && PinsDone(pins, s.st) && t in s.st && s.st[t] == PENDING
    ensures Dispatch(cfg, s, t) == Dispatch(free, s, t)
  {
    var s1 := MarkStarted(s, t);
    FreedAgrees(cfg.tasks, pins, s1.st);
    hide FailRun, PlanGraph, Freed, AgreeOnPending, AgreeOnLive;
    FailRunAlike(cfg, pins, free, s1, t, BlockedBySecurity, 1, [EvSecurityBlocked(t)]);
    FailRunAlike(cfg, pins, free, s1, t, NoHandler, 1, []);
  }

  lemma SettleAlike(cfg: Config, pins: set<TaskId>, free: Config, s: RunState, t: TaskId, allowRetry: bool)
    requires Frees(cfg, pins, free) && PinsDone(pins, s.st) && t in s.inflight
    ensures Settle(cfg, s, t, allowRetry) == Settle(free, s, t, allowRetry)
  {
    var s1 := s.(inflight := s.inflight - {t});
    FreedAgrees(cfg.tasks, pins, s.st);
    hide FailRun, PlanGraph, Freed, AgreeOnPending, AgreeOnLive, CompletedOutputs;
    match cfg.invoke(t, s.inflight[t])
    case Returned(output) =>
    case Raised(message) => FailRunAlike(cfg, pins, free, s1, t, HandlerError(message), s.inflight[t], []);
  }

  lemma InvPinsDone(cfg: Config, pins: set<TaskId>, s: RunState)
    requires Inv(cfg, pins, false, s)
    ensures PinsDone(pins, s.st)
  {
    hide Sound, Flights, ResultsAgree, Traced, CallsAllowed, Checkpointed;
  }

  lemma {:induction false} DispatchAllAlike(cfg: Config, pins: set<TaskId>, free: Config, s: RunState, ids: seq<TaskId>)
    requires Frees(cfg, pins, free) && Accepted(free.tasks) && Inv(free, pins, false, s)
    requires NoDuplicates(ids) && forall t :: t in ids ==> IsReady(free.G(), s.st, t)
    ensures DispatchAll(cfg, s, ids) == DispatchAll(free, s, ids)
    decreases |ids|
  {
    hide Frees, Accepted, Inv, IsReady, Dispatch, PlanGraph;
    if ids != [] {
      var init, t := ids[..|ids| - 1], ids[|ids| - 1];
      assert ids == init + [t];
      assert t !in init by { forall i | 0 <= i < |init| ensures init[i] != t { assert ids[i] != ids[|ids| - 1]; } }
      DispatchAllAlike(cfg, pins, free, s, init);
      DispatchAllKeeps(free, pins, false, s, init);
      var s1 := DispatchAll(free, s, init);
      InvPinsDone(free, pins, s1);
      ReadyIsPending(free.G(), s1.st, t);
      DispatchAlike(cfg, pins, free, s1, t);
    }
  }

  lemma ReadyIsPending(g: Graph, st: Statuses, t: TaskId)
    requires IsReady(g, st, t)
    ensures t in st && st[t] == PENDING
  {}

  lemma ReadyTasksAlike(cfg: Config, pins: set<TaskId>, free: Config, s: RunState)
    requires Frees(cfg, pins, free) && Accepted(free.tasks) && Inv(free, pins, false, s)
    ensures ReadyTasks(cfg, s.st) == ReadyTasks(free, s.st) && NoDuplicates(ReadyTasks(free, s.st))
    ensures forall t :: t in ReadyTasks(free, s.st) ==> IsReady(free.G(), s.st, t)
  {
    hide Accepted, Inv, IsReady, Sound, NoDuplicates, PlanGraph, TaskMap, Ids, AgreeOnPending, Freed, ReadyList;
    InvPinsDone(free, pins, s);
    InvSound(free, pins, false, s);
    SoundKeys(free.G(), s.st);
    FreedAgrees(cfg.tasks, pins, s.st);
    FreedIds(cfg.tasks, pins);
    ReadyAgrees(TaskMap(cfg.tasks), TaskMap(free.tasks), Ids(cfg.tasks), Positions(Ids(cfg.tasks)), s.st);
    ReadyTasksExact(free, s.st);
  }

  lemma AfterDispatchAlike(cfg: Config, pins: set<TaskId>, free: Config, s: RunState, o: Observation)
    requires Frees(cfg, pins, free) && Accepted(free.tasks) && Inv(free, pins, false, s)
    ensures AfterDispatch(cfg, s, o) == AfterDispatch(free, s, o)
  {
    hide Frees, Accepted, Inv, IsReady, NoDuplicates, PlanGraph, ReadyTasks;
    ReadyTasksAlike(cfg, pins, free, s);
    if !o.pausedFirst { DispatchAllAlike(cfg, pins, free, s, ReadyTasks(free, s.st)); }
  }

  lemma {:induction false} SettleAllAlike(cfg: Config, pins: set<TaskId>, free: Config, s: RunState,
                                          landings: seq<Landing>)
    requires Frees(cfg, pins, free) && Accepted(free.tasks) && Inv(free, pins, false, s)
    ensures SettleAll(cfg, s, landings) == SettleAll(free, s, landings)
    decreases |landings|
  {
    hide Frees, Accepted, Inv, Settle;
    if landings != [] {
      var init, last := landings[..|landings| - 1], landings[|landings| - 1];
      SettleAllAlike(cfg, pins, free, s, init);
      SettleAllKeeps(free, pins, false, s, init);
      var s1 := SettleAll(free, s, init);
      InvPinsDone(free, pins, s1);
      if last.task in s1.inflight { SettleAlike(cfg, pins, free, s1, last.task, !last.cancelSeen); }
    }
  }

  lemma {:induction false} LoopAlike(cfg: Config, pins: set<TaskId>, free: Config, s: RunState, env: seq<Observation>)
    requires Frees(cfg, pins, free) && Accepted(free.tasks) && Inv(free, pins, false, s)
    ensures Loop(cfg, s, env) == Loop(free, s, env)
    decreases |env|
  {
    hide Frees, Accepted, Inv, SettleAll, AfterDispatch, AllTerminal;
    if env != [] && !env[0].cancelled {
      AfterDispatchAlike(cfg, pins, free, s, env[0]);
      AfterDispatchKeeps(free, pins, false, s, env[0]);
      var s1 := AfterDispatch(free, s, env[0]);
      if s1.inflight == map[] {
        if env[0].pausedSecond && !AllTerminal(s1.st) { LoopAlike(cfg, pins, free, s1, env[1..]); }
      } else {
        SettleAllAlike(cfg, pins, free, s1, env[0].landings);
        SettleAllKeeps(free, pins, false, s1, env[0].landings);
        LoopAlike(cfg, pins, free, SettleAll(free, s1, env[0].landings), env[1..]);
      }
    }
  }

  lemma {:induction false} DrainAlike(cfg: Config, pins: set<TaskId>, free: Config, s: RunState, ids: seq<TaskId>)
    requires Frees(cfg, pins, free) && Accepted(free.tasks) && Inv(free, pins, false, s)
    ensures Drain(cfg, s, ids) == Drain(free, s, ids)
    decreases |ids|
  {
    hide Frees, Accepted, Inv, Settle, Drained;
    if ids != [] {
      var init, t := ids[..|ids| - 1], ids[|ids| - 1];
      DrainAlike(cfg, pins, free, s, init);
      DrainSettles(free, pins, s, init);
      var s1 := Drain(free, s, init);
      InvPinsDone(free, pins, s1);
      if t in s1.inflight { SettleAlike(cfg, pins, free, s1, t, false); }
    }
  }

  // -- whole runs -----------------------------------------------------------------------------------

  lemma FreedStartable(cfg: Config, restored: Option<Checkpoint>)
    requires Accepted(cfg.tasks)
    ensures Startable(FreedConfig(cfg, restored), restored)
    ensures Pins(FreedConfig(cfg, restored).tasks, restored) == Pins(cfg.tasks, restored)
    ensures FreedConfig(cfg, restored).Ok() == cfg.Ok()
  {
    var pins, free := Pins(cfg.tasks, restored), FreedConfig(cfg, restored);
    FreedAccepted(cfg.tasks, pins);
    FreedIds(cfg.tasks, pins);
    AcceptedGraph(cfg.tasks);
    FreedAcyclic(cfg.G(), pins);
    FreedPlanGraph(cfg.tasks, pins);
    hide Accepted, PlanGraph, Ids, Freed, Closed, Acyclic, DependencyClosed;
    assert pins <= cfg.G().Keys;
    forall t ensures t in free.Ok() <==> t in cfg.Ok() { assert free.Succeeds(t) <==> cfg.Succeeds(t); }
  }

  lemma BeginAlike(cfg: Config, restored: Option<Checkpoint>)
    ensures Begin(FreedConfig(cfg, restored), restored) == Begin(cfg, restored)
  {
    var pins := Pins(cfg.tasks, restored);
    FreedIds(cfg.tasks, pins);
    FreedPlanGraph(cfg.tasks, pins);
    hide PlanGraph, Ids, Freed;
    assert FreedConfig(cfg, restored).G().Keys == cfg.G().Keys;
  }

  /** A run from any checkpoint is, state by state, the run of the freed plan, whose checkpoint contains
      its dependencies: everything proved of such runs holds of it. */
  lemma RunsAlike(cfg: Config, restored: Option<Checkpoint>, sched: Schedule)
    requires Accepted(cfg.tasks)
    ensures Startable(FreedConfig(cfg, restored), restored)
    ensures EndOfLoop(FreedConfig(cfg, restored), restored, sched) == EndOfLoop(cfg, restored, sched)
    ensures Finishes(cfg, restored, sched) ==>
              && FinalState(FreedConfig(cfg, restored), restored, sched) == FinalState(cfg, restored, sched)
              && FinalRun(FreedConfig(cfg, restored), restored, sched) == FinalRun(cfg, restored, sched)
    ensures Reached(FreedConfig(cfg, restored), restored, sched) == Reached(cfg, restored, sched)
  {
    hide Accepted, Inv, Loop, Begin, Pins, DependencyClosed, ExitFacts, Freed, Config.Ok, Finish;
    var pins, free := Pins(cfg.tasks, restored), FreedConfig(cfg, restored);
    FreedStartable(cfg, restored);
    BeginAlike(cfg, restored);
    BeginInv(free, restored);
    WeakenInv(free, pins, true, Begin(free, restored));
    LoopAlike(cfg, pins, free, Begin(cfg, restored), sched.env);
    var end := EndOfLoop(free, restored, sched);
    EndOfLoopFacts(free, restored, sched, false);
    ExitInv(free, pins, false, end);
    if Finishes(cfg, restored, sched) { FinishAlike(cfg, pins, free, end, sched.drainOrder, sched.late); }
  }

  lemma FinishAlike(cfg: Config, pins: set<TaskId>, free: Config, end: LoopEnd, order: seq<TaskId>, late: LateCancel)
    requires Frees(cfg, pins, free) && Accepted(free.tasks) && Inv(free, pins, false, end.s) && !end.Suspended?
    ensures Finish(cfg, end, order, late) == Finish(free, end, order, late)
  {
    FreedIds(cfg.tasks, pins);
    hide Accepted, Inv, Drain, Sweep, FillResults, AllCompleted, SomeCompleted, Ids, Freed;
    DrainAlike(cfg, pins, free, end.s, order + Ids(cfg.tasks));
  }

  /** The plan's meaning with the restored tasks pinned, whatever the checkpoint holds. */
  ghost function PinnedMeaning(cfg: Config, restored: Option<Checkpoint>): Statuses
    requires Accepted(cfg.tasks)
  {
    AcceptedGraph(cfg.tasks);
    FinalMap(cfg.G(), cfg.Ok(), Pins(cfg.tasks, restored))
  }

  /** An uncancelled run from any checkpoint ends in the plan's meaning with the restored tasks pinned,
      exactly unless the loop was left through the pause race. */
  lemma AnyCheckpointMeansFinal(cfg: Config, restored: Option<Checkpoint>, sched: Schedule)
    requires Accepted(cfg.tasks) && Uncancelled(sched) && Finishes(cfg, restored, sched)
    ensures FinalState(cfg, restored, sched).st == PinnedMeaning(cfg, restored)
            <==> !Raced(EndOfLoop(cfg, restored, sched))
  {
    hide Accepted, DependencyClosed, EndOfLoop, FinalState, FinalRun, Uncancelled, Raced, FinalMap, Closed, Acyclic,
         Pins, Freed, Config.Ok, PlanGraph, Reached;
    var pins, free := Pins(cfg.tasks, restored), FreedConfig(cfg, restored);
    RunsAlike(cfg, restored, sched);
    FreedStartable(cfg, restored);
    EveryInterleavingMeansFinal(free, restored, sched);
    AcceptedGraph(cfg.tasks);
    AcceptedGraph(free.tasks);
    FreedPlanGraph(cfg.tasks, pins);
    FreedMeaning(cfg.G(), cfg.Ok(), pins);
  }

  /** The record of a finished run from any checkpoint is truthful. */
  lemma AnyCheckpointIsTruthful(cfg: Config, restored: Option<Checkpoint>, sched: Schedule)
    requires Accepted(cfg.tasks) && Finishes(cfg, restored, sched)
    ensures var f, run := FinalState(cfg, restored, sched), FinalRun(cfg, restored, sched);
            && run.results == f.results && run.trace == f.trace && run.results.Keys == cfg.G().Keys
            && run.status != RunRunning && f.inflight == map[]
            && EvRunStarted in run.trace && TerminalEvent(run.status) in run.trace
            && (forall t :: t in cfg.G() ==> Truthful(f, Pins(cfg.tasks, restored), t))
            && (forall i :: 0 <= i < |run.trace| ==> PlanEvent(run.trace[i], cfg.G().Keys))
  {
    hide Accepted, DependencyClosed, EndOfLoop, FinalState, FinalRun, Pins, Freed, Config.Ok, PlanGraph, Reached,
         Truthful, PlanEvent;
    RunsAlike(cfg, restored, sched);
    FreedStartable(cfg, restored);
    FreedPlanGraph(cfg.tasks, Pins(cfg.tasks, restored));
    EveryRunIsTruthful(FreedConfig(cfg, restored), restored, sched);
  }

  /** The status of a finished run from any checkpoint, by what became of its tasks. */
  lemma AnyCheckpointStatusSays(cfg: Config, restored: Option<Checkpoint>, sched: Schedule)
    requires Accepted(cfg.tasks) && Finishes(cfg, restored, sched)
    ensures var st, run := FinalState(cfg, restored, sched).st, FinalRun(cfg, restored, sched);
            var cancelled := EndOfLoop(cfg, restored, sched).LeftByCancel? || sched.late != Never;
            && st.Keys == cfg.G().Keys
            && (run.status == RunCancelled <==> cancelled)
            && (run.status == RunCompleted <==> !cancelled && forall t :: t in st ==> st[t] == COMPLETED)
            && (run.status == RunPartial <==> !cancelled && (exists t :: t in st && st[t] == COMPLETED)
                                              && (exists t :: t in st && st[t] != COMPLETED))
            && (run.status == RunFailed <==> !cancelled && st.Keys != {} && forall t :: t in st ==> st[t] != COMPLETED)
            && run.trace != []
            && run.trace[|run.trace| - 1] == (if cancelled then EvRunCancelled
                                              else if forall t :: t in st ==> st[t] == COMPLETED then EvRunCompleted
                                              else EvRunFailed)
  {
    hide Accepted, DependencyClosed, EndOfLoop, FinalState, FinalRun, Pins, Freed, Config.Ok, PlanGraph, Reached;
    RunsAlike(cfg, restored, sched);
    FreedStartable(cfg, restored);
    FreedPlanGraph(cfg.tasks, Pins(cfg.tasks, restored));
    RunStatusSays(FreedConfig(cfg, restored), restored, sched);
  }

  /** An uncancelled, unraced run from any checkpoint is completed if and only if every task of the plan
      was restored or succeeds by itself. */
  lemma AnyCheckpointCompletes(cfg: Config, restored: Option<Checkpoint>, sched: Schedule)
    requires Accepted(cfg.tasks) && Uncancelled(sched) && Finishes(cfg, restored, sched)
    requires !Raced(EndOfLoop(cfg, restored, sched))
    ensures FinalRun(cfg, restored, sched).status == RunCompleted
            <==> forall t :: t in cfg.G() ==> t in Pins(cfg.tasks, restored) || cfg.Succeeds(t)
  {
    hide Accepted, DependencyClosed, EndOfLoop, FinalState, FinalRun, Pins, Freed, Config.Ok, PlanGraph, Reached,
         Uncancelled, Raced;
    RunsAlike(cfg, restored, sched);
    FreedStartable(cfg, restored);
    FreedPlanGraph(cfg.tasks, Pins(cfg.tasks, restored));
    var free := FreedConfig(cfg, restored);
    CompletedIffAllSucceed(free, restored, sched);
    forall t ensures free.Succeeds(t) <==> cfg.Succeeds(t) {}
  }

  /** What the log of a run from any checkpoint says, whether it ended or was interrupted. */
  lemma AnyCheckpointLogIsExact(cfg: Config, restored: Option<Checkpoint>, sched: Schedule)
    requires Accepted(cfg.tasks)
    ensures var s, pins := Reached(cfg, restored, sched), Pins(cfg.tasks, restored);
            && Checkpoints(cfg, pins, s.trace) && Refusals(cfg, s.trace) && Retries(s.trace) == LaterCalls(s.calls)
            && (s.saved.Some? <==> cfg.checkpoints && HasSettlement(s.trace))
            && RunEvents(s.trace)
               == (if restored.Some? then [EvRunResumed(pins)] else []) + [EvRunStarted]
                  + (if Finishes(cfg, restored, sched) then [TerminalEvent(FinalRun(cfg, restored, sched).status)]
                     else [])
  {
    hide Accepted, DependencyClosed, EndOfLoop, FinalState, FinalRun, Pins, Freed, Config.Ok, PlanGraph, Reached,
         Checkpoints, Refusals, HasSettlement, RunEvents, Retries, LaterCalls, TerminalEvent, Begin;
    RunsAlike(cfg, restored, sched);
    FreedStartable(cfg, restored);
    var free, s := FreedConfig(cfg, restored), Reached(cfg, restored, sched);
    EveryLogIsExact(free, restored, sched);
    SameAudit(cfg, free, Pins(cfg.tasks, restored), s.trace);
  }

  /** What is audited of a log depends on the guard and the checkpoint setting alone. */
  lemma SameAudit(cfg: Config, cfg': Config, pins: set<TaskId>, trace: seq<Event>)
    requires cfg'.guard == cfg.guard && cfg'.checkpoints == cfg.checkpoints
    ensures Checkpoints(cfg', pins, trace) ==> Checkpoints(cfg, pins, trace)
    ensures Refusals(cfg', trace) ==> Refusals(cfg, trace)
  {
    hide CompletedIn;
    forall i | 0 <= i < |trace| ensures CheckpointAt(cfg', pins, trace, i) ==> CheckpointAt(cfg, pins, trace, i) {}
    forall i | 0 <= i < |trace| ensures RefusalAt(cfg', trace, i) ==> RefusalAt(cfg, trace, i) {}
  }

  /** A run with checkpoints on leaves one exactly if a task completed or failed in it. */
  lemma SettledRunsAreSaved(cfg: Config, restored: Option<Checkpoint>, sched: Schedule)
    requires Accepted(cfg.tasks)
    ensures Reached(cfg, restored, sched).saved.Some?
            <==> cfg.checkpoints && exists t :: EvTaskCompleted(t) in Reached(cfg, restored, sched).trace
                                                || EvTaskFailed(t) in Reached(cfg, restored, sched).trace
  {
    hide Accepted, Reached, Checkpoints, Refusals, Retries, LaterCalls, RunEvents, Begin;
    AnyCheckpointLogIsExact(cfg, restored, sched);
    var trace := Reached(cfg, restored, sched).trace;
    if HasSettlement(trace) {
      var i :| 0 <= i < |trace| && Settlement(trace[i]);
      assert trace[i] == EvTaskCompleted(trace[i].task) || trace[i] == EvTaskFailed(trace[i].task);
    }
    if t :| EvTaskCompleted(t) in trace || EvTaskFailed(t) in trace {
      var i :| 0 <= i < |trace| && (trace[i] == EvTaskCompleted(t) || trace[i] == EvTaskFailed(t));
      assert Settlement(trace[i]);
    }
  }

  /** In a finished run that is one with a completed task that was not restored, or with a failed one. */
  lemma SettledInResults(cfg: Config, restored: Option<Checkpoint>, sched: Schedule)
    requires Accepted(cfg.tasks) && Finishes(cfg, restored, sched)
    ensures Reached(cfg, restored, sched).saved.Some?
            <==> cfg.checkpoints
                 && exists t :: t in FinalRun(cfg, restored, sched).results
                                && (FinalRun(cfg, restored, sched).results[t].status == FAILED
                                    || (FinalRun(cfg, restored, sched).results[t].status == COMPLETED
                                        && t !in Pins(cfg.tasks, restored)))
  {
    hide Accepted, FinalState, FinalRun, EndOfLoop, Pins, Truthful, PlanEvent, PlanGraph, TerminalEvent;
    SettledRunsAreSaved(cfg, restored, sched);
    AnyCheckpointIsTruthful(cfg, restored, sched);
    var f, run, pins := FinalState(cfg, restored, sched), FinalRun(cfg, restored, sched), Pins(cfg.tasks, restored);
    forall t | t in run.results
      ensures EvTaskCompleted(t) in run.trace <==> run.results[t].status == COMPLETED && t !in pins
      ensures EvTaskFailed(t) in run.trace <==> run.results[t].status == FAILED
    {
      TruthfulMeansTraced(f, pins, t);
    }
    forall t | EvTaskCompleted(t) in run.trace || EvTaskFailed(t) in run.trace ensures t in run.results {
      TracedIsPlanned(run.trace, cfg.G().Keys, t);
    }
    if cfg.checkpoints && exists t :: EvTaskCompleted(t) in run.trace || EvTaskFailed(t) in run.trace {
      var t :| EvTaskCompleted(t) in run.trace || EvTaskFailed(t) in run.trace;
      assert t in run.results;
    }
  }

  lemma TruthfulMeansTraced(f: RunState, pins: set<TaskId>, t: TaskId)
    requires Truthful(f, pins, t)
    ensures t in f.results
    ensures EvTaskCompleted(t) in f.trace <==> f.results[t].status == COMPLETED && t !in pins
    ensures EvTaskFailed(t) in f.trace <==> f.results[t].status == FAILED
  {
    assert EvTaskCompleted(t) in f.trace <==> Count(f.trace, EvTaskCompleted(t)) > 0;
    assert EvTaskFailed(t) in f.trace <==> Count(f.trace, EvTaskFailed(t)) > 0;
    assert Count(f.trace, EvTaskCompleted(t)) <= 1 && Count(f.trace, EvTaskFailed(t)) <= 1;
  }

  lemma TracedIsPlanned(trace: seq<Event>, ids: set<TaskId>, t: TaskId)
    requires forall i :: 0 <= i < |trace| ==> PlanEvent(trace[i], ids)
    requires EvTaskCompleted(t) in trace || EvTaskFailed(t) in trace
    ensures t in ids
  {
    var i :| 0 <= i < |trace| && (trace[i] == EvTaskCompleted(t) || trace[i] == EvTaskFailed(t));
    assert PlanEvent(trace[i], ids);
  }
}
