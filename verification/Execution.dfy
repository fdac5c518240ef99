/** The executor's run loop as transitions on run states.

    Everything a run does not decide itself is a parameter: the outcome of the n-th invocation
    of a task's handler, the security verdict, and what each pass of the loop observes (the
    cancel flag, the two reads of the pause flag, which futures have finished). A theorem about
    all values of these parameters is a theorem about all interleavings. */
module Execution {
  import opened Schemas
  import opened Dag
  import opened Semantics
  import opened SchedulerSpec
  import opened Scheduling

  datatype Config = Config(
    tasks: seq<Task>,
    maxAttempts: int,
    checkpoints: bool,
    guard: TaskId -> bool,
    resolves: TaskId -> bool,
    invoke: (TaskId, nat) -> Outcome)
  {
    ghost function G(): Graph { PlanGraph(tasks) }

    /** Attempts a task can use: never fewer than one. */
    function Limit(): nat { if maxAttempts < 1 then 1 else maxAttempts }

    ghost predicate Succeeds(t: TaskId) {
      guard(t) && resolves(t) && exists a: nat :: 1 <= a <= Limit() && invoke(t, a).Returned?
    }

    /** The tasks that succeed if they get to run and may use all their attempts. */
    ghost function Ok(): set<TaskId> {
      set t | t in G() && Succeeds(t)
    }
  }

  datatype Call = Call(task: TaskId, attempt: nat)

  type Checkpoint = map<TaskId, Value>

  datatype RunState = RunState(
    st: Statuses,
    results: map<TaskId, TaskResult>,
    inflight: map<TaskId, nat>,
    trace: seq<Event>,
    calls: seq<Call>,
    saved: Option<Checkpoint>)

  // -- starting and resuming ---------------------------------------------------

  function Pins(tasks: seq<Task>, restored: Option<Checkpoint>): set<TaskId> {
    if restored.None? then {} else set t | t in restored.value && t in Ids(tasks)
  }

  ghost function Begin(cfg: Config, restored: Option<Checkpoint>): RunState {
    var pins := Pins(cfg.tasks, restored);
    RunState(
      map t | t in cfg.G() :: if t in pins then COMPLETED else PENDING,
      map t | t in pins :: TaskResult(COMPLETED, restored.value[t], None, 1),
      map[],
      (if restored.Some? then [EvRunResumed(pins)] else []) + [EvRunStarted],
      [],
      None)
  }

  // -- task lifecycle ------------------------------------------------------------

  function CompletedOutputs(results: map<TaskId, TaskResult>): Checkpoint {
    map t | t in results && results[t].status == COMPLETED :: results[t].output
  }

  function Save(cfg: Config, s: RunState): RunState {
    if cfg.checkpoints then
      var completed := CompletedOutputs(s.results);
      s.(saved := Some(completed), trace := s.trace + [EvCheckpointed(|completed|)])
    else s
  }

  ghost function FailRun(cfg: Config, s: RunState, t: TaskId, error: TaskError, attempts: nat,
                         before: seq<Event>): RunState
  {
    Save(cfg, s.(st := FailTask(cfg.G(), s.st, t),
                 results := s.results[t := TaskResult(FAILED, NoValue, Some(error), attempts)],
                 trace := s.trace + before + [EvTaskFailed(t)]))
  }

  function CompleteRun(cfg: Config, s: RunState, t: TaskId, output: Value, attempts: nat): RunState {
    Save(cfg, s.(st := s.st[t := COMPLETED],
                 results := s.results[t := TaskResult(COMPLETED, output, None, attempts)],
                 trace := s.trace + [EvTaskCompleted(t)]))
  }

  function MarkStarted(s: RunState, t: TaskId): RunState {
    s.(st := s.st[t := RUNNING], trace := s.trace + [EvTaskStarted(t)])
  }

  ghost function Dispatch(cfg: Config, s: RunState, t: TaskId): RunState {
    var s1 := MarkStarted(s, t);
    if !cfg.guard(t) then FailRun(cfg, s1, t, BlockedBySecurity, 1, [EvSecurityBlocked(t)])
    else if !cfg.resolves(t) then FailRun(cfg, s1, t, NoHandler, 1, [])
    else s1.(inflight := s1.inflight[t := 1], calls := s1.calls + [Call(t, 1)])
  }

  ghost function Settle(cfg: Config, s: RunState, t: TaskId, allowRetry: bool): RunState
    requires t in s.inflight
  {
    var a := s.inflight[t];
    var s1 := s.(inflight := s.inflight - {t});
    match cfg.invoke(t, a)
    case Returned(output) => CompleteRun(cfg, s1, t, output, a)
    case Raised(message) =>
      if allowRetry && a < cfg.maxAttempts then
        s1.(inflight := s1.inflight[t := a + 1],
            calls := s1.calls + [Call(t, a + 1)],
            trace := s1.trace + [EvTaskRetried(t, a + 1)])
      else FailRun(cfg, s1, t, HandlerError(message), a, [])
  }

  // -- the loop --------------------------------------------------------------------

  /** A finished future, and whether the dispatcher sees the cancel flag set while settling it. */
  datatype Landing = Landing(task: TaskId, cancelSeen: bool)

  /** What one pass of the loop observes. */
  datatype Observation = Observation(
    cancelled: bool,
    pausedFirst: bool,   // read before dispatching
    pausedSecond: bool,  // read when nothing is in flight
    landings: seq<Landing>)

  datatype LoopEnd =
    | Suspended(s: RunState)           // the observations ran out: a prefix of a longer run
    | LeftByCancel(s: RunState)
    | LeftByBreak(s: RunState, before: RunState, last: Observation)

  ghost function DispatchAll(cfg: Config, s: RunState, ids: seq<TaskId>): RunState
    decreases |ids|
  {
    if ids == [] then s
    else Dispatch(cfg, DispatchAll(cfg, s, ids[..|ids| - 1]), ids[|ids| - 1])
  }

  /** Landings that name no task in flight are no futures at all and change nothing. */
  ghost function SettleAll(cfg: Config, s: RunState, landings: seq<Landing>): RunState
    decreases |landings|
  {
    if landings == [] then s
    else
      var s1 := SettleAll(cfg, s, landings[..|landings| - 1]);
      var last := landings[|landings| - 1];
      if last.task in s1.inflight then Settle(cfg, s1, last.task, !last.cancelSeen) else s1
  }

  function Positions(keys: seq<TaskId>): map<TaskId, nat> {
    if keys == [] then map[] else Positions(keys[..|keys| - 1])[keys[|keys| - 1] := |keys| - 1]
  }

  function ReadyTasks(cfg: Config, st: Statuses): seq<TaskId> {
    ReadyList(TaskMap(cfg.tasks), Ids(cfg.tasks), Positions(Ids(cfg.tasks)), st)
  }

  ghost function AfterDispatch(cfg: Config, s: RunState, o: Observation): RunState {
    if o.pausedFirst then s else DispatchAll(cfg, s, ReadyTasks(cfg, s.st))
  }

  ghost function Loop(cfg: Config, s: RunState, env: seq<Observation>): LoopEnd
    decreases |env|
  {
    if env == [] then Suspended(s)
    else
      var o := env[0];
      if o.cancelled then LeftByCancel(s)
      else
        var s1 := AfterDispatch(cfg, s, o);
        if s1.inflight == map[] then
          if o.pausedSecond && !AllTerminal(s1.st) then Loop(cfg, s1, env[1..])
          else LeftByBreak(s1, s, o)
        else Loop(cfg, SettleAll(cfg, s1, o.landings), env[1..])
  }

  // -- ending a run --------------------------------------------------------------------

  /** When a cancel that the loop itself did not see arrives, relative to the later reads. */
  datatype LateCancel = Never | BeforeDrain | BeforeSweep | BeforeStatus

  ghost function Drain(cfg: Config, s: RunState, ids: seq<TaskId>): RunState
    decreases |ids|
  {
    if ids == [] then s
    else
      var s1 := Drain(cfg, s, ids[..|ids| - 1]);
      if ids[|ids| - 1] in s1.inflight then Settle(cfg, s1, ids[|ids| - 1], false) else s1
  }

  function Sweep(st: Statuses): Statuses {
    map t | t in st :: if st[t].Terminal() then st[t] else CANCELLED
  }

  function FillResults(s: RunState): map<TaskId, TaskResult> {
    map t | t in s.st.Keys + s.results.Keys ::
      if t in s.results then s.results[t] else TaskResult(s.st[t], NoValue, None, 1)
  }

  predicate AllCompleted(results: map<TaskId, TaskResult>) {
    forall t :: t in results ==> results[t].status == COMPLETED
  }

  predicate SomeCompleted(results: map<TaskId, TaskResult>) {
    exists t :: t in results && results[t].status == COMPLETED
  }

  function FinalStatus(results: map<TaskId, TaskResult>, cancelled: bool): RunStatus {
    if cancelled then RunCancelled
    else if AllCompleted(results) then RunCompleted
    else if SomeCompleted(results) then RunPartial
    else RunFailed
  }

  function TerminalEvent(status: RunStatus): Event {
    match status
    case RunCompleted => EvRunCompleted
    case RunCancelled => EvRunCancelled
    case _ => EvRunFailed
  }

  predicate SeenAtDrain(end: LoopEnd, late: LateCancel) { end.LeftByCancel? || late == BeforeDrain }
  predicate SeenAtSweep(end: LoopEnd, late: LateCancel) { SeenAtDrain(end, late) || late == BeforeSweep }
  predicate SeenAtStatus(end: LoopEnd, late: LateCancel) { SeenAtSweep(end, late) || late == BeforeStatus }

  /** The futures still in flight settle in any order; every plan task is tried in the end. */
  ghost function AfterDrain(cfg: Config, end: LoopEnd, order: seq<TaskId>, late: LateCancel): RunState {
    if SeenAtDrain(end, late) then Drain(cfg, end.s, order + Ids(cfg.tasks)) else end.s
  }

  ghost function AfterSweep(cfg: Config, end: LoopEnd, order: seq<TaskId>, late: LateCancel): RunState {
    var s := AfterDrain(cfg, end, order, late);
    if SeenAtSweep(end, late) then s.(st := Sweep(s.st)) else s
  }

  /** The state at return, and the run record. */
  ghost function Finish(cfg: Config, end: LoopEnd, order: seq<TaskId>, late: LateCancel): (RunState, Run)
    requires !end.Suspended?
  {
    var s := AfterSweep(cfg, end, order, late);
    var results := FillResults(s);
    var status := FinalStatus(results, SeenAtStatus(end, late));
    var trace := s.trace + [TerminalEvent(status)];
    (s.(results := results, trace := trace), Run(status, results, trace))
  }

  /** All that a run's environment decides. */
  datatype Schedule = Schedule(env: seq<Observation>, drainOrder: seq<TaskId>, late: LateCancel)

  ghost function EndOfLoop(cfg: Config, restored: Option<Checkpoint>, sched: Schedule): LoopEnd {
    Loop(cfg, Begin(cfg, restored), sched.env)
  }

  ghost predicate Finishes(cfg: Config, restored: Option<Checkpoint>, sched: Schedule) {
    !EndOfLoop(cfg, restored, sched).Suspended?
  }

  ghost function FinalState(cfg: Config, restored: Option<Checkpoint>, sched: Schedule): RunState
    requires Finishes(cfg, restored, sched)
  {
    Finish(cfg, EndOfLoop(cfg, restored, sched), sched.drainOrder, sched.late).0
  }

  ghost function FinalRun(cfg: Config, restored: Option<Checkpoint>, sched: Schedule): Run
    requires Finishes(cfg, restored, sched)
  {
    Finish(cfg, EndOfLoop(cfg, restored, sched), sched.drainOrder, sched.late).1
  }
}
