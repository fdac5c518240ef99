/** What the record of a run says about the handlers: every settled task carries the result of the
    attempt that decided it, and no task starts before its dependencies' completions are on the log. */
module RunResults {
  import opened Schemas
  import opened Dag
  import opened Semantics
  import opened SchedulerSpec
  import opened Kahn
  import opened Scheduling
  import opened Execution
  import opened RunInvariant
  import opened RunLoop
  import opened RunProgress
  import opened RunTheorems
  import opened RunGuarantees
  import opened RunAudit

  /** The result of a settled task: restored, refused by the guard, without a handler, or that of
      the attempt it counts, every earlier attempt having raised. */
  ghost predicate RealAt(cfg: Config, restored: Option<Checkpoint>, t: TaskId, r: TaskResult) {
    if t in Pins(cfg.tasks, restored) then r == TaskResult(COMPLETED, restored.value[t], None, 1)
    else if !cfg.guard(t) then r == TaskResult(FAILED, NoValue, Some(BlockedBySecurity), 1)
    else if !cfg.resolves(t) then r == TaskResult(FAILED, NoValue, Some(NoHandler), 1)
    else MayFly(cfg, t, r.attempts) && r == RealResult(cfg, t, r.attempts)
  }

  ghost predicate Real(cfg: Config, restored: Option<Checkpoint>, results: map<TaskId, TaskResult>) {
    forall t :: t in results ==> RealAt(cfg, restored, t, results[t])
  }

  /** Every dependency of a task was restored, or its completion is on the log before the start. */
  ghost predicate StartsAfterDeps(g: Graph, pins: set<TaskId>, trace: seq<Event>, i: nat)
    requires i < |trace|
  {
    trace[i].EvTaskStarted? && trace[i].task in g ==>
      forall d :: d in g[trace[i].task] ==> d in pins || EvTaskCompleted(d) in trace[..i]
  }

  ghost predicate Ordered(g: Graph, pins: set<TaskId>, trace: seq<Event>) {
    forall i {:trigger StartsAfterDeps(g, pins, trace, i)} :: 0 <= i < |trace| ==> StartsAfterDeps(g, pins, trace, i)
  }

  ghost predicate Logged(cfg: Config, restored: Option<Checkpoint>, s: RunState) {
    Real(cfg, restored, s.results) && Ordered(cfg.G(), Pins(cfg.tasks, restored), s.trace)
  }

  /** How often a task's handler was called. */
  function CallsOf(calls: seq<Call>, t: TaskId): nat {
    if calls == [] then 0
    else CallsOf(calls[..|calls| - 1], t) + if calls[|calls| - 1].task == t then 1 else 0
  }

  /** The attempts of each task are numbered as its calls are made. */
  ghost predicate NumberedAt(calls: seq<Call>, i: nat)
    requires i < |calls|
  {
    calls[i].attempt == CallsOf(calls[..i], calls[i].task) + 1
  }

  ghost predicate Numbered(calls: seq<Call>) {
    forall i {:trigger NumberedAt(calls, i)} :: 0 <= i < |calls| ==> NumberedAt(calls, i)
  }

  /** The attempts a task has used in this run, as its flight or its result says. */
  function Used(cfg: Config, pins: set<TaskId>, inflight: map<TaskId, nat>, results: map<TaskId, TaskResult>,
                t: TaskId): nat
  {
    if t in inflight then inflight[t]
    else if t in results && t !in pins && cfg.guard(t) && cfg.resolves(t) then results[t].attempts
    else 0
  }

  ghost predicate Tallied(cfg: Config, pins: set<TaskId>, s: RunState) {
    Numbered(s.calls) && forall t :: CallsOf(s.calls, t) == Used(cfg, pins, s.inflight, s.results, t)
  }

  ghost predicate Faithful(cfg: Config, restored: Option<Checkpoint>, s: RunState) {
    Logged(cfg, restored, s) && Tallied(cfg, Pins(cfg.tasks, restored), s) && Audited(cfg, restored, s)
  }

  // -- one step ----------------------------------------------------------------------------------

  lemma OrderedAppend(g: Graph, pins: set<TaskId>, trace: seq<Event>, e: Event)
    requires Ordered(g, pins, trace)
    requires e.EvTaskStarted? && e.task in g ==> forall d :: d in g[e.task] ==> d in pins || EvTaskCompleted(d) in trace
    ensures Ordered(g, pins, trace + [e])
  {
    var after := trace + [e];
    forall i | 0 <= i < |after| ensures StartsAfterDeps(g, pins, after, i) {
      if i < |trace| {
        assert StartsAfterDeps(g, pins, trace, i) && after[..i] == trace[..i];
      } else {
        assert after[..i] == trace;
      }
    }
  }

  lemma SaveLogged(cfg: Config, restored: Option<Checkpoint>, s: RunState)
    requires Logged(cfg, restored, s)
    ensures Logged(cfg, restored, Save(cfg, s))
  {
    hide Real, Ordered, CompletedOutputs, PlanGraph, Pins;
    if cfg.checkpoints {
      OrderedAppend(cfg.G(), Pins(cfg.tasks, restored), s.trace, EvCheckpointed(|CompletedOutputs(s.results)|));
    }
  }

  lemma FailLogged(cfg: Config, restored: Option<Checkpoint>, s: RunState, t: TaskId, error: TaskError, attempts: nat,
                   before: seq<Event>)
    requires Logged(cfg, restored, s) && RealAt(cfg, restored, t, TaskResult(FAILED, NoValue, Some(error), attempts))
    requires before == [] || before == [EvSecurityBlocked(t)]
    ensures Logged(cfg, restored, FailRun(cfg, s, t, error, attempts, before))
  {
    hide RealAt, Ordered, FailTask, PlanGraph, Pins, Save;
    var g, pins := cfg.G(), Pins(cfg.tasks, restored);
    if before == [] { assert s.trace + before == s.trace; }
    else { OrderedAppend(g, pins, s.trace, EvSecurityBlocked(t)); }
    OrderedAppend(g, pins, s.trace + before, EvTaskFailed(t));
    SaveLogged(cfg, restored,
                 s.(st := FailTask(g, s.st, t),
                    results := s.results[t := TaskResult(FAILED, NoValue, Some(error), attempts)],
                    trace := s.trace + before + [EvTaskFailed(t)]));
  }

  lemma CompleteLogged(cfg: Config, restored: Option<Checkpoint>, s: RunState, t: TaskId, output: Value, attempts: nat)
    requires Logged(cfg, restored, s) && RealAt(cfg, restored, t, TaskResult(COMPLETED, output, None, attempts))
    ensures Logged(cfg, restored, CompleteRun(cfg, s, t, output, attempts))
  {
    hide RealAt, Ordered, PlanGraph, Pins, Save;
    OrderedAppend(cfg.G(), Pins(cfg.tasks, restored), s.trace, EvTaskCompleted(t));
    SaveLogged(cfg, restored,
                 s.(st := s.st[t := COMPLETED],
                    results := s.results[t := TaskResult(COMPLETED, output, None, attempts)],
                    trace := s.trace + [EvTaskCompleted(t)]));
  }

  /** A completed task's completion is on the log. */
  lemma CompletedIsTraced(trace: seq<Event>, st: Statuses, pins: set<TaskId>, d: TaskId)
    requires Traced(trace, st, pins) && d in st && st[d] == COMPLETED && d !in pins
    ensures EvTaskCompleted(d) in trace
  {
    assert TracedAt(trace, d, st[d], false);
    assert EvTaskCompleted(d) in multiset(trace);
  }

  lemma StartIsOrdered(g: Graph, pins: set<TaskId>, trace: seq<Event>, st: Statuses, t: TaskId)
    requires Ordered(g, pins, trace) && Traced(trace, st, pins) && IsReady(g, st, t)
    ensures Ordered(g, pins, trace + [EvTaskStarted(t)])
  {
    hide Traced, Ordered;
    forall d | d in g[t] && d !in pins ensures EvTaskCompleted(d) in trace {
      assert d in st && st[d] == COMPLETED;
      CompletedIsTraced(trace, st, pins, d);
    }
    OrderedAppend(g, pins, trace, EvTaskStarted(t));
  }

  lemma InvTraced(cfg: Config, pins: set<TaskId>, s: RunState)
    requires Inv(cfg, pins, false, s)
    ensures Traced(s.trace, s.st, pins) && forall t :: t in pins ==> t in s.st && s.st[t] == COMPLETED
  {
    hide Sound, Flights, ResultsAgree, Traced, CallsAllowed, Checkpointed;
  }

  lemma DispatchLogged(cfg: Config, restored: Option<Checkpoint>, s: RunState, t: TaskId)
    requires Inv(cfg, Pins(cfg.tasks, restored), false, s) && Logged(cfg, restored, s) && IsReady(cfg.G(), s.st, t)
    ensures Logged(cfg, restored, Dispatch(cfg, s, t))
  {
    hide Inv, Traced, Ordered, Real, FailRun, PlanGraph, Pins, AllDepsCompleted;
    var pins := Pins(cfg.tasks, restored);
    InvTraced(cfg, pins, s);
    StartIsOrdered(cfg.G(), pins, s.trace, s.st, t);
    var s1 := MarkStarted(s, t);
    assert Logged(cfg, restored, s1);
    if !cfg.guard(t) {
      FailLogged(cfg, restored, s1, t, BlockedBySecurity, 1, [EvSecurityBlocked(t)]);
    } else if !cfg.resolves(t) {
      FailLogged(cfg, restored, s1, t, NoHandler, 1, []);
    }
  }

  lemma SettleLogged(cfg: Config, restored: Option<Checkpoint>, s: RunState, t: TaskId, allowRetry: bool)
    requires Inv(cfg, Pins(cfg.tasks, restored), false, s) && Logged(cfg, restored, s) && t in s.inflight
    ensures Logged(cfg, restored, Settle(cfg, s, t, allowRetry))
  {
    hide Inv, InvWith, Ordered, Real, FailRun, CompleteRun, PlanGraph, Pins;
    LandKeeps(cfg, Pins(cfg.tasks, restored), false, s, t);
    var a := s.inflight[t];
    var s1 := s.(inflight := s.inflight - {t});
    match cfg.invoke(t, a)
    case Returned(output) => CompleteLogged(cfg, restored, s1, t, output, a);
    case Raised(message) =>
      if allowRetry && a < cfg.maxAttempts {
        OrderedAppend(cfg.G(), Pins(cfg.tasks, restored), s1.trace, EvTaskRetried(t, a + 1));
      } else {
        FailLogged(cfg, restored, s1, t, HandlerError(message), a, []);
      }
  }

  // -- numbered calls --------------------------------------------------------------------------------

  lemma CallsAppend(calls: seq<Call>, c: Call, t: TaskId)
    ensures CallsOf(calls + [c], t) == CallsOf(calls, t) + if c.task == t then 1 else 0
  {
    assert (calls + [c])[..|calls|] == calls;
  }

  lemma NumberedAppend(calls: seq<Call>, c: Call)
    requires Numbered(calls) && c.attempt == CallsOf(calls, c.task) + 1
    ensures Numbered(calls + [c])
  {
    var after := calls + [c];
    forall i | 0 <= i < |after| ensures NumberedAt(after, i) {
      if i < |calls| {
        assert NumberedAt(calls, i) && after[..i] == calls[..i];
      } else {
        assert after[..i] == calls;
      }
    }
  }

  /** Handing the next attempt to the pool. */
  lemma LaunchTallied(cfg: Config, pins: set<TaskId>, s: RunState, t: TaskId, a: nat, s': RunState)
    requires Tallied(cfg, pins, s) && (t in s.inflight || t !in s.results)
    requires a == if t in s.inflight then s.inflight[t] + 1 else 1
    requires s'.calls == s.calls + [Call(t, a)] && s'.inflight == s.inflight[t := a] && s'.results == s.results
    ensures Tallied(cfg, pins, s')
  {
    hide Numbered, CallsOf;
    NumberedAppend(s.calls, Call(t, a));
    forall u ensures CallsOf(s'.calls, u) == Used(cfg, pins, s'.inflight, s'.results, u) {
      CallsAppend(s.calls, Call(t, a), u);
    }
  }

  /** Giving a task its result after its last attempt, or without any. */
  lemma EndTallied(cfg: Config, pins: set<TaskId>, s: RunState, t: TaskId, r: TaskResult, s': RunState)
    requires Tallied(cfg, pins, s) && t !in pins
    requires if t in s.inflight then r.attempts == s.inflight[t] && cfg.guard(t) && cfg.resolves(t)
             else t !in s.results && !(cfg.guard(t) && cfg.resolves(t))
    requires s'.calls == s.calls && s'.inflight == s.inflight - {t} && s'.results == s.results[t := r]
    ensures Tallied(cfg, pins, s')
  {
    hide Numbered, CallsOf;
  }

  lemma DispatchTallied(cfg: Config, pins: set<TaskId>, s: RunState, t: TaskId)
    requires Inv(cfg, pins, false, s) && Tallied(cfg, pins, s) && IsReady(cfg.G(), s.st, t)
    ensures Tallied(cfg, pins, Dispatch(cfg, s, t))
  {
    hide Inv, IsReady, Tallied, FailRun, PlanGraph;
    ReadyIsNew(cfg, pins, s, t);
    var s1, s' := MarkStarted(s, t), Dispatch(cfg, s, t);
    assert s.inflight - {t} == s.inflight;
    if !cfg.guard(t) {
      FailRunTally(cfg, s1, t, BlockedBySecurity, 1, [EvSecurityBlocked(t)]);
      EndTallied(cfg, pins, s, t, TaskResult(FAILED, NoValue, Some(BlockedBySecurity), 1), s');
    } else if !cfg.resolves(t) {
      FailRunTally(cfg, s1, t, NoHandler, 1, []);
      EndTallied(cfg, pins, s, t, TaskResult(FAILED, NoValue, Some(NoHandler), 1), s');
    } else {
      LaunchTallied(cfg, pins, s, t, 1, s');
    }
  }

  lemma ReadyIsNew(cfg: Config, pins: set<TaskId>, s: RunState, t: TaskId)
    requires Inv(cfg, pins, false, s) && IsReady(cfg.G(), s.st, t)
    ensures t !in s.inflight && t !in s.results && t !in pins
  {
    hide Sound, Traced, CallsAllowed, Checkpointed;
  }

  lemma FailRunTally(cfg: Config, s: RunState, t: TaskId, error: TaskError, attempts: nat, before: seq<Event>)
    ensures var s' := FailRun(cfg, s, t, error, attempts, before);
            && s'.calls == s.calls && s'.inflight == s.inflight
            && s'.results == s.results[t := TaskResult(FAILED, NoValue, Some(error), attempts)]
  {
    hide FailTask, CompletedOutputs, PlanGraph;
  }

  lemma CompleteRunTally(cfg: Config, s: RunState, t: TaskId, output: Value, attempts: nat)
    ensures var s' := CompleteRun(cfg, s, t, output, attempts);
            && s'.calls == s.calls && s'.inflight == s.inflight
            && s'.results == s.results[t := TaskResult(COMPLETED, output, None, attempts)]
  {
    hide CompletedOutputs;
  }

  lemma SettleTallied(cfg: Config, pins: set<TaskId>, s: RunState, t: TaskId, allowRetry: bool)
    requires Inv(cfg, pins, false, s) && Tallied(cfg, pins, s) && t in s.inflight
    ensures Tallied(cfg, pins, Settle(cfg, s, t, allowRetry))
  {
    hide Inv, InvWith, Tallied, FailRun, CompleteRun, PlanGraph;
    LandKeeps(cfg, pins, false, s, t);
    var a, s' := s.inflight[t], Settle(cfg, s, t, allowRetry);
    var s1 := s.(inflight := s.inflight - {t});
    match cfg.invoke(t, a)
    case Returned(output) =>
      CompleteRunTally(cfg, s1, t, output, a);
      EndTallied(cfg, pins, s, t, TaskResult(COMPLETED, output, None, a), s');
    case Raised(message) =>
      if allowRetry && a < cfg.maxAttempts {
        assert (s.inflight - {t})[t := a + 1] == s.inflight[t := a + 1];
        LaunchTallied(cfg, pins, s, t, a + 1, s');
      } else {
        FailRunTally(cfg, s1, t, HandlerError(message), a, []);
        EndTallied(cfg, pins, s, t, TaskResult(FAILED, NoValue, Some(HandlerError(message)), a), s');
      }
  }

  lemma DispatchFaithful(cfg: Config, restored: Option<Checkpoint>, s: RunState, t: TaskId)
    requires Inv(cfg, Pins(cfg.tasks, restored), false, s) && Faithful(cfg, restored, s) && IsReady(cfg.G(), s.st, t)
    ensures Faithful(cfg, restored, Dispatch(cfg, s, t))
  {
    hide Inv, Logged, Tallied, Audited, IsReady, Dispatch, Pins;
    DispatchAudited(cfg, restored, s, t);
    DispatchLogged(cfg, restored, s, t);
    DispatchTallied(cfg, Pins(cfg.tasks, restored), s, t);
  }

  lemma SettleFaithful(cfg: Config, restored: Option<Checkpoint>, s: RunState, t: TaskId, allowRetry: bool)
    requires Inv(cfg, Pins(cfg.tasks, restored), false, s) && Faithful(cfg, restored, s) && t in s.inflight
    ensures Faithful(cfg, restored, Settle(cfg, s, t, allowRetry))
  {
    hide Inv, Logged, Tallied, Audited, Settle, Pins;
    SettleAudited(cfg, restored, s, t, allowRetry);
    SettleLogged(cfg, restored, s, t, allowRetry);
    SettleTallied(cfg, Pins(cfg.tasks, restored), s, t, allowRetry);
  }

  // -- the whole run ---------------------------------------------------------------------------------

  lemma BeginFaithful(cfg: Config, restored: Option<Checkpoint>)
    ensures Faithful(cfg, restored, Begin(cfg, restored))
  {
    hide Audited;
    BeginAudited(cfg, restored);
    var g, pins := cfg.G(), Pins(cfg.tasks, restored);
    assert Ordered(g, pins, []);
    if restored.Some? { OrderedAppend(g, pins, [], EvRunResumed(pins)); }
    OrderedAppend(g, pins, if restored.Some? then [EvRunResumed(pins)] else [], EvRunStarted);
    assert [] + [EvRunResumed(pins)] == [EvRunResumed(pins)];
  }

  lemma {:induction false} DispatchAllFaithful(cfg: Config, restored: Option<Checkpoint>, s: RunState, ids: seq<TaskId>)
    requires Accepted(cfg.tasks) && Inv(cfg, Pins(cfg.tasks, restored), false, s) && Faithful(cfg, restored, s)
    requires NoDuplicates(ids) && forall t :: t in ids ==> IsReady(cfg.G(), s.st, t)
    ensures Faithful(cfg, restored, DispatchAll(cfg, s, ids))
    decreases |ids|
  {
    hide Accepted, Inv, IsReady, Dispatch, Faithful, Pins, PlanGraph;
    if ids != [] {
      var init, t := ids[..|ids| - 1], ids[|ids| - 1];
      assert ids == init + [t];
      assert t !in init by { forall i | 0 <= i < |init| ensures init[i] != t { assert ids[i] != ids[|ids| - 1]; } }
      DispatchAllFaithful(cfg, restored, s, init);
      DispatchAllKeeps(cfg, Pins(cfg.tasks, restored), false, s, init);
      DispatchFaithful(cfg, restored, DispatchAll(cfg, s, init), t);
    }
  }

  lemma AfterDispatchFaithful(cfg: Config, restored: Option<Checkpoint>, s: RunState, o: Observation)
    requires Accepted(cfg.tasks) && Inv(cfg, Pins(cfg.tasks, restored), false, s) && Faithful(cfg, restored, s)
    ensures Faithful(cfg, restored, AfterDispatch(cfg, s, o))
  {
    hide Accepted, Inv, IsReady, Sound, ReadyTasks, NoDuplicates, Faithful, Pins, PlanGraph;
    InvSound(cfg, Pins(cfg.tasks, restored), false, s);
    SoundKeys(cfg.G(), s.st);
    if !o.pausedFirst {
      ReadyTasksExact(cfg, s.st);
      DispatchAllFaithful(cfg, restored, s, ReadyTasks(cfg, s.st));
    }
  }

  lemma {:induction false} SettleAllFaithful(cfg: Config, restored: Option<Checkpoint>, s: RunState,
                                             landings: seq<Landing>)
    requires Accepted(cfg.tasks) && Inv(cfg, Pins(cfg.tasks, restored), false, s) && Faithful(cfg, restored, s)
    ensures Faithful(cfg, restored, SettleAll(cfg, s, landings))
    decreases |landings|
  {
    hide Accepted, Inv, Settle, Faithful, Pins;
    if landings != [] {
      var init, last := landings[..|landings| - 1], landings[|landings| - 1];
      SettleAllFaithful(cfg, restored, s, init);
      SettleAllKeeps(cfg, Pins(cfg.tasks, restored), false, s, init);
      var s1 := SettleAll(cfg, s, init);
      if last.task in s1.inflight { SettleFaithful(cfg, restored, s1, last.task, !last.cancelSeen); }
    }
  }

  lemma {:induction false} DrainFaithful(cfg: Config, restored: Option<Checkpoint>, s: RunState, ids: seq<TaskId>)
    requires Accepted(cfg.tasks) && Inv(cfg, Pins(cfg.tasks, restored), false, s) && Faithful(cfg, restored, s)
    ensures Faithful(cfg, restored, Drain(cfg, s, ids))
    decreases |ids|
  {
    hide Accepted, Inv, Settle, Faithful, Pins, Drained;
    if ids != [] {
      var init, t := ids[..|ids| - 1], ids[|ids| - 1];
      DrainFaithful(cfg, restored, s, init);
      DrainSettles(cfg, Pins(cfg.tasks, restored), s, init);
      if t in Drain(cfg, s, init).inflight { SettleFaithful(cfg, restored, Drain(cfg, s, init), t, false); }
    }
  }

  lemma {:induction false} LoopFaithful(cfg: Config, restored: Option<Checkpoint>, s: RunState, env: seq<Observation>)
    requires Accepted(cfg.tasks) && Inv(cfg, Pins(cfg.tasks, restored), false, s) && Faithful(cfg, restored, s)
    ensures Faithful(cfg, restored, Loop(cfg, s, env).s)
    decreases |env|
  {
    hide Accepted, Inv, SettleAll, AfterDispatch, AllTerminal, Faithful, Pins;
    if env != [] {
      var o := env[0];
      if !o.cancelled {
        AfterDispatchKeeps(cfg, Pins(cfg.tasks, restored), false, s, o);
        AfterDispatchFaithful(cfg, restored, s, o);
        var s1 := AfterDispatch(cfg, s, o);
        if s1.inflight == map[] {
          if o.pausedSecond && !AllTerminal(s1.st) { LoopFaithful(cfg, restored, s1, env[1..]); }
        } else {
          SettleAllKeeps(cfg, Pins(cfg.tasks, restored), false, s1, o.landings);
          SettleAllFaithful(cfg, restored, s1, o.landings);
          LoopFaithful(cfg, restored, SettleAll(cfg, s1, o.landings), env[1..]);
        }
      }
    }
  }

  lemma EndFaithful(cfg: Config, restored: Option<Checkpoint>, sched: Schedule)
    requires Startable(cfg, restored) && Finishes(cfg, restored, sched)
    ensures Faithful(cfg, restored, AfterDrain(cfg, EndOfLoop(cfg, restored, sched), sched.drainOrder, sched.late))
  {
    hide Accepted, Inv, DependencyClosed, Loop, Begin, Drain, Faithful, ExitFacts, Pins;
    var pins, end := Pins(cfg.tasks, restored), EndOfLoop(cfg, restored, sched);
    BeginInv(cfg, restored);
    WeakenInv(cfg, pins, true, Begin(cfg, restored));
    BeginFaithful(cfg, restored);
    LoopFaithful(cfg, restored, Begin(cfg, restored), sched.env);
    EndOfLoopFacts(cfg, restored, sched, false);
    ExitInv(cfg, pins, false, end);
    if SeenAtDrain(end, sched.late) { DrainFaithful(cfg, restored, end.s, sched.drainOrder + Ids(cfg.tasks)); }
  }

  /** The results of any finished run: real ones for the completed and failed tasks, and the bare
      status for the rest; and no task of its trace started before its dependencies completed. */
  lemma EveryResultIsReal(cfg: Config, restored: Option<Checkpoint>, sched: Schedule)
    requires Startable(cfg, restored) && Finishes(cfg, restored, sched)
    ensures var run := FinalRun(cfg, restored, sched);
            && (forall t :: t in run.results ==>
                  var r := run.results[t];
                  if r.status == COMPLETED || r.status == FAILED then RealAt(cfg, restored, t, r)
                  else r == TaskResult(r.status, NoValue, None, 1))
            && Ordered(cfg.G(), Pins(cfg.tasks, restored), run.trace)
  {
    hide Accepted, Inv, DependencyClosed, EndOfLoop, AfterDrain, Finishes, FinalState, FinalRun, RealAt, Ordered,
         Pins, Drained, Later, FillResults;
    var pins := Pins(cfg.tasks, restored);
    var s := AfterDrain(cfg, EndOfLoop(cfg, restored, sched), sched.drainOrder, sched.late);
    EndFaithful(cfg, restored, sched);
    AfterDrainFacts(cfg, restored, sched);
    FinalShape(cfg, restored, sched);
    var f, run := FinalState(cfg, restored, sched), FinalRun(cfg, restored, sched);
    OrderedAppend(cfg.G(), pins, s.trace, TerminalEvent(run.status));
    forall t | t in run.results
      ensures var r := run.results[t];
              if r.status == COMPLETED || r.status == FAILED then RealAt(cfg, restored, t, r)
              else r == TaskResult(r.status, NoValue, None, 1)
    {
      ResultsInStatuses(cfg, pins, s);
      if t in s.st { StatusKinds(cfg, pins, false, s, t); }
      FilledWith(s, f.st, t);
    }
  }

  lemma FilledWith(s: RunState, st: Statuses, t: TaskId)
    requires t in FillResults(s.(st := st)) && s.results.Keys <= s.st.Keys
    requires (st == s.st || st == Sweep(s.st))
    requires t in s.st && t !in s.results ==> s.st[t] != COMPLETED && s.st[t] != FAILED
    requires t in s.results ==>
               t in s.st && s.results[t].status == s.st[t] && (s.st[t] == COMPLETED || s.st[t] == FAILED)
    ensures t in s.results ==> FillResults(s.(st := st))[t] == s.results[t]
    ensures t in s.results ==> s.results[t].status == COMPLETED || s.results[t].status == FAILED
    ensures t !in s.results ==>
              && FillResults(s.(st := st))[t] == TaskResult(st[t], NoValue, None, 1)
              && st[t] != COMPLETED && st[t] != FAILED
  {}

  // -- the calls of a whole run ----------------------------------------------------------------------

  lemma {:induction false} CallsGrow(calls: seq<Call>, i: nat, j: nat, t: TaskId)
    requires i <= j <= |calls|
    ensures CallsOf(calls[..i], t) <= CallsOf(calls[..j], t)
    decreases j
  {
    if i < j {
      CallsGrow(calls, i, j - 1, t);
      assert calls[..j] == calls[..j - 1] + [calls[j - 1]];
      CallsAppend(calls[..j - 1], calls[j - 1], t);
    }
  }

  lemma NumberedIsDistinct(calls: seq<Call>, i: nat, j: nat)
    requires Numbered(calls) && i < j < |calls|
    ensures calls[i] != calls[j]
  {
    assert NumberedAt(calls, i) && NumberedAt(calls, j);
    hide Numbered;
    assert calls[..i + 1] == calls[..i] + [calls[i]];
    CallsAppend(calls[..i], calls[i], calls[i].task);
    CallsGrow(calls, i + 1, j, calls[i].task);
  }

  /** The handler calls of any finished run: no call is made twice, the calls of a task are its attempts
      1, 2, 3 and so on in that order, and a task settled by its handler was called as often as its
      result says, any other not at all. */
  lemma CallsAreNumbered(cfg: Config, restored: Option<Checkpoint>, sched: Schedule)
    requires Startable(cfg, restored) && Finishes(cfg, restored, sched)
    ensures var f := FinalState(cfg, restored, sched);
            && Numbered(f.calls)
            && (forall i, j :: 0 <= i < j < |f.calls| ==> f.calls[i] != f.calls[j])
            && (forall t :: t in f.results ==>
                  CallsOf(f.calls, t)
                  == if (f.results[t].status == COMPLETED || f.results[t].status == FAILED)
                        && t !in Pins(cfg.tasks, restored) && cfg.guard(t) && cfg.resolves(t)
                     then f.results[t].attempts else 0)
  {
    hide Accepted, Inv, DependencyClosed, EndOfLoop, AfterDrain, Finishes, FinalState, FinalRun, Logged, Pins, Drained,
         Later, FillResults, Numbered, CallsOf;
    var pins := Pins(cfg.tasks, restored);
    var s := AfterDrain(cfg, EndOfLoop(cfg, restored, sched), sched.drainOrder, sched.late);
    EndFaithful(cfg, restored, sched);
    AfterDrainFacts(cfg, restored, sched);
    FinalShape(cfg, restored, sched);
    var f := FinalState(cfg, restored, sched);
    forall i, j | 0 <= i < j < |f.calls| ensures f.calls[i] != f.calls[j] { NumberedIsDistinct(f.calls, i, j); }
    forall t | t in f.results
      ensures CallsOf(f.calls, t)
              == if (f.results[t].status == COMPLETED || f.results[t].status == FAILED)
                    && t !in pins && cfg.guard(t) && cfg.resolves(t)
                 then f.results[t].attempts else 0
    {
      ResultsInStatuses(cfg, pins, s);
      if t in s.st { StatusKinds(cfg, pins, false, s, t); }
      FilledWith(s, f.st, t);
      assert CallsOf(s.calls, t) == Used(cfg, pins, s.inflight, s.results, t);
    }
  }

  // -- the log of a whole run ------------------------------------------------------------------------

  /** What a run's log says, whether it ended or was interrupted, and by its end also about the run as a
      whole: it opens with the restored tasks, if any, and the start, and closes with the one terminal
      event. Checkpoints follow exactly the settlements and count what is complete; a checkpoint is stored
      if and only if checkpoints are on and something settled; exactly the tasks the guard refuses are
      refused, between their start and their failure; retries are numbered as the calls they announce. */
  lemma EveryLogIsExact(cfg: Config, restored: Option<Checkpoint>, sched: Schedule)
    requires Startable(cfg, restored)
    ensures var s, pins := Reached(cfg, restored, sched), Pins(cfg.tasks, restored);
            && Checkpoints(cfg, pins, s.trace) && Refusals(cfg, s.trace) && Retries(s.trace) == LaterCalls(s.calls)
            && (s.saved.Some? <==> cfg.checkpoints && HasSettlement(s.trace))
            && RunEvents(s.trace)
               == (if restored.Some? then [EvRunResumed(pins)] else []) + [EvRunStarted]
                  + (if Finishes(cfg, restored, sched) then [TerminalEvent(FinalRun(cfg, restored, sched).status)]
                     else [])
            && Begin(cfg, restored).trace <= s.trace
  {
    hide Accepted, Inv, DependencyClosed, EndOfLoop, AfterDrain, Finishes, FinalState, FinalRun, Pins, Later, Logged,
         Tallied, Checkpoints, Refusals, Retries, LaterCalls, HasSettlement, RunEvents, CompletedIn, CompletedOutputs,
         FillResults, Begin, TerminalEvent, Drained;
    var pins := Pins(cfg.tasks, restored);
    if Finishes(cfg, restored, sched) {
      var s := AfterDrain(cfg, EndOfLoop(cfg, restored, sched), sched.drainOrder, sched.late);
      EndFaithful(cfg, restored, sched);
      FinalShape(cfg, restored, sched);
      AfterDrainFacts(cfg, restored, sched);
      LaterIsLonger(cfg, Begin(cfg, restored), s);
      EndLog(cfg, pins, s.trace, FinalRun(cfg, restored, sched).status);
    } else {
      SuspendedFaithful(cfg, restored, sched);
      var events := RunEvents(EndOfLoop(cfg, restored, sched).s.trace);
      assert events + [] == events;
    }
  }

  lemma LaterIsLonger(cfg: Config, s: RunState, s': RunState)
    requires Later(cfg, s, s')
    ensures s.trace <= s'.trace
  {
    hide Measure, CallsLeft;
  }

  lemma EndLog(cfg: Config, pins: set<TaskId>, trace: seq<Event>, status: RunStatus)
    requires Checkpoints(cfg, pins, trace) && Refusals(cfg, trace)
    ensures var after := trace + [TerminalEvent(status)];
            && Checkpoints(cfg, pins, after) && Refusals(cfg, after) && Retries(after) == Retries(trace)
            && (HasSettlement(after) <==> HasSettlement(trace))
            && RunEvents(after) == RunEvents(trace) + [TerminalEvent(status)]
  {
    hide Checkpoints, Refusals, HasSettlement, RunEvents, Retries;
    TraceAppend(trace, TerminalEvent(status));
    QuietCheckpoints(cfg, pins, trace, TerminalEvent(status));
    QuietRefusals(cfg, trace, TerminalEvent(status));
  }

  lemma SuspendedFaithful(cfg: Config, restored: Option<Checkpoint>, sched: Schedule)
    requires Startable(cfg, restored)
    ensures Faithful(cfg, restored, EndOfLoop(cfg, restored, sched).s)
    ensures Begin(cfg, restored).trace <= EndOfLoop(cfg, restored, sched).s.trace
  {
    hide Accepted, Inv, DependencyClosed, Loop, Begin, Faithful, Pins, Later;
    var pins := Pins(cfg.tasks, restored);
    BeginInv(cfg, restored);
    WeakenInv(cfg, pins, true, Begin(cfg, restored));
    BeginFaithful(cfg, restored);
    LoopFaithful(cfg, restored, Begin(cfg, restored), sched.env);
    LoopIsLater(cfg, pins, Begin(cfg, restored), sched.env);
    LaterIsLonger(cfg, Begin(cfg, restored), EndOfLoop(cfg, restored, sched).s);
  }
}
