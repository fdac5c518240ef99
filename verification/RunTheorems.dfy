/** What every finished run guarantees: one meaning for all interleavings, the cancel rule,
    complete and truthful results, and checkpoints that resume exactly. */
module RunTheorems {
  import opened Schemas
  import opened Dag
  import opened Semantics
  import opened SchedulerSpec
  import opened Scheduling
  import opened Execution
  import opened RunInvariant
  import opened RunLoop

  /** The run starts from tasks that contain their own dependencies (none, or a checkpoint's). */
  ghost predicate Startable(cfg: Config, restored: Option<Checkpoint>) {
    Accepted(cfg.tasks) && DependencyClosed(cfg.G(), Pins(cfg.tasks, restored))
  }

  /** The plan's meaning under the run's verdicts, with the restored tasks pinned. */
  ghost function Meaning(cfg: Config, restored: Option<Checkpoint>): Statuses
    requires Startable(cfg, restored)
  {
    AcceptedGraph(cfg.tasks);
    FinalMap(cfg.G(), cfg.Ok(), Pins(cfg.tasks, restored))
  }

  lemma EndOfLoopFacts(cfg: Config, restored: Option<Checkpoint>, sched: Schedule, strict: bool)
    requires Startable(cfg, restored) && (strict ==> Unseen(sched.env))
    ensures ExitFacts(cfg, Pins(cfg.tasks, restored), strict, EndOfLoop(cfg, restored, sched))
  {
    hide Accepted, Inv, DependencyClosed, Begin, Loop, ExitFacts;
    var pins := Pins(cfg.tasks, restored);
    BeginInv(cfg, restored);
    if !strict { WeakenInv(cfg, pins, true, Begin(cfg, restored)); }
    LoopKeeps(cfg, pins, strict, Begin(cfg, restored), sched.env);
  }

  // -- draining ---------------------------------------------------------------------------

  /** The result a task in flight ends with when it may not be retried: its attempt's own. */
  function RealResult(cfg: Config, t: TaskId, a: nat): TaskResult {
    match cfg.invoke(t, a)
    case Returned(output) => TaskResult(COMPLETED, output, None, a)
    case Raised(message) => TaskResult(FAILED, NoValue, Some(HandlerError(message)), a)
  }

  /** What one task may have become while flights were drained. */
  ghost predicate DrainedAt(cfg: Config, s: RunState, s': RunState, t: TaskId)
    requires t in s.st && t in s'.st
  {
    if t in s.inflight then
      || (t in s'.inflight && s'.inflight[t] == s.inflight[t] && s'.st[t] == s.st[t])
      || (t !in s'.inflight && t in s'.results && s'.results[t] == RealResult(cfg, t, s.inflight[t])
          && s'.st[t] == RealResult(cfg, t, s.inflight[t]).status)
    else
      && t !in s'.inflight
      && (s'.st[t] == s.st[t] || (s.st[t] == PENDING && s'.st[t] == BLOCKED))
      && (t in s.results ==> t in s'.results && s'.results[t] == s.results[t])
  }

  ghost predicate Drained(cfg: Config, s: RunState, s': RunState) {
    && s'.st.Keys == s.st.Keys
    && s'.calls == s.calls
    && forall t :: t in s.st ==> DrainedAt(cfg, s, s', t)
  }

  lemma SettleNoRetry(cfg: Config, s: RunState, t: TaskId)
    requires t in s.inflight
    ensures var s', r := Settle(cfg, s, t, false), RealResult(cfg, t, s.inflight[t]);
            && s'.st == (if r.status == COMPLETED then s.st[t := COMPLETED] else FailTask(cfg.G(), s.st, t))
            && s'.results == s.results[t := r] && s'.inflight == s.inflight - {t} && s'.calls == s.calls
  {
    hide FailTask, CompletedOutputs;
  }

  /** `t` landed with result `r`; besides it only pending tasks changed, to blocked. */
  ghost predicate Landed(s: RunState, t: TaskId, r: TaskResult, s': RunState) {
    && s'.st.Keys == s.st.Keys && t in s.st && s'.st[t] == r.status
    && (forall u :: u in s.st && u != t ==> s'.st[u] == s.st[u] || (s.st[u] == PENDING && s'.st[u] == BLOCKED))
    && s'.results == s.results[t := r] && s'.inflight == s.inflight - {t} && s'.calls == s.calls
  }

  lemma LandedIsDrained(cfg: Config, s: RunState, t: TaskId, s': RunState)
    requires t in s.inflight && Landed(s, t, RealResult(cfg, t, s.inflight[t]), s')
    requires forall u :: u in s.inflight <==> u in s.st && s.st[u] == RUNNING
    requires forall u :: u in s.results ==> u in s.st && s.st[u] != RUNNING
    ensures Drained(cfg, s, s') && t !in s'.inflight
  {
    hide RealResult;
    forall u | u in s.st ensures DrainedAt(cfg, s, s', u) {}
  }

  lemma SettleLands(cfg: Config, s: RunState, t: TaskId)
    requires Accepted(cfg.tasks) && Sound(cfg.G(), s.st) && t in s.inflight && t in s.st && s.st[t] == RUNNING
    ensures Landed(s, t, RealResult(cfg, t, s.inflight[t]), Settle(cfg, s, t, false))
  {
    SettleNoRetry(cfg, s, t);
    RealResultStatus(cfg, t, s.inflight[t]);
    hide Settle, RealResult, Landed;
    AcceptedGraph(cfg.tasks);
    hide Accepted, Sound, Closed, Acyclic, FailTask;
    var s', r := Settle(cfg, s, t, false), RealResult(cfg, t, s.inflight[t]);
    if r.status != COMPLETED { FailTaskFailedAt(cfg.G(), s.st, t); }
    LandedFrom(s, t, r, s');
  }

  lemma LandedFrom(s: RunState, t: TaskId, r: TaskResult, s': RunState)
    requires t in s.st && s.st[t] == RUNNING
    requires (r.status == COMPLETED && s'.st == s.st[t := COMPLETED])
             || (r.status == FAILED && FailedAt(s.st, t, s'.st))
    requires s'.results == s.results[t := r] && s'.inflight == s.inflight - {t} && s'.calls == s.calls
    ensures Landed(s, t, r, s')
  {}

  lemma SettleDrains(cfg: Config, pins: set<TaskId>, s: RunState, t: TaskId)
    requires Accepted(cfg.tasks) && Inv(cfg, pins, false, s) && t in s.inflight
    ensures Drained(cfg, s, Settle(cfg, s, t, false)) && t !in Settle(cfg, s, t, false).inflight
  {
    hide Accepted, Settle, Landed, RealResult, Drained;
    InvSound(cfg, pins, false, s);
    FlightsRun(cfg, pins, false, s);
    ResultsOnlyFinished(cfg, pins, s);
    hide Inv, Sound;
    SettleLands(cfg, s, t);
    LandedIsDrained(cfg, s, t, Settle(cfg, s, t, false));
  }

  lemma RealResultStatus(cfg: Config, t: TaskId, a: nat)
    ensures RealResult(cfg, t, a).status == if cfg.invoke(t, a).Returned? then COMPLETED else FAILED
  {}

  lemma ResultsOnlyFinished(cfg: Config, pins: set<TaskId>, s: RunState)
    requires Inv(cfg, pins, false, s)
    ensures forall u :: u in s.results ==> u in s.st && s.st[u] != RUNNING
  {
    hide Sound, Flights, Verdicts, Traced, CallsAllowed, Checkpointed;
  }

  lemma FlightsRun(cfg: Config, pins: set<TaskId>, strict: bool, s: RunState)
    requires Inv(cfg, pins, strict, s)
    ensures forall u :: u in s.inflight <==> u in s.st && s.st[u] == RUNNING
  {
    hide Sound, ResultsAgree, Verdicts, Traced, CallsAllowed, Checkpointed;
  }

  lemma DrainsNothing(cfg: Config, pins: set<TaskId>, s: RunState)
    requires Inv(cfg, pins, false, s)
    ensures Drained(cfg, s, s)
  {
    FlightsRun(cfg, pins, false, s);
    hide Inv;
    forall t | t in s.st ensures DrainedAt(cfg, s, s, t) {}
  }

  lemma DrainsCompose(cfg: Config, s: RunState, s1: RunState, s2: RunState)
    requires Drained(cfg, s, s1) && Drained(cfg, s1, s2)
    ensures Drained(cfg, s, s2)
  {
    forall t | t in s.st ensures DrainedAt(cfg, s, s2, t) {
      assert DrainedAt(cfg, s, s1, t) && DrainedAt(cfg, s1, s2, t);
    }
  }

  lemma {:induction false} DrainSettles(cfg: Config, pins: set<TaskId>, s: RunState, ids: seq<TaskId>)
    requires Accepted(cfg.tasks) && Inv(cfg, pins, false, s)
    ensures Inv(cfg, pins, false, Drain(cfg, s, ids))
    ensures Drained(cfg, s, Drain(cfg, s, ids))
    ensures forall t :: t in ids ==> t !in Drain(cfg, s, ids).inflight
    decreases |ids|
  {
    hide Accepted, Inv, Settle, Drained;
    if ids == [] {
      DrainsNothing(cfg, pins, s);
    } else {
      var init, t := ids[..|ids| - 1], ids[|ids| - 1];
      assert ids == init + [t];
      DrainSettles(cfg, pins, s, init);
      var s1 := Drain(cfg, s, init);
      if t in s1.inflight {
        SettleKeeps(cfg, pins, false, s1, t, false);
        SettleDrains(cfg, pins, s1, t);
        DrainsCompose(cfg, s, s1, Settle(cfg, s1, t, false));
        DrainedKeepsLanded(cfg, pins, s1, Settle(cfg, s1, t, false));
      }
    }
  }

  lemma DrainedKeepsLanded(cfg: Config, pins: set<TaskId>, s: RunState, s': RunState)
    requires Drained(cfg, s, s') && Inv(cfg, pins, false, s) && Inv(cfg, pins, false, s')
    ensures forall t :: t !in s.inflight ==> t !in s'.inflight
  {
    FlightsRun(cfg, pins, false, s);
    FlightsRun(cfg, pins, false, s');
    hide Inv;
    forall t | t in s'.inflight ensures t in s.inflight {
      assert t in s.st && DrainedAt(cfg, s, s', t);
    }
  }

  // -- all interleavings mean the same -----------------------------------------------------

  /** No read of the cancel flag ever finds it set. */
  predicate Uncancelled(sched: Schedule) {
    && (forall i :: 0 <= i < |sched.env| ==> !sched.env[i].cancelled)
    && Unseen(sched.env)
    && sched.late == Never
  }

  lemma {:induction false} UncancelledLoop(cfg: Config, s: RunState, env: seq<Observation>)
    requires forall i :: 0 <= i < |env| ==> !env[i].cancelled
    ensures !Loop(cfg, s, env).LeftByCancel?
    decreases |env|
  {
    hide SettleAll, AfterDispatch, AllTerminal;
    if env != [] {
      var s1 := AfterDispatch(cfg, s, env[0]);
      if s1.inflight == map[] {
        if env[0].pausedSecond && !AllTerminal(s1.st) { UncancelledLoop(cfg, s1, env[1..]); }
      } else {
        UncancelledLoop(cfg, SettleAll(cfg, s1, env[0].landings), env[1..]);
      }
    }
  }

  lemma VerdictsOwned(cfg: Config, pins: set<TaskId>, s: RunState)
    requires Inv(cfg, pins, true, s)
    ensures Owned(s.st, cfg.Ok(), pins)
  {
    hide Flights, ResultsAgree, Traced, CallsAllowed, Checkpointed;
  }

  lemma FinalMapTerminal(g: Graph, ok: set<TaskId>, pins: set<TaskId>)
    requires Closed(g) && Acyclic(g)
    ensures AllTerminal(FinalMap(g, ok, pins))
  {
    FinalMapSolves(g, ok, pins);
  }

  /** An uncancelled run ends in the plan's meaning, whatever the interleaving, retries and
      pauses — exactly unless an unpause slips between the two reads of the pause flag. */
  lemma EveryInterleavingMeansFinal(cfg: Config, restored: Option<Checkpoint>, sched: Schedule)
    requires Startable(cfg, restored) && Uncancelled(sched) && Finishes(cfg, restored, sched)
    ensures FinalState(cfg, restored, sched).st == Meaning(cfg, restored) <==> !Raced(EndOfLoop(cfg, restored, sched))
  {
    hide Accepted, Inv, DependencyClosed, Closed, Acyclic, Loop, Begin, FinalMap, Sound, Owned, AllTerminal, Raced,
         Uncancelled, FinalState, PlanGraph, EndOfLoop, ExitFacts, Finishes, Pins;
    var pins, end, g := Pins(cfg.tasks, restored), EndOfLoop(cfg, restored, sched), cfg.G();
    UncancelledEnd(cfg, restored, sched);
    AcceptedGraph(cfg.tasks);
    BreakMeansDone(cfg, pins, true, end);
    FinalMapTerminal(g, cfg.Ok(), pins);
    ExitInv(cfg, pins, true, end);
    InvSound(cfg, pins, true, end.s);
    VerdictsOwned(cfg, pins, end.s);
    if !Raced(end) { SoundAndDoneIsFinal(g, end.s.st, cfg.Ok(), pins); }
  }

  lemma ExitInv(cfg: Config, pins: set<TaskId>, strict: bool, end: LoopEnd)
    requires ExitFacts(cfg, pins, strict, end)
    ensures Inv(cfg, pins, strict, end.s)
  {
    hide Inv;
  }

  lemma UncancelledEnd(cfg: Config, restored: Option<Checkpoint>, sched: Schedule)
    requires Startable(cfg, restored) && Uncancelled(sched) && Finishes(cfg, restored, sched)
    ensures EndOfLoop(cfg, restored, sched).LeftByBreak?
    ensures FinalState(cfg, restored, sched).st == EndOfLoop(cfg, restored, sched).s.st
    ensures ExitFacts(cfg, Pins(cfg.tasks, restored), true, EndOfLoop(cfg, restored, sched))
  {
    hide Accepted, Inv, DependencyClosed, Loop, Begin, ExitFacts;
    EndOfLoopFacts(cfg, restored, sched, true);
    UncancelledLoop(cfg, Begin(cfg, restored), sched.env);
  }

  lemma {:induction false} LastIsObserved(cfg: Config, s: RunState, env: seq<Observation>)
    ensures Loop(cfg, s, env).LeftByBreak? ==> Loop(cfg, s, env).last in env
    decreases |env|
  {
    hide SettleAll, AfterDispatch, AllTerminal;
    if env != [] && !env[0].cancelled {
      var s1 := AfterDispatch(cfg, s, env[0]);
      if s1.inflight == map[] {
        if env[0].pausedSecond && !AllTerminal(s1.st) { LastIsObserved(cfg, s1, env[1..]); }
      } else {
        LastIsObserved(cfg, SettleAll(cfg, s1, env[0].landings), env[1..]);
      }
    }
  }

  /** A run that is never unpaused between the two reads of one pass ends in the plan's meaning. */
  lemma SteadyPauseMeansFinal(cfg: Config, restored: Option<Checkpoint>, sched: Schedule)
    requires Startable(cfg, restored) && Uncancelled(sched) && Finishes(cfg, restored, sched)
    requires forall o :: o in sched.env ==> !(o.pausedFirst && !o.pausedSecond)
    ensures FinalState(cfg, restored, sched).st == Meaning(cfg, restored)
  {
    hide Startable, Uncancelled, Finishes, Loop, Begin, FinalState, Meaning;
    LastIsObserved(cfg, Begin(cfg, restored), sched.env);
    EveryInterleavingMeansFinal(cfg, restored, sched);
  }

  /** Two runs of the same plan with the same verdicts per task end alike, even if they use
      different attempts, dispatch orders and pauses. */
  lemma AnyTwoRunsAgree(cfg: Config, cfg': Config, restored: Option<Checkpoint>, sched: Schedule, sched': Schedule)
    requires cfg.tasks == cfg'.tasks && cfg.Ok() == cfg'.Ok()
    requires Startable(cfg, restored) && Uncancelled(sched) && Finishes(cfg, restored, sched)
    requires Uncancelled(sched') && Finishes(cfg', restored, sched')
    requires !Raced(EndOfLoop(cfg, restored, sched)) && !Raced(EndOfLoop(cfg', restored, sched'))
    ensures FinalState(cfg, restored, sched).st == FinalState(cfg', restored, sched').st
  {
    EveryInterleavingMeansFinal(cfg, restored, sched);
    EveryInterleavingMeansFinal(cfg', restored, sched');
    hide *;
  }

  /** A plan of one task, which is allowed to run and has a handler. */
  function OneTask(id: TaskId, invoke: (TaskId, nat) -> Outcome): Config {
    Config([Task(id, "", "", [], 0, None, PENDING)], 1, true, _ => true, _ => true, invoke)
  }

  /** The run starts paused and is unpaused between the two reads of its first pass. */
  function RaceSchedule(late: LateCancel): Schedule {
    Schedule([Observation(false, true, false, [])], [], late)
  }

  lemma OneTaskBegins(id: TaskId, invoke: (TaskId, nat) -> Outcome)
    ensures Startable(OneTask(id, invoke), None)
    ensures Begin(OneTask(id, invoke), None) == RunState(map[id := PENDING], map[], map[], [EvRunStarted], [], None)
  {
    var cfg := OneTask(id, invoke);
    SingleTaskAccepted(cfg.tasks[0]);
    assert TaskMap(cfg.tasks) == map[id := cfg.tasks[0]] by { assert cfg.tasks[..0] == []; }
    hide TaskMap, Accepted;
    assert [] + [EvRunStarted] == [EvRunStarted];
  }

  lemma RaceEnds(id: TaskId, invoke: (TaskId, nat) -> Outcome, late: LateCancel)
    ensures var s := RunState(map[id := PENDING], map[], map[], [EvRunStarted], [], None);
            EndOfLoop(OneTask(id, invoke), None, RaceSchedule(late)) == LeftByBreak(s, s, RaceSchedule(late).env[0])
  {
    hide Begin, OneTask;
    OneTaskBegins(id, invoke);
  }

  /** A run that starts paused and is unpaused between the two reads ends at once: its one task
      was never run, and the run counts as failed. */
  lemma UnpauseRaceStrandsATask(id: TaskId, invoke: (TaskId, nat) -> Outcome)
    ensures var cfg, sched := OneTask(id, invoke), RaceSchedule(Never);
            && Startable(cfg, None) && Uncancelled(sched) && Finishes(cfg, None, sched)
            && FinalState(cfg, None, sched).st == map[id := PENDING]
            && FinalRun(cfg, None, sched).status == RunFailed
            && FinalState(cfg, None, sched).calls == []
  {
    hide Startable, EndOfLoop, OneTask;
    OneTaskBegins(id, invoke);
    RaceEnds(id, invoke, Never);
    var s := EndOfLoop(OneTask(id, invoke), None, RaceSchedule(Never)).s;
    assert FillResults(s)[id].status == PENDING;
  }

  lemma SingleTaskAccepted(task: Task)
    requires task.dependsOn == []
    ensures Accepted([task])
  {
    assert [task][..0] == [];
    assert TaskMap([task]) == map[task.id := task];
    var g := GraphOf(map[] + TaskMap([task]));
    assert g == map[task.id := []];
    assert TopologicalOrder(g, [task.id]) by { assert DepsBefore(g, [task.id], 0); }
    OrderedIsAcyclic(g, [task.id]);
  }
}
