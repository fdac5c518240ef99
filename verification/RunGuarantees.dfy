/** Guarantees of every finished run, cancelled or not: the cancel rule, complete and truthful
    results, a trace that settles what it starts, bounded work, and checkpoints that resume. */
module RunGuarantees {
  import opened Schemas
  import opened Dag
  import opened Semantics
  import opened SchedulerSpec
  import opened Scheduling
  import opened Execution
  import opened RunInvariant
  import opened RunLoop
  import opened RunProgress
  import opened RunTheorems

  // -- after the drain -------------------------------------------------------------------

  lemma AfterDrainFacts(cfg: Config, restored: Option<Checkpoint>, sched: Schedule)
    requires Startable(cfg, restored) && Finishes(cfg, restored, sched)
    ensures var end := EndOfLoop(cfg, restored, sched);
            var s := AfterDrain(cfg, end, sched.drainOrder, sched.late);
            && Inv(cfg, Pins(cfg.tasks, restored), false, s) && s.inflight == map[]
            && Drained(cfg, end.s, s) && Inv(cfg, Pins(cfg.tasks, restored), false, end.s)
            && Later(cfg, Begin(cfg, restored), s)
  {
    hide Accepted, Inv, DependencyClosed, Loop, Begin, Drain, Drained, ExitFacts, Later, Pins;
    var pins, end := Pins(cfg.tasks, restored), EndOfLoop(cfg, restored, sched);
    EndOfLoopFacts(cfg, restored, sched, false);
    ExitInv(cfg, pins, false, end);
    BeginInv(cfg, restored);
    WeakenInv(cfg, pins, true, Begin(cfg, restored));
    LoopIsLater(cfg, pins, Begin(cfg, restored), sched.env);
    if SeenAtDrain(end, sched.late) {
      var ids := sched.drainOrder + Ids(cfg.tasks);
      DrainSettles(cfg, pins, end.s, ids);
      DrainIsLater(cfg, pins, end.s, ids);
      LaterComposes(cfg, Begin(cfg, restored), end.s, Drain(cfg, end.s, ids));
      NothingLeftFlying(cfg, pins, Drain(cfg, end.s, ids), ids);
    } else {
      ExitIdle(cfg, pins, end);
      DrainsNothing(cfg, pins, end.s);
    }
  }

  lemma ExitIdle(cfg: Config, pins: set<TaskId>, end: LoopEnd)
    requires ExitFacts(cfg, pins, false, end) && end.LeftByBreak?
    ensures end.s.inflight == map[]
  {
    hide Inv, AllTerminal, AfterDispatch;
  }

  lemma NothingLeftFlying(cfg: Config, pins: set<TaskId>, s: RunState, ids: seq<TaskId>)
    requires Accepted(cfg.tasks) && Inv(cfg, pins, false, s)
    requires forall t :: t in Ids(cfg.tasks) ==> t in ids
    requires forall t :: t in ids ==> t !in s.inflight
    ensures s.inflight == map[]
  {
    FlightsRun(cfg, pins, false, s);
    forall t | t in s.st ensures t in ids { TaskInPlan(cfg, pins, false, s, t); }
    assert s.inflight.Keys == {};
  }

  // -- cancelling -----------------------------------------------------------------------------

  /** Some failed ancestor explains a blocked task, and every failed ancestor blocks. */
  lemma {:induction false} BlockedHasFailedAncestor(g: Graph, st: Statuses, t: TaskId)
    requires Closed(g) && Acyclic(g) && Sound(g, st) && t in g && st[t] == BLOCKED
    ensures exists a :: DependsOn(g, t, a) && a in st && st[a] == FAILED
    decreases Ancestors(g, t)
  {
    AncestorsShrink(g, t);
    assert HasFailedDep(g, st, t);
    var d :| d in g[t] && d in st && (st[d] == FAILED || st[d] == BLOCKED);
    EdgeDepends(g, d, t);
    if st[d] == BLOCKED {
      BlockedHasFailedAncestor(g, st, d);
      var a :| DependsOn(g, d, a) && a in st && st[a] == FAILED;
      DependsTransitive(g, a, d, t);
    }
  }

  lemma {:induction false} FailedAncestorBlocks(g: Graph, st: Statuses, p: seq<TaskId>)
    requires Sound(g, st) && IsPath(g, p) && (st[p[0]] == FAILED || st[p[0]] == BLOCKED)
    ensures st[p[|p| - 1]] == BLOCKED
    decreases |p|
  {
    var n := |p|;
    assert p[n - 2] in g[p[n - 1]];
    assert EdgeOk(st[p[n - 2]], st[p[n - 1]]);
    if n > 2 {
      assert IsPath(g, p[..n - 1]);
      FailedAncestorBlocks(g, st, p[..n - 1]);
    }
  }

  ghost predicate HasFailedAncestor(g: Graph, st: Statuses, t: TaskId) {
    exists a :: DependsOn(g, t, a) && a in st && st[a] == FAILED
  }

  lemma BlockedIffFailedAncestor(g: Graph, st: Statuses, t: TaskId)
    requires Closed(g) && Acyclic(g) && Sound(g, st) && t in g
    ensures st[t] == BLOCKED <==> HasFailedAncestor(g, st, t)
  {
    if st[t] == BLOCKED { BlockedHasFailedAncestor(g, st, t); }
    if HasFailedAncestor(g, st, t) {
      var a :| DependsOn(g, t, a) && a in st && st[a] == FAILED;
      var p :| IsPath(g, p) && p[0] == a && p[|p| - 1] == t;
      FailedAncestorBlocks(g, st, p);
    }
  }

  lemma FailedAncestorSurvivesSweep(g: Graph, st: Statuses, t: TaskId)
    requires Closed(g) && Acyclic(g) && Sound(g, st) && t in g
    ensures HasFailedAncestor(g, Sweep(st), t) <==> HasFailedAncestor(g, st, t)
  {
    if HasFailedAncestor(g, st, t) {
      var a :| DependsOn(g, t, a) && a in st && st[a] == FAILED;
      assert Sweep(st)[a] == FAILED;
    }
    if HasFailedAncestor(g, Sweep(st), t) {
      var a :| DependsOn(g, t, a) && a in Sweep(st) && Sweep(st)[a] == FAILED;
      assert st[a] == FAILED;
    }
  }

  /** What a cancel makes of task `t`, from the state `e` the loop was left in to the final state
      `f`: in flight, it keeps the real result of its attempt; finished, it keeps its status and
      result; pending, it is blocked if an ancestor failed and cancelled otherwise. */
  ghost predicate CancelOutcome(cfg: Config, e: RunState, f: RunState, t: TaskId) {
    && t in e.st && t in f.st && t in f.results && f.st[t].Terminal() && f.results[t].status == f.st[t]
    && (t in e.inflight ==> f.results[t] == RealResult(cfg, t, e.inflight[t]))
    && (e.st[t].Terminal() ==> f.st[t] == e.st[t] && (t in e.results ==> f.results[t] == e.results[t]))
    && (e.st[t] == PENDING ==> f.st[t] == if HasFailedAncestor(cfg.G(), f.st, t) then BLOCKED else CANCELLED)
    && (e.st[t] == PENDING || e.st[t].Terminal() || t in e.inflight)
  }

  lemma CancelledEnd(cfg: Config, restored: Option<Checkpoint>, sched: Schedule)
    requires Finishes(cfg, restored, sched) && SeenAtSweep(EndOfLoop(cfg, restored, sched), sched.late)
    ensures var s := AfterDrain(cfg, EndOfLoop(cfg, restored, sched), sched.drainOrder, sched.late);
            var f := FinalState(cfg, restored, sched);
            && f.st == Sweep(s.st) && f.results == FillResults(s.(st := Sweep(s.st)))
            && f.inflight == s.inflight && f.calls == s.calls
            && FinalRun(cfg, restored, sched).status == RunCancelled
            && FinalRun(cfg, restored, sched).results == f.results
  {
    hide EndOfLoop, AfterDrain, Sweep, FillResults, AllCompleted, SomeCompleted;
  }

  lemma CancelOne(cfg: Config, pins: set<TaskId>, e: RunState, s: RunState, f: RunState, t: TaskId)
    requires Accepted(cfg.tasks) && Inv(cfg, pins, false, e) && Inv(cfg, pins, false, s) && Drained(cfg, e, s)
    requires s.inflight == map[] && t in cfg.G()
    requires f.st == Sweep(s.st) && f.results == FillResults(s.(st := Sweep(s.st)))
    ensures CancelOutcome(cfg, e, f, t)
  {
    hide Accepted, Inv, RealResult, HasFailedAncestor, Drained, Sound, Closed, Acyclic, PlanGraph, CancelOutcome,
         DrainedAt, FillResults;
    AcceptedGraph(cfg.tasks);
    InvSound(cfg, pins, false, s);
    InvSound(cfg, pins, false, e);
    SoundKeys(cfg.G(), s.st);
    SoundKeys(cfg.G(), e.st);
    NothingRunning(cfg, pins, false, s);
    FlightsRun(cfg, pins, false, e);
    StatusKinds(cfg, pins, false, e, t);
    StatusKinds(cfg, pins, false, s, t);
    DrainedOne(cfg, e, s, t);
    BlockedIffFailedAncestor(cfg.G(), s.st, t);
    FailedAncestorSurvivesSweep(cfg.G(), s.st, t);
    CancelOneFrom(cfg, e, s, f, t);
  }

  lemma CancelOneFrom(cfg: Config, e: RunState, s: RunState, f: RunState, t: TaskId)
    requires t in e.st && t in s.st && DrainedAt(cfg, e, s, t)
    requires f.st == Sweep(s.st) && f.results == FillResults(s.(st := Sweep(s.st)))
    requires forall u :: u in e.inflight <==> u in e.st && e.st[u] == RUNNING
    requires s.st[t] == PENDING || s.st[t].Terminal()
    requires e.st[t] != READY && s.st[t] != CANCELLED
    requires t in s.results ==> s.results[t].status == s.st[t] && s.st[t].Terminal()
    requires t !in s.results ==> s.st[t] != COMPLETED && s.st[t] != FAILED
    requires s.st[t] == BLOCKED <==> HasFailedAncestor(cfg.G(), f.st, t)
    ensures CancelOutcome(cfg, e, f, t)
  {
    hide RealResult, HasFailedAncestor, PlanGraph;
    assert f.st[t] == if s.st[t].Terminal() then s.st[t] else CANCELLED;
  }

  /** The cancel rule: a run whose cancel is seen before the final sweep ends cancelled, nothing is
      tried again after the loop was left, and every task ends as `CancelOutcome` says. */
  lemma CancelRule(cfg: Config, restored: Option<Checkpoint>, sched: Schedule)
    requires Startable(cfg, restored) && Finishes(cfg, restored, sched)
    requires SeenAtSweep(EndOfLoop(cfg, restored, sched), sched.late)
    ensures FinalRun(cfg, restored, sched).status == RunCancelled
    ensures FinalRun(cfg, restored, sched).results == FinalState(cfg, restored, sched).results
    ensures FinalState(cfg, restored, sched).calls == EndOfLoop(cfg, restored, sched).s.calls
    ensures FinalState(cfg, restored, sched).inflight == map[]
    ensures forall t :: t in cfg.G() ==>
              CancelOutcome(cfg, EndOfLoop(cfg, restored, sched).s, FinalState(cfg, restored, sched), t)
  {
    hide Accepted, Inv, DependencyClosed, EndOfLoop, AfterDrain, Later, Finishes, Begin, Drained, FinalState, FinalRun,
         CancelOutcome, Sweep, FillResults;
    var pins, end := Pins(cfg.tasks, restored), EndOfLoop(cfg, restored, sched);
    AfterDrainFacts(cfg, restored, sched);
    CancelledEnd(cfg, restored, sched);
    var s := AfterDrain(cfg, end, sched.drainOrder, sched.late);
    var f := FinalState(cfg, restored, sched);
    assert f.calls == end.s.calls by { DrainedCalls(cfg, end.s, s); }
    forall t | t in cfg.G() ensures CancelOutcome(cfg, end.s, f, t) {
      CancelOne(cfg, pins, end.s, s, f, t);
    }
  }

  lemma LateCancelEnd(cfg: Config, restored: Option<Checkpoint>, sched: Schedule)
    requires Finishes(cfg, restored, sched) && !SeenAtSweep(EndOfLoop(cfg, restored, sched), sched.late)
    ensures EndOfLoop(cfg, restored, sched).LeftByBreak?
    ensures FinalState(cfg, restored, sched).st == EndOfLoop(cfg, restored, sched).s.st
  {
    hide EndOfLoop, FillResults, AllCompleted, SomeCompleted, TerminalEvent;
  }

  /** A cancel seen at any time before the status is decided makes the run a cancelled one. Every task
      is then finished unless the cancel came after the read that decides on the sweep and the loop was
      left through the pause race. */
  lemma CancelAnyTime(cfg: Config, restored: Option<Checkpoint>, sched: Schedule)
    requires Startable(cfg, restored) && Finishes(cfg, restored, sched)
    requires SeenAtStatus(EndOfLoop(cfg, restored, sched), sched.late)
    ensures FinalRun(cfg, restored, sched).status == RunCancelled
    ensures FinalRun(cfg, restored, sched).results == FinalState(cfg, restored, sched).results
    ensures AllTerminal(FinalState(cfg, restored, sched).st)
            <==> SeenAtSweep(EndOfLoop(cfg, restored, sched), sched.late) || !Raced(EndOfLoop(cfg, restored, sched))
  {
    hide Accepted, Inv, DependencyClosed, EndOfLoop, AfterDrain, Finishes, Begin, FinalState, FinalRun, CancelOutcome,
         Raced, PlanGraph, Pins, ExitFacts, Sweep, FillResults, Drained, Later, SeenAtSweep;
    var pins, end := Pins(cfg.tasks, restored), EndOfLoop(cfg, restored, sched);
    FinalShape(cfg, restored, sched);
    if SeenAtSweep(end, sched.late) {
      SweptIsFinished(cfg, restored, sched);
    } else {
      LateCancelEnd(cfg, restored, sched);
      EndOfLoopFacts(cfg, restored, sched, false);
      BreakMeansDone(cfg, pins, false, end);
    }
  }

  lemma SweptIsFinished(cfg: Config, restored: Option<Checkpoint>, sched: Schedule)
    requires Finishes(cfg, restored, sched) && SeenAtSweep(EndOfLoop(cfg, restored, sched), sched.late)
    ensures AllTerminal(FinalState(cfg, restored, sched).st)
  {
    hide EndOfLoop, AfterDrain, FillResults, AllCompleted, SomeCompleted;
  }

  /** A cancel between the read that decides on the sweep and the one that decides on the status, in a
      run that the pause race ended: the run is cancelled and its task is still pending. */
  lemma LateCancelLeavesATask(id: TaskId, invoke: (TaskId, nat) -> Outcome)
    ensures var cfg, sched := OneTask(id, invoke), RaceSchedule(BeforeStatus);
            && Startable(cfg, None) && Finishes(cfg, None, sched)
            && FinalState(cfg, None, sched).st == map[id := PENDING]
            && FinalRun(cfg, None, sched).status == RunCancelled
  {
    hide Startable, EndOfLoop, OneTask, FillResults;
    OneTaskBegins(id, invoke);
    RaceEnds(id, invoke, BeforeStatus);
  }

  /** Once a settlement has seen the cancel flag, every later read in the loop sees it. */
  predicate CancelStays(env: seq<Observation>) {
    forall i, k :: 0 <= i < |env| && 0 <= k < |env[i].landings| && env[i].landings[k].cancelSeen ==>
      && (forall l :: k <= l < |env[i].landings| ==> env[i].landings[l].cancelSeen)
      && (i + 1 < |env| ==> env[i + 1].cancelled)
  }

  lemma {:induction false} SeenLandingsCallNothing(cfg: Config, s: RunState, landings: seq<Landing>, k: nat)
    requires k <= |landings| && forall l :: k <= l < |landings| ==> landings[l].cancelSeen
    ensures SettleAll(cfg, s, landings).calls == SettleAll(cfg, s, landings[..k]).calls
    decreases |landings|
  {
    hide Settle;
    if k == |landings| {
      assert landings[..k] == landings;
    } else {
      var init, last := landings[..|landings| - 1], landings[|landings| - 1];
      SeenLandingsCallNothing(cfg, s, init, k);
      assert init[..k] == landings[..k];
      var s1 := SettleAll(cfg, s, init);
      if last.task in s1.inflight { SettleNoRetry(cfg, s1, last.task); }
    }
  }

  lemma {:induction false} LoopContinues(cfg: Config, s: RunState, pre: seq<Observation>, rest: seq<Observation>)
    requires Loop(cfg, s, pre).Suspended?
    ensures Loop(cfg, s, pre + rest) == Loop(cfg, Loop(cfg, s, pre).s, rest)
    decreases |pre|
  {
    hide SettleAll, AfterDispatch, AllTerminal;
    if pre == [] {
      assert pre + rest == rest;
    } else {
      assert (pre + rest)[1..] == pre[1..] + rest;
      var s1 := AfterDispatch(cfg, s, pre[0]);
      LoopContinues(cfg, if s1.inflight == map[] then s1 else SettleAll(cfg, s1, pre[0].landings), pre[1..], rest);
    }
  }

  /** From the first settlement that sees the cancel flag, in pass `i` at position `k`, to the end of
      the run no handler is called. */
  lemma NoCallAfterCancel(cfg: Config, restored: Option<Checkpoint>, sched: Schedule, i: nat, k: nat)
    requires Startable(cfg, restored) && Finishes(cfg, restored, sched) && CancelStays(sched.env)
    requires i < |sched.env| && Loop(cfg, Begin(cfg, restored), sched.env[..i]).Suspended?
    requires var o := sched.env[i];
             !o.cancelled && k < |o.landings| && o.landings[k].cancelSeen
    requires AfterDispatch(cfg, Loop(cfg, Begin(cfg, restored), sched.env[..i]).s, sched.env[i]).inflight != map[]
    ensures var s1 := AfterDispatch(cfg, Loop(cfg, Begin(cfg, restored), sched.env[..i]).s, sched.env[i]);
            FinalState(cfg, restored, sched).calls == SettleAll(cfg, s1, sched.env[i].landings[..k]).calls
  {
    hide Startable, Begin, FinalState, FinalRun, SettleAll, AfterDispatch, CancelOutcome;
    var env, o := sched.env, sched.env[i];
    var s := Loop(cfg, Begin(cfg, restored), env[..i]).s;
    var s1 := AfterDispatch(cfg, s, o);
    assert env[..i] + env[i..] == env;
    LoopContinues(cfg, Begin(cfg, restored), env[..i], env[i..]);
    assert env[i..][0] == o && env[i..][1..] == env[i + 1..];
    if i + 1 < |env| { assert env[i + 1..][0].cancelled; }
    SeenLandingsCallNothing(cfg, s1, o.landings, k);
    CancelRule(cfg, restored, sched);
  }

  lemma DrainedCalls(cfg: Config, s: RunState, s': RunState)
    requires Drained(cfg, s, s')
    ensures s'.calls == s.calls
  {}

  lemma SoundKeys(g: Graph, st: Statuses)
    requires Sound(g, st)
    ensures st.Keys == g.Keys
  {}

  lemma StatusKinds(cfg: Config, pins: set<TaskId>, strict: bool, s: RunState, t: TaskId)
    requires Inv(cfg, pins, strict, s) && t in s.st
    ensures s.st[t] != READY && s.st[t] != CANCELLED
    ensures t in s.results ==> s.results[t].status == s.st[t] && (s.st[t] == COMPLETED || s.st[t] == FAILED)
    ensures t !in s.results ==> s.st[t] != COMPLETED && s.st[t] != FAILED
  {
    hide Flights, Verdicts, Traced, CallsAllowed, Checkpointed;
  }

  lemma DrainedOne(cfg: Config, s: RunState, s': RunState, t: TaskId)
    requires Drained(cfg, s, s') && t in s.st
    ensures t in s'.st && DrainedAt(cfg, s, s', t) && s'.calls == s.calls
  {}

  // -- results and trace of any finished run ------------------------------------------------

  lemma FinalShape(cfg: Config, restored: Option<Checkpoint>, sched: Schedule)
    requires Finishes(cfg, restored, sched)
    ensures var s := AfterDrain(cfg, EndOfLoop(cfg, restored, sched), sched.drainOrder, sched.late);
            var f, run := FinalState(cfg, restored, sched), FinalRun(cfg, restored, sched);
            && (f.st == s.st || f.st == Sweep(s.st)) && f.results == FillResults(s.(st := f.st))
            && f.inflight == s.inflight && f.calls == s.calls && f.saved == s.saved
            && f.trace == s.trace + [TerminalEvent(run.status)]
            && run.results == f.results && run.trace == f.trace
            && run.status == FinalStatus(f.results, SeenAtStatus(EndOfLoop(cfg, restored, sched), sched.late))
  {
    hide EndOfLoop, AfterDrain, Sweep, FillResults, AllCompleted, SomeCompleted, TerminalEvent;
  }

  /** Task `t` was started in this run at most once, and settled exactly as often. */
  ghost predicate SettlesWhatItStarts(trace: seq<Event>, t: TaskId) {
    && Count(trace, EvTaskStarted(t)) <= 1
    && Count(trace, EvTaskStarted(t)) == Count(trace, EvTaskCompleted(t)) + Count(trace, EvTaskFailed(t))
  }

  /** The record of task `t` agrees with the scheduler, the trace and the calls made. */
  ghost predicate Truthful(f: RunState, pins: set<TaskId>, t: TaskId) {
    && t in f.st && t in f.results && f.results[t].status == f.st[t]
    && f.st[t] != RUNNING && f.st[t] != READY
    && SettlesWhatItStarts(f.trace, t)
    && (Count(f.trace, EvTaskCompleted(t)) == 1 <==> f.st[t] == COMPLETED && t !in pins)
    && (Count(f.trace, EvTaskFailed(t)) == 1 <==> f.st[t] == FAILED)
  }

  lemma TracedOne(cfg: Config, pins: set<TaskId>, s: RunState, t: TaskId)
    requires Inv(cfg, pins, false, s) && t in s.st
    ensures TracedAt(s.trace, t, s.st[t], t in pins)
    ensures t in pins ==> s.st[t] == COMPLETED
  {
    hide Sound, Flights, ResultsAgree, CallsAllowed, Checkpointed;
  }

  lemma TerminalEventDoesNotCount(trace: seq<Event>, status: RunStatus, t: TaskId, st: TaskStatus, pinned: bool)
    requires TracedAt(trace, t, st, pinned)
    ensures TracedAt(trace + [TerminalEvent(status)], t, st, pinned)
  {
    var e := TerminalEvent(status);
    CountAppend(trace, e, EvTaskStarted(t));
    CountAppend(trace, e, EvTaskCompleted(t));
    CountAppend(trace, e, EvTaskFailed(t));
  }

  lemma TruthfulFrom(f: RunState, pins: set<TaskId>, t: TaskId, st: TaskStatus)
    requires t in f.st && t in f.results && f.results[t].status == f.st[t]
    requires st == PENDING || st.Terminal()
    requires f.st[t] == st || (st == PENDING && f.st[t] == CANCELLED)
    requires TracedAt(f.trace, t, st, t in pins) && (t in pins ==> st == COMPLETED)
    ensures Truthful(f, pins, t)
  {
    hide Count;
  }

  lemma FilledAt(s: RunState, st: Statuses, t: TaskId)
    requires t in st && (t in s.results ==> s.results[t].status == st[t])
    ensures t in FillResults(s.(st := st)) && FillResults(s.(st := st))[t].status == st[t]
  {}

  lemma TruthfulOne(cfg: Config, pins: set<TaskId>, s: RunState, f: RunState, status: RunStatus, t: TaskId)
    requires Accepted(cfg.tasks) && Inv(cfg, pins, false, s) && s.inflight == map[] && t in cfg.G()
    requires (f.st == s.st || f.st == Sweep(s.st)) && f.results == FillResults(s.(st := f.st))
    requires f.trace == s.trace + [TerminalEvent(status)]
    ensures Truthful(f, pins, t)
  {
    hide Accepted, Inv, TerminalEvent, Truthful, TracedAt, FillResults;
    InvSound(cfg, pins, false, s);
    SoundKeys(cfg.G(), s.st);
    hide Sound, PlanGraph;
    NothingRunning(cfg, pins, false, s);
    StatusKinds(cfg, pins, false, s, t);
    TracedOne(cfg, pins, s, t);
    TerminalEventDoesNotCount(s.trace, status, t, s.st[t], t in pins);
    FilledAt(s, f.st, t);
    TruthfulFrom(f, pins, t, s.st[t]);
  }

  lemma BeginTrace(cfg: Config, restored: Option<Checkpoint>)
    ensures EvRunStarted in Begin(cfg, restored).trace
  {
    var tr := Begin(cfg, restored).trace;
    assert tr[|tr| - 1] == EvRunStarted;
  }

  lemma LaterTrace(cfg: Config, s: RunState, s': RunState, e: Event)
    requires Later(cfg, s, s') && e in s.trace
    ensures e in s'.trace
  {
    hide Measure, CallsLeft;
    var i :| 0 <= i < |s.trace| && s.trace[i] == e;
    assert s'.trace[i] == e;
  }

  /** Every run the executor returns — retried, guarded, unhandled, resumed, raced or cancelled —
      records a truthful result for each plan task and for nothing else, and its trace has a
      beginning and an end. */
  lemma EveryRunIsTruthful(cfg: Config, restored: Option<Checkpoint>, sched: Schedule)
    requires Startable(cfg, restored) && Finishes(cfg, restored, sched)
    ensures var f, run := FinalState(cfg, restored, sched), FinalRun(cfg, restored, sched);
            && run.results == f.results && run.trace == f.trace && run.results.Keys == cfg.G().Keys
            && run.status != RunRunning && f.inflight == map[]
            && EvRunStarted in run.trace && TerminalEvent(run.status) in run.trace
            && (forall t :: t in cfg.G() ==> Truthful(f, Pins(cfg.tasks, restored), t))
            && (forall i :: 0 <= i < |run.trace| ==> PlanEvent(run.trace[i], cfg.G().Keys))
  {
    hide Accepted, Inv, DependencyClosed, EndOfLoop, AfterDrain, Later, Finishes, Begin, Drained, FinalState, FinalRun,
         Truthful, PlanGraph, Pins, AllCompleted, SomeCompleted;
    var pins, end := Pins(cfg.tasks, restored), EndOfLoop(cfg, restored, sched);
    AfterDrainFacts(cfg, restored, sched);
    FinalShape(cfg, restored, sched);
    var s := AfterDrain(cfg, end, sched.drainOrder, sched.late);
    var f, run := FinalState(cfg, restored, sched), FinalRun(cfg, restored, sched);
    BeginTrace(cfg, restored);
    LaterTrace(cfg, Begin(cfg, restored), s, EvRunStarted);
    InvSound(cfg, pins, false, s);
    hide Sound;
    SoundKeys(cfg.G(), s.st);
    ResultsInStatuses(cfg, pins, s);
    PlanEventsOnly(cfg, pins, s);
    hide PlanEvent;
    TerminalIsPlanEvent(run.status, cfg.G().Keys);
    PlanEventsAppend(s.trace, TerminalEvent(run.status), cfg.G().Keys);
    forall t | t in cfg.G() ensures Truthful(f, pins, t) {
      TruthfulOne(cfg, pins, s, f, run.status, t);
    }
  }

  /** What the status of a run says, by its results and whether a cancel was seen. */
  lemma FinalStatusSays(results: map<TaskId, TaskResult>, cancelled: bool)
    ensures var status := FinalStatus(results, cancelled);
            && (status == RunCancelled <==> cancelled)
            && (status == RunCompleted <==> !cancelled && forall t :: t in results ==> results[t].status == COMPLETED)
            && (status == RunPartial <==> !cancelled && (exists t :: t in results && results[t].status == COMPLETED)
                                          && (exists t :: t in results && results[t].status != COMPLETED))
            && (status == RunFailed <==> !cancelled && results.Keys != {}
                                         && forall t :: t in results ==> results[t].status != COMPLETED)
            && status != RunRunning
  {
    if results.Keys != {} {
      var t :| t in results.Keys;
      assert t in results;
    }
  }

  /** What the terminal event says about the status. */
  lemma TerminalEventSays(status: RunStatus)
    ensures TerminalEvent(status) == EvRunCompleted <==> status == RunCompleted
    ensures TerminalEvent(status) == EvRunCancelled <==> status == RunCancelled
    ensures TerminalEvent(status) == EvRunFailed <==> status != RunCompleted && status != RunCancelled
  {}

  /** The status of any finished run, by what became of its tasks: cancelled if and only if a cancel was
      seen by the end; otherwise completed if all of them are, partial if some are, and failed if none
      is. The last event says which. */
  lemma RunStatusSays(cfg: Config, restored: Option<Checkpoint>, sched: Schedule)
    requires Startable(cfg, restored) && Finishes(cfg, restored, sched)
    ensures var st, run := FinalState(cfg, restored, sched).st, FinalRun(cfg, restored, sched);
            var cancelled := EndOfLoop(cfg, restored, sched).LeftByCancel? || sched.late != Never;
            && st.Keys == cfg.G().Keys
            && (run.status == RunCancelled <==> cancelled)
            && (run.status == RunCompleted <==> !cancelled && forall t :: t in st ==> st[t] == COMPLETED)
            && (run.status == RunPartial <==> !cancelled && (exists t :: t in st && st[t] == COMPLETED)
                                              && (exists t :: t in st && st[t] != COMPLETED))
            && (run.status == RunFailed <==> !cancelled && st.Keys != {} && forall t :: t in st ==> st[t] != COMPLETED)
            && run.trace != []
            && run.trace[|run.trace| - 1] == (if cancelled then EvRunCancelled
                                              else if forall t :: t in st ==> st[t] == COMPLETED then EvRunCompleted
                                              else EvRunFailed)
  {
    hide Accepted, DependencyClosed, EndOfLoop, AfterDrain, Finishes, FinalState, FinalRun, Truthful, PlanGraph, Pins,
         FinalStatus, TerminalEvent, Begin, PlanEvent, FillResults, Sweep;
    FinalAgrees(cfg, restored, sched);
    FinalShape(cfg, restored, sched);
    var f, run := FinalState(cfg, restored, sched), FinalRun(cfg, restored, sched);
    var cancelled := SeenAtStatus(EndOfLoop(cfg, restored, sched), sched.late);
    assert run.trace[|run.trace| - 1] == TerminalEvent(run.status);
    StatusFrom(f.st, f.results, cancelled, run.status);
  }

  /** The status and the terminal event that go with a run's final statuses. */
  lemma StatusFrom(st: Statuses, results: map<TaskId, TaskResult>, cancelled: bool, status: RunStatus)
    requires st.Keys == results.Keys && (forall t :: t in st ==> results[t].status == st[t])
    requires status == FinalStatus(results, cancelled)
    ensures status == RunCancelled <==> cancelled
    ensures status == RunCompleted <==> !cancelled && forall t :: t in st ==> st[t] == COMPLETED
    ensures status == RunPartial
            <==> !cancelled && (exists t :: t in st && st[t] == COMPLETED)
                 && (exists t :: t in st && st[t] != COMPLETED)
    ensures status == RunFailed <==> !cancelled && st.Keys != {} && forall t :: t in st ==> st[t] != COMPLETED
    ensures TerminalEvent(status) == if cancelled then EvRunCancelled
                                     else if forall t :: t in st ==> st[t] == COMPLETED then EvRunCompleted
                                     else EvRunFailed
  {
    hide FinalStatus, TerminalEvent;
    FinalStatusSays(results, cancelled);
    StatusesForResults(st, results);
    TerminalEventSays(status);
  }

  lemma FinalAgrees(cfg: Config, restored: Option<Checkpoint>, sched: Schedule)
    requires Startable(cfg, restored) && Finishes(cfg, restored, sched)
    ensures var f := FinalState(cfg, restored, sched);
            f.st.Keys == cfg.G().Keys == f.results.Keys && forall t :: t in f.st ==> f.results[t].status == f.st[t]
  {
    hide Accepted, DependencyClosed, EndOfLoop, AfterDrain, Finishes, FinalState, FinalRun, Truthful, PlanGraph, Pins,
         TerminalEvent, Begin, PlanEvent;
    EveryRunIsTruthful(cfg, restored, sched);
    FinalKeys(cfg, restored, sched);
    var f := FinalState(cfg, restored, sched);
    forall t | t in cfg.G() ensures t in f.st && t in f.results && f.results[t].status == f.st[t] {
      TruthfulStatus(f, Pins(cfg.tasks, restored), t);
    }
  }

  lemma TruthfulStatus(f: RunState, pins: set<TaskId>, t: TaskId)
    requires Truthful(f, pins, t)
    ensures t in f.st && t in f.results && f.results[t].status == f.st[t]
  {
    hide SettlesWhatItStarts, Count;
  }

  lemma FinalKeys(cfg: Config, restored: Option<Checkpoint>, sched: Schedule)
    requires Startable(cfg, restored) && Finishes(cfg, restored, sched)
    ensures FinalState(cfg, restored, sched).st.Keys == cfg.G().Keys
  {
    hide Accepted, DependencyClosed, Inv, EndOfLoop, AfterDrain, Finishes, FinalState, FinalRun, PlanGraph, Pins,
         FinalStatus, TerminalEvent, Begin, FillResults, Later, Drained;
    AfterDrainFacts(cfg, restored, sched);
    FinalShape(cfg, restored, sched);
    var s := AfterDrain(cfg, EndOfLoop(cfg, restored, sched), sched.drainOrder, sched.late);
    InvSound(cfg, Pins(cfg.tasks, restored), false, s);
    SoundKeys(cfg.G(), s.st);
  }

  lemma StatusesForResults(st: Statuses, results: map<TaskId, TaskResult>)
    requires st.Keys == results.Keys && forall t :: t in st ==> results[t].status == st[t]
    ensures (forall t :: t in st ==> st[t] == COMPLETED)
            <==> forall t :: t in results ==> results[t].status == COMPLETED
    ensures (exists t :: t in st && st[t] == COMPLETED)
            <==> exists t :: t in results && results[t].status == COMPLETED
    ensures (exists t :: t in st && st[t] != COMPLETED)
            <==> exists t :: t in results && results[t].status != COMPLETED
  {
    if t :| t in st && st[t] == COMPLETED { assert t in results; }
    if t :| t in results && results[t].status == COMPLETED { assert t in st; }
    if t :| t in st && st[t] != COMPLETED { assert t in results; }
    if t :| t in results && results[t].status != COMPLETED { assert t in st; }
  }

  /** A task succeeds by itself if the guard allows it, it has a handler, and one of its attempts returns:
      the first, or a later one within the number configured. */
  lemma SucceedsSays(cfg: Config, t: TaskId)
    ensures cfg.Succeeds(t) <==>
              && cfg.guard(t) && cfg.resolves(t)
              && exists a: nat :: 1 <= a && (a == 1 || a <= cfg.maxAttempts) && cfg.invoke(t, a).Returned?
  {
    if cfg.Succeeds(t) {
      var a: nat :| 1 <= a <= cfg.Limit() && cfg.invoke(t, a).Returned?;
      assert 1 <= a && (a == 1 || a <= cfg.maxAttempts) && cfg.invoke(t, a).Returned?;
    }
    if a: nat :| 1 <= a && (a == 1 || a <= cfg.maxAttempts) && cfg.invoke(t, a).Returned? {
      assert 1 <= a <= cfg.Limit();
    }
  }

  /** An uncancelled run that the pause race did not end is completed if and only if every task of the
      plan was restored or succeeds by itself. */
  lemma CompletedIffAllSucceed(cfg: Config, restored: Option<Checkpoint>, sched: Schedule)
    requires Startable(cfg, restored) && Uncancelled(sched) && Finishes(cfg, restored, sched)
    requires !Raced(EndOfLoop(cfg, restored, sched))
    ensures FinalRun(cfg, restored, sched).status == RunCompleted
            <==> forall t :: t in cfg.G() ==> t in Pins(cfg.tasks, restored) || cfg.Succeeds(t)
    ensures FinalRun(cfg, restored, sched).status == RunCompleted
            <==> forall t :: t in cfg.G() ==> Meaning(cfg, restored)[t] == COMPLETED
  {
    hide Accepted, DependencyClosed, EndOfLoop, FinalState, FinalRun, Finishes, Final, PlanGraph, Pins, Config.Succeeds,
         Raced, Closed, Acyclic;
    RunStatusSays(cfg, restored, sched);
    EveryInterleavingMeansFinal(cfg, restored, sched);
    UncancelledEnd(cfg, restored, sched);
    hide ExitFacts, Uncancelled;
    AcceptedGraph(cfg.tasks);
    var g, ok, pins := cfg.G(), cfg.Ok(), Pins(cfg.tasks, restored);
    assert !EndOfLoop(cfg, restored, sched).LeftByCancel?;
    AllCompleteIff(g, ok, pins);
    assert forall t :: t in g ==> Meaning(cfg, restored)[t] == Final(g, ok, pins, t);
  }

  lemma AllCompleteIff(g: Graph, ok: set<TaskId>, pins: set<TaskId>)
    requires Closed(g) && Acyclic(g)
    ensures (forall t :: t in g ==> Final(g, ok, pins, t) == COMPLETED) <==> forall t :: t in g ==> t in pins || t in ok
  {
    if forall t :: t in g ==> t in pins || t in ok {
      forall t | t in g ensures Final(g, ok, pins, t) == COMPLETED { AllGoodCompletes(g, ok, pins, t); }
    }
    forall t | t in g && Final(g, ok, pins, t) == COMPLETED ensures t in pins || t in ok {}
  }

  lemma {:induction false} AllGoodCompletes(g: Graph, ok: set<TaskId>, pins: set<TaskId>, t: TaskId)
    requires Closed(g) && Acyclic(g) && t in g && forall u :: u in g ==> u in pins || u in ok
    ensures Final(g, ok, pins, t) == COMPLETED
    decreases Ancestors(g, t)
  {
    AncestorsShrink(g, t);
    forall d | d in g[t] ensures Final(g, ok, pins, d) == COMPLETED { AllGoodCompletes(g, ok, pins, d); }
  }

  lemma PlanEventsOnly(cfg: Config, pins: set<TaskId>, s: RunState)
    requires Inv(cfg, pins, false, s)
    ensures forall i :: 0 <= i < |s.trace| ==> PlanEvent(s.trace[i], s.st.Keys)
  {
    hide Sound, Flights, ResultsAgree, Verdicts, CallsAllowed, Checkpointed;
  }

  lemma TerminalIsPlanEvent(status: RunStatus, ids: set<TaskId>)
    ensures PlanEvent(TerminalEvent(status), ids)
  {}

  lemma ResultsInStatuses(cfg: Config, pins: set<TaskId>, s: RunState)
    requires Inv(cfg, pins, false, s)
    ensures s.results.Keys <= s.st.Keys
  {
    hide Sound, Flights, Verdicts, Traced, CallsAllowed, Checkpointed;
  }

  // -- bounded work ---------------------------------------------------------------------------

  /** A run makes no more handler calls than its tasks have attempts, none for a restored task, and
      each call's task was allowed by the guard and had a handler. */
  lemma HandlerCallsAreBounded(cfg: Config, restored: Option<Checkpoint>, sched: Schedule)
    requires Startable(cfg, restored) && Finishes(cfg, restored, sched)
    ensures |FinalState(cfg, restored, sched).calls| <= |cfg.tasks| * cfg.Limit()
    ensures cfg.Limit() == if cfg.maxAttempts < 1 then 1 else cfg.maxAttempts
    ensures forall c :: c in FinalState(cfg, restored, sched).calls ==>
              && c.task in cfg.G() && c.task !in Pins(cfg.tasks, restored)
              && cfg.guard(c.task) && cfg.resolves(c.task)
              && 1 <= c.attempt && (c.attempt == 1 || c.attempt <= cfg.maxAttempts)
  {
    hide Accepted, Inv, DependencyClosed, EndOfLoop, AfterDrain, Later, Finishes, Drained, FinalState, FinalRun,
         PlanGraph, CallsLeft, Measure, Pins;
    var pins, end := Pins(cfg.tasks, restored), EndOfLoop(cfg, restored, sched);
    AfterDrainFacts(cfg, restored, sched);
    FinalShape(cfg, restored, sched);
    var s := AfterDrain(cfg, end, sched.drainOrder, sched.late);
    BeginWork(cfg, restored);
    assert Begin(cfg, restored).calls == [];
    LaterMeasure(cfg, Begin(cfg, restored), s);
    CallsOne(cfg, pins, s);
    InvSound(cfg, pins, false, s);
    SoundKeys(cfg.G(), s.st);
  }

  lemma CallsOne(cfg: Config, pins: set<TaskId>, s: RunState)
    requires Inv(cfg, pins, false, s)
    ensures forall c :: c in s.calls ==> CallAllowed(cfg, c, s.st, pins)
  {
    hide Sound, Flights, ResultsAgree, Verdicts, Traced, Checkpointed, CallAllowed;
  }

  /** A run leaves its loop within as many passes as it can take steps, not counting those that waited
      for a handler to finish and those that read a pause. */
  lemma RunsEnd(cfg: Config, restored: Option<Checkpoint>, sched: Schedule)
    requires Startable(cfg, restored)
    requires var s := Begin(cfg, restored);
             |sched.env| > |cfg.tasks| * (cfg.Limit() + 1) + Passes(cfg, s, sched.env, Idles)
                           + PausedReads(sched.env)
    ensures Finishes(cfg, restored, sched)
  {
    hide Accepted, Inv, DependencyClosed, Begin, Loop, Passes, Measure, Pins, CallsLeft;
    BeginInv(cfg, restored);
    WeakenInv(cfg, Pins(cfg.tasks, restored), true, Begin(cfg, restored));
    BeginWork(cfg, restored);
    PausesAreRead(cfg, Begin(cfg, restored), sched.env);
    LoopEnds(cfg, Pins(cfg.tasks, restored), Begin(cfg, restored), sched.env);
  }

  /** A run that never ends waits for ever for a handler or for the end of a pause. */
  lemma EndlessRunsWait(cfg: Config, restored: Option<Checkpoint>, env: nat -> Observation)
    requires Startable(cfg, restored) && NeverEnds(cfg, Begin(cfg, restored), env)
    ensures exists n: nat :: WaitsFrom(cfg, Begin(cfg, restored), env, n)
  {
    hide Accepted, Inv, DependencyClosed, Begin, NeverEnds, WaitsFrom, Pins;
    BeginInv(cfg, restored);
    WeakenInv(cfg, Pins(cfg.tasks, restored), true, Begin(cfg, restored));
    OnlyWaitingIsForever(cfg, Pins(cfg.tasks, restored), Begin(cfg, restored), env);
  }

  // -- checkpoints and resuming ------------------------------------------------------------------

  /** The state a run has reached: its final one, or wherever it was interrupted. */
  ghost function Reached(cfg: Config, restored: Option<Checkpoint>, sched: Schedule): RunState {
    if Finishes(cfg, restored, sched) then FinalState(cfg, restored, sched) else EndOfLoop(cfg, restored, sched).s
  }

  /** What the checkpoint store holds for the plan afterwards. */
  ghost function StoreAfter(cfg: Config, restored: Option<Checkpoint>, sched: Schedule): Option<Checkpoint> {
    var saved := Reached(cfg, restored, sched).saved;
    if saved.Some? then saved else restored
  }

  lemma ReachedFacts(cfg: Config, restored: Option<Checkpoint>, sched: Schedule) returns (s: RunState)
    requires Startable(cfg, restored)
    ensures Inv(cfg, Pins(cfg.tasks, restored), false, s) && Later(cfg, Begin(cfg, restored), s)
    ensures Reached(cfg, restored, sched).saved == s.saved && Reached(cfg, restored, sched).calls == s.calls
    ensures CompletedOutputs(Reached(cfg, restored, sched).results) == CompletedOutputs(s.results)
  {
    hide Accepted, Inv, DependencyClosed, Begin, Loop, Later, Pins, AfterDrain, FinalState, CompletedOutputs,
         FillResults;
    var pins := Pins(cfg.tasks, restored);
    if Finishes(cfg, restored, sched) {
      AfterDrainFacts(cfg, restored, sched);
      FinalShape(cfg, restored, sched);
      s := AfterDrain(cfg, EndOfLoop(cfg, restored, sched), sched.drainOrder, sched.late);
      FillingAddsNothing(cfg, pins, s, FinalState(cfg, restored, sched).st);
    } else {
      EndOfLoopFacts(cfg, restored, sched, false);
      ExitInv(cfg, pins, false, EndOfLoop(cfg, restored, sched));
      BeginInv(cfg, restored);
      WeakenInv(cfg, pins, true, Begin(cfg, restored));
      LoopIsLater(cfg, pins, Begin(cfg, restored), sched.env);
      s := EndOfLoop(cfg, restored, sched).s;
    }
  }

  /** Filling in the results of tasks that never settled adds nothing to the completed ones. */
  lemma FillingAddsNothing(cfg: Config, pins: set<TaskId>, s: RunState, st: Statuses)
    requires Inv(cfg, pins, false, s) && (st == s.st || st == Sweep(s.st))
    ensures CompletedOutputs(FillResults(s.(st := st))) == CompletedOutputs(s.results)
  {
    hide Sound, Flights, Verdicts, Traced, CallsAllowed, Checkpointed;
  }

  lemma CheckpointOf(cfg: Config, pins: set<TaskId>, s: RunState)
    requires Inv(cfg, pins, false, s) && s.saved.Some?
    ensures s.saved.value == CompletedOutputs(s.results)
    ensures forall t :: t in s.saved.value <==> t in s.st && s.st[t] == COMPLETED
    ensures pins <= s.saved.value.Keys
  {
    hide Sound, Flights, Traced, CallsAllowed;
  }

  lemma CompletedSetClosed(g: Graph, st: Statuses, done: set<TaskId>)
    requires Sound(g, st) && forall t :: t in done <==> t in st && st[t] == COMPLETED
    ensures DependencyClosed(g, done)
  {
    forall t, d | t in done && t in g && d in g[t] ensures d in done { assert EdgeOk(st[d], st[t]); }
  }

  lemma RestoredKept(cfg: Config, restored: Option<Checkpoint>, s: RunState, t: TaskId)
    requires Startable(cfg, restored) && Later(cfg, Begin(cfg, restored), s) && t in Pins(cfg.tasks, restored)
    ensures t in s.results && s.results[t] == TaskResult(COMPLETED, restored.value[t], None, 1)
  {
    hide Measure, CallsLeft, Accepted, Begin, Pins;
    BeginRestores(cfg, restored, t);
  }

  lemma BeginRestores(cfg: Config, restored: Option<Checkpoint>, t: TaskId)
    requires Accepted(cfg.tasks) && t in Pins(cfg.tasks, restored)
    ensures restored.Some? && t in restored.value
    ensures var s := Begin(cfg, restored);
            && t in s.st && s.st[t] == COMPLETED
            && t in s.results && s.results[t] == TaskResult(COMPLETED, restored.value[t], None, 1)
  {
    hide Accepted, PlanGraph, Ids;
    AcceptedGraph(cfg.tasks);
  }

  /** A checkpoint written by a run holds exactly its completed results, contains the
      dependencies of everything in it, and keeps every restored output. */
  lemma CheckpointIsExact(cfg: Config, restored: Option<Checkpoint>, sched: Schedule)
    requires Startable(cfg, restored) && Reached(cfg, restored, sched).saved.Some?
    ensures var saved := Reached(cfg, restored, sched).saved.value;
            && saved == CompletedOutputs(Reached(cfg, restored, sched).results)
            && DependencyClosed(cfg.G(), saved.Keys)
            && forall t :: t in Pins(cfg.tasks, restored) ==> t in saved && saved[t] == restored.value[t]
  {
    hide Accepted, Inv, DependencyClosed, Begin, Later, Pins, Reached, CompletedOutputs;
    var pins := Pins(cfg.tasks, restored);
    var s := ReachedFacts(cfg, restored, sched);
    CheckpointOf(cfg, pins, s);
    InvSound(cfg, pins, false, s);
    hide Sound;
    CompletedSetClosed(cfg.G(), s.st, s.saved.value.Keys);
    forall t | t in pins
      ensures restored.Some? && t in restored.value && t in s.saved.value && s.saved.value[t] == restored.value[t]
    {
      PinsRestored(cfg, restored, t);
      RestoredKept(cfg, restored, s, t);
      OutputOf(s.results, t);
    }
  }

  lemma PinsRestored(cfg: Config, restored: Option<Checkpoint>, t: TaskId)
    requires t in Pins(cfg.tasks, restored)
    ensures restored.Some? && t in restored.value
  {}

  lemma OutputOf(results: map<TaskId, TaskResult>, t: TaskId)
    requires t in results && results[t].status == COMPLETED
    ensures t in CompletedOutputs(results) && CompletedOutputs(results)[t] == results[t].output
  {}
}
