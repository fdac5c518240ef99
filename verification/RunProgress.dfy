/** Runs only move forward: what is settled stays settled, and a measure bounds the work left. */
module RunProgress {
  import opened Schemas
  import opened Dag
  import opened SchedulerSpec
  import opened Kahn
  import opened Scheduling
  import opened Execution
  import opened RunInvariant
  import opened RunLoop

  // -- sums over the plan's tasks -----------------------------------------------------

  function SumOver(ids: seq<TaskId>, f: map<TaskId, nat>): nat {
    if ids == [] then 0
    else SumOver(ids[..|ids| - 1], f) + (if ids[|ids| - 1] in f then f[ids[|ids| - 1]] else 0)
  }

  lemma {:induction false} SumMonotone(ids: seq<TaskId>, f: map<TaskId, nat>, f': map<TaskId, nat>)
    requires f.Keys == f'.Keys && forall t :: t in f ==> f'[t] <= f[t]
    ensures SumOver(ids, f') <= SumOver(ids, f)
    decreases |ids|
  {
    if ids != [] { SumMonotone(ids[..|ids| - 1], f, f'); }
  }

  lemma {:induction false} SumDrops(ids: seq<TaskId>, f: map<TaskId, nat>, f': map<TaskId, nat>, t: TaskId)
    requires f.Keys == f'.Keys && forall u :: u in f ==> f'[u] <= f[u]
    requires t in ids && t in f && f'[t] < f[t]
    ensures SumOver(ids, f') < SumOver(ids, f)
    decreases |ids|
  {
    var init := ids[..|ids| - 1];
    assert ids == init + [ids[|ids| - 1]];
    if t in init { SumDrops(init, f, f', t); } else { SumMonotone(init, f, f'); }
  }

  lemma {:induction false} SumBound(ids: seq<TaskId>, f: map<TaskId, nat>, bound: nat)
    requires forall t :: t in f ==> f[t] <= bound
    ensures SumOver(ids, f) <= |ids| * bound
    decreases |ids|
  {
    if ids != [] {
      SumBound(ids[..|ids| - 1], f, bound);
      assert |ids| * bound == (|ids| - 1) * bound + bound;
    }
  }

  // -- the work left ----------------------------------------------------------------------

  /** Handler calls a task may still cause. */
  function Remaining(cfg: Config, s: RunState, t: TaskId): nat
    requires t in s.st
  {
    if s.st[t] == PENDING then cfg.Limit()
    else if t in s.inflight && s.inflight[t] <= cfg.Limit() then cfg.Limit() - s.inflight[t]
    else 0
  }

  /** Steps a task may still take: its calls, and its settlement. */
  function Weight(cfg: Config, s: RunState, t: TaskId): nat
    requires t in s.st
  {
    if s.st[t].Terminal() then 0 else Remaining(cfg, s, t) + 1
  }

  function CallsLeft(cfg: Config, s: RunState): nat {
    SumOver(Ids(cfg.tasks), map t | t in s.st :: Remaining(cfg, s, t))
  }

  function Measure(cfg: Config, s: RunState): nat {
    SumOver(Ids(cfg.tasks), map t | t in s.st :: Weight(cfg, s, t))
  }

  // -- one step ------------------------------------------------------------------------------

  /** The step hands attempt `a` of `t` to the pool. */
  ghost predicate Launched(cfg: Config, s: RunState, t: TaskId, a: nat, s': RunState) {
    && a == (if t in s.inflight then s.inflight[t] + 1 else 1) && a <= cfg.Limit()
    && t in s'.st && s'.st[t] == RUNNING && t in s'.inflight && s'.inflight[t] == a
    && s'.calls == s.calls + [Call(t, a)] && s'.results == s.results
  }

  /** The step gives `t` its result. */
  ghost predicate Ended(s: RunState, t: TaskId, s': RunState) {
    && t !in s'.inflight && t in s'.st && (s'.st[t] == COMPLETED || s'.st[t] == FAILED)
    && s'.calls == s.calls
    && t in s'.results && s'.results == s.results[t := s'.results[t]]
  }

  /** A dispatch or settlement of `t`, as seen from outside. */
  ghost predicate Stepped(cfg: Config, s: RunState, t: TaskId, s': RunState) {
    && t in s.st && (s.st[t] == PENDING || (s.st[t] == RUNNING && t in s.inflight))
    && s'.st.Keys == s.st.Keys
    && (forall u :: u in s.st && u != t ==> s'.st[u] == s.st[u] || (s.st[u] == PENDING && s'.st[u] == BLOCKED))
    && (forall u :: u != t && u in s.inflight ==> u in s'.inflight && s'.inflight[u] == s.inflight[u])
    && (forall u :: u != t && u in s'.inflight ==> u in s.inflight)
    && s.trace <= s'.trace
    && ((exists a: nat :: Launched(cfg, s, t, a, s')) || Ended(s, t, s'))
  }

  lemma FailSteps(cfg: Config, s: RunState, t: TaskId, s': RunState)
    requires t in s.st && (s.st[t] == PENDING || (s.st[t] == RUNNING && t in s.inflight))
    requires FailedAt(s.st[t := RUNNING], t, s'.st)
    requires s'.inflight == s.inflight - {t} && s'.calls == s.calls && s.trace <= s'.trace
    requires t in s'.results && s'.results == s.results[t := s'.results[t]]
    ensures Stepped(cfg, s, t, s')
  {
    assert Ended(s, t, s');
  }

  lemma FailRunShape(cfg: Config, s: RunState, t: TaskId, error: TaskError, attempts: nat, before: seq<Event>)
    ensures var s' := FailRun(cfg, s, t, error, attempts, before);
            && s'.st == FailTask(cfg.G(), s.st, t) && s'.inflight == s.inflight && s'.calls == s.calls
            && t in s'.results && s'.results == s.results[t := s'.results[t]] && s.trace <= s'.trace
  {
    hide FailTask, CompletedOutputs;
  }

  lemma LaunchSteps(cfg: Config, s: RunState, t: TaskId, a: nat, s': RunState)
    requires t in s.st && (s.st[t] == PENDING || (s.st[t] == RUNNING && t in s.inflight))
    requires a == (if t in s.inflight then s.inflight[t] + 1 else 1) && a <= cfg.Limit()
    requires s'.st == s.st[t := RUNNING] && s'.inflight == s.inflight[t := a] && s'.results == s.results
    requires s'.calls == s.calls + [Call(t, a)] && s.trace <= s'.trace
    ensures Stepped(cfg, s, t, s')
  {
    assert Launched(cfg, s, t, a, s');
  }

  lemma DispatchSteps(cfg: Config, s: RunState, t: TaskId)
    requires Accepted(cfg.tasks) && Sound(cfg.G(), s.st) && IsReady(cfg.G(), s.st, t) && t !in s.inflight
    ensures Stepped(cfg, s, t, Dispatch(cfg, s, t))
  {
    hide Accepted, Closed, Acyclic, Sound, FailTask, FailedAt, Stepped, FailRun, OthersStay;
    AcceptedGraph(cfg.tasks);
    StartSound(cfg.G(), s.st, t);
    var s1, s' := MarkStarted(s, t), Dispatch(cfg, s, t);
    assert s.inflight - {t} == s.inflight;
    if cfg.guard(t) && cfg.resolves(t) {
      LaunchSteps(cfg, s, t, 1, s');
    } else {
      FailTaskFailedAt(cfg.G(), s.st[t := RUNNING], t);
      FailRunShape(cfg, s1, t, if cfg.guard(t) then NoHandler else BlockedBySecurity, 1,
                   if cfg.guard(t) then [] else [EvSecurityBlocked(t)]);
      FailSteps(cfg, s, t, s');
    }
  }

  lemma CompleteSteps(cfg: Config, s: RunState, t: TaskId, output: Value, a: nat)
    requires t in s.st && s.st[t] == RUNNING && t in s.inflight
    ensures Stepped(cfg, s, t, CompleteRun(cfg, s.(inflight := s.inflight - {t}), t, output, a))
  {
    hide CompletedOutputs;
    assert Ended(s, t, CompleteRun(cfg, s.(inflight := s.inflight - {t}), t, output, a));
  }

  lemma SettleSteps(cfg: Config, s: RunState, t: TaskId, allowRetry: bool)
    requires Accepted(cfg.tasks) && Sound(cfg.G(), s.st) && t in cfg.G()
    requires t in s.inflight && t in s.st && s.st[t] == RUNNING
    ensures Stepped(cfg, s, t, Settle(cfg, s, t, allowRetry))
  {
    hide Accepted, Closed, Acyclic, Sound, FailTask, FailedAt, Stepped, FailRun, OthersStay, CompleteRun;
    AcceptedGraph(cfg.tasks);
    var s', a := Settle(cfg, s, t, allowRetry), s.inflight[t];
    var s1 := s.(inflight := s.inflight - {t});
    match cfg.invoke(t, a)
    case Returned(output) => CompleteSteps(cfg, s, t, output, a);
    case Raised(message) =>
      assert s.st[t := RUNNING] == s.st;
      if allowRetry && a < cfg.maxAttempts {
        assert s.inflight[t := a + 1] == (s.inflight - {t})[t := a + 1];
        LaunchSteps(cfg, s, t, a + 1, s');
      } else {
        FailTaskFailedAt(cfg.G(), s.st, t);
        FailRunShape(cfg, s1, t, HandlerError(message), a, []);
        FailSteps(cfg, s, t, s');
      }
  }

  lemma StepLowersEach(cfg: Config, s: RunState, t: TaskId, s': RunState)
    requires Stepped(cfg, s, t, s')
    ensures s'.st.Keys == s.st.Keys && Weight(cfg, s', t) < Weight(cfg, s, t)
    ensures forall u :: u in s.st ==>
              Weight(cfg, s', u) <= Weight(cfg, s, u) && Remaining(cfg, s', u) <= Remaining(cfg, s, u)
    ensures Ended(s, t, s') || (|s'.calls| == |s.calls| + 1 && Remaining(cfg, s', t) < Remaining(cfg, s, t))
  {
    StepLowersOwn(cfg, s, t, s');
    forall u | u in s.st
      ensures Weight(cfg, s', u) <= Weight(cfg, s, u) && Remaining(cfg, s', u) <= Remaining(cfg, s, u)
    {
      if u != t { StepKeepsOthers(cfg, s, t, s', u); }
    }
    hide Weight, Remaining, Ended;
  }

  lemma StepLowersOwn(cfg: Config, s: RunState, t: TaskId, s': RunState)
    requires Stepped(cfg, s, t, s')
    ensures t in s.st && t in s'.st && Weight(cfg, s', t) < Weight(cfg, s, t)
    ensures Remaining(cfg, s', t) <= Remaining(cfg, s, t)
    ensures Ended(s, t, s') || (|s'.calls| == |s.calls| + 1 && Remaining(cfg, s', t) < Remaining(cfg, s, t))
  {}

  lemma StepKeepsOthers(cfg: Config, s: RunState, t: TaskId, s': RunState, u: TaskId)
    requires Stepped(cfg, s, t, s') && u in s.st && u != t
    ensures u in s'.st && Weight(cfg, s', u) <= Weight(cfg, s, u) && Remaining(cfg, s', u) <= Remaining(cfg, s, u)
  {
    hide Ended, Launched;
  }

  lemma StepLowersWork(cfg: Config, s: RunState, t: TaskId, s': RunState)
    requires Stepped(cfg, s, t, s') && t in Ids(cfg.tasks)
    ensures Measure(cfg, s') < Measure(cfg, s)
    ensures |s'.calls| + CallsLeft(cfg, s') <= |s.calls| + CallsLeft(cfg, s)
  {
    StepLowersEach(cfg, s, t, s');
    var ended := Ended(s, t, s');
    assert t in s.st && (ended ==> s'.calls == s.calls);
    hide Stepped, Weight, Remaining, Ended;
    var ids := Ids(cfg.tasks);
    var w := map u | u in s.st :: Weight(cfg, s, u);
    var w' := map u | u in s'.st :: Weight(cfg, s', u);
    SumDrops(ids, w, w', t);
    var r := map u | u in s.st :: Remaining(cfg, s, u);
    var r' := map u | u in s'.st :: Remaining(cfg, s', u);
    if ended { SumMonotone(ids, r, r'); } else { SumDrops(ids, r, r', t); }
  }

  // -- many steps --------------------------------------------------------------------------------

  /** Results, calls and events are only ever added; a finished task keeps its status and result;
      the work left does not grow. */
  ghost predicate Later(cfg: Config, s: RunState, s': RunState) {
    && s'.st.Keys == s.st.Keys
    && (forall t :: t in s.st && s.st[t].Terminal() ==> s'.st[t] == s.st[t])
    && (forall t :: t in s.st && s.st[t].Terminal() && t in s.results ==>
          t in s'.results && s'.results[t] == s.results[t])
    && s.calls <= s'.calls && s.trace <= s'.trace
    && Measure(cfg, s') <= Measure(cfg, s)
    && |s'.calls| + CallsLeft(cfg, s') <= |s.calls| + CallsLeft(cfg, s)
  }

  lemma StepIsLater(cfg: Config, s: RunState, t: TaskId, s': RunState)
    requires Stepped(cfg, s, t, s') && t in Ids(cfg.tasks)
    ensures Later(cfg, s, s')
  {
    hide Measure, CallsLeft, Ids;
    StepLowersWork(cfg, s, t, s');
  }

  lemma LaterComposes(cfg: Config, s: RunState, s1: RunState, s2: RunState)
    requires Later(cfg, s, s1) && Later(cfg, s1, s2)
    ensures Later(cfg, s, s2)
  {
    hide Measure, CallsLeft;
  }

  lemma LaterReflexive(cfg: Config, s: RunState)
    ensures Later(cfg, s, s)
  {}

  lemma TaskInPlan(cfg: Config, pins: set<TaskId>, strict: bool, s: RunState, t: TaskId)
    requires Accepted(cfg.tasks) && Inv(cfg, pins, strict, s) && t in s.st
    ensures t in Ids(cfg.tasks)
  {
    InvSound(cfg, pins, strict, s);
    AcceptedGraph(cfg.tasks);
    hide Inv, Accepted, Closed, Acyclic;
  }

  lemma ReadyNotFlying(cfg: Config, pins: set<TaskId>, strict: bool, s: RunState, t: TaskId)
    requires Inv(cfg, pins, strict, s) && IsReady(cfg.G(), s.st, t)
    ensures t !in s.inflight && t in s.st
  {
    hide Sound, ResultsAgree, Verdicts, Traced, CallsAllowed, Checkpointed;
  }

  lemma DispatchIsLater(cfg: Config, pins: set<TaskId>, strict: bool, s: RunState, t: TaskId)
    requires Accepted(cfg.tasks) && Inv(cfg, pins, strict, s) && IsReady(cfg.G(), s.st, t)
    ensures Later(cfg, s, Dispatch(cfg, s, t))
  {
    ReadyNotFlying(cfg, pins, strict, s, t);
    TaskInPlan(cfg, pins, strict, s, t);
    InvSound(cfg, pins, strict, s);
    hide Inv, Sound, IsReady, Accepted, Dispatch, Stepped, Later;
    DispatchSteps(cfg, s, t);
    StepIsLater(cfg, s, t, Dispatch(cfg, s, t));
  }

  /** Each settled future strictly lowers the measure. */
  lemma SettleLowersMeasure(cfg: Config, pins: set<TaskId>, strict: bool, s: RunState, t: TaskId, allowRetry: bool)
    requires Accepted(cfg.tasks) && Inv(cfg, pins, strict, s) && t in s.inflight
    ensures Later(cfg, s, Settle(cfg, s, t, allowRetry))
    ensures Measure(cfg, Settle(cfg, s, t, allowRetry)) < Measure(cfg, s)
  {
    LandKeeps(cfg, pins, strict, s, t);
    TaskInPlan(cfg, pins, strict, s, t);
    InvSound(cfg, pins, strict, s);
    hide Inv, InvWith, Sound, Accepted, Settle, Stepped, Later, MayFly, Measure;
    SettleSteps(cfg, s, t, allowRetry);
    StepIsLater(cfg, s, t, Settle(cfg, s, t, allowRetry));
    StepLowersWork(cfg, s, t, Settle(cfg, s, t, allowRetry));
  }

  lemma {:induction false} DispatchAllIsLater(cfg: Config, pins: set<TaskId>, strict: bool, s: RunState,
                                              ids: seq<TaskId>)
    requires Accepted(cfg.tasks) && Inv(cfg, pins, strict, s)
    requires NoDuplicates(ids) && forall t :: t in ids ==> IsReady(cfg.G(), s.st, t)
    ensures Later(cfg, s, DispatchAll(cfg, s, ids))
    decreases |ids|
  {
    hide Accepted, Inv, IsReady, Dispatch, Later;
    if ids == [] {
      LaterReflexive(cfg, s);
    } else {
      var init, t := ids[..|ids| - 1], ids[|ids| - 1];
      assert ids == init + [t];
      assert t !in init by { forall i | 0 <= i < |init| ensures init[i] != t { assert ids[i] != ids[|ids| - 1]; } }
      DispatchAllKeeps(cfg, pins, strict, s, init);
      DispatchAllIsLater(cfg, pins, strict, s, init);
      DispatchIsLater(cfg, pins, strict, DispatchAll(cfg, s, init), t);
      LaterComposes(cfg, s, DispatchAll(cfg, s, init), DispatchAll(cfg, s, ids));
    }
  }

  lemma AfterDispatchIsLater(cfg: Config, pins: set<TaskId>, strict: bool, s: RunState, o: Observation)
    requires Accepted(cfg.tasks) && Inv(cfg, pins, strict, s)
    ensures Later(cfg, s, AfterDispatch(cfg, s, o))
  {
    InvSound(cfg, pins, strict, s);
    assert s.st.Keys == cfg.G().Keys;
    hide Accepted, Inv, IsReady, Sound, ReadyTasks, Later, NoDuplicates;
    if o.pausedFirst { LaterReflexive(cfg, s); }
    else {
      ReadyTasksExact(cfg, s.st);
      DispatchAllIsLater(cfg, pins, strict, s, ReadyTasks(cfg, s.st));
    }
  }

  ghost predicate LandsSomething(s: RunState, landings: seq<Landing>) {
    exists i :: 0 <= i < |landings| && landings[i].task in s.inflight
  }

  lemma {:induction false} SettleAllIsLater(cfg: Config, pins: set<TaskId>, s: RunState, landings: seq<Landing>)
    requires Accepted(cfg.tasks) && Inv(cfg, pins, false, s)
    ensures Later(cfg, s, SettleAll(cfg, s, landings))
    ensures LandsSomething(s, landings) ==> Measure(cfg, SettleAll(cfg, s, landings)) < Measure(cfg, s)
    ensures !LandsSomething(s, landings) ==> SettleAll(cfg, s, landings) == s
    decreases |landings|
  {
    hide Accepted, Inv, Settle, Later, Measure;
    if landings == [] {
      LaterReflexive(cfg, s);
    } else {
      var init, last := landings[..|landings| - 1], landings[|landings| - 1];
      assert landings == init + [last];
      SettleAllKeeps(cfg, pins, false, s, init);
      SettleAllIsLater(cfg, pins, s, init);
      var s1 := SettleAll(cfg, s, init);
      assert LandsSomething(s, init) ==> LandsSomething(s, landings) by {
        if LandsSomething(s, init) {
          var i :| 0 <= i < |init| && init[i].task in s.inflight;
          assert landings[i].task in s.inflight;
        }
      }
      if !LandsSomething(s, init) {
        assert LandsSomething(s, landings) <==> last.task in s.inflight by {
          if last.task in s.inflight { assert landings[|landings| - 1].task in s.inflight; }
          if LandsSomething(s, landings) {
            var i :| 0 <= i < |landings| && landings[i].task in s.inflight;
            if i < |init| { assert init[i].task in s.inflight; }
          }
        }
      }
      if last.task in s1.inflight {
        SettleLowersMeasure(cfg, pins, false, s1, last.task, !last.cancelSeen);
        LaterComposes(cfg, s, s1, Settle(cfg, s1, last.task, !last.cancelSeen));
        LaterMeasure(cfg, s, s1);
      }
    }
  }

  lemma LaterMeasure(cfg: Config, s: RunState, s': RunState)
    requires Later(cfg, s, s')
    ensures Measure(cfg, s') <= Measure(cfg, s)
    ensures |s'.calls| + CallsLeft(cfg, s') <= |s.calls| + CallsLeft(cfg, s)
  {
    hide Measure, CallsLeft;
  }

  lemma {:induction false} LoopIsLater(cfg: Config, pins: set<TaskId>, s: RunState, env: seq<Observation>)
    requires Accepted(cfg.tasks) && Inv(cfg, pins, false, s)
    ensures Later(cfg, s, Loop(cfg, s, env).s)
    decreases |env|
  {
    hide Accepted, Inv, SettleAll, AfterDispatch, AllTerminal, Later;
    if env == [] { LaterReflexive(cfg, s); }
    else {
      var o := env[0];
      if o.cancelled { LaterReflexive(cfg, s); }
      else {
        AfterDispatchKeeps(cfg, pins, false, s, o);
        AfterDispatchIsLater(cfg, pins, false, s, o);
        var s1 := AfterDispatch(cfg, s, o);
        if s1.inflight == map[] {
          if o.pausedSecond && !AllTerminal(s1.st) {
            LoopIsLater(cfg, pins, s1, env[1..]);
            LaterComposes(cfg, s, s1, Loop(cfg, s1, env[1..]).s);
          }
        } else {
          var s2 := SettleAll(cfg, s1, o.landings);
          SettleAllKeeps(cfg, pins, false, s1, o.landings);
          SettleAllIsLater(cfg, pins, s1, o.landings);
          LoopIsLater(cfg, pins, s2, env[1..]);
          LaterComposes(cfg, s, s1, s2);
          LaterComposes(cfg, s, s2, Loop(cfg, s2, env[1..]).s);
        }
      }
    }
  }

  lemma {:induction false} DrainIsLater(cfg: Config, pins: set<TaskId>, s: RunState, ids: seq<TaskId>)
    requires Accepted(cfg.tasks) && Inv(cfg, pins, false, s)
    ensures Inv(cfg, pins, false, Drain(cfg, s, ids))
    ensures Later(cfg, s, Drain(cfg, s, ids))
    decreases |ids|
  {
    hide Accepted, Inv, Settle, Later, Measure;
    if ids == [] { LaterReflexive(cfg, s); }
    else {
      var init, t := ids[..|ids| - 1], ids[|ids| - 1];
      DrainIsLater(cfg, pins, s, init);
      var s1 := Drain(cfg, s, init);
      if t in s1.inflight {
        SettleKeeps(cfg, pins, false, s1, t, false);
        SettleLowersMeasure(cfg, pins, false, s1, t, false);
        LaterComposes(cfg, s, s1, Settle(cfg, s1, t, false));
      }
    }
  }

  // -- termination ----------------------------------------------------------------------------------

  /** What a pass does: it leaves the loop, settles something, finds tasks in flight of which none has
      finished, or finds nothing in flight while the run is paused. */
  datatype Pass = Leaves | Lands | Idles | Pauses

  ghost function PassOf(cfg: Config, s: RunState, o: Observation): Pass {
    var s1 := AfterDispatch(cfg, s, o);
    if o.cancelled then Leaves
    else if s1.inflight == map[] then (if o.pausedSecond && !AllTerminal(s1.st) then Pauses else Leaves)
    else if LandsSomething(s1, o.landings) then Lands else Idles
  }

  ghost function AfterPass(cfg: Config, s: RunState, o: Observation): RunState {
    SettleAll(cfg, AfterDispatch(cfg, s, o), o.landings)
  }

  /** How many passes of a kind the loop makes. */
  ghost function Passes(cfg: Config, s: RunState, env: seq<Observation>, kind: Pass): nat
    decreases |env|
  {
    if env == [] then 0
    else
      var k := PassOf(cfg, s, env[0]);
      (if k == kind then 1 else 0)
      + if k == Leaves then 0 else Passes(cfg, AfterPass(cfg, s, env[0]), env[1..], kind)
  }

  /** A pass with nothing in flight settles nothing. */
  lemma {:induction false} NothingLands(cfg: Config, s: RunState, landings: seq<Landing>)
    requires s.inflight == map[]
    ensures SettleAll(cfg, s, landings) == s
    decreases |landings|
  {
    hide Settle;
    if landings != [] { NothingLands(cfg, s, landings[..|landings| - 1]); }
  }

  lemma LoopStep(cfg: Config, s: RunState, env: seq<Observation>)
    requires env != []
    ensures PassOf(cfg, s, env[0]) == Leaves <==> !Loop(cfg, s, env[..1]).Suspended?
    ensures PassOf(cfg, s, env[0]) == Leaves ==> !Loop(cfg, s, env).Suspended?
    ensures PassOf(cfg, s, env[0]) != Leaves ==> Loop(cfg, s, env) == Loop(cfg, AfterPass(cfg, s, env[0]), env[1..])
  {
    hide SettleAll, AfterDispatch, AllTerminal;
    assert env[..1] == [env[0]] && [env[0]][1..] == [];
    var s1 := AfterDispatch(cfg, s, env[0]);
    if s1.inflight == map[] { NothingLands(cfg, s1, env[0].landings); }
  }

  /** A pass that finds neither a pause nor a task in flight leaves the loop. */
  lemma UnpausedPassLeaves(cfg: Config, s: RunState, o: Observation)
    requires !o.pausedSecond
    ensures PassOf(cfg, s, o) != Pauses
    ensures AfterDispatch(cfg, s, o).inflight == map[] ==> PassOf(cfg, s, o) == Leaves
  {
    hide AfterDispatch, AllTerminal;
  }

  /** The passes whose second read finds the run paused. */
  function PausedReads(env: seq<Observation>): nat {
    if env == [] then 0 else (if env[0].pausedSecond then 1 else 0) + PausedReads(env[1..])
  }

  /** The loop waits for no more pauses than it reads. */
  lemma {:induction false} PausesAreRead(cfg: Config, s: RunState, env: seq<Observation>)
    ensures Passes(cfg, s, env, Pauses) <= PausedReads(env)
    decreases |env|
  {
    hide PassOf, AfterPass;
    if env != [] {
      if !env[0].pausedSecond { UnpausedPassLeaves(cfg, s, env[0]); }
      PausesAreRead(cfg, AfterPass(cfg, s, env[0]), env[1..]);
    }
  }

  /** An unpaused pass that finds nothing in flight after dispatching leaves the loop, with every task
      finished. */
  lemma NothingInFlightIsDone(cfg: Config, pins: set<TaskId>, s: RunState, o: Observation, rest: seq<Observation>)
    requires Accepted(cfg.tasks) && Inv(cfg, pins, false, s)
    requires !o.cancelled && !o.pausedFirst && AfterDispatch(cfg, s, o).inflight == map[]
    ensures Loop(cfg, s, [o] + rest) == LeftByBreak(AfterDispatch(cfg, s, o), s, o)
    ensures AllTerminal(AfterDispatch(cfg, s, o).st)
  {
    hide Accepted, Inv, AfterDispatch, Closed, Acyclic, IsReady, Sound, AllTerminal;
    AcceptedGraph(cfg.tasks);
    AfterDispatchKeeps(cfg, pins, false, s, o);
    var s1 := AfterDispatch(cfg, s, o);
    InvSound(cfg, pins, false, s1);
    NothingRunning(cfg, pins, false, s1);
    NothingReadyMeansDone(cfg.G(), s1.st);
    assert ([o] + rest)[0] == o;
  }

  lemma PassIsLater(cfg: Config, pins: set<TaskId>, s: RunState, o: Observation)
    requires Accepted(cfg.tasks) && Inv(cfg, pins, false, s)
    ensures Inv(cfg, pins, false, AfterPass(cfg, s, o))
    ensures Measure(cfg, AfterPass(cfg, s, o)) <= Measure(cfg, s)
    ensures PassOf(cfg, s, o) == Lands ==> Measure(cfg, AfterPass(cfg, s, o)) < Measure(cfg, s)
    ensures Measure(cfg, AfterDispatch(cfg, s, o)) <= Measure(cfg, s)
  {
    hide Accepted, Inv, SettleAll, AfterDispatch, AllTerminal, Later, Measure, LandsSomething;
    AfterDispatchKeeps(cfg, pins, false, s, o);
    AfterDispatchIsLater(cfg, pins, false, s, o);
    var s1 := AfterDispatch(cfg, s, o);
    LaterMeasure(cfg, s, s1);
    SettleAllKeeps(cfg, pins, false, s1, o.landings);
    SettleAllIsLater(cfg, pins, s1, o.landings);
    LaterMeasure(cfg, s1, SettleAll(cfg, s1, o.landings));
  }

  /** Whatever the environment does, the passes that settle something are no more than the work. */
  lemma {:induction false} LandingsAreBounded(cfg: Config, pins: set<TaskId>, s: RunState, env: seq<Observation>)
    requires Accepted(cfg.tasks) && Inv(cfg, pins, false, s)
    ensures Passes(cfg, s, env, Lands) + Measure(cfg, Loop(cfg, s, env).s) <= Measure(cfg, s)
    decreases |env|
  {
    hide Accepted, Inv, AfterPass, AfterDispatch, AllTerminal, Measure, PassOf;
    if env != [] {
      PassIsLater(cfg, pins, s, env[0]);
      if PassOf(cfg, s, env[0]) == Leaves {
        LeftState(cfg, s, env);
      } else {
        LoopStep(cfg, s, env);
        LandingsAreBounded(cfg, pins, AfterPass(cfg, s, env[0]), env[1..]);
      }
    }
  }

  lemma LeftState(cfg: Config, s: RunState, env: seq<Observation>)
    requires env != [] && PassOf(cfg, s, env[0]) == Leaves
    ensures Loop(cfg, s, env).s == s || Loop(cfg, s, env).s == AfterDispatch(cfg, s, env[0])
  {
    hide AfterDispatch, AllTerminal, SettleAll;
  }

  /** A loop that has not been left has spent every pass on settling, idling or pausing. */
  lemma {:induction false} SuspendedPasses(cfg: Config, s: RunState, env: seq<Observation>)
    requires Loop(cfg, s, env).Suspended?
    ensures |env| == Passes(cfg, s, env, Lands) + Passes(cfg, s, env, Idles) + Passes(cfg, s, env, Pauses)
    decreases |env|
  {
    hide AfterPass, PassOf;
    if env != [] {
      LoopStep(cfg, s, env);
      SuspendedPasses(cfg, AfterPass(cfg, s, env[0]), env[1..]);
    }
  }

  /** The loop ends once it has made more passes than it had work, not counting those that waited for
      a handler or for the end of a pause. */
  lemma LoopEnds(cfg: Config, pins: set<TaskId>, s: RunState, env: seq<Observation>)
    requires Accepted(cfg.tasks) && Inv(cfg, pins, false, s)
    requires |env| > Measure(cfg, s) + Passes(cfg, s, env, Idles) + Passes(cfg, s, env, Pauses)
    ensures !Loop(cfg, s, env).Suspended?
  {
    hide Accepted, Inv, Loop, Passes, Measure;
    LandingsAreBounded(cfg, pins, s, env);
    if Loop(cfg, s, env).Suspended? { SuspendedPasses(cfg, s, env); }
  }

  // -- endless environments -------------------------------------------------------------------------

  /** The first passes of an environment that never runs out. */
  function Prefix(env: nat -> Observation, n: nat): seq<Observation> {
    seq(n, i requires 0 <= i < n => env(i))
  }

  ghost function StateAt(cfg: Config, s: RunState, env: nat -> Observation, n: nat): RunState {
    if n == 0 then s else AfterPass(cfg, StateAt(cfg, s, env, n - 1), env(n - 1))
  }

  ghost function PassAt(cfg: Config, s: RunState, env: nat -> Observation, n: nat): Pass {
    PassOf(cfg, StateAt(cfg, s, env, n), env(n))
  }

  /** The loop is never left. */
  ghost predicate NeverEnds(cfg: Config, s: RunState, env: nat -> Observation) {
    forall n: nat :: Loop(cfg, s, Prefix(env, n)).Suspended?
  }

  /** From pass `n` on the loop does nothing but wait. */
  ghost predicate WaitsFrom(cfg: Config, s: RunState, env: nat -> Observation, n: nat) {
    forall m: nat :: m >= n ==> PassAt(cfg, s, env, m) == Idles || PassAt(cfg, s, env, m) == Pauses
  }

  lemma {:induction false} LoopReaches(cfg: Config, s: RunState, env: nat -> Observation, n: nat, k: nat)
    requires k <= n && forall i: nat :: i < k ==> PassAt(cfg, s, env, i) != Leaves
    ensures Loop(cfg, s, Prefix(env, n)) == Loop(cfg, StateAt(cfg, s, env, k), Prefix(env, n)[k..])
    decreases k
  {
    hide Loop, AfterPass, PassOf;
    if k == 0 {
      assert Prefix(env, n)[0..] == Prefix(env, n);
    } else {
      LoopReaches(cfg, s, env, n, k - 1);
      var rest := Prefix(env, n)[k - 1..];
      assert rest[0] == env(k - 1) && rest[1..] == Prefix(env, n)[k..];
      assert PassAt(cfg, s, env, k - 1) != Leaves;
      LoopStep(cfg, StateAt(cfg, s, env, k - 1), rest);
    }
  }

  lemma {:induction false} NeverLeaves(cfg: Config, s: RunState, env: nat -> Observation, m: nat)
    requires NeverEnds(cfg, s, env)
    ensures PassAt(cfg, s, env, m) != Leaves
    decreases m
  {
    hide Loop, StateAt, PassOf;
    forall i: nat | i < m ensures PassAt(cfg, s, env, i) != Leaves { NeverLeaves(cfg, s, env, i); }
    LoopReaches(cfg, s, env, m + 1, m);
    var rest := Prefix(env, m + 1)[m..];
    assert rest == [env(m)];
    LoopStep(cfg, StateAt(cfg, s, env, m), rest);
    assert Loop(cfg, s, Prefix(env, m + 1)).Suspended?;
  }

  lemma {:induction false} StateInv(cfg: Config, pins: set<TaskId>, s: RunState, env: nat -> Observation, n: nat,
                                    m: nat)
    requires Accepted(cfg.tasks) && Inv(cfg, pins, false, s) && n <= m
    ensures Inv(cfg, pins, false, StateAt(cfg, s, env, m))
    ensures Measure(cfg, StateAt(cfg, s, env, m)) <= Measure(cfg, StateAt(cfg, s, env, n))
    decreases m
  {
    hide Accepted, Inv, AfterPass, Measure, PassOf;
    if m > 0 {
      StateInv(cfg, pins, s, env, if n < m then n else m - 1, m - 1);
      PassIsLater(cfg, pins, StateAt(cfg, s, env, m - 1), env(m - 1));
    }
  }

  lemma {:induction false} WaitsEventually(cfg: Config, pins: set<TaskId>, s: RunState, env: nat -> Observation, n: nat)
    returns (k: nat)
    requires Accepted(cfg.tasks) && Inv(cfg, pins, false, s) && NeverEnds(cfg, s, env)
    ensures WaitsFrom(cfg, s, env, k)
    decreases Measure(cfg, StateAt(cfg, s, env, n))
  {
    hide Accepted, Inv, Measure, PassOf, NeverEnds, AfterPass;
    k := n;
    if m: nat :| m >= n && PassAt(cfg, s, env, m) == Lands {
      StateInv(cfg, pins, s, env, n, m);
      PassIsLater(cfg, pins, StateAt(cfg, s, env, m), env(m));
      k := WaitsEventually(cfg, pins, s, env, m + 1);
    } else {
      forall m: nat | m >= n ensures PassAt(cfg, s, env, m) == Idles || PassAt(cfg, s, env, m) == Pauses {
        NeverLeaves(cfg, s, env, m);
      }
    }
  }

  /** A loop can go on for ever only by waiting for ever: from some pass on nothing finishes and the
      run is not found unpaused with nothing in flight. */
  lemma OnlyWaitingIsForever(cfg: Config, pins: set<TaskId>, s: RunState, env: nat -> Observation)
    requires Accepted(cfg.tasks) && Inv(cfg, pins, false, s)
    ensures NeverEnds(cfg, s, env) ==> exists n: nat :: WaitsFrom(cfg, s, env, n)
  {
    hide Accepted, Inv, NeverEnds, WaitsFrom;
    if NeverEnds(cfg, s, env) {
      var k := WaitsEventually(cfg, pins, s, env, 0);
    }
  }

  lemma BeginWork(cfg: Config, restored: Option<Checkpoint>)
    ensures Measure(cfg, Begin(cfg, restored)) <= |cfg.tasks| * (cfg.Limit() + 1)
    ensures CallsLeft(cfg, Begin(cfg, restored)) <= |cfg.tasks| * cfg.Limit()
  {
    var s := Begin(cfg, restored);
    SumBound(Ids(cfg.tasks), map t | t in s.st :: Weight(cfg, s, t), cfg.Limit() + 1);
    SumBound(Ids(cfg.tasks), map t | t in s.st :: Remaining(cfg, s, t), cfg.Limit());
  }
}
