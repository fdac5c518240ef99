/** The invariant through whole passes of the loop, and what each way of leaving it implies. */
module RunLoop {
  import opened Schemas
  import opened Dag
  import opened Semantics
  import opened SchedulerSpec
  import opened Kahn
  import opened Scheduling
  import opened Execution
  import opened RunInvariant

  // -- dispatching a whole ready list ------------------------------------------------

  /** No ready task depends on another unfinished one, ready or not. */
  lemma ReadyIsIndependent(g: Graph, st: Statuses, t: TaskId, u: TaskId)
    requires Sound(g, st) && IsReady(g, st, u) && t in st && st[t] != COMPLETED
    ensures !DependsOn(g, u, t)
  {
    if DependsOn(g, u, t) {
      var d := DependsLastEdge(g, t, u);
      assert st[d] == COMPLETED;
      var p :| IsPath(g, p) && p[0] == t && p[|p| - 1] == d;
      BeyondUncompleted(g, st, p);
    }
  }

  /** Dispatching `t` moves `t` on and blocks at most pending dependents of it. */
  ghost predicate DispatchedAt(g: Graph, st: Statuses, t: TaskId, st': Statuses) {
    && st'.Keys == st.Keys && t in st && (st'[t] == RUNNING || st'[t] == FAILED)
    && forall u :: u in st && u != t ==>
         st'[u] == st[u] || (st[u] == PENDING && st'[u] == BLOCKED && DependsOn(g, u, t))
  }

  lemma FailTaskDispatchedAt(g: Graph, st: Statuses, t: TaskId)
    requires Closed(g) && Acyclic(g) && Sound(g, st) && IsReady(g, st, t)
    ensures DispatchedAt(g, st, t, FailTask(g, st[t := RUNNING], t))
  {
    StartSound(g, st, t);
    FailBlocksExactlyDependents(g, st[t := RUNNING], t);
  }

  lemma DispatchCases(cfg: Config, s: RunState, t: TaskId)
    ensures Dispatch(cfg, s, t).st == s.st[t := RUNNING]
            || Dispatch(cfg, s, t).st == FailTask(cfg.G(), s.st[t := RUNNING], t)
  {
    hide FailTask, PlanGraph, CompletedOutputs;
  }

  lemma DispatchEffect(cfg: Config, s: RunState, t: TaskId)
    requires Accepted(cfg.tasks) && Sound(cfg.G(), s.st) && IsReady(cfg.G(), s.st, t)
    ensures DispatchedAt(cfg.G(), s.st, t, Dispatch(cfg, s, t).st)
  {
    hide Accepted, Sound, Closed, Acyclic, FailTask, PlanGraph, Dispatch, AllDepsCompleted;
    AcceptedGraph(cfg.tasks);
    DispatchCases(cfg, s, t);
    FailTaskDispatchedAt(cfg.G(), s.st, t);
  }

  lemma ReadyAfterDispatch(g: Graph, st: Statuses, t: TaskId, st': Statuses, u: TaskId)
    requires Sound(g, st) && IsReady(g, st, t) && DispatchedAt(g, st, t, st')
    ensures IsReady(g, st', u) <==> u != t && IsReady(g, st, u)
  {
    if IsReady(g, st', u) && u != t {
      forall d | d in g[u] ensures d in st && st[d] == COMPLETED { assert st'[d] == COMPLETED; }
    }
    if IsReady(g, st, u) && u != t {
      ReadyIsIndependent(g, st, t, u);
      forall d | d in g[u] ensures d in st' && st'[d] == COMPLETED { assert st[d] == COMPLETED; }
    }
  }

  lemma {:induction false} DispatchAllKeeps(cfg: Config, pins: set<TaskId>, strict: bool, s: RunState, ids: seq<TaskId>)
    requires Accepted(cfg.tasks) && Inv(cfg, pins, strict, s)
    requires NoDuplicates(ids) && forall t :: t in ids ==> IsReady(cfg.G(), s.st, t)
    ensures Inv(cfg, pins, strict, DispatchAll(cfg, s, ids))
    ensures forall u :: IsReady(cfg.G(), DispatchAll(cfg, s, ids).st, u) <==> u !in ids && IsReady(cfg.G(), s.st, u)
    decreases |ids|
  {
    hide Accepted, Inv, IsReady, Dispatch, DispatchedAt;
    if ids != [] {
      var init, t := ids[..|ids| - 1], ids[|ids| - 1];
      assert ids == init + [t];
      DispatchAllKeeps(cfg, pins, strict, s, init);
      var s1 := DispatchAll(cfg, s, init);
      assert t !in init by { forall i | 0 <= i < |init| ensures init[i] != t { assert ids[i] != ids[|ids| - 1]; } }
      DispatchKeeps(cfg, pins, strict, s1, t);
      InvSound(cfg, pins, strict, s1);
      DispatchEffect(cfg, s1, t);
      forall u ensures IsReady(cfg.G(), Dispatch(cfg, s1, t).st, u) <==> u !in ids && IsReady(cfg.G(), s.st, u) {
        ReadyAfterDispatch(cfg.G(), s1.st, t, Dispatch(cfg, s1, t).st, u);
      }
    }
  }

  lemma InvSound(cfg: Config, pins: set<TaskId>, strict: bool, s: RunState)
    requires Inv(cfg, pins, strict, s)
    ensures Sound(cfg.G(), s.st)
  {
    hide Sound;
  }

  lemma {:induction false} PositionsIndex(keys: seq<TaskId>)
    requires NoDuplicates(keys)
    ensures forall t :: t in Positions(keys) <==> t in keys
    ensures forall i :: 0 <= i < |keys| ==> keys[i] in Positions(keys) && Positions(keys)[keys[i]] == i
    decreases |keys|
  {
    if keys != [] {
      var init, last := keys[..|keys| - 1], keys[|keys| - 1];
      assert keys == init + [last];
      PositionsIndex(init);
      forall i | 0 <= i < |keys| ensures keys[i] in Positions(keys) && Positions(keys)[keys[i]] == i {
        if i < |init| { assert init[i] == keys[i] && keys[i] != keys[|keys| - 1]; }
      }
    }
  }

  lemma PlanIndexed(tasks: seq<Task>)
    requires Accepted(tasks)
    ensures Indexed(TaskMap(tasks), Ids(tasks), Positions(Ids(tasks)))
  {
    hide TaskMap, Ids, Positions, Acyclic, DepsKnown, NoDuplicates, PlanGraph, GraphOf;
    TaskMapKeys(tasks);
    PositionsIndex(Ids(tasks));
    assert Positions(Ids(tasks)).Keys == TaskMap(tasks).Keys;
  }

  /** The dispatch order lists exactly the ready tasks. */
  lemma ReadyTasksExact(cfg: Config, st: Statuses)
    requires Accepted(cfg.tasks) && st.Keys == cfg.G().Keys
    ensures NoDuplicates(ReadyTasks(cfg, st))
    ensures forall t :: t in ReadyTasks(cfg, st) <==> IsReady(cfg.G(), st, t)
  {
    PlanIndexed(cfg.tasks);
    hide Accepted, Indexed, IsReady, NoDuplicates;
    ReadyListIsExact(TaskMap(cfg.tasks), Ids(cfg.tasks), Positions(Ids(cfg.tasks)), st);
  }

  lemma AfterDispatchKeeps(cfg: Config, pins: set<TaskId>, strict: bool, s: RunState, o: Observation)
    requires Accepted(cfg.tasks) && Inv(cfg, pins, strict, s)
    ensures Inv(cfg, pins, strict, AfterDispatch(cfg, s, o))
    ensures !o.pausedFirst ==> forall u :: !IsReady(cfg.G(), AfterDispatch(cfg, s, o).st, u)
  {
    InvSound(cfg, pins, strict, s);
    assert s.st.Keys == cfg.G().Keys;
    hide Accepted, Inv, IsReady, Sound, ReadyTasks;
    if !o.pausedFirst {
      ReadyTasksExact(cfg, s.st);
      hide NoDuplicates;
      DispatchAllKeeps(cfg, pins, strict, s, ReadyTasks(cfg, s.st));
    }
  }

  // -- settling and draining -------------------------------------------------------------

  predicate NoneSeen(landings: seq<Landing>) {
    forall i :: 0 <= i < |landings| ==> !landings[i].cancelSeen
  }

  lemma {:induction false} SettleAllKeeps(cfg: Config, pins: set<TaskId>, strict: bool, s: RunState,
                                          landings: seq<Landing>)
    requires Accepted(cfg.tasks) && Inv(cfg, pins, strict, s) && (strict ==> NoneSeen(landings))
    ensures Inv(cfg, pins, strict, SettleAll(cfg, s, landings))
    decreases |landings|
  {
    hide Accepted, Inv, Settle;
    if landings != [] {
      SettleAllKeeps(cfg, pins, strict, s, landings[..|landings| - 1]);
      var s1 := SettleAll(cfg, s, landings[..|landings| - 1]);
      var last := landings[|landings| - 1];
      if last.task in s1.inflight { SettleKeeps(cfg, pins, strict, s1, last.task, !last.cancelSeen); }
    }
  }

  lemma WeakenInv(cfg: Config, pins: set<TaskId>, strict: bool, s: RunState)
    requires Inv(cfg, pins, strict, s)
    ensures Inv(cfg, pins, false, s)
  {
    hide Sound, Flights, ResultsAgree, Traced, CallsAllowed, Checkpointed;
  }

  // -- the loop ------------------------------------------------------------------------------

  /** No settlement of these passes sees the cancel flag. */
  predicate Unseen(env: seq<Observation>) {
    forall i :: 0 <= i < |env| ==> NoneSeen(env[i].landings)
  }

  /** What holds when the loop has been left. */
  ghost predicate ExitFacts(cfg: Config, pins: set<TaskId>, strict: bool, end: LoopEnd) {
    && Inv(cfg, pins, strict, end.s)
    && (end.LeftByBreak? ==>
          && Inv(cfg, pins, strict, end.before)
          && end.s == AfterDispatch(cfg, end.before, end.last)
          && end.s.inflight == map[]
          && (!end.last.pausedSecond || AllTerminal(end.s.st)))
  }

  lemma {:induction false} LoopKeeps(cfg: Config, pins: set<TaskId>, strict: bool, s: RunState, env: seq<Observation>)
    requires Accepted(cfg.tasks) && Inv(cfg, pins, strict, s) && (strict ==> Unseen(env))
    ensures ExitFacts(cfg, pins, strict, Loop(cfg, s, env))
    decreases |env|
  {
    hide Accepted, Inv, SettleAll, AfterDispatch, AllTerminal;
    if env != [] {
      var o := env[0];
      if !o.cancelled {
        AfterDispatchKeeps(cfg, pins, strict, s, o);
        var s1 := AfterDispatch(cfg, s, o);
        if s1.inflight == map[] {
          if o.pausedSecond && !AllTerminal(s1.st) { LoopKeeps(cfg, pins, strict, s1, env[1..]); }
        } else {
          SettleAllKeeps(cfg, pins, strict, s1, o.landings);
          LoopKeeps(cfg, pins, strict, SettleAll(cfg, s1, o.landings), env[1..]);
        }
      }
    }
  }

  predicate HasPending(st: Statuses) {
    exists t :: t in st && st[t] == PENDING
  }

  /** The pause flag is read twice in a pass. The loop strands pending tasks exactly when the
      run is unpaused between the two reads of a pass that finds nothing in flight. */
  predicate Raced(end: LoopEnd) {
    end.LeftByBreak? && end.last.pausedFirst && !end.last.pausedSecond && HasPending(end.before.st)
  }

  lemma NothingRunning(cfg: Config, pins: set<TaskId>, strict: bool, s: RunState)
    requires Inv(cfg, pins, strict, s) && s.inflight == map[]
    ensures forall t :: t in s.st ==> s.st[t] == PENDING || s.st[t].Terminal()
  {
    hide ResultsAgree, Verdicts, Traced, CallsAllowed, Checkpointed;
  }

  lemma BreakMeansDone(cfg: Config, pins: set<TaskId>, strict: bool, end: LoopEnd)
    requires Accepted(cfg.tasks) && ExitFacts(cfg, pins, strict, end) && end.LeftByBreak?
    ensures AllTerminal(end.s.st) <==> !Raced(end)
  {
    AcceptedGraph(cfg.tasks);
    hide Accepted, Inv, Sound, Closed, Acyclic, IsReady;
    NothingRunning(cfg, pins, strict, end.s);
    AfterDispatchKeeps(cfg, pins, strict, end.before, end.last);
    InvSound(cfg, pins, strict, end.s);
    if !end.last.pausedFirst {
      NothingReadyMeansDone(cfg.G(), end.s.st);
    } else {
      assert end.s == end.before;
    }
  }
}
