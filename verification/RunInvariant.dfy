/** What holds in every state of every run, and its proof for each step. */
module RunInvariant {
  import opened Schemas
  import opened Dag
  import opened Semantics
  import opened SchedulerSpec
  import opened Scheduling
  import opened Execution

  /** Every attempt before `a` raised. */
  ghost predicate Raised(cfg: Config, t: TaskId, a: nat) {
    forall b: nat :: 1 <= b < a ==> cfg.invoke(t, b).Raised?
  }

  /** Attempt `a` of `t` may be with the pool. */
  ghost predicate MayFly(cfg: Config, t: TaskId, a: nat) {
    1 <= a <= cfg.Limit() && cfg.guard(t) && cfg.resolves(t) && Raised(cfg, t, a)
  }

  /** The tasks handed to the pool and not yet settled are the running ones, except for those
      the dispatcher has in hand; whatever attempt a task is in, all its earlier ones raised. */
  ghost predicate Flights(cfg: Config, inflight: map<TaskId, nat>, st: Statuses, hand: set<TaskId>) {
    && (forall t :: t in hand ==> t in st && st[t] == RUNNING && t !in inflight)
    && (forall t :: t in inflight ==> t in st && st[t] == RUNNING && MayFly(cfg, t, inflight[t]))
    && (forall t :: t in st && st[t] == RUNNING ==> t in inflight || t in hand)
  }

  /** Exactly the completed and failed tasks have a result, with that status. */
  ghost predicate ResultsAgree(results: map<TaskId, TaskResult>, st: Statuses) {
    && (forall t :: t in results ==> t in st && results[t].status == st[t] && (st[t] == COMPLETED || st[t] == FAILED))
    && (forall t :: t in st && (st[t] == COMPLETED || st[t] == FAILED) ==> t in results)
  }

  /** Completed tasks are restored ones or succeed by themselves; failed ones do not, unless a
      cancel took their remaining attempts away. */
  ghost predicate Verdicts(cfg: Config, pins: set<TaskId>, strict: bool, st: Statuses) {
    && (forall t :: t in pins ==> t in st && st[t] == COMPLETED)
    && (forall t :: t in st && st[t] == COMPLETED && t !in pins ==> cfg.Succeeds(t))
    && (strict ==> forall t :: t in st && st[t] == FAILED ==> !cfg.Succeeds(t))
  }

  ghost function Count(trace: seq<Event>, e: Event): nat {
    multiset(trace)[e]
  }

  function OneIf(b: bool): nat { if b then 1 else 0 }

  predicate Begun(status: TaskStatus) { status == RUNNING || status == COMPLETED || status == FAILED }

  ghost predicate TracedAt(trace: seq<Event>, t: TaskId, status: TaskStatus, pinned: bool) {
    && Count(trace, EvTaskStarted(t)) == OneIf(!pinned && Begun(status))
    && Count(trace, EvTaskCompleted(t)) == OneIf(!pinned && status == COMPLETED)
    && Count(trace, EvTaskFailed(t)) == OneIf(!pinned && status == FAILED)
  }

  /** The trace records one start and one settlement per task that got that far in this run. */
  ghost predicate Traced(trace: seq<Event>, st: Statuses, pins: set<TaskId>) {
    && (forall t :: t in st ==> TracedAt(trace, t, st[t], t in pins))
    && (forall i :: 0 <= i < |trace| ==> PlanEvent(trace[i], st.Keys))
  }

  predicate TaskEvent(e: Event) { e.EvTaskStarted? || e.EvTaskCompleted? || e.EvTaskFailed? }

  /** Starts and settlements concern the plan's tasks only. */
  predicate PlanEvent(e: Event, ids: set<TaskId>) { TaskEvent(e) ==> e.task in ids }

  ghost predicate CallAllowed(cfg: Config, call: Call, st: Statuses, pins: set<TaskId>) {
    && call.task in st && call.task !in pins && Begun(st[call.task])
    && 1 <= call.attempt <= cfg.Limit() && cfg.guard(call.task) && cfg.resolves(call.task)
  }

  /** Handlers are invoked only for this run's own, permitted tasks. */
  ghost predicate CallsAllowed(cfg: Config, calls: seq<Call>, st: Statuses, pins: set<TaskId>) {
    forall i :: 0 <= i < |calls| ==> CallAllowed(cfg, calls[i], st, pins)
  }

  /** A checkpoint taken in this run holds exactly the completed results; before the first one,
      only restored tasks are completed. */
  ghost predicate Checkpointed(cfg: Config, saved: Option<Checkpoint>, results: map<TaskId, TaskResult>, st: Statuses,
                               pins: set<TaskId>)
  {
    && (saved.Some? ==> cfg.checkpoints && saved.value == CompletedOutputs(results))
    && (saved.None? && cfg.checkpoints ==> forall t :: t in st && st[t] == COMPLETED ==> t in pins)
  }

  /** Everything but the checkpoint. */
  ghost predicate InvBare(cfg: Config, pins: set<TaskId>, strict: bool, s: RunState, hand: set<TaskId>) {
    && Sound(cfg.G(), s.st)
    && Flights(cfg, s.inflight, s.st, hand)
    && ResultsAgree(s.results, s.st)
    && Verdicts(cfg, pins, strict, s.st)
    && Traced(s.trace, s.st, pins)
    && CallsAllowed(cfg, s.calls, s.st, pins)
  }

  ghost predicate InvWith(cfg: Config, pins: set<TaskId>, strict: bool, s: RunState, hand: set<TaskId>) {
    InvBare(cfg, pins, strict, s, hand) && Checkpointed(cfg, s.saved, s.results, s.st, pins)
  }

  /** The invariant between steps. `strict` holds as long as no settlement saw a cancel. */
  ghost predicate Inv(cfg: Config, pins: set<TaskId>, strict: bool, s: RunState) {
    InvWith(cfg, pins, strict, s, {})
  }

  // -- traces ---------------------------------------------------------------------------

  lemma CountAppend(trace: seq<Event>, e: Event, x: Event)
    ensures Count(trace + [e], x) == Count(trace, x) + OneIf(e == x)
  {
    assert multiset(trace + [e]) == multiset(trace) + multiset{e};
  }

  lemma PlanEventsAppend(trace: seq<Event>, e: Event, ids: set<TaskId>)
    requires forall i :: 0 <= i < |trace| ==> PlanEvent(trace[i], ids)
    requires PlanEvent(e, ids)
    ensures forall i :: 0 <= i < |trace + [e]| ==> PlanEvent((trace + [e])[i], ids)
  {}

  lemma OtherEventsDoNotCount(trace: seq<Event>, e: Event, st: Statuses, pins: set<TaskId>)
    requires Traced(trace, st, pins) && !TaskEvent(e)
    ensures Traced(trace + [e], st, pins)
  {
    forall t | t in st ensures TracedAt(trace + [e], t, st[t], t in pins) {
      assert TracedAt(trace, t, st[t], t in pins);
      CountAppend(trace, e, EvTaskStarted(t));
      CountAppend(trace, e, EvTaskCompleted(t));
      CountAppend(trace, e, EvTaskFailed(t));
    }
    PlanEventsAppend(trace, e, st.Keys);
  }

  /** Besides `t`, only tasks that have not begun change, and they do not begin. */
  ghost predicate OthersStay(st: Statuses, t: TaskId, st': Statuses) {
    && st'.Keys == st.Keys && t in st
    && forall u :: u in st && u != t ==> st'[u] == st[u] || (!Begun(st[u]) && !Begun(st'[u]))
  }

  /** One task event for `t`, with the matching change of its status. */
  lemma EventMatchesStep(trace: seq<Event>, e: Event, t: TaskId, st: Statuses, st': Statuses, pins: set<TaskId>)
    requires Traced(trace, st, pins) && OthersStay(st, t, st') && t !in pins
    requires || (e == EvTaskStarted(t) && !Begun(st[t]) && st'[t] == RUNNING)
             || (e == EvTaskCompleted(t) && st[t] == RUNNING && st'[t] == COMPLETED)
             || (e == EvTaskFailed(t) && st[t] == RUNNING && st'[t] == FAILED)
    ensures Traced(trace + [e], st', pins)
  {
    forall u | u in st' ensures TracedAt(trace + [e], u, st'[u], u in pins) {
      assert TracedAt(trace, u, st[u], u in pins);
      CountAppend(trace, e, EvTaskStarted(u));
      CountAppend(trace, e, EvTaskCompleted(u));
      CountAppend(trace, e, EvTaskFailed(u));
    }
    PlanEventsAppend(trace, e, st.Keys);
  }

  // -- the beginning ----------------------------------------------------------------------

  lemma BeginTraced(cfg: Config, restored: Option<Checkpoint>)
    ensures Traced(Begin(cfg, restored).trace, Begin(cfg, restored).st, Pins(cfg.tasks, restored))
  {
    hide Traced, PlanGraph, Pins;
    var s, pins := Begin(cfg, restored), Pins(cfg.tasks, restored);
    NothingTraced(s.st, pins);
    if restored.Some? { OtherEventsDoNotCount([], EvRunResumed(pins), s.st, pins); }
    var first := if restored.Some? then [] + [EvRunResumed(pins)] else [];
    OtherEventsDoNotCount(first, EvRunStarted, s.st, pins);
    assert first + [EvRunStarted] == s.trace;
  }

  lemma NothingTraced(st: Statuses, pins: set<TaskId>)
    requires forall t :: t in st ==> st[t] == if t in pins then COMPLETED else PENDING
    ensures Traced([], st, pins)
  {
    forall t | t in st ensures TracedAt([], t, st[t], t in pins) {}
  }

  lemma FreshSound(g: Graph, pins: set<TaskId>, st: Statuses)
    requires Closed(g) && DependencyClosed(g, pins) && st.Keys == g.Keys
    requires forall t :: t in st ==> st[t] == if t in pins then COMPLETED else PENDING
    ensures Sound(g, st)
  {
    forall t, d | t in g && d in g[t] ensures d in st && EdgeOk(st[d], st[t]) {}
  }

  lemma FreshParts(cfg: Config, pins: set<TaskId>, st: Statuses, results: map<TaskId, TaskResult>)
    requires pins <= st.Keys && results.Keys == pins
    requires forall t :: t in st ==> st[t] == if t in pins then COMPLETED else PENDING
    requires forall t :: t in results ==> results[t].status == COMPLETED
    ensures Flights(cfg, map[], st, {}) && ResultsAgree(results, st) && Verdicts(cfg, pins, true, st)
    ensures CallsAllowed(cfg, [], st, pins) && Checkpointed(cfg, None, results, st, pins)
  {}

  lemma BeginInv(cfg: Config, restored: Option<Checkpoint>)
    requires Accepted(cfg.tasks) && DependencyClosed(cfg.G(), Pins(cfg.tasks, restored))
    ensures Inv(cfg, Pins(cfg.tasks, restored), true, Begin(cfg, restored))
  {
    AcceptedGraph(cfg.tasks);
    hide Traced, Accepted, Closed, Acyclic, Sound, PlanGraph, DependencyClosed, GraphOf;
    var g := cfg.G();
    var pins, s := Pins(cfg.tasks, restored), Begin(cfg, restored);
    assert pins <= g.Keys;
    FreshSound(g, pins, s.st);
    BeginTraced(cfg, restored);
    FreshParts(cfg, pins, s.st, s.results);
    hide Flights, ResultsAgree, Verdicts, CallsAllowed, Checkpointed;
  }

  // -- checkpoints ------------------------------------------------------------------------

  lemma SaveKeeps(cfg: Config, pins: set<TaskId>, strict: bool, s: RunState, hand: set<TaskId>)
    requires InvBare(cfg, pins, strict, s, hand)
    requires !cfg.checkpoints ==> Checkpointed(cfg, s.saved, s.results, s.st, pins)
    ensures InvWith(cfg, pins, strict, Save(cfg, s), hand)
  {
    hide Sound, Flights, ResultsAgree, Verdicts, Traced, CallsAllowed;
    if cfg.checkpoints {
      OtherEventsDoNotCount(s.trace, EvCheckpointed(|CompletedOutputs(s.results)|), s.st, pins);
    }
  }

  // -- failing a task in hand ---------------------------------------------------------------

  /** `t` went from running to failed; besides it only unstarted tasks changed, to blocked. */
  ghost predicate FailedAt(st: Statuses, t: TaskId, st': Statuses) {
    && st'.Keys == st.Keys && t in st && st[t] == RUNNING && st'[t] == FAILED
    && forall u :: u in st && u != t ==> st'[u] == st[u] || (st[u] == PENDING && st'[u] == BLOCKED)
  }

  lemma FailTaskFailedAt(g: Graph, st: Statuses, t: TaskId)
    requires Closed(g) && Acyclic(g) && Sound(g, st) && t in g && st[t] == RUNNING
    ensures FailedAt(st, t, FailTask(g, st, t)) && Sound(g, FailTask(g, st, t)) && OthersStay(st, t, FailTask(g, st, t))
  {
    FailSound(g, st, t);
    FailBlocksExactlyDependents(g, st, t);
  }

  lemma FlightsAfterFail(cfg: Config, inflight: map<TaskId, nat>, st: Statuses, t: TaskId, st': Statuses)
    requires Flights(cfg, inflight, st, {t}) && FailedAt(st, t, st')
    ensures Flights(cfg, inflight, st', {})
  {}

  lemma ResultsAfterFail(results: map<TaskId, TaskResult>, st: Statuses, t: TaskId, st': Statuses, r: TaskResult)
    requires ResultsAgree(results, st) && FailedAt(st, t, st') && r.status == FAILED
    ensures ResultsAgree(results[t := r], st')
  {}

  lemma VerdictsAfterFail(cfg: Config, pins: set<TaskId>, strict: bool, st: Statuses, t: TaskId, st': Statuses)
    requires Verdicts(cfg, pins, strict, st) && FailedAt(st, t, st') && (strict ==> !cfg.Succeeds(t))
    ensures Verdicts(cfg, pins, strict, st')
  {}

  lemma CallsAfterFail(cfg: Config, calls: seq<Call>, st: Statuses, pins: set<TaskId>, t: TaskId, st': Statuses)
    requires CallsAllowed(cfg, calls, st, pins) && FailedAt(st, t, st')
    ensures CallsAllowed(cfg, calls, st', pins)
  {
    forall i | 0 <= i < |calls| ensures CallAllowed(cfg, calls[i], st', pins) {
      assert CallAllowed(cfg, calls[i], st, pins);
    }
  }

  lemma NothingSavedAfterFail(cfg: Config, saved: Option<Checkpoint>, results: map<TaskId, TaskResult>, st: Statuses,
                              pins: set<TaskId>, t: TaskId, st': Statuses, r: TaskResult)
    requires Checkpointed(cfg, saved, results, st, pins) && FailedAt(st, t, st') && !cfg.checkpoints
    ensures Checkpointed(cfg, saved, results[t := r], st', pins)
  {}

  /** The state just before the checkpoint that ends a failure. */
  ghost function Failed(cfg: Config, s: RunState, t: TaskId, error: TaskError, attempts: nat,
                        before: seq<Event>): RunState
  {
    s.(st := FailTask(cfg.G(), s.st, t),
       results := s.results[t := TaskResult(FAILED, NoValue, Some(error), attempts)],
       trace := s.trace + before + [EvTaskFailed(t)])
  }

  lemma FailedTraced(cfg: Config, pins: set<TaskId>, trace: seq<Event>, st: Statuses, t: TaskId, st': Statuses,
                     before: seq<Event>)
    requires Traced(trace, st, pins) && OthersStay(st, t, st') && t !in pins && st[t] == RUNNING && st'[t] == FAILED
    requires before == [] || before == [EvSecurityBlocked(t)]
    ensures Traced(trace + before + [EvTaskFailed(t)], st', pins)
  {
    hide Traced, OthersStay;
    if before == [] { assert trace + before == trace; }
    else { OtherEventsDoNotCount(trace, EvSecurityBlocked(t), st, pins); }
    EventMatchesStep(trace + before, EvTaskFailed(t), t, st, st', pins);
  }

  lemma FailedBare(cfg: Config, pins: set<TaskId>, strict: bool, s: RunState, t: TaskId,
                   error: TaskError, attempts: nat, before: seq<Event>)
    requires Accepted(cfg.tasks) && InvBare(cfg, pins, strict, s, {t})
    requires t in cfg.G() && t in s.st && s.st[t] == RUNNING && t !in pins
    requires strict ==> !cfg.Succeeds(t)
    requires before == [] || before == [EvSecurityBlocked(t)]
    ensures InvBare(cfg, pins, strict, Failed(cfg, s, t, error, attempts, before), {})
    ensures FailedAt(s.st, t, FailTask(cfg.G(), s.st, t))
  {
    hide Sound, Flights, ResultsAgree, Verdicts, Traced, CallsAllowed, OthersStay, FailTask;
    AcceptedGraph(cfg.tasks);
    hide Accepted, Closed, Acyclic;
    var st' := FailTask(cfg.G(), s.st, t);
    FailTaskFailedAt(cfg.G(), s.st, t);
    FailedTraced(cfg, pins, s.trace, s.st, t, st', before);
    hide FailedAt;
    FlightsAfterFail(cfg, s.inflight, s.st, t, st');
    ResultsAfterFail(s.results, s.st, t, st', TaskResult(FAILED, NoValue, Some(error), attempts));
    VerdictsAfterFail(cfg, pins, strict, s.st, t, st');
    CallsAfterFail(cfg, s.calls, s.st, pins, t, st');
  }

  lemma FailRunKeeps(cfg: Config, pins: set<TaskId>, strict: bool, s: RunState, t: TaskId,
                     error: TaskError, attempts: nat, before: seq<Event>)
    requires Accepted(cfg.tasks) && InvWith(cfg, pins, strict, s, {t})
    requires t in cfg.G() && t in s.st && s.st[t] == RUNNING && t !in pins
    requires strict ==> !cfg.Succeeds(t)
    requires before == [] || before == [EvSecurityBlocked(t)]
    ensures Inv(cfg, pins, strict, FailRun(cfg, s, t, error, attempts, before))
  {
    hide InvBare, Accepted, FailTask, FailedAt, Checkpointed, Save;
    FailedBare(cfg, pins, strict, s, t, error, attempts, before);
    if !cfg.checkpoints {
      NothingSavedAfterFail(cfg, s.saved, s.results, s.st, pins, t, FailTask(cfg.G(), s.st, t),
                            TaskResult(FAILED, NoValue, Some(error), attempts));
    }
    SaveKeeps(cfg, pins, strict, Failed(cfg, s, t, error, attempts, before), {});
  }

  // -- completing a task in hand ---------------------------------------------------------------

  lemma CompletedParts(cfg: Config, pins: set<TaskId>, strict: bool, s: RunState, t: TaskId, r: TaskResult)
    requires InvWith(cfg, pins, strict, s, {t}) && cfg.Succeeds(t) && r.status == COMPLETED
    ensures Flights(cfg, s.inflight, s.st[t := COMPLETED], {})
    ensures ResultsAgree(s.results[t := r], s.st[t := COMPLETED])
    ensures Verdicts(cfg, pins, strict, s.st[t := COMPLETED])
  {
    hide Sound, Traced, CallsAllowed, Checkpointed;
  }

  lemma CompletedCalls(cfg: Config, calls: seq<Call>, st: Statuses, pins: set<TaskId>, t: TaskId)
    requires CallsAllowed(cfg, calls, st, pins) && t in st && Begun(st[t])
    ensures CallsAllowed(cfg, calls, st[t := COMPLETED], pins)
  {
    forall i | 0 <= i < |calls| ensures CallAllowed(cfg, calls[i], st[t := COMPLETED], pins) {
      assert CallAllowed(cfg, calls[i], st, pins);
    }
  }

  lemma CompleteRunKeeps(cfg: Config, pins: set<TaskId>, strict: bool, s: RunState, t: TaskId, output: Value,
                         attempts: nat)
    requires Accepted(cfg.tasks) && InvWith(cfg, pins, strict, s, {t})
    requires t in cfg.G() && t in s.st && s.st[t] == RUNNING && t !in pins
    requires cfg.Succeeds(t)
    ensures Inv(cfg, pins, strict, CompleteRun(cfg, s, t, output, attempts))
  {
    hide Sound, Flights, ResultsAgree, Verdicts, Traced, CallsAllowed, Accepted, Save;
    var r := TaskResult(COMPLETED, output, None, attempts);
    CompleteSound(cfg.G(), s.st, t);
    CompletedParts(cfg, pins, strict, s, t, r);
    CompletedCalls(cfg, s.calls, s.st, pins, t);
    EventMatchesStep(s.trace, EvTaskCompleted(t), t, s.st, s.st[t := COMPLETED], pins);
    var s1 := s.(st := s.st[t := COMPLETED], results := s.results[t := r], trace := s.trace + [EvTaskCompleted(t)]);
    assert !cfg.checkpoints ==> Checkpointed(cfg, s1.saved, s1.results, s1.st, pins);
    hide Checkpointed;
    SaveKeeps(cfg, pins, strict, s1, {});
  }

  // -- taking a task in hand, and launching it ----------------------------------------------------

  lemma StartedParts(cfg: Config, pins: set<TaskId>, strict: bool, s: RunState, t: TaskId)
    requires Inv(cfg, pins, strict, s) && t in s.st && s.st[t] == PENDING
    ensures Flights(cfg, s.inflight, s.st[t := RUNNING], {t})
    ensures ResultsAgree(s.results, s.st[t := RUNNING])
    ensures Verdicts(cfg, pins, strict, s.st[t := RUNNING])
    ensures Checkpointed(cfg, s.saved, s.results, s.st[t := RUNNING], pins)
    ensures t !in pins
  {
    hide Sound, Traced, CallsAllowed;
  }

  lemma StartedCalls(cfg: Config, calls: seq<Call>, st: Statuses, pins: set<TaskId>, t: TaskId)
    requires CallsAllowed(cfg, calls, st, pins) && t in st
    ensures CallsAllowed(cfg, calls, st[t := RUNNING], pins)
  {
    forall i | 0 <= i < |calls| ensures CallAllowed(cfg, calls[i], st[t := RUNNING], pins) {
      assert CallAllowed(cfg, calls[i], st, pins);
    }
  }

  lemma MarkStartedKeeps(cfg: Config, pins: set<TaskId>, strict: bool, s: RunState, t: TaskId)
    requires Accepted(cfg.tasks) && Inv(cfg, pins, strict, s) && IsReady(cfg.G(), s.st, t)
    ensures InvWith(cfg, pins, strict, MarkStarted(s, t), {t})
    ensures t !in pins && t in cfg.G() && t in s.st
  {
    hide Sound, Flights, ResultsAgree, Verdicts, Traced, CallsAllowed, Checkpointed;
    AcceptedGraph(cfg.tasks);
    hide Accepted, Closed, Acyclic;
    StartSound(cfg.G(), s.st, t);
    StartedParts(cfg, pins, strict, s, t);
    StartedCalls(cfg, s.calls, s.st, pins, t);
    EventMatchesStep(s.trace, EvTaskStarted(t), t, s.st, s.st[t := RUNNING], pins);
  }

  lemma LaunchKeeps(cfg: Config, pins: set<TaskId>, strict: bool, s: RunState, t: TaskId, a: nat)
    requires InvWith(cfg, pins, strict, s, {t}) && MayFly(cfg, t, a) && t !in pins
    ensures Inv(cfg, pins, strict, s.(inflight := s.inflight[t := a], calls := s.calls + [Call(t, a)]))
  {
    hide Sound, ResultsAgree, Verdicts, Traced, Checkpointed;
    var calls' := s.calls + [Call(t, a)];
    forall i | 0 <= i < |calls'| ensures CallAllowed(cfg, calls'[i], s.st, pins) {
      if i < |s.calls| { assert CallAllowed(cfg, s.calls[i], s.st, pins); }
    }
  }

  /** Popping a finished future puts its task in the dispatcher's hand. */
  lemma LandKeeps(cfg: Config, pins: set<TaskId>, strict: bool, s: RunState, t: TaskId)
    requires Inv(cfg, pins, strict, s) && t in s.inflight
    ensures InvWith(cfg, pins, strict, s.(inflight := s.inflight - {t}), {t})
    ensures t in cfg.G() && t in s.st && s.st[t] == RUNNING && t !in pins && MayFly(cfg, t, s.inflight[t])
  {
    hide ResultsAgree, Traced, CallsAllowed, Checkpointed;
  }

  // -- the steps of the loop --------------------------------------------------------------------------

  lemma DispatchKeeps(cfg: Config, pins: set<TaskId>, strict: bool, s: RunState, t: TaskId)
    requires Accepted(cfg.tasks) && Inv(cfg, pins, strict, s) && IsReady(cfg.G(), s.st, t)
    ensures Inv(cfg, pins, strict, Dispatch(cfg, s, t))
  {
    hide Sound, Flights, ResultsAgree, Verdicts, Traced, CallsAllowed, Checkpointed;
    MarkStartedKeeps(cfg, pins, strict, s, t);
    var s1 := MarkStarted(s, t);
    if !cfg.guard(t) {
      FailRunKeeps(cfg, pins, strict, s1, t, BlockedBySecurity, 1, [EvSecurityBlocked(t)]);
    } else if !cfg.resolves(t) {
      FailRunKeeps(cfg, pins, strict, s1, t, NoHandler, 1, []);
    } else {
      assert MayFly(cfg, t, 1);
      LaunchKeeps(cfg, pins, strict, s1, t, 1);
    }
  }

  /** Whether a task whose last attempt was `a` succeeds is decided once no retry is left. */
  lemma LastAttemptDecides(cfg: Config, t: TaskId, a: nat)
    requires MayFly(cfg, t, a) && cfg.invoke(t, a).Raised? && a >= cfg.maxAttempts
    ensures !cfg.Succeeds(t)
  {
    forall b: nat | 1 <= b <= cfg.Limit() ensures cfg.invoke(t, b).Raised? {
      assert b <= a;
    }
  }

  lemma FirstSuccessDecides(cfg: Config, t: TaskId, a: nat)
    requires MayFly(cfg, t, a) && cfg.invoke(t, a).Returned?
    ensures cfg.Succeeds(t)
  {}

  lemma SettleKeeps(cfg: Config, pins: set<TaskId>, strict: bool, s: RunState, t: TaskId, allowRetry: bool)
    requires Accepted(cfg.tasks) && Inv(cfg, pins, strict, s) && t in s.inflight
    requires strict ==> allowRetry
    ensures Inv(cfg, pins, strict, Settle(cfg, s, t, allowRetry))
  {
    hide Accepted, Sound, Flights, ResultsAgree, Verdicts, Traced, CallsAllowed, Checkpointed, FailRun, CompleteRun;
    LandKeeps(cfg, pins, strict, s, t);
    var a := s.inflight[t];
    var s1 := s.(inflight := s.inflight - {t});
    match cfg.invoke(t, a)
    case Returned(output) =>
      FirstSuccessDecides(cfg, t, a);
      CompleteRunKeeps(cfg, pins, strict, s1, t, output, a);
    case Raised(message) =>
      if allowRetry && a < cfg.maxAttempts {
        assert MayFly(cfg, t, a + 1);
        OtherEventsDoNotCount(s1.trace, EvTaskRetried(t, a + 1), s1.st, pins);
        LaunchKeeps(cfg, pins, strict, s1.(trace := s1.trace + [EvTaskRetried(t, a + 1)]), t, a + 1);
      } else {
        if strict { LastAttemptDecides(cfg, t, a); }
        FailRunKeeps(cfg, pins, strict, s1, t, HandlerError(message), a, []);
      }
  }
}
