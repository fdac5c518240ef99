/** What the event log of a run records: a checkpoint right after every settlement and nowhere else, one
    refusal per refused task, retries numbered like the calls, and the starts in dispatch order. */
module RunAudit {
  import opened Schemas
  import opened Dag
  import opened Semantics
  import opened SchedulerSpec
  import opened Kahn
  import opened Scheduling
  import opened Execution
  import opened RunInvariant
  import opened RunLoop

  predicate Settlement(e: Event) { e.EvTaskCompleted? || e.EvTaskFailed? }

  predicate RunEvent(e: Event) {
    e.EvRunResumed? || e.EvRunStarted? || e.EvRunCompleted? || e.EvRunFailed? || e.EvRunCancelled?
  }

  /** The tasks in the order they started. */
  function Starts(trace: seq<Event>): seq<TaskId> {
    if trace == [] then []
    else
      var last := trace[|trace| - 1];
      Starts(trace[..|trace| - 1]) + if last.EvTaskStarted? then [last.task] else []
  }

  /** How many tasks completed. */
  function CompletedIn(trace: seq<Event>): nat {
    if trace == [] then 0
    else CompletedIn(trace[..|trace| - 1]) + if trace[|trace| - 1].EvTaskCompleted? then 1 else 0
  }

  /** The events about the run as a whole. */
  function RunEvents(trace: seq<Event>): seq<Event> {
    if trace == [] then []
    else
      var last := trace[|trace| - 1];
      RunEvents(trace[..|trace| - 1]) + if RunEvent(last) then [last] else []
  }

  /** The retries, as the calls they announce. */
  function Retries(trace: seq<Event>): seq<Call> {
    if trace == [] then []
    else
      var last := trace[|trace| - 1];
      Retries(trace[..|trace| - 1]) + if last.EvTaskRetried? then [Call(last.task, last.attempt)] else []
  }

  /** The calls after a task's first. */
  function LaterCalls(calls: seq<Call>): seq<Call> {
    if calls == [] then []
    else
      var last := calls[|calls| - 1];
      LaterCalls(calls[..|calls| - 1]) + if last.attempt > 1 then [last] else []
  }

  /** A settlement is followed by a checkpoint of all that completed so far, and only a settlement is. */
  ghost predicate CheckpointAt(cfg: Config, pins: set<TaskId>, trace: seq<Event>, i: nat)
    requires i < |trace|
  {
    && (Settlement(trace[i]) && cfg.checkpoints ==>
          i + 1 < |trace| && trace[i + 1] == EvCheckpointed(|pins| + CompletedIn(trace[..i + 1])))
    && (trace[i].EvCheckpointed? ==> cfg.checkpoints && i > 0 && Settlement(trace[i - 1]))
  }

  ghost predicate Checkpoints(cfg: Config, pins: set<TaskId>, trace: seq<Event>) {
    forall i {:trigger CheckpointAt(cfg, pins, trace, i)} :: 0 <= i < |trace| ==> CheckpointAt(cfg, pins, trace, i)
  }

  /** A refused task is started, refused and failed in one go, and only a refused one is. */
  ghost predicate RefusalAt(cfg: Config, trace: seq<Event>, i: nat)
    requires i < |trace|
  {
    && (trace[i].EvTaskStarted? && !cfg.guard(trace[i].task) ==>
          i + 2 < |trace| && trace[i + 1] == EvSecurityBlocked(trace[i].task)
          && trace[i + 2] == EvTaskFailed(trace[i].task))
    && (trace[i].EvSecurityBlocked? ==>
          !cfg.guard(trace[i].task) && i > 0 && trace[i - 1] == EvTaskStarted(trace[i].task))
  }

  ghost predicate Refusals(cfg: Config, trace: seq<Event>) {
    forall i {:trigger RefusalAt(cfg, trace, i)} :: 0 <= i < |trace| ==> RefusalAt(cfg, trace, i)
  }

  predicate HasSettlement(trace: seq<Event>) {
    exists i :: 0 <= i < |trace| && Settlement(trace[i])
  }

  function Opening(tasks: seq<Task>, restored: Option<Checkpoint>): seq<Event> {
    (if restored.Some? then [EvRunResumed(Pins(tasks, restored))] else []) + [EvRunStarted]
  }

  ghost predicate AuditedTrace(cfg: Config, pins: set<TaskId>, s: RunState) {
    && Checkpoints(cfg, pins, s.trace) && Refusals(cfg, s.trace)
    && (s.saved.Some? <==> cfg.checkpoints && HasSettlement(s.trace))
    && |CompletedOutputs(s.results)| == |pins| + CompletedIn(s.trace)
    && Retries(s.trace) == LaterCalls(s.calls)
  }

  ghost predicate Audited(cfg: Config, restored: Option<Checkpoint>, s: RunState) {
    && AuditedTrace(cfg, Pins(cfg.tasks, restored), s)
    && RunEvents(s.trace) == Opening(cfg.tasks, restored)
  }

  // -- one more event ------------------------------------------------------------------------------

  lemma TraceAppend(trace: seq<Event>, e: Event)
    ensures Starts(trace + [e]) == Starts(trace) + if e.EvTaskStarted? then [e.task] else []
    ensures CompletedIn(trace + [e]) == CompletedIn(trace) + if e.EvTaskCompleted? then 1 else 0
    ensures RunEvents(trace + [e]) == RunEvents(trace) + if RunEvent(e) then [e] else []
    ensures Retries(trace + [e]) == Retries(trace) + if e.EvTaskRetried? then [Call(e.task, e.attempt)] else []
    ensures HasSettlement(trace + [e]) <==> HasSettlement(trace) || Settlement(e)
  {
    assert (trace + [e])[..|trace|] == trace;
    if HasSettlement(trace) {
      var i :| 0 <= i < |trace| && Settlement(trace[i]);
      assert (trace + [e])[i] == trace[i];
    }
    if Settlement(e) { assert (trace + [e])[|trace|] == e; }
  }

  lemma LaterAppend(calls: seq<Call>, c: Call)
    ensures LaterCalls(calls + [c]) == LaterCalls(calls) + if c.attempt > 1 then [c] else []
  {
    assert (calls + [c])[..|calls|] == calls;
  }

  lemma CheckpointsKeep(cfg: Config, pins: set<TaskId>, trace: seq<Event>, more: seq<Event>, i: nat)
    requires Checkpoints(cfg, pins, trace) && i < |trace|
    ensures CheckpointAt(cfg, pins, trace + more, i)
  {
    hide CompletedIn;
    assert CheckpointAt(cfg, pins, trace, i);
    assert (trace + more)[..i + 1] == trace[..i + 1];
  }

  lemma QuietCheckpoints(cfg: Config, pins: set<TaskId>, trace: seq<Event>, e: Event)
    requires Checkpoints(cfg, pins, trace) && !Settlement(e) && !e.EvCheckpointed?
    ensures Checkpoints(cfg, pins, trace + [e])
  {
    forall i | 0 <= i < |trace + [e]| ensures CheckpointAt(cfg, pins, trace + [e], i) {
      if i < |trace| { CheckpointsKeep(cfg, pins, trace, [e], i); }
    }
  }

  function Saving(cfg: Config, count: nat): seq<Event> { if cfg.checkpoints then [EvCheckpointed(count)] else [] }

  lemma SettledCheckpoints(cfg: Config, pins: set<TaskId>, trace: seq<Event>, e: Event, count: nat)
    requires Checkpoints(cfg, pins, trace) && Settlement(e) && count == |pins| + CompletedIn(trace + [e])
    ensures Checkpoints(cfg, pins, trace + [e] + Saving(cfg, count))
  {
    hide CompletedIn;
    var more := [e] + Saving(cfg, count);
    var after := trace + [e] + Saving(cfg, count);
    assert after == trace + more;
    assert after[..|trace| + 1] == trace + [e];
    forall i | 0 <= i < |after| ensures CheckpointAt(cfg, pins, after, i) {
      if i < |trace| { CheckpointsKeep(cfg, pins, trace, more, i); }
    }
  }

  lemma RefusalsKeep(cfg: Config, trace: seq<Event>, more: seq<Event>, i: nat)
    requires Refusals(cfg, trace) && i < |trace|
    ensures RefusalAt(cfg, trace + more, i)
  {
    assert RefusalAt(cfg, trace, i);
  }

  lemma QuietRefusals(cfg: Config, trace: seq<Event>, e: Event)
    requires Refusals(cfg, trace) && !e.EvSecurityBlocked? && (e.EvTaskStarted? ==> cfg.guard(e.task))
    ensures Refusals(cfg, trace + [e])
  {
    forall i | 0 <= i < |trace + [e]| ensures RefusalAt(cfg, trace + [e], i) {
      if i < |trace| { RefusalsKeep(cfg, trace, [e], i); }
    }
  }

  lemma RefusedRefusals(cfg: Config, trace: seq<Event>, t: TaskId)
    requires Refusals(cfg, trace) && !cfg.guard(t)
    ensures Refusals(cfg, trace + [EvTaskStarted(t)] + [EvSecurityBlocked(t)] + [EvTaskFailed(t)])
  {
    var more := [EvTaskStarted(t), EvSecurityBlocked(t), EvTaskFailed(t)];
    var after := trace + [EvTaskStarted(t)] + [EvSecurityBlocked(t)] + [EvTaskFailed(t)];
    assert after == trace + more;
    forall i | 0 <= i < |after| ensures RefusalAt(cfg, after, i) {
      if i < |trace| { RefusalsKeep(cfg, trace, more, i); }
    }
  }

  // -- the steps ---------------------------------------------------------------------------------------

  lemma OutputsAfter(results: map<TaskId, TaskResult>, t: TaskId, r: TaskResult)
    requires t !in results
    ensures |CompletedOutputs(results[t := r])| == |CompletedOutputs(results)| + if r.status == COMPLETED then 1 else 0
  {
    var before, after := CompletedOutputs(results), CompletedOutputs(results[t := r]);
    if r.status == COMPLETED {
      assert after == before[t := r.output];
      hide CompletedOutputs;
      OneMore(before, t, r.output);
    } else {
      assert after == before;
    }
  }

  lemma OneMore(m: Checkpoint, t: TaskId, output: Value)
    requires t !in m
    ensures |m[t := output]| == |m| + 1
  {
    assert m[t := output].Keys == m.Keys + {t};
  }

  /** The events before the settlement are quiet for the checkpoints, and the refusals are in order up to
      the settlement. */
  lemma SettledAudit(cfg: Config, pins: set<TaskId>, s: RunState, t: TaskId, r: TaskResult, trace: seq<Event>,
                     e: Event, s': RunState)
    requires AuditedTrace(cfg, pins, s) && t !in s.results && Settlement(e)
    requires e.EvTaskCompleted? <==> r.status == COMPLETED
    requires Checkpoints(cfg, pins, trace) && Refusals(cfg, trace + [e])
    requires CompletedIn(trace) == CompletedIn(s.trace) && Retries(trace) == Retries(s.trace)
    requires s'.calls == s.calls && s'.results == s.results[t := r]
    requires s'.trace == trace + [e] + Saving(cfg, |CompletedOutputs(s'.results)|)
    requires if cfg.checkpoints then s'.saved.Some? else s'.saved == s.saved
    ensures AuditedTrace(cfg, pins, s')
  {
    hide CompletedOutputs, CompletedIn, Retries, LaterCalls, Checkpoints, Refusals, HasSettlement;
    OutputsAfter(s.results, t, r);
    TraceAppend(trace, e);
    var count := |CompletedOutputs(s'.results)|;
    SettledCheckpoints(cfg, pins, trace, e, count);
    if cfg.checkpoints {
      TraceAppend(trace + [e], EvCheckpointed(count));
      QuietRefusals(cfg, trace + [e], EvCheckpointed(count));
    } else {
      assert trace + [e] + [] == trace + [e];
    }
  }

  lemma FailRunShape(cfg: Config, s: RunState, t: TaskId, error: TaskError, attempts: nat, before: seq<Event>)
    ensures var s' := FailRun(cfg, s, t, error, attempts, before);
            && s'.calls == s.calls && s'.results == s.results[t := TaskResult(FAILED, NoValue, Some(error), attempts)]
            && s'.trace == s.trace + before + [EvTaskFailed(t)] + Saving(cfg, |CompletedOutputs(s'.results)|)
            && if cfg.checkpoints then s'.saved.Some? else s'.saved == s.saved
  {
    hide CompletedOutputs, FailTask, PlanGraph;
  }

  lemma CompleteRunShape(cfg: Config, s: RunState, t: TaskId, output: Value, attempts: nat)
    ensures var s' := CompleteRun(cfg, s, t, output, attempts);
            && s'.calls == s.calls && s'.results == s.results[t := TaskResult(COMPLETED, output, None, attempts)]
            && s'.trace == s.trace + [EvTaskCompleted(t)] + Saving(cfg, |CompletedOutputs(s'.results)|)
            && if cfg.checkpoints then s'.saved.Some? else s'.saved == s.saved
  {
    hide CompletedOutputs;
  }

  /** An event that is neither a settlement nor a checkpoint nor about a refusal, with the call it makes. */
  lemma QuietAudit(cfg: Config, pins: set<TaskId>, s: RunState, e: Event, s': RunState)
    requires AuditedTrace(cfg, pins, s) && !Settlement(e) && !e.EvCheckpointed? && !e.EvSecurityBlocked?
    requires e.EvTaskStarted? ==> cfg.guard(e.task)
    requires s'.trace == s.trace + [e] && s'.results == s.results && s'.saved == s.saved
    requires LaterCalls(s'.calls)
             == LaterCalls(s.calls) + if e.EvTaskRetried? then [Call(e.task, e.attempt)] else []
    ensures AuditedTrace(cfg, pins, s')
  {
    hide CompletedOutputs, CompletedIn, Retries, LaterCalls, Checkpoints, Refusals, HasSettlement;
    TraceAppend(s.trace, e);
    QuietCheckpoints(cfg, pins, s.trace, e);
    QuietRefusals(cfg, s.trace, e);
  }

  lemma DispatchAuditedTrace(cfg: Config, pins: set<TaskId>, s: RunState, t: TaskId)
    requires AuditedTrace(cfg, pins, s) && t !in s.results
    ensures AuditedTrace(cfg, pins, Dispatch(cfg, s, t))
  {
    hide AuditedTrace, FailRun, Checkpoints, Refusals, CompletedIn, Retries, LaterCalls, CompletedOutputs;
    var s1, s' := MarkStarted(s, t), Dispatch(cfg, s, t);
    if !cfg.guard(t) {
      FailRunShape(cfg, s1, t, BlockedBySecurity, 1, [EvSecurityBlocked(t)]);
      RefusedAudit(cfg, pins, s, t, TaskResult(FAILED, NoValue, Some(BlockedBySecurity), 1), s');
    } else if !cfg.resolves(t) {
      QuietAudit(cfg, pins, s, EvTaskStarted(t), s1);
      FailRunShape(cfg, s1, t, NoHandler, 1, []);
      FailAudit(cfg, pins, s1, t, TaskResult(FAILED, NoValue, Some(NoHandler), 1), s');
    } else {
      LaterAppend(s.calls, Call(t, 1));
      QuietAudit(cfg, pins, s, EvTaskStarted(t), s');
    }
  }

  lemma RefusedAudit(cfg: Config, pins: set<TaskId>, s: RunState, t: TaskId, r: TaskResult, s': RunState)
    requires AuditedTrace(cfg, pins, s) && t !in s.results && !cfg.guard(t) && r.status == FAILED
    requires s'.calls == s.calls && s'.results == s.results[t := r]
    requires s'.trace == s.trace + [EvTaskStarted(t)] + [EvSecurityBlocked(t)] + [EvTaskFailed(t)]
                         + Saving(cfg, |CompletedOutputs(s'.results)|)
    requires if cfg.checkpoints then s'.saved.Some? else s'.saved == s.saved
    ensures AuditedTrace(cfg, pins, s')
  {
    hide Checkpoints, Refusals, CompletedIn, Retries, LaterCalls, CompletedOutputs, HasSettlement;
    var started := s.trace + [EvTaskStarted(t)];
    var refused := started + [EvSecurityBlocked(t)];
    TraceAppend(s.trace, EvTaskStarted(t));
    TraceAppend(started, EvSecurityBlocked(t));
    QuietCheckpoints(cfg, pins, s.trace, EvTaskStarted(t));
    QuietCheckpoints(cfg, pins, started, EvSecurityBlocked(t));
    RefusedRefusals(cfg, s.trace, t);
    SettledAudit(cfg, pins, s, t, r, refused, EvTaskFailed(t), s');
  }

  lemma FailAudit(cfg: Config, pins: set<TaskId>, s: RunState, t: TaskId, r: TaskResult, s': RunState)
    requires AuditedTrace(cfg, pins, s) && t !in s.results && r.status == FAILED
    requires s'.calls == s.calls && s'.results == s.results[t := r]
    requires s'.trace == s.trace + [] + [EvTaskFailed(t)] + Saving(cfg, |CompletedOutputs(s'.results)|)
    requires if cfg.checkpoints then s'.saved.Some? else s'.saved == s.saved
    ensures AuditedTrace(cfg, pins, s')
  {
    hide Checkpoints, Refusals, CompletedIn, Retries, LaterCalls, CompletedOutputs, HasSettlement;
    assert s.trace + [] == s.trace;
    QuietRefusals(cfg, s.trace, EvTaskFailed(t));
    SettledAudit(cfg, pins, s, t, r, s.trace, EvTaskFailed(t), s');
  }

  lemma SettleAuditedTrace(cfg: Config, pins: set<TaskId>, s: RunState, t: TaskId, allowRetry: bool)
    requires AuditedTrace(cfg, pins, s) && t in s.inflight && s.inflight[t] >= 1 && t !in s.results
    ensures AuditedTrace(cfg, pins, Settle(cfg, s, t, allowRetry))
  {
    hide FailRun, CompleteRun, Checkpoints, Refusals, CompletedIn, Retries, LaterCalls, CompletedOutputs,
         HasSettlement;
    var a, s' := s.inflight[t], Settle(cfg, s, t, allowRetry);
    var s1 := s.(inflight := s.inflight - {t});
    assert AuditedTrace(cfg, pins, s1);
    hide AuditedTrace;
    match cfg.invoke(t, a)
    case Returned(output) =>
      CompleteRunShape(cfg, s1, t, output, a);
      QuietRefusals(cfg, s1.trace, EvTaskCompleted(t)) by { RefusalsOf(cfg, pins, s1); }
      CheckpointsOf(cfg, pins, s1);
      SettledAudit(cfg, pins, s1, t, TaskResult(COMPLETED, output, None, a), s1.trace, EvTaskCompleted(t), s');
    case Raised(message) =>
      if allowRetry && a < cfg.maxAttempts {
        LaterAppend(s1.calls, Call(t, a + 1));
        QuietAudit(cfg, pins, s1, EvTaskRetried(t, a + 1), s');
      } else {
        FailRunShape(cfg, s1, t, HandlerError(message), a, []);
        FailAudit(cfg, pins, s1, t, TaskResult(FAILED, NoValue, Some(HandlerError(message)), a), s');
      }
  }

  lemma RefusalsOf(cfg: Config, pins: set<TaskId>, s: RunState)
    requires AuditedTrace(cfg, pins, s)
    ensures Refusals(cfg, s.trace)
  {}

  lemma CheckpointsOf(cfg: Config, pins: set<TaskId>, s: RunState)
    requires AuditedTrace(cfg, pins, s)
    ensures Checkpoints(cfg, pins, s.trace)
  {}

  /** A settlement's events start no task and say nothing about the run as a whole. */
  lemma SettledLog(cfg: Config, trace: seq<Event>, before: seq<Event>, e: Event, count: nat)
    requires Settlement(e) && (before == [] || (|before| == 1 && before[0].EvSecurityBlocked?))
    ensures Starts(trace + before + [e] + Saving(cfg, count)) == Starts(trace)
    ensures RunEvents(trace + before + [e] + Saving(cfg, count)) == RunEvents(trace)
  {
    hide Starts, RunEvents, CompletedIn, Retries, HasSettlement;
    if before == [] {
      assert trace + before == trace;
    } else {
      assert before == [before[0]];
      TraceAppend(trace, before[0]);
    }
    var middle := trace + before;
    TraceAppend(middle, e);
    if cfg.checkpoints {
      TraceAppend(middle + [e], EvCheckpointed(count));
    } else {
      assert middle + [e] + [] == middle + [e];
    }
  }

  /** Dispatching starts exactly its task; settling starts none. */
  lemma DispatchLog(cfg: Config, s: RunState, t: TaskId)
    ensures Starts(Dispatch(cfg, s, t).trace) == Starts(s.trace) + [t]
    ensures RunEvents(Dispatch(cfg, s, t).trace) == RunEvents(s.trace)
  {
    hide Starts, RunEvents, FailRun, CompletedOutputs;
    var s1, s' := MarkStarted(s, t), Dispatch(cfg, s, t);
    TraceAppend(s.trace, EvTaskStarted(t));
    if !cfg.guard(t) {
      FailRunShape(cfg, s1, t, BlockedBySecurity, 1, [EvSecurityBlocked(t)]);
      SettledLog(cfg, s1.trace, [EvSecurityBlocked(t)], EvTaskFailed(t), |CompletedOutputs(s'.results)|);
    } else if !cfg.resolves(t) {
      FailRunShape(cfg, s1, t, NoHandler, 1, []);
      SettledLog(cfg, s1.trace, [], EvTaskFailed(t), |CompletedOutputs(s'.results)|);
    }
  }

  lemma SettleLog(cfg: Config, s: RunState, t: TaskId, allowRetry: bool)
    requires t in s.inflight
    ensures Starts(Settle(cfg, s, t, allowRetry).trace) == Starts(s.trace)
    ensures RunEvents(Settle(cfg, s, t, allowRetry).trace) == RunEvents(s.trace)
  {
    hide Starts, RunEvents, FailRun, CompleteRun, CompletedOutputs;
    var a, s' := s.inflight[t], Settle(cfg, s, t, allowRetry);
    var s1 := s.(inflight := s.inflight - {t});
    match cfg.invoke(t, a)
    case Returned(output) =>
      CompleteRunShape(cfg, s1, t, output, a);
      assert s1.trace + [] == s1.trace;
      SettledLog(cfg, s1.trace, [], EvTaskCompleted(t), |CompletedOutputs(s'.results)|);
    case Raised(message) =>
      if allowRetry && a < cfg.maxAttempts {
        TraceAppend(s1.trace, EvTaskRetried(t, a + 1));
      } else {
        FailRunShape(cfg, s1, t, HandlerError(message), a, []);
        SettledLog(cfg, s1.trace, [], EvTaskFailed(t), |CompletedOutputs(s'.results)|);
      }
  }

  lemma ResultsAreSettled(cfg: Config, pins: set<TaskId>, s: RunState)
    requires Inv(cfg, pins, false, s)
    ensures forall t :: t in s.inflight ==> s.inflight[t] >= 1 && t !in s.results
    ensures forall t :: IsReady(cfg.G(), s.st, t) ==> t !in s.results
  {
    hide Sound, Verdicts, Traced, CallsAllowed, Checkpointed;
  }

  lemma DispatchAudited(cfg: Config, restored: Option<Checkpoint>, s: RunState, t: TaskId)
    requires Inv(cfg, Pins(cfg.tasks, restored), false, s) && Audited(cfg, restored, s) && IsReady(cfg.G(), s.st, t)
    ensures Audited(cfg, restored, Dispatch(cfg, s, t))
  {
    hide Inv, AuditedTrace, Dispatch, RunEvents, IsReady, Pins;
    ResultsAreSettled(cfg, Pins(cfg.tasks, restored), s);
    DispatchAuditedTrace(cfg, Pins(cfg.tasks, restored), s, t);
    DispatchLog(cfg, s, t);
  }

  lemma SettleAudited(cfg: Config, restored: Option<Checkpoint>, s: RunState, t: TaskId, allowRetry: bool)
    requires Inv(cfg, Pins(cfg.tasks, restored), false, s) && Audited(cfg, restored, s) && t in s.inflight
    ensures Audited(cfg, restored, Settle(cfg, s, t, allowRetry))
  {
    hide Inv, AuditedTrace, Settle, RunEvents, IsReady, Pins;
    ResultsAreSettled(cfg, Pins(cfg.tasks, restored), s);
    SettleAuditedTrace(cfg, Pins(cfg.tasks, restored), s, t, allowRetry);
    SettleLog(cfg, s, t, allowRetry);
  }

  /** Events that concern the run as a whole only. */
  lemma {:induction false} OpeningAudit(cfg: Config, pins: set<TaskId>, trace: seq<Event>)
    requires forall i :: 0 <= i < |trace| ==> RunEvent(trace[i])
    ensures Checkpoints(cfg, pins, trace) && Refusals(cfg, trace) && !HasSettlement(trace)
    ensures CompletedIn(trace) == 0 && Retries(trace) == [] && RunEvents(trace) == trace
    decreases |trace|
  {
    hide Checkpoints, Refusals, HasSettlement;
    if trace == [] {
      NothingToAudit(cfg, pins);
    } else {
      var init, last := trace[..|trace| - 1], trace[|trace| - 1];
      OpeningAudit(cfg, pins, init);
      assert trace == init + [last];
      TraceAppend(init, last);
      QuietCheckpoints(cfg, pins, init, last);
      QuietRefusals(cfg, init, last);
    }
  }

  lemma NothingToAudit(cfg: Config, pins: set<TaskId>)
    ensures Checkpoints(cfg, pins, []) && Refusals(cfg, []) && !HasSettlement([])
  {}

  lemma BeginAudited(cfg: Config, restored: Option<Checkpoint>)
    ensures Audited(cfg, restored, Begin(cfg, restored))
  {
    hide PlanGraph, Pins, CompletedOutputs, Checkpoints, Refusals, CompletedIn, Retries, HasSettlement, RunEvents;
    var s, pins := Begin(cfg, restored), Pins(cfg.tasks, restored);
    OpeningAudit(cfg, pins, s.trace);
    OutputsOfRestored(cfg, restored);
    var outputs := CompletedOutputs(s.results);
    assert |outputs| == |outputs.Keys|;
    assert LaterCalls([]) == [];
  }

  lemma OutputsOfRestored(cfg: Config, restored: Option<Checkpoint>)
    ensures CompletedOutputs(Begin(cfg, restored).results).Keys == Pins(cfg.tasks, restored)
  {}

  // -- the starts of one pass ---------------------------------------------------------------------------

  lemma {:induction false} DispatchAllLog(cfg: Config, s: RunState, ids: seq<TaskId>)
    ensures Starts(DispatchAll(cfg, s, ids).trace) == Starts(s.trace) + ids
    decreases |ids|
  {
    hide Starts, Dispatch;
    if ids != [] {
      DispatchAllLog(cfg, s, ids[..|ids| - 1]);
      DispatchLog(cfg, DispatchAll(cfg, s, ids[..|ids| - 1]), ids[|ids| - 1]);
      assert ids == ids[..|ids| - 1] + [ids[|ids| - 1]];
    }
  }

  lemma {:induction false} SettleAllLog(cfg: Config, s: RunState, landings: seq<Landing>)
    ensures Starts(SettleAll(cfg, s, landings).trace) == Starts(s.trace)
    decreases |landings|
  {
    hide Starts, RunEvents, Settle;
    if landings != [] {
      var init, last := landings[..|landings| - 1], landings[|landings| - 1];
      SettleAllLog(cfg, s, init);
      var s1 := SettleAll(cfg, s, init);
      if last.task in s1.inflight { SettleLog(cfg, s1, last.task, !last.cancelSeen); }
    }
  }

  /** `t` is dispatched before `u`: it is more urgent, or as urgent and the plan lists it first. */
  ghost predicate Precedes(tasks: seq<Task>, t: TaskId, u: TaskId) {
    exists a, b :: 0 <= a < |tasks| && 0 <= b < |tasks| && tasks[a].id == t && tasks[b].id == u
                   && (tasks[a].priority > tasks[b].priority || (tasks[a].priority == tasks[b].priority && a < b))
  }

  ghost predicate DispatchOrder(tasks: seq<Task>, ids: seq<TaskId>) {
    forall i, j :: 0 <= i < j < |ids| ==> Precedes(tasks, ids[i], ids[j])
  }

  lemma ReadyTasksOrdered(cfg: Config, st: Statuses)
    requires Accepted(cfg.tasks) && st.Keys == cfg.G().Keys
    ensures DispatchOrder(cfg.tasks, ReadyTasks(cfg, st))
  {
    hide TaskMap, Positions, Ids, ReadyList, Acyclic, DepsKnown, IsReady, DispatchOrder;
    hide NoDuplicates, Sooner;
    PlanIndexed(cfg.tasks);
    PositionsIndex(Ids(cfg.tasks));
    var tasks, order := TaskMap(cfg.tasks), Positions(Ids(cfg.tasks));
    ReadyListIsExact(tasks, Ids(cfg.tasks), order, st);
    ByPlaces(cfg.tasks, order, ReadyTasks(cfg, st));
  }

  lemma ByPlaces(tasks: seq<Task>, order: map<TaskId, nat>, ids: seq<TaskId>)
    requires NoDuplicates(Ids(tasks))
    requires forall i :: 0 <= i < |tasks| ==> Ids(tasks)[i] in order && order[Ids(tasks)[i]] == i
    requires forall i, j :: 0 <= i < j < |ids| ==> Sooner(TaskMap(tasks), order, ids[i], ids[j])
    ensures DispatchOrder(tasks, ids)
  {
    hide NoDuplicates, TaskMap, Ids, Precedes, Sooner;
    forall i, j | 0 <= i < j < |ids| ensures Precedes(tasks, ids[i], ids[j]) {
      PairByPlaces(tasks, order, ids[i], ids[j]);
    }
  }

  lemma {:induction false} PairByPlaces(tasks: seq<Task>, order: map<TaskId, nat>, t: TaskId, u: TaskId)
    requires NoDuplicates(Ids(tasks)) && Sooner(TaskMap(tasks), order, t, u)
    requires forall i :: 0 <= i < |tasks| ==> Ids(tasks)[i] in order && order[Ids(tasks)[i]] == i
    ensures Precedes(tasks, t, u)
  {
    hide NoDuplicates, TaskMap;
    var a := PlaceOf(tasks, t);
    var b := PlaceOf(tasks, u);
    assert Ids(tasks)[a] == t && Ids(tasks)[b] == u;
  }

  lemma PlaceOf(tasks: seq<Task>, t: TaskId) returns (i: nat)
    requires NoDuplicates(Ids(tasks)) && t in TaskMap(tasks)
    ensures i < |tasks| && tasks[i].id == t && TaskMap(tasks)[t] == tasks[i]
  {
    TaskMapKeys(tasks);
    i :| 0 <= i < |tasks| && Ids(tasks)[i] == t;
    TaskMapAt(tasks, i);
  }

  /** One pass of the loop starts, unless it is paused, exactly the ready tasks, the most urgent first, and
      in the plan's order among equals; settling what landed starts nothing. */
  lemma PassStarts(cfg: Config, s: RunState, o: Observation)
    requires Accepted(cfg.tasks) && s.st.Keys == cfg.G().Keys
    ensures var s1 := AfterDispatch(cfg, s, o);
            && Starts(SettleAll(cfg, s1, o.landings).trace) == Starts(s1.trace)
            && (o.pausedFirst ==> Starts(s1.trace) == Starts(s.trace))
            && (!o.pausedFirst ==>
                  && Starts(s.trace) <= Starts(s1.trace)
                  && var started := Starts(s1.trace)[|Starts(s.trace)|..];
                     && (forall t :: t in started <==> IsReady(cfg.G(), s.st, t))
                     && DispatchOrder(cfg.tasks, started))
  {
    hide Starts, SettleAll, DispatchAll, ReadyTasks, IsReady, Accepted, PlanGraph, DispatchOrder;
    var s1 := AfterDispatch(cfg, s, o);
    SettleAllLog(cfg, s1, o.landings);
    if !o.pausedFirst {
      ReadyTasksExact(cfg, s.st);
      ReadyTasksOrdered(cfg, s.st);
      DispatchAllLog(cfg, s, ReadyTasks(cfg, s.st));
      assert Starts(s1.trace)[|Starts(s.trace)|..] == ReadyTasks(cfg, s.st);
    }
  }
}
