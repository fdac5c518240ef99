/** Resuming from checkpoints: a resumed run finishes the interrupted one, and along any chain of
    resumes the checkpoint only grows and nothing in it runs again. */
module Resume {
  import opened Schemas
  import opened Dag
  import opened Semantics
  import opened SchedulerSpec
  import opened Scheduling
  import opened Execution
  import opened RunInvariant
  import opened RunLoop
  import opened RunProgress
  import opened RunTheorems
  import opened RunGuarantees

  /** Pinning tasks that succeed anyway changes no other task's status. */
  lemma PinningSuccessesChangesNothing(g: Graph, ok: set<TaskId>, pins: set<TaskId>)
    requires Closed(g) && Acyclic(g) && DependencyClosed(g, pins) && pins <= ok
    ensures FinalMap(g, ok, pins) == FinalMap(g, ok, {})
  {
    assert ok + pins == ok && ok + {} == ok;
    forall t | t in g ensures Final(g, ok, pins, t) == Final(g, ok, {}, t) {
      FinalClosedForm(g, ok, pins, t);
      FinalClosedForm(g, ok, {}, t);
      FinalKinds(g, ok, pins, t);
      FinalKinds(g, ok, {}, t);
    }
  }

  lemma FinalKinds(g: Graph, ok: set<TaskId>, pins: set<TaskId>, t: TaskId)
    requires Closed(g) && Acyclic(g) && t in g
    ensures Final(g, ok, pins, t) == COMPLETED || Final(g, ok, pins, t) == FAILED || Final(g, ok, pins, t) == BLOCKED
  {}

  lemma CheckpointedSucceed(cfg: Config, sched: Schedule)
    requires Startable(cfg, None) && Reached(cfg, None, sched).saved.Some?
    ensures Reached(cfg, None, sched).saved.value.Keys <= cfg.Ok()
  {
    hide Accepted, Inv, DependencyClosed, Begin, Later, Reached, CompletedOutputs;
    var s := ReachedFacts(cfg, None, sched);
    CheckpointOf(cfg, {}, s);
    InvSound(cfg, {}, false, s);
    SoundKeys(cfg.G(), s.st);
    CompletedSucceed(cfg, s);
    hide Sound;
  }

  lemma CompletedSucceed(cfg: Config, s: RunState)
    requires Inv(cfg, {}, false, s)
    ensures forall t :: t in s.st && s.st[t] == COMPLETED ==> cfg.Succeeds(t)
  {
    hide Sound, Flights, ResultsAgree, Traced, CallsAllowed, Checkpointed;
  }

  lemma SavedPins(cfg: Config, saved: Checkpoint)
    requires Accepted(cfg.tasks) && DependencyClosed(cfg.G(), saved.Keys)
    ensures Pins(cfg.tasks, Some(saved)) == saved.Keys
  {
    AcceptedGraph(cfg.tasks);
    hide Accepted, PlanGraph;
    forall t | t in saved ensures t in Ids(cfg.tasks) { assert t in cfg.G(); }
  }

  /** Interrupting a fresh run anywhere and resuming it from its checkpoint ends every task as the
      uninterrupted plan would have, if the tasks' verdicts are unchanged. */
  lemma ResumeRefinesUninterrupted(cfg: Config, first: Schedule, cfg': Config, second: Schedule)
    requires Startable(cfg, None) && Reached(cfg, None, first).saved.Some?
    requires cfg'.tasks == cfg.tasks && cfg'.Ok() == cfg.Ok()
    requires Finishes(cfg', Reached(cfg, None, first).saved, second) && Uncancelled(second)
    requires !Raced(EndOfLoop(cfg', Reached(cfg, None, first).saved, second))
    ensures FinalState(cfg', Reached(cfg, None, first).saved, second).st == Meaning(cfg, None)
  {
    var saved := Reached(cfg, None, first).saved;
    CheckpointIsExact(cfg, None, first);
    CheckpointedSucceed(cfg, first);
    hide Reached, FinalMap, DependencyClosed, Accepted, EndOfLoop, FinalState, Finishes, Uncancelled, Raced;
    SavedPins(cfg', saved.value);
    EveryInterleavingMeansFinal(cfg', saved, second);
    AcceptedGraph(cfg.tasks);
    PinningSuccessesChangesNothing(cfg.G(), cfg.Ok(), saved.value.Keys);
    assert Pins(cfg.tasks, None) == {};
  }

  // -- chains of resumes -------------------------------------------------------------------

  datatype Attempt = Attempt(cfg: Config, sched: Schedule)

  /** The stored checkpoint after resuming once per attempt. */
  ghost function StoreChain(store: Checkpoint, attempts: seq<Attempt>): Checkpoint
    decreases |attempts|
  {
    if attempts == [] then store
    else
      var before := StoreChain(store, attempts[..|attempts| - 1]);
      var last := attempts[|attempts| - 1];
      StoreAfter(last.cfg, Some(before), last.sched).value
  }

  /** `later` keeps every output of `earlier`. */
  ghost predicate Grows(earlier: Checkpoint, later: Checkpoint) {
    forall t :: t in earlier ==> t in later && later[t] == earlier[t]
  }

  /** One resume keeps the store's outputs and its closure, and invokes nothing in it. */
  lemma ResumeStep(cfg: Config, store: Checkpoint, sched: Schedule)
    requires Accepted(cfg.tasks) && DependencyClosed(cfg.G(), store.Keys)
    ensures var after := StoreAfter(cfg, Some(store), sched);
            after.Some? && Grows(store, after.value) && DependencyClosed(cfg.G(), after.value.Keys)
    ensures forall c :: c in Reached(cfg, Some(store), sched).calls ==> c.task !in store
  {
    hide Reached, DependencyClosed, Accepted, Begin, Later, Inv, CompletedOutputs;
    SavedPins(cfg, store);
    if Reached(cfg, Some(store), sched).saved.Some? { CheckpointIsExact(cfg, Some(store), sched); }
    var s := ReachedFacts(cfg, Some(store), sched);
    CallsOne(cfg, store.Keys, s);
  }

  /** Along any chain of resumes the checkpointed set only grows, its outputs are kept, it always
      contains its own dependencies, and no checkpointed task is ever invoked again. */
  lemma {:induction false} ResumesOnlyAdd(tasks: seq<Task>, store: Checkpoint, attempts: seq<Attempt>, k: nat)
    requires Accepted(tasks) && DependencyClosed(PlanGraph(tasks), store.Keys) && k <= |attempts|
    requires forall i :: 0 <= i < |attempts| ==> attempts[i].cfg.tasks == tasks
    ensures DependencyClosed(PlanGraph(tasks), StoreChain(store, attempts).Keys)
    ensures Grows(StoreChain(store, attempts[..k]), StoreChain(store, attempts))
    ensures k < |attempts| ==>
              forall c :: c in Reached(attempts[|attempts| - 1].cfg,
                                       Some(StoreChain(store, attempts[..|attempts| - 1])),
                                       attempts[|attempts| - 1].sched).calls ==>
                c.task !in StoreChain(store, attempts[..k])
    decreases |attempts|
  {
    hide Accepted, DependencyClosed, StoreAfter, Reached;
    if k == |attempts| {
      assert attempts[..k] == attempts;
      if attempts != [] { ResumesOnlyAdd(tasks, store, attempts[..|attempts| - 1], 0); }
    } else {
      ResumesOnlyAdd(tasks, store, attempts[..|attempts| - 1], k);
      assert attempts[..|attempts| - 1][..k] == attempts[..k];
    }
    if attempts != [] {
      var last := attempts[|attempts| - 1];
      ResumeStep(last.cfg, StoreChain(store, attempts[..|attempts| - 1]), last.sched);
    }
  }

  // -- what a chain of resumes ends in ---------------------------------------------------------

  /** What one more resume stores succeeds by itself, if what it started from does. */
  lemma StepSucceeds(cfg: Config, store: Checkpoint, sched: Schedule)
    requires Accepted(cfg.tasks) && DependencyClosed(cfg.G(), store.Keys) && store.Keys <= cfg.Ok()
    ensures StoreAfter(cfg, Some(store), sched).Some? && StoreAfter(cfg, Some(store), sched).value.Keys <= cfg.Ok()
  {
    hide Reached, DependencyClosed, Accepted, Begin, Later, Inv, CompletedOutputs, Sound;
    SavedPins(cfg, store);
    if Reached(cfg, Some(store), sched).saved.Some? {
      var s := ReachedFacts(cfg, Some(store), sched);
      CheckpointOf(cfg, store.Keys, s);
      InvSound(cfg, store.Keys, false, s);
      SoundKeys(cfg.G(), s.st);
      CompletedSucceedOrPinned(cfg, store.Keys, s);
    }
  }

  lemma CompletedSucceedOrPinned(cfg: Config, pins: set<TaskId>, s: RunState)
    requires Inv(cfg, pins, false, s)
    ensures forall t :: t in s.st && s.st[t] == COMPLETED && t !in pins ==> cfg.Succeeds(t)
  {
    hide Sound, Flights, ResultsAgree, Traced, CallsAllowed, Checkpointed;
  }

  /** All these attempts execute the plan with the same verdicts. */
  ghost predicate SameVerdicts(tasks: seq<Task>, ok: set<TaskId>, attempts: seq<Attempt>) {
    forall i :: 0 <= i < |attempts| ==> attempts[i].cfg.tasks == tasks && attempts[i].cfg.Ok() == ok
  }

  lemma {:induction false} ChainSucceeds(tasks: seq<Task>, ok: set<TaskId>, store: Checkpoint, attempts: seq<Attempt>)
    requires Accepted(tasks) && DependencyClosed(PlanGraph(tasks), store.Keys) && store.Keys <= ok
    requires SameVerdicts(tasks, ok, attempts)
    ensures StoreChain(store, attempts).Keys <= ok
    decreases |attempts|
  {
    hide Accepted, DependencyClosed, StoreAfter;
    if attempts != [] {
      var init, last := attempts[..|attempts| - 1], attempts[|attempts| - 1];
      ChainSucceeds(tasks, ok, store, init);
      ResumesOnlyAdd(tasks, store, init, 0);
      StepSucceeds(last.cfg, StoreChain(store, init), last.sched);
    }
  }

  /** However often a plan is interrupted and resumed, wherever each interruption falls, the first
      resume that gets to its end uncancelled and without the pause race ends every task as one
      undisturbed run of the plan would have, if the tasks' verdicts stay the same. */
  lemma ChainMeansFinal(store: Checkpoint, attempts: seq<Attempt>, cfg: Config, sched: Schedule)
    requires Startable(cfg, None) && DependencyClosed(cfg.G(), store.Keys) && store.Keys <= cfg.Ok()
    requires SameVerdicts(cfg.tasks, cfg.Ok(), attempts)
    requires Finishes(cfg, Some(StoreChain(store, attempts)), sched) && Uncancelled(sched)
    requires !Raced(EndOfLoop(cfg, Some(StoreChain(store, attempts)), sched))
    ensures FinalState(cfg, Some(StoreChain(store, attempts)), sched).st == Meaning(cfg, None)
  {
    hide Accepted, DependencyClosed, StoreChain, FinalMap, EndOfLoop, FinalState, Finishes, Uncancelled, Raced;
    var saved := StoreChain(store, attempts);
    ChainSucceeds(cfg.tasks, cfg.Ok(), store, attempts);
    ResumesOnlyAdd(cfg.tasks, store, attempts, 0);
    SavedPins(cfg, saved);
    EveryInterleavingMeansFinal(cfg, Some(saved), sched);
    AcceptedGraph(cfg.tasks);
    PinningSuccessesChangesNothing(cfg.G(), cfg.Ok(), saved.Keys);
    assert Pins(cfg.tasks, None) == {};
  }
}
