/** From a run to the next routing decision: what the executor returns, the verification engine
    judges and Cog learns from keeps failing capabilities out of later plans. */
module Pipeline {
  import opened Schemas
  import opened Execution
  import opened Scheduling
  import opened RunGuarantees
  import R = Routing
  import V = Verification
  import opened Capabilities
  import opened Policies
  import opened Memory
  import opened Learning

  /** The run as Cog reads it: its results by task id, in some order. */
  function RecordOf(id: string, run: Run, order: seq<TaskId>): RunRecord
    requires forall t :: t in order ==> t in run.results
  {
    RunRecord(id, run.status, seq(|order|, i requires 0 <= i < |order| => (order[i], run.results[order[i]].status)))
  }

  /** Cog's evidence carries the verification engine's verdict on the run. */
  ghost predicate JudgedBy(e: Rewards.Evidence, run: Run, plan: seq<Task>, table: V.CheckTable) {
    e.success == Some(V.AllTrue(V.CheckVerdicts(table, run, Some(plan))))
  }

  lemma {:induction false} NoFailuresCounted(l: Lesson, results: seq<(TaskId, TaskStatus)>, b: string)
    requires forall i :: 0 <= i < |results| ==> results[i].1 != FAILED
    ensures FailedUnder(l, results, b) == 0
    decreases |results|
  {
    if results != [] {
      assert results[|results| - 1].1 != FAILED;
      NoFailuresCounted(l, results[..|results| - 1], b);
    }
  }

  /** A lesson from a run of the executor, judged by the verification engine, is genuine: a run with
      a failed task is never called a success. */
  lemma RunLessonsAreGenuine(cfg: Config, restored: Option<Checkpoint>, sched: Schedule, table: V.CheckTable,
                             id: string, order: seq<TaskId>, evidence: Rewards.Evidence, plan: Option<seq<Task>>)
    requires Finishes(cfg, restored, sched)
    requires forall t :: t in order ==> t in FinalRun(cfg, restored, sched).results
    requires JudgedBy(evidence, FinalRun(cfg, restored, sched), cfg.tasks, table)
    ensures Genuine(Lesson(RecordOf(id, FinalRun(cfg, restored, sched), order), evidence, plan))
  {
    hide Finishes, FinalRun, FinalState, AfterDrain, EndOfLoop, FillResults, V.CheckVerdicts,
         V.AllChecksPass;
    var run := FinalRun(cfg, restored, sched);
    var l := Lesson(RecordOf(id, run, order), evidence, plan);
    V.VerdictsMeaning(table, run, Some(cfg.tasks));
    FinalShape(cfg, restored, sched);
    if l.Success() {
      assert AllCompleted(run.results);
      forall b ensures FailedUnder(l, l.run.results, b) == 0 {
        forall i | 0 <= i < |l.run.results| ensures l.run.results[i].1 != FAILED {
          assert order[i] in order;
        }
        NoFailuresCounted(l, l.run.results, b);
      }
    }
  }

  /** One learned run: what was executed, how it was judged, and the plan it ran. */
  datatype Experience = Experience(
    cfg: Config,
    restored: Option<Checkpoint>,
    sched: Schedule,
    id: string,
    order: seq<TaskId>,
    evidence: Rewards.Evidence,
    plan: Option<seq<Task>>)

  ghost predicate Executed(x: Experience, table: V.CheckTable) {
    && Accepted(x.cfg.tasks) && Finishes(x.cfg, x.restored, x.sched)
    && (forall t :: t in x.order ==> t in FinalRun(x.cfg, x.restored, x.sched).results)
    && JudgedBy(x.evidence, FinalRun(x.cfg, x.restored, x.sched), x.cfg.tasks, table)
  }

  ghost function LessonOf(x: Experience, table: V.CheckTable): Lesson
    requires Executed(x, table)
  {
    Lesson(RecordOf(x.id, FinalRun(x.cfg, x.restored, x.sched), x.order), x.evidence, x.plan)
  }

  ghost predicate LessonsOf(xs: seq<Experience>, table: V.CheckTable, ls: seq<Lesson>) {
    |ls| == |xs| && forall i :: 0 <= i < |xs| ==> Executed(xs[i], table) && ls[i] == LessonOf(xs[i], table)
  }

  lemma ExecutedLessonsAreGenuine(xs: seq<Experience>, table: V.CheckTable, ls: seq<Lesson>)
    requires LessonsOf(xs, table, ls)
    ensures AllGenuine(ls)
  {
    hide Accepted, Finishes, FinalRun, JudgedBy, Genuine;
    forall i | 0 <= i < |ls| ensures Genuine(ls[i]) {
      var x := xs[i];
      assert Executed(x, table);
      RunLessonsAreGenuine(x.cfg, x.restored, x.sched, table, x.id, x.order, x.evidence, x.plan);
    }
  }

  lemma NothingKnown()
    ensures Valid(EMPTY) && DeniedIn(EMPTY) == {} && forall b :: FailureCount([], b) == 0
  {
    EmptyValid();
  }

  /** End to end: after learning from any executed runs, nothing is routed to that carries the name a
      binding with the threshold of recorded failures is split into; this is the capability's own name
      exactly if its version has no at-sign. */
  lemma FailingCapabilitiesAreRoutedAround(xs: seq<Experience>, table: V.CheckTable, ls: seq<Lesson>, th: Thresholds,
                                           id: CapabilityId, records: Records, keys: seq<CapabilityId>, task: Task,
                                           policyId: string, base: R.Policy, d: R.Decision)
    requires LessonsOf(xs, table, ls) && th.failures >= 1
    requires FailureCount(LearnedHistory(Knowledge([], EMPTY), th, ls).items, Text(id)) >= th.failures
    requires Capabilities.Indexed(records, keys)
    requires var rules := ToRoutingPolicy(LearnedHistory(Knowledge([], EMPTY), th, ls).policies, base);
             R.Decided(records, keys, task, R.RoutingPolicy(policyId, rules), d)
    ensures d.chosen.Some? ==> d.chosen.value.name != NameOf(Text(id))
    ensures NameOf(Text(id)) == id.name <==> '@' !in id.version.suffix
  {
    hide LessonsOf, AllGenuine, LearnedHistory, DeniedIn, FailureCount, Text, Valid, NameOf, R.Decided,
         Capabilities.Indexed, ToRoutingPolicy;
    ExecutedLessonsAreGenuine(xs, table, ls);
    NothingKnown();
    DeniedIffEnoughFailures([], EMPTY, th, ls, NameOf(Text(id)));
    DeniedByRules(LearnedHistory(Knowledge([], EMPTY), th, ls).policies, base, NameOf(Text(id)));
    BindingKeepsItsName(id);
    var rules := ToRoutingPolicy(LearnedHistory(Knowledge([], EMPTY), th, ls).policies, base);
    if d.chosen.Some? { R.DecisionNotDenied(records, keys, task, R.RoutingPolicy(policyId, rules), d); }
  }
}
