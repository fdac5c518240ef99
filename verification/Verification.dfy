/** The verification engine: when evidence about a run is trustworthy, and how good it looks.
    Confidence is the score before rounding. */
module Verification {
  import opened Schemas
  import opened Scheduling
  import opened Execution
  import opened RunInvariant
  import opened RunGuarantees
  import opened PinnedPlans

  /** The bus log: events of all runs, told apart by run id, and what others publish about a run later
      under topics of their own. */
  datatype BusEvent = BusEvent(runId: string, event: Event) | Note(runId: string, topic: string)

  /** The events of one run, in log order. */
  function EventsOf(log: seq<BusEvent>, runId: string): seq<Event> {
    if log == [] then []
    else
      var last := log[|log| - 1];
      EventsOf(log[..|log| - 1], runId) + (if last.BusEvent? && last.runId == runId then [last.event] else [])
  }

  /** A run's events are those that the log holds under its id. */
  lemma {:induction false} EventsSay(log: seq<BusEvent>, runId: string, e: Event)
    ensures e in EventsOf(log, runId) <==> BusEvent(runId, e) in log
    decreases |log|
  {
    if log != [] {
      var init, last := log[..|log| - 1], log[|log| - 1];
      assert log == init + [last];
      EventsSay(init, runId, e);
    }
  }

  /** They are in the log's order. */
  lemma {:induction false} EventsJoin(a: seq<BusEvent>, b: seq<BusEvent>, runId: string)
    ensures EventsOf(a + b, runId) == EventsOf(a, runId) + EventsOf(b, runId)
    decreases |b|
  {
    if b == [] {
      assert a + b == a;
    } else {
      EventsJoin(a, b[..|b| - 1], runId);
      assert (a + b)[..|a + b| - 1] == a + b[..|b| - 1];
    }
  }

  lemma NoteIsNoEvent(log: seq<BusEvent>, note: BusEvent, runId: string)
    requires note.Note?
    ensures EventsOf(log + [note], runId) == EventsOf(log, runId)
  {
    assert (log + [note])[..|log|] == log;
  }

  datatype Reason = NotTerminal | MissingResults | StartMissing | EndMissing | Orphans(tasks: set<TaskId>)

  predicate IsTerminalRun(status: RunStatus) { status != RunRunning }

  predicate EndsRun(e: Event) { e == EvRunCompleted || e == EvRunFailed || e == EvRunCancelled }

  /** Tasks started without ever settling. */
  function OrphansIn(events: seq<Event>): set<TaskId> {
    (set i | 0 <= i < |events| && events[i].EvTaskStarted? :: events[i].task) -
    (set i | 0 <= i < |events| && (events[i].EvTaskCompleted? || events[i].EvTaskFailed?) :: events[i].task)
  }

  /** The trace begins and ends, and every started task settles. */
  predicate TraceConsistent(events: seq<Event>) {
    && EvRunStarted in events
    && (exists i :: 0 <= i < |events| && EndsRun(events[i]))
    && (forall i :: 0 <= i < |events| && events[i].EvTaskStarted? ==>
          EvTaskCompleted(events[i].task) in events || EvTaskFailed(events[i].task) in events)
  }

  /** Trustworthy evidence exists: the run is over, every planned task has a result, and the
      trace (when there is a bus) is consistent. */
  predicate Trustworthy(run: Run, plan: Option<seq<Task>>, events: Option<seq<Event>>) {
    && IsTerminalRun(run.status)
    && (plan.Some? ==> forall t :: t in Ids(plan.value) ==> t in run.results)
    && (events.Some? ==> TraceConsistent(events.value))
  }

  // -- checks and scores -----------------------------------------------------------------

  datatype CheckOutcome = Verdict(passed: bool) | Crashed

  type Check = (TaskResult, Task) -> CheckOutcome

  type CheckTable = map<string, seq<Check>>

  function TableChecks(table: CheckTable, capabilityType: string): seq<Check> {
    if capabilityType in table then table[capabilityType] else []
  }

  /** Every registered check of every planned task that has a result passes. */
  predicate AllChecksPass(table: CheckTable, run: Run, plan: seq<Task>) {
    forall i :: 0 <= i < |plan| && plan[i].id in run.results ==>
      forall j :: 0 <= j < |TableChecks(table, plan[i].capabilityType)| ==>
        TableChecks(table, plan[i].capabilityType)[j](run.results[plan[i].id], plan[i]) == Verdict(true)
  }

  /** The verdicts of one task's checks; a task without a result has none. */
  function TaskVerdicts(table: CheckTable, run: Run, task: Task): seq<bool> {
    if task.id !in run.results then []
    else
      var registered := TableChecks(table, task.capabilityType);
      seq(|registered|, j requires 0 <= j < |registered| => registered[j](run.results[task.id], task) == Verdict(true))
  }

  function PlanVerdicts(table: CheckTable, run: Run, tasks: seq<Task>): seq<bool> {
    if tasks == [] then []
    else PlanVerdicts(table, run, tasks[..|tasks| - 1]) + TaskVerdicts(table, run, tasks[|tasks| - 1])
  }

  /** The built-in verdict, then every registered check of every planned task, in order. */
  function CheckVerdicts(table: CheckTable, run: Run, plan: Option<seq<Task>>): seq<bool> {
    [run.status == RunCompleted] + if plan.Some? then PlanVerdicts(table, run, plan.value) else []
  }

  predicate AllTrue(s: seq<bool>) { forall i :: 0 <= i < |s| ==> s[i] }

  function CountTrue(s: seq<bool>): nat {
    if s == [] then 0 else CountTrue(s[..|s| - 1]) + (if s[|s| - 1] then 1 else 0)
  }

  lemma {:induction false} CountTrueBounds(s: seq<bool>)
    ensures CountTrue(s) <= |s|
    ensures CountTrue(s) == |s| <==> AllTrue(s)
    decreases |s|
  {
    if s != [] { CountTrueBounds(s[..|s| - 1]); }
  }

  /** Every positive verdict counts one. */
  lemma {:induction false} CountTrueJoins(a: seq<bool>, b: seq<bool>, v: bool)
    ensures CountTrue(a + b) == CountTrue(a) + CountTrue(b)
    ensures CountTrue([v]) == if v then 1 else 0
    decreases |b|
  {
    assert [v][..0] == [];
    if b == [] {
      assert a + b == a;
    } else {
      CountTrueJoins(a, b[..|b| - 1], v);
      assert (a + b)[..|a + b| - 1] == a + b[..|b| - 1];
    }
  }

  function Fraction(part: nat, whole: nat): real {
    if whole == 0 then 1.0 else part as real / whole as real
  }

  lemma FractionBounds(part: nat, whole: nat)
    requires part <= whole
    ensures 0.0 <= Fraction(part, whole) <= 1.0
    ensures Fraction(part, whole) == 1.0 <==> part == whole
  {
    if whole != 0 { QuotientBounds(part as real, whole as real); }
  }

  function Times(a: real, w: real): real { a * w }

  lemma TimesOrdered(a: real, b: real, w: real)
    requires w > 0.0
    ensures a <= b <==> Times(a, w) <= Times(b, w)
  {
    assert (b - a) * w == b * w - a * w;
    if a <= b {
      assert (b - a) * w >= 0.0;
    } else {
      assert (a - b) * w > 0.0;
      assert (a - b) * w == a * w - b * w;
    }
  }

  lemma TimesKnown(x: real, w: real)
    requires w > 0.0
    ensures Times(x / w, w) == x && Times(0.0, w) == 0.0 && Times(1.0, w) == w
  {}

  lemma QuotientBounds(x: real, w: real)
    requires 0.0 <= x <= w && w > 0.0
    ensures 0.0 <= x / w <= 1.0
    ensures x / w == 1.0 <==> x == w
  {
    hide Times;
    TimesKnown(x, w);
    TimesOrdered(0.0, x / w, w);
    TimesOrdered(x / w, 1.0, w);
    TimesOrdered(1.0, x / w, w);
  }

  /** A fraction is the share that it names, and 1 of nothing. */
  lemma FractionSays(part: nat, whole: nat)
    ensures whole > 0 ==> Fraction(part, whole) * whole as real == part as real
    ensures whole == 0 ==> Fraction(part, whole) == 1.0
  {
    if whole > 0 {
      TimesKnown(part as real, whole as real);
      assert Times(part as real / whole as real, whole as real) == part as real;
    }
  }

  datatype Scoring = Scoring(completion: real, checkRate: real, firstAttempt: real, trace: Option<bool>)

  function CompletedTasks(run: Run): set<TaskId> {
    set t | t in run.results && run.results[t].status == COMPLETED
  }

  function FirstAttemptTasks(run: Run): set<TaskId> {
    set t | t in run.results && run.results[t].status == COMPLETED && run.results[t].attempts == 1
  }

  function Score(run: Run, checks: seq<bool>, traceOk: Option<bool>): Scoring {
    Scoring(Fraction(|CompletedTasks(run)|, |run.results|),
            Fraction(CountTrue(checks), |checks|),
            Fraction(|FirstAttemptTasks(run)|, |CompletedTasks(run)|),
            traceOk)
  }

  function Confidence(s: Scoring): real {
    var base := 0.5 * s.completion + 0.3 * s.checkRate + 0.1 * s.firstAttempt;
    if s.trace.None? then base / 0.9 else base + (if s.trace.value then 0.1 else 0.0)
  }

  lemma SubsetFraction(part: set<TaskId>, whole: set<TaskId>)
    requires part <= whole
    ensures 0.0 <= Fraction(|part|, |whole|) <= 1.0
    ensures Fraction(|part|, |whole|) == 1.0 <==> part == whole
  {
    var rest := whole - part;
    assert whole == part + rest && |whole| == |part| + |rest|;
    if |part| == |whole| { assert rest == {}; assert part == whole; }
    FractionBounds(|part|, |whole|);
  }

  /** Nothing about the run could look better. */
  predicate Flawless(run: Run, checks: seq<bool>, traceOk: Option<bool>) {
    && (forall t :: t in run.results ==> run.results[t].status == COMPLETED && run.results[t].attempts == 1)
    && AllTrue(checks) && (traceOk.Some? ==> traceOk.value)
  }

  /** Confidence lies in [0, 1], and is 1 exactly for a flawless run. */
  lemma ConfidenceMeaning(run: Run, checks: seq<bool>, traceOk: Option<bool>)
    ensures 0.0 <= Confidence(Score(run, checks, traceOk)) <= 1.0
    ensures Confidence(Score(run, checks, traceOk)) == 1.0 <==> Flawless(run, checks, traceOk)
  {
    var s := Score(run, checks, traceOk);
    SubsetFraction(CompletedTasks(run), run.results.Keys);
    assert |run.results.Keys| == |run.results|;
    SubsetFraction(FirstAttemptTasks(run), CompletedTasks(run));
    CountTrueBounds(checks);
    FractionBounds(CountTrue(checks), |checks|);
    ConfidenceArithmetic(s);
    if s.completion == 1.0 && s.firstAttempt == 1.0 {
      forall t | t in run.results ensures run.results[t].status == COMPLETED && run.results[t].attempts == 1 {
        assert t in CompletedTasks(run);
        assert t in FirstAttemptTasks(run);
      }
    }
    if Flawless(run, checks, traceOk) {
      assert CompletedTasks(run) == run.results.Keys;
      assert FirstAttemptTasks(run) == CompletedTasks(run);
    }
  }

  lemma ConfidenceArithmetic(s: Scoring)
    requires 0.0 <= s.completion <= 1.0 && 0.0 <= s.checkRate <= 1.0 && 0.0 <= s.firstAttempt <= 1.0
    ensures 0.0 <= Confidence(s) <= 1.0
    ensures Confidence(s) == 1.0 <==>
              s.completion == 1.0 && s.checkRate == 1.0 && s.firstAttempt == 1.0 && (s.trace.Some? ==> s.trace.value)
  {}

  // -- the engine ------------------------------------------------------------------------------

  datatype Evidence = Evidence(verified: bool, confidence: real, success: bool, checks: seq<bool>, reasons: seq<Reason>)

  class VerificationEngine {
    var checks: CheckTable

    constructor ()
      ensures checks == map[]
    {
      checks := map[];
    }

    method RegisterCheck(capabilityType: string, check: Check)
      modifies this
      ensures var registered := if capabilityType in old(checks) then old(checks)[capabilityType] else [];
              checks == old(checks)[capabilityType := registered + [check]]
    {
      checks := checks[capabilityType := TableChecks(checks, capabilityType) + [check]];
    }

    /** The problems of a trace, in the order they are reported. */
    method TraceProblems(events: seq<Event>) returns (problems: seq<Reason>)
      ensures problems == [] <==>
              && EvRunStarted in events
              && (EvRunCompleted in events || EvRunFailed in events || EvRunCancelled in events)
              && forall t :: EvTaskStarted(t) in events ==> EvTaskCompleted(t) in events || EvTaskFailed(t) in events
      ensures problems == [] <==> TraceConsistent(events)
    {
      ConsistentSays(events);
      problems := [];
      if EvRunStarted !in events { problems := problems + [StartMissing]; }
      if !(exists i :: 0 <= i < |events| && EndsRun(events[i])) { problems := problems + [EndMissing]; }
      var orphans := OrphansIn(events);
      OrphansAreUnsettled(events);
      if orphans != {} { problems := problems + [Orphans(orphans)]; }
    }

    /** One verdict per check, the built-in one first; a crashing check fails. */
    method RunChecks(run: Run, plan: Option<seq<Task>>) returns (verdicts: seq<bool>)
      ensures verdicts == CheckVerdicts(checks, run, plan)
    {
      hide TaskVerdicts, TableChecks;
      verdicts := [run.status == RunCompleted];
      if plan.None? { return; }
      var tasks := plan.value;
      for i := 0 to |tasks|
        invariant verdicts == [run.status == RunCompleted] + PlanVerdicts(checks, run, tasks[..i])
      {
        assert tasks[..i + 1] == tasks[..i] + [tasks[i]];
        if tasks[i].id in run.results {
          var more := CheckTask(run, tasks[i]);
          verdicts := verdicts + more;
        } else {
          NoVerdicts(checks, run, tasks[i]);
        }
      }
      assert tasks[..|tasks|] == tasks;
    }

    method CheckTask(run: Run, task: Task) returns (verdicts: seq<bool>)
      requires task.id in run.results
      ensures task.capabilityType !in checks ==> verdicts == []
      ensures task.capabilityType in checks ==>
                var registered := checks[task.capabilityType];
                && |verdicts| == |registered|
                && forall j :: 0 <= j < |registered| ==>
                     (verdicts[j] <==> registered[j](run.results[task.id], task) == Verdict(true))
      ensures verdicts == TaskVerdicts(checks, run, task)
    {
      verdicts := [];
      var registered := TableChecks(checks, task.capabilityType);
      for j := 0 to |registered|
        invariant |verdicts| == j
        invariant forall k :: 0 <= k < j ==> verdicts[k] == (registered[k](run.results[task.id], task) == Verdict(true))
      {
        verdicts := verdicts + [registered[j](run.results[task.id], task) == Verdict(true)];
      }
    }

    /** The verdict is published on the bus; that changes no run's events, so judging again gives the
        same. */
    method Verify(run: Run, runId: string, plan: Option<seq<Task>>, log: Option<seq<BusEvent>>)
      returns (e: Evidence, now: Option<seq<BusEvent>>)
      ensures now == if log.Some?
                     then Some(log.value + [Note(runId, if e.verified then "run.verified" else "run.unverified")])
                     else None
      ensures log.Some? ==> forall id :: EventsOf(now.value, id) == EventsOf(log.value, id)
      ensures e.verified <==>
                Trustworthy(run, plan, if log.Some? then Some(EventsOf(log.value, runId)) else None)
      ensures e.success <==> run.status == RunCompleted && (plan.Some? ==> AllChecksPass(checks, run, plan.value))
      ensures e.checks == CheckVerdicts(checks, run, plan)
      ensures e.verified ==>
                var completed := set t | t in run.results && run.results[t].status == COMPLETED;
                var atOnce := set t | t in completed && run.results[t].attempts == 1;
                e.confidence * (if log.Some? then 1.0 else 0.9) ==
                0.5 * Fraction(|completed|, |run.results|) + 0.3 * Fraction(CountTrue(e.checks), |e.checks|)
                + 0.1 * Fraction(|atOnce|, |completed|) + (if log.Some? then 0.1 else 0.0)
      ensures 0.0 <= e.confidence <= 1.0
      ensures !e.verified ==> e.confidence == 0.0
      ensures e.confidence == 1.0 ==> e.verified && e.success
      ensures e.verified && e.success ==>
                (e.confidence == 1.0 <==>
                   forall t :: t in run.results ==> run.results[t].status == COMPLETED && run.results[t].attempts == 1)
      ensures e.verified <==> e.reasons == []
    {
      hide Fraction, CountTrue, AllChecksPass, CheckVerdicts, OrphansIn, EventsOf, TraceConsistent;
      var reasons: seq<Reason> := [];
      if !IsTerminalRun(run.status) { reasons := reasons + [NotTerminal]; }
      if plan.Some? {
        if !(forall t :: t in Ids(plan.value) ==> t in run.results) { reasons := reasons + [MissingResults]; }
      }
      var traceOk: Option<bool> := None;
      if log.Some? {
        var problems := TraceProblems(EventsOf(log.value, runId));
        traceOk := Some(problems == []);
        reasons := reasons + problems;
      }
      var verified := reasons == [];
      var verdicts := RunChecks(run, plan);
      VerdictsMeaning(checks, run, plan);
      ConfidenceMeaning(run, verdicts, traceOk);
      assert CompletedTasks(run) == set t | t in run.results && run.results[t].status == COMPLETED;
      assert FirstAttemptTasks(run) == set t | t in CompletedTasks(run) && run.results[t].attempts == 1;
      e := Evidence(verified, if verified then Confidence(Score(run, verdicts, traceOk)) else 0.0,
                    AllTrue(verdicts), verdicts, reasons);
      now := None;
      if log.Some? {
        var note := Note(runId, if verified then "run.verified" else "run.unverified");
        forall id ensures EventsOf(log.value + [note], id) == EventsOf(log.value, id) {
          NoteIsNoEvent(log.value, note, id);
        }
        now := Some(log.value + [note]);
      }
    }
  }

  lemma NoVerdicts(table: CheckTable, run: Run, task: Task)
    requires task.id !in run.results
    ensures TaskVerdicts(table, run, task) == []
  {}

  lemma ConsistentSays(events: seq<Event>)
    ensures TraceConsistent(events) <==>
            && EvRunStarted in events
            && (EvRunCompleted in events || EvRunFailed in events || EvRunCancelled in events)
            && forall t :: EvTaskStarted(t) in events ==> EvTaskCompleted(t) in events || EvTaskFailed(t) in events
  {
    if e :| e in events && EndsRun(e) {
      var i :| 0 <= i < |events| && events[i] == e;
      assert EndsRun(events[i]);
    }
    if i :| 0 <= i < |events| && EndsRun(events[i]) { assert events[i] in events; }
    forall i | 0 <= i < |events| && events[i].EvTaskStarted? ensures events[i] == EvTaskStarted(events[i].task) {}
    forall t | EvTaskStarted(t) in events
      ensures exists i :: 0 <= i < |events| && events[i].EvTaskStarted? && events[i].task == t
    {
      var i :| 0 <= i < |events| && events[i] == EvTaskStarted(t);
    }
  }

  /** When evidence is trustworthy: the run is over, every planned task has a result, and on a bus the
      run started and ended and every task that started has settled. */
  lemma TrustworthySays(run: Run, plan: Option<seq<Task>>, events: Option<seq<Event>>)
    ensures Trustworthy(run, plan, events) <==>
            && run.status != RunRunning
            && (plan.Some? ==> forall i :: 0 <= i < |plan.value| ==> plan.value[i].id in run.results)
            && (events.Some? ==>
                  && EvRunStarted in events.value
                  && (EvRunCompleted in events.value || EvRunFailed in events.value || EvRunCancelled in events.value)
                  && forall t :: EvTaskStarted(t) in events.value ==>
                                   EvTaskCompleted(t) in events.value || EvTaskFailed(t) in events.value)
  {
    if events.Some? { ConsistentSays(events.value); }
    hide TraceConsistent;
    if plan.Some? {
      forall i | 0 <= i < |plan.value| ensures plan.value[i].id in Ids(plan.value) {
        assert Ids(plan.value)[i] == plan.value[i].id;
      }
    }
  }

  /** The same for the log, which holds the events of all runs. */
  lemma TrustworthyOnTheBus(run: Run, plan: Option<seq<Task>>, log: Option<seq<BusEvent>>, runId: string)
    ensures Trustworthy(run, plan, if log.Some? then Some(EventsOf(log.value, runId)) else None) <==>
            && run.status != RunRunning
            && (plan.Some? ==> forall i :: 0 <= i < |plan.value| ==> plan.value[i].id in run.results)
            && (log.Some? ==>
                  && BusEvent(runId, EvRunStarted) in log.value
                  && (|| BusEvent(runId, EvRunCompleted) in log.value || BusEvent(runId, EvRunFailed) in log.value
                      || BusEvent(runId, EvRunCancelled) in log.value)
                  && forall t :: BusEvent(runId, EvTaskStarted(t)) in log.value ==>
                       || BusEvent(runId, EvTaskCompleted(t)) in log.value
                       || BusEvent(runId, EvTaskFailed(t)) in log.value)
  {
    TrustworthySays(run, plan, if log.Some? then Some(EventsOf(log.value, runId)) else None);
    hide Trustworthy, EventsOf;
    if log.Some? {
      forall e ensures e in EventsOf(log.value, runId) <==> BusEvent(runId, e) in log.value {
        EventsSay(log.value, runId, e);
      }
    }
  }

  /** All checks pass, over the table itself. */
  lemma AllChecksPassSays(table: CheckTable, run: Run, plan: seq<Task>)
    ensures AllChecksPass(table, run, plan) <==>
            forall i, j :: 0 <= i < |plan| && plan[i].id in run.results && plan[i].capabilityType in table
                           && 0 <= j < |table[plan[i].capabilityType]| ==>
              table[plan[i].capabilityType][j](run.results[plan[i].id], plan[i]) == Verdict(true)
  {
    if AllChecksPass(table, run, plan) {
      forall i, j | 0 <= i < |plan| && plan[i].id in run.results && plan[i].capabilityType in table
                    && 0 <= j < |table[plan[i].capabilityType]|
        ensures table[plan[i].capabilityType][j](run.results[plan[i].id], plan[i]) == Verdict(true)
      {
        assert TableChecks(table, plan[i].capabilityType)[j](run.results[plan[i].id], plan[i]) == Verdict(true);
      }
    }
  }

  /** The verdicts on several tasks are those on each, one after another. */
  lemma {:induction false} VerdictsJoin(table: CheckTable, run: Run, a: seq<Task>, b: seq<Task>)
    ensures PlanVerdicts(table, run, a + b) == PlanVerdicts(table, run, a) + PlanVerdicts(table, run, b)
    ensures |b| == 1 ==> PlanVerdicts(table, run, b) == TaskVerdicts(table, run, b[0])
    decreases |b|
  {
    hide TaskVerdicts;
    if |b| == 1 { assert b[..0] == [] && PlanVerdicts(table, run, []) == []; }
    if b == [] {
      assert a + b == a;
    } else {
      VerdictsJoin(table, run, a, b[..|b| - 1]);
      assert (a + b)[..|a + b| - 1] == a + b[..|b| - 1];
    }
  }

  lemma OrphansAreUnsettled(events: seq<Event>)
    ensures OrphansIn(events) == {} <==>
            forall i :: 0 <= i < |events| && events[i].EvTaskStarted? ==>
              EvTaskCompleted(events[i].task) in events || EvTaskFailed(events[i].task) in events
  {
    forall i | 0 <= i < |events| && events[i].EvTaskStarted?
      ensures events[i].task in OrphansIn(events) <==>
              !(EvTaskCompleted(events[i].task) in events || EvTaskFailed(events[i].task) in events)
    {
      var t := events[i].task;
      if EvTaskCompleted(t) in events {
        var k :| 0 <= k < |events| && events[k] == EvTaskCompleted(t);
        assert events[k].task == t;
      }
      if EvTaskFailed(t) in events {
        var k :| 0 <= k < |events| && events[k] == EvTaskFailed(t);
        assert events[k].task == t;
      }
    }
    if OrphansIn(events) != {} {
      var t :| t in OrphansIn(events);
      var i :| 0 <= i < |events| && events[i].EvTaskStarted? && events[i].task == t;
    }
  }

  /** All verdicts are positive iff the run completed and every applicable check passes. */
  lemma VerdictsMeaning(table: CheckTable, run: Run, plan: Option<seq<Task>>)
    ensures AllTrue(CheckVerdicts(table, run, plan)) <==>
              run.status == RunCompleted && (plan.Some? ==> AllChecksPass(table, run, plan.value))
  {
    var first := [run.status == RunCompleted];
    assert AllTrue(first) <==> first[0];
    if plan.Some? {
      AllTrueConcat(first, PlanVerdicts(table, run, plan.value));
      PlanVerdictsMeaning(table, run, plan.value);
    } else {
      assert first + [] == first;
    }
  }

  lemma {:induction false} PlanVerdictsMeaning(table: CheckTable, run: Run, tasks: seq<Task>)
    ensures AllTrue(PlanVerdicts(table, run, tasks)) <==> AllChecksPass(table, run, tasks)
    decreases |tasks|
  {
    if tasks != [] {
      var n := |tasks|;
      PlanVerdictsMeaning(table, run, tasks[..n - 1]);
      AllTrueConcat(PlanVerdicts(table, run, tasks[..n - 1]), TaskVerdicts(table, run, tasks[n - 1]));
      AllChecksPassStep(table, run, tasks, n - 1);
      assert tasks[..n] == tasks;
      TaskVerdictsMeaning(table, run, tasks[n - 1]);
    }
  }

  lemma TaskVerdictsMeaning(table: CheckTable, run: Run, task: Task)
    ensures AllTrue(TaskVerdicts(table, run, task)) <==> AllChecksPass(table, run, [task])
  {
    assert [task][0] == task;
    var vs := TaskVerdicts(table, run, task);
    if task.id in run.results {
      var registered := TableChecks(table, task.capabilityType);
      var r := run.results[task.id];
      assert forall j :: 0 <= j < |registered| ==> vs[j] == (registered[j](r, task) == Verdict(true));
    }
  }

  lemma AllTrueConcat(a: seq<bool>, b: seq<bool>)
    ensures AllTrue(a + b) <==> AllTrue(a) && AllTrue(b)
  {
    if AllTrue(a + b) {
      forall i | 0 <= i < |a| ensures a[i] { assert (a + b)[i]; }
      forall i | 0 <= i < |b| ensures b[i] { assert (a + b)[|a| + i]; }
    }
  }

  lemma AllChecksPassStep(table: CheckTable, run: Run, tasks: seq<Task>, i: nat)
    requires i < |tasks|
    ensures AllChecksPass(table, run, tasks[..i + 1]) <==>
            AllChecksPass(table, run, tasks[..i]) && AllChecksPass(table, run, [tasks[i]])
  {
    var all, init, one := tasks[..i + 1], tasks[..i], [tasks[i]];
    assert forall k :: 0 <= k < i ==> all[k] == init[k];
    assert all[i] == one[0];
  }

  // -- runs of the executor ------------------------------------------------------------------------

  lemma CountedIn(trace: seq<Event>, e: Event)
    ensures Count(trace, e) > 0 <==> e in trace
  {
    assert e in trace <==> e in multiset(trace);
  }

  lemma OwnTraceIsConsistent(trace: seq<Event>, status: RunStatus, ids: set<TaskId>)
    requires EvRunStarted in trace && TerminalEvent(status) in trace
    requires forall t :: t in ids ==> SettlesWhatItStarts(trace, t)
    requires forall i :: 0 <= i < |trace| ==> PlanEvent(trace[i], ids)
    ensures TraceConsistent(trace)
  {
    var e := TerminalEvent(status);
    assert EndsRun(e);
    var k :| 0 <= k < |trace| && trace[k] == e;
    forall i | 0 <= i < |trace| && trace[i].EvTaskStarted?
      ensures EvTaskCompleted(trace[i].task) in trace || EvTaskFailed(trace[i].task) in trace
    {
      var t := trace[i].task;
      assert SettlesWhatItStarts(trace, t);
      assert trace[i] == EvTaskStarted(t);
      CountedIn(trace, EvTaskStarted(t));
      CountedIn(trace, EvTaskCompleted(t));
      CountedIn(trace, EvTaskFailed(t));
    }
  }

  /** Whatever happened during a run, its record and trace are verifiable: the evidence about any
      run the executor returns is trustworthy, on any bus log that holds the run's own events, whatever
      else was published about it. */
  lemma EveryRunVerifies(cfg: Config, restored: Option<Checkpoint>, sched: Schedule, runId: string, log: seq<BusEvent>)
    requires Accepted(cfg.tasks) && Finishes(cfg, restored, sched)
    requires EventsOf(log, runId) == FinalRun(cfg, restored, sched).trace
    ensures Trustworthy(FinalRun(cfg, restored, sched), Some(cfg.tasks), Some(EventsOf(log, runId)))
  {
    hide FinalRun, FinalState, Finishes, TraceConsistent, SettlesWhatItStarts, PlanEvent, Accepted, PlanGraph;
    var run, f := FinalRun(cfg, restored, sched), FinalState(cfg, restored, sched);
    AnyCheckpointIsTruthful(cfg, restored, sched);
    AcceptedGraph(cfg.tasks);
    forall t | t in cfg.G().Keys ensures SettlesWhatItStarts(run.trace, t) {
      assert Truthful(f, Pins(cfg.tasks, restored), t);
    }
    OwnTraceIsConsistent(run.trace, run.status, cfg.G().Keys);
  }
}
