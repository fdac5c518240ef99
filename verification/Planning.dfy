/** The planner: an intent becomes a chain of goal tasks closed by a verify task, and after a
    failure a plan is rewritten into a successor for the tasks that are left. */
module Planning {
  import opened Schemas
  import opened Dag
  import opened Semantics
  import opened Kahn
  import opened Scheduling
  import opened Execution
  import opened RunLoop
  import opened RunTheorems

  datatype Intent = Intent(
    id: string,
    goals: seq<string>,
    constraints: seq<string>,
    desiredOutcomes: seq<string>,
    contextRefs: seq<string>)

  datatype Budget = Budget(gatherContext: bool)

  /** Plan ids are digests of what they list; distinct lists are taken to give distinct ids. The budget
      is not listed, so plans with and without a gather task can share an id. */
  datatype PlanId =
    | Created(intent: string, goals: seq<string>, constraints: seq<string>, outcomes: seq<string>, refs: seq<string>)
    | Revised(parent: PlanId, evidence: string, completed: set<TaskId>)

  datatype Plan = Plan(id: PlanId, tasks: seq<Task>, intent: Option<string>, provenance: Option<(PlanId, string)>)

  datatype PlannerError = NoGoals | NothingToReplan

  datatype PlannerEvent =
    | PlanCreated(plan: PlanId, taskCount: nat)
    | PlanRevised(plan: PlanId, dropped: set<TaskId>)

  // -- the shape of a plan -----------------------------------------------------------------

  function WantsGather(intent: Intent, budget: Option<Budget>): bool {
    intent.contextRefs != [] && (budget.None? || budget.value.gatherContext)
  }

  function GatherTask(): Task { Task(Gather, "research", "gather context", [], 0, None, PENDING) }

  /** The k-th goal (from zero) waits for the one before it, the first for the gathered context. */
  function GoalTask(goals: seq<string>, classify: string -> string, gather: bool, k: nat): Task
    requires k < |goals|
  {
    Task(Goal(k + 1), classify(goals[k]), goals[k],
         if k > 0 then [Goal(k)] else if gather then [Gather] else [], 0, None, PENDING)
  }

  function GoalTasks(goals: seq<string>, classify: string -> string, gather: bool): seq<Task> {
    seq(|goals|, k requires 0 <= k < |goals| => GoalTask(goals, classify, gather, k))
  }

  function GoalIds(n: nat): (ids: seq<TaskId>)
    ensures |ids| == n && forall k :: 0 <= k < n ==> ids[k] == Goal(k + 1)
  {
    seq(n, k requires 0 <= k < n => Goal(k + 1))
  }

  function VerifyTask(n: nat): Task {
    Task(Verify, "verify", "verify", GoalIds(n), 0, None, PENDING)
  }

  function PlannedTasks(goals: seq<string>, classify: string -> string, gather: bool): seq<Task> {
    (if gather then [GatherTask()] else []) + GoalTasks(goals, classify, gather) + [VerifyTask(|goals|)]
  }

  // -- rewriting a plan ----------------------------------------------------------------------

  function Kept(tasks: seq<Task>, completed: set<TaskId>): seq<Task> {
    if tasks == [] then []
    else
      var last := tasks[|tasks| - 1];
      Kept(tasks[..|tasks| - 1], completed) + (if last.id in completed then [] else [last])
  }

  function Released(deps: seq<TaskId>, kept: set<TaskId>): (r: seq<TaskId>)
    ensures forall d :: d in r <==> d in deps && d in kept
  {
    if deps == [] then []
    else
      assert deps == deps[..|deps| - 1] + [deps[|deps| - 1]];
      Released(deps[..|deps| - 1], kept) + (if deps[|deps| - 1] in kept then [deps[|deps| - 1]] else [])
  }

  function Rewritten(task: Task, kept: set<TaskId>): Task {
    task.(dependsOn := Released(task.dependsOn, kept), status := PENDING, binding := None)
  }

  /** The successor's tasks: what is not completed, freed of dependencies on what is. */
  ghost function Successor(tasks: seq<Task>, completed: set<TaskId>): seq<Task> {
    var kept := Kept(tasks, completed);
    seq(|kept|, i requires 0 <= i < |kept| => Rewritten(kept[i], Elements(Ids(kept))))
  }

  // -- the planner ----------------------------------------------------------------------------

  class Planner {
    const classify: string -> string
    const publishes: bool
    var log: seq<PlannerEvent>

    constructor (classify: string -> string, publishes: bool)
      ensures this.classify == classify && this.publishes == publishes && log == []
    {
      this.classify, this.publishes, log := classify, publishes, [];
    }

    method MakePlan(intent: Intent, budget: Option<Budget>) returns (err: Option<PlannerError>, plan: Option<Plan>)
      modifies this`log
      ensures intent.goals == [] ==> err == Some(NoGoals) && plan == None && log == old(log)
      ensures intent.goals != [] ==>
                && err == None && plan.Some? && plan.value.provenance == None && plan.value.intent == Some(intent.id)
                && plan.value.id == Created(intent.id, intent.goals, intent.constraints, intent.desiredOutcomes,
                                            intent.contextRefs)
                && plan.value.tasks == PlannedTasks(intent.goals, classify, WantsGather(intent, budget))
      ensures intent.goals != [] ==>
                log == old(log) + if publishes then [PlanCreated(plan.value.id, |plan.value.tasks|)] else []
    {
      if intent.goals == [] { return Some(NoGoals), None; }
      var tasks: seq<Task>, gatherId: Option<TaskId> := [], None;
      var wantGather := if budget.Some? then budget.value.gatherContext else true;
      if intent.contextRefs != [] && wantGather {
        gatherId := Some(Gather);
        tasks := tasks + [GatherTask()];
      }
      var goalIds: seq<TaskId> := [];
      ghost var gather, first := gatherId.Some?, tasks;
      for k := 0 to |intent.goals|
        invariant goalIds == GoalIds(k)
        invariant tasks == first + GoalTasks(intent.goals, classify, gather)[..k]
      {
        var previous := if goalIds != [] then Some(goalIds[|goalIds| - 1]) else gatherId;
        var task := Task(Goal(k + 1), classify(intent.goals[k]), intent.goals[k],
                         if previous.Some? then [previous.value] else [], 0, None, PENDING);
        assert task == GoalTask(intent.goals, classify, gather, k);
        tasks, goalIds := tasks + [task], goalIds + [Goal(k + 1)];
      }
      tasks := tasks + [Task(Verify, "verify", "verify", goalIds, 0, None, PENDING)];
      var id := Created(intent.id, intent.goals, intent.constraints, intent.desiredOutcomes, intent.contextRefs);
      if publishes { log := log + [PlanCreated(id, |tasks|)]; }
      return None, Some(Plan(id, tasks, Some(intent.id), None));
    }

    method Replan(plan: Plan, evidence: string, completed: set<TaskId>)
      returns (err: Option<PlannerError>, next: Option<Plan>)
      modifies this`log
      ensures err == Some(NothingToReplan) <==> forall t :: t in Ids(plan.tasks) ==> t in completed
      ensures err.Some? ==> err.value == NothingToReplan && next == None && log == old(log)
      ensures err.None? ==> next.Some? && next.value.tasks == Successor(plan.tasks, completed)
      ensures err.None? ==> next.value.id == Revised(plan.id, evidence, completed) && next.value.intent == plan.intent
      ensures err.None? ==> next.value.provenance == Some((plan.id, evidence))
      ensures err.None? && publishes ==>
                log == old(log) + [PlanRevised(next.value.id, completed * Elements(Ids(plan.tasks)))]
      ensures !publishes ==> log == old(log)
    {
      KeptMembers(plan.tasks, completed);
      var kept := Kept(plan.tasks, completed);
      if kept == [] { return Some(NothingToReplan), None; }
      assert Ids(kept)[0] in Ids(kept);
      var keptIds := set i | 0 <= i < |kept| :: kept[i].id;
      assert keptIds == Elements(Ids(kept));
      var tasks := seq(|kept|, i requires 0 <= i < |kept| => Rewritten(kept[i], keptIds));
      var id := Revised(plan.id, evidence, completed);
      if publishes {
        var all := set i | 0 <= i < |plan.tasks| :: plan.tasks[i].id;
        assert all == Elements(Ids(plan.tasks));
        log := log + [PlanRevised(id, completed * all)];
      }
      return None, Some(Plan(id, tasks, plan.intent, Some((plan.id, evidence))));
    }
  }

  // -- every plan is valid, and its verify task decides -----------------------------------------

  /** Where the tasks of a plan stand. */
  lemma PlannedAt(goals: seq<string>, classify: string -> string, gather: bool)
    ensures var tasks, off := PlannedTasks(goals, classify, gather), if gather then 1 else 0;
            && |tasks| == off + |goals| + 1 && tasks[|tasks| - 1] == VerifyTask(|goals|)
            && (gather ==> tasks[0] == GatherTask())
            && forall k :: 0 <= k < |goals| ==> tasks[off + k] == GoalTask(goals, classify, gather, k)
  {}

  /** A plan's task for its k-th goal: of the type the goal is classified as, with the goal as its
      payload, waiting for the one before, the first for the gathered context if there is any. */
  lemma GoalTaskSays(goals: seq<string>, classify: string -> string, gather: bool, k: nat)
    requires k < |goals|
    ensures var (tasks, off) := (PlannedTasks(goals, classify, gather), if gather then 1 else 0);
            && |tasks| == off + |goals| + 1
            && var task := tasks[off + k];
            && task.id == Goal(k + 1) && task.capabilityType == classify(goals[k]) && task.payload == goals[k]
            && task.dependsOn == (if off + k > 0 then [tasks[off + k - 1].id] else [])
            && task.priority == 0 && task.binding == None && task.status == PENDING
  {
    PlannedAt(goals, classify, gather);
    var off := if gather then 1 else 0;
    var tasks := PlannedTasks(goals, classify, gather);
    hide PlannedTasks;
    assert tasks[off + k] == GoalTask(goals, classify, gather, k);
    if k > 0 { assert tasks[off + (k - 1)] == GoalTask(goals, classify, gather, k - 1); }
  }

  /** The tasks around them: the context is gathered first if there is any and the budget allows it, and
      last comes the verification, waiting for every goal. */
  lemma PlanEndsSay(intent: Intent, budget: Option<Budget>, classify: string -> string)
    ensures var gather := intent.contextRefs != [] && (budget.Some? ==> budget.value.gatherContext);
            var tasks := PlannedTasks(intent.goals, classify, WantsGather(intent, budget));
            var last := tasks[|tasks| - 1];
            && |tasks| == |intent.goals| + (if gather then 2 else 1)
            && (gather ==> tasks[0] == Task(Gather, "research", tasks[0].payload, [], 0, None, PENDING))
            && last == Task(Verify, "verify", last.payload, last.dependsOn, 0, None, PENDING)
            && |last.dependsOn| == |intent.goals|
            && forall k :: 0 <= k < |intent.goals| ==> last.dependsOn[k] == Goal(k + 1)
  {
    PlannedAt(intent.goals, classify, WantsGather(intent, budget));
    hide PlannedTasks;
  }

  /** Dependencies point backwards, and every task waits at least for the one before it. */
  ghost predicate Chained(tasks: seq<Task>) {
    && NoDuplicates(Ids(tasks))
    && (forall i, d :: 0 <= i < |tasks| && d in tasks[i].dependsOn ==> d in Ids(tasks)[..i])
    && (forall i, j :: 0 <= i && j == i + 1 && j < |tasks| ==> tasks[i].id in tasks[j].dependsOn)
  }

  function PlannedId(n: nat, off: nat, i: nat): TaskId {
    if i == off + n then Verify else if i < off then Gather else Goal(i - off + 1)
  }

  lemma PlannedIds(goals: seq<string>, classify: string -> string, gather: bool)
    ensures var tasks, off := PlannedTasks(goals, classify, gather), if gather then 1 else 0;
            && |tasks| == off + |goals| + 1
            && (forall i :: 0 <= i < |tasks| ==> Ids(tasks)[i] == PlannedId(|goals|, off, i))
            && NoDuplicates(Ids(tasks))
  {
    PlannedAt(goals, classify, gather);
    var tasks, off := PlannedTasks(goals, classify, gather), if gather then 1 else 0;
    hide PlannedTasks;
    forall i | 0 <= i < |tasks| ensures Ids(tasks)[i] == PlannedId(|goals|, off, i) {
      if off <= i < |tasks| - 1 { assert tasks[off + (i - off)] == GoalTask(goals, classify, gather, i - off); }
    }
  }

  /** The dependencies of the task at position `i` stand before it, the previous task among them. */
  lemma PlannedDeps(goals: seq<string>, classify: string -> string, gather: bool, i: nat)
    requires goals != [] && i < |PlannedTasks(goals, classify, gather)|
    ensures var tasks := PlannedTasks(goals, classify, gather);
            && (forall d :: d in tasks[i].dependsOn ==> d in Ids(tasks)[..i])
            && (i > 0 ==> Ids(tasks)[i - 1] in tasks[i].dependsOn)
  {
    PlannedAt(goals, classify, gather);
    PlannedIds(goals, classify, gather);
    var tasks, off := PlannedTasks(goals, classify, gather), if gather then 1 else 0;
    hide PlannedTasks;
    var ids := Ids(tasks);
    if i == |tasks| - 1 {
      forall d | d in tasks[i].dependsOn ensures d in ids[..i] {
        var k :| 0 <= k < |goals| && GoalIds(|goals|)[k] == d;
        assert ids[..i][off + k] == d;
      }
      assert GoalIds(|goals|)[|goals| - 1] == ids[i - 1];
    } else if i >= off {
      assert tasks[off + (i - off)] == GoalTask(goals, classify, gather, i - off);
      if i > 0 { assert ids[..i][i - 1] == ids[i - 1]; }
    }
  }

  lemma PlannedIsChained(goals: seq<string>, classify: string -> string, gather: bool)
    requires goals != []
    ensures Chained(PlannedTasks(goals, classify, gather))
  {
    var tasks := PlannedTasks(goals, classify, gather);
    PlannedIds(goals, classify, gather);
    hide PlannedTasks, PlannedId;
    forall i | 0 <= i < |tasks|
      ensures forall d :: d in tasks[i].dependsOn ==> d in Ids(tasks)[..i]
      ensures i > 0 ==> tasks[i - 1].id in tasks[i].dependsOn
    {
      PlannedDeps(goals, classify, gather, i);
    }
  }

  lemma GraphAt(tasks: seq<Task>, i: nat)
    requires NoDuplicates(Ids(tasks)) && i < |tasks|
    ensures tasks[i].id in PlanGraph(tasks) && PlanGraph(tasks)[tasks[i].id] == tasks[i].dependsOn
  {
    TaskMapAt(tasks, i);
  }

  lemma ChainedIsAccepted(tasks: seq<Task>)
    requires Chained(tasks)
    ensures Accepted(tasks)
  {
    var g, ids := PlanGraph(tasks), Ids(tasks);
    TaskMapKeys(tasks);
    forall i | 0 <= i < |ids| ensures DepsBefore(g, ids, i) { GraphAt(tasks, i); }
    forall i, d | 0 <= i < |tasks| && d in tasks[i].dependsOn ensures d in ids { assert d in ids[..i]; }
    assert TopologicalOrder(g, ids);
    OrderedIsAcyclic(g, ids);
    assert map[] + TaskMap(tasks) == TaskMap(tasks);
  }

  /** Every plan the planner makes is accepted by a fresh scheduler. */
  lemma PlansAreAccepted(goals: seq<string>, classify: string -> string, gather: bool)
    requires goals != []
    ensures Accepted(PlannedTasks(goals, classify, gather))
  {
    PlannedIsChained(goals, classify, gather);
    ChainedIsAccepted(PlannedTasks(goals, classify, gather));
  }

  ghost predicate GoodBefore(tasks: seq<Task>, ok: set<TaskId>, i: nat)
    requires i <= |tasks|
  {
    forall j :: 0 <= j < i ==> tasks[j].id in ok
  }

  ghost function ChainedStatus(tasks: seq<Task>, ok: set<TaskId>, i: nat): TaskStatus
    requires i < |tasks|
  {
    if !GoodBefore(tasks, ok, i) then BLOCKED else if tasks[i].id in ok then COMPLETED else FAILED
  }

  /** A plan's tasks succeed up to the first whose verdict is bad: that one fails and everything
      after it is blocked. */
  lemma {:induction false} ChainedMeaning(tasks: seq<Task>, ok: set<TaskId>, i: nat)
    requires Chained(tasks) && Accepted(tasks) && i < |tasks|
    ensures Closed(PlanGraph(tasks)) && Acyclic(PlanGraph(tasks)) && tasks[i].id in PlanGraph(tasks)
    ensures Final(PlanGraph(tasks), ok, {}, tasks[i].id) == ChainedStatus(tasks, ok, i)
  {
    hide Accepted, Closed, Acyclic, PlanGraph, NoDuplicates, ChainedStatus, Final;
    AcceptedGraph(tasks);
    GraphAt(tasks, i);
    var g := PlanGraph(tasks);
    forall k: nat | k < i
      ensures tasks[k].id in g && Final(g, ok, {}, tasks[k].id) == ChainedStatus(tasks, ok, k)
    {
      ChainedMeaning(tasks, ok, k);
    }
    forall d | d in tasks[i].dependsOn ensures exists k: nat :: k < i && tasks[k].id == d {
      var k: nat :| k < i && Ids(tasks)[..i][k] == d;
      assert tasks[k].id == d;
    }
    ChainedStep(tasks, ok, g, i);
  }

  lemma ChainedStep(tasks: seq<Task>, ok: set<TaskId>, g: Graph, i: nat)
    requires Closed(g) && Acyclic(g) && i < |tasks| && tasks[i].id in g && g[tasks[i].id] == tasks[i].dependsOn
    requires forall k: nat :: k < i ==> tasks[k].id in g && Final(g, ok, {}, tasks[k].id) == ChainedStatus(tasks, ok, k)
    requires forall d :: d in tasks[i].dependsOn ==> exists k: nat :: k < i && tasks[k].id == d
    requires i > 0 ==> tasks[i - 1].id in tasks[i].dependsOn
    ensures Final(g, ok, {}, tasks[i].id) == ChainedStatus(tasks, ok, i)
  {
    hide Closed, Acyclic;
    if GoodBefore(tasks, ok, i) {
      forall d | d in g[tasks[i].id] ensures d in g && Final(g, ok, {}, d) == COMPLETED {
        var k: nat :| k < i && tasks[k].id == d;
        assert GoodBefore(tasks, ok, k);
      }
    } else {
      assert i > 0 && ChainedStatus(tasks, ok, i - 1) != COMPLETED by {
        if GoodBefore(tasks, ok, i - 1) { assert tasks[i - 1].id !in ok; }
      }
      assert tasks[i - 1].id in g[tasks[i].id];
    }
  }

  /** The verify task of a plan completes iff every task of the plan does. */
  lemma VerifyCompletesLast(goals: seq<string>, classify: string -> string, gather: bool, ok: set<TaskId>)
    requires goals != []
    ensures var g := PlanGraph(PlannedTasks(goals, classify, gather));
            && Closed(g) && Acyclic(g) && Verify in g
            && (Final(g, ok, {}, Verify) == COMPLETED <==> forall t :: t in g ==> Final(g, ok, {}, t) == COMPLETED)
  {
    hide Accepted, Closed, Acyclic, Chained, PlannedTasks, GraphOf, Final, NoDuplicates;
    var tasks := PlannedTasks(goals, classify, gather);
    PlansAreAccepted(goals, classify, gather);
    PlannedIsChained(goals, classify, gather);
    PlannedAt(goals, classify, gather);
    AcceptedGraph(tasks);
    ChainedMeaning(tasks, ok, |tasks| - 1);
    if Final(PlanGraph(tasks), ok, {}, Verify) == COMPLETED { LastMeansAll(tasks, ok); }
  }

  lemma LastMeansAll(tasks: seq<Task>, ok: set<TaskId>)
    requires Chained(tasks) && Accepted(tasks) && tasks != [] && ChainedStatus(tasks, ok, |tasks| - 1) == COMPLETED
    ensures Closed(PlanGraph(tasks)) && Acyclic(PlanGraph(tasks))
    ensures forall t :: t in PlanGraph(tasks) ==> Final(PlanGraph(tasks), ok, {}, t) == COMPLETED
  {
    AcceptedGraph(tasks);
    hide Accepted, Closed, Acyclic, Chained, GraphOf, Final;
    forall t | t in PlanGraph(tasks) ensures Final(PlanGraph(tasks), ok, {}, t) == COMPLETED {
      assert t in Ids(tasks);
      var i :| 0 <= i < |tasks| && Ids(tasks)[i] == t;
      ChainedMeaning(tasks, ok, i);
    }
  }

  // -- replanning keeps the meaning of what is left ------------------------------------------------

  lemma {:induction false} KeptMembers(tasks: seq<Task>, completed: set<TaskId>)
    ensures forall t :: t in Ids(Kept(tasks, completed)) <==> t in Ids(tasks) && t !in completed
    ensures forall x :: x in Kept(tasks, completed) ==> x in tasks
    decreases |tasks|
  {
    if tasks != [] {
      var init, last := tasks[..|tasks| - 1], tasks[|tasks| - 1];
      var kept := Kept(init, completed);
      KeptMembers(init, completed);
      assert tasks == init + [last] && Ids(tasks) == Ids(init) + [last.id];
      assert Ids(kept + [last]) == Ids(kept) + [last.id];
      assert Ids(kept + []) == Ids(kept);
    }
  }

  lemma {:induction false} KeptDistinct(tasks: seq<Task>, completed: set<TaskId>)
    requires NoDuplicates(Ids(tasks))
    ensures NoDuplicates(Ids(Kept(tasks, completed)))
    decreases |tasks|
  {
    if tasks != [] {
      var init, last := tasks[..|tasks| - 1], tasks[|tasks| - 1];
      var kept := Kept(init, completed);
      assert Ids(init) == Ids(tasks)[..|init|];
      KeptDistinct(init, completed);
      KeptMembers(init, completed);
      assert Ids(kept + [last]) == Ids(kept) + [last.id];
      assert last.id !in Ids(init) by {
        forall k | 0 <= k < |init| ensures Ids(init)[k] != last.id { assert Ids(tasks)[k] != Ids(tasks)[|init|]; }
      }
      JoinedDistinct(Ids(kept), [last.id]);
      assert kept + [] == kept;
    }
  }

  lemma SuccessorIds(tasks: seq<Task>, completed: set<TaskId>)
    ensures Ids(Successor(tasks, completed)) == Ids(Kept(tasks, completed))
    ensures forall t :: t in Ids(Successor(tasks, completed)) <==> t in Ids(tasks) && t !in completed
  {
    KeptMembers(tasks, completed);
    assert Ids(Successor(tasks, completed)) == Ids(Kept(tasks, completed));
  }

  /** The successor's graph: the kept tasks and their dependencies on each other. */
  lemma SuccessorGraph(tasks: seq<Task>, completed: set<TaskId>)
    requires Accepted(tasks)
    ensures var g, g' := PlanGraph(tasks), PlanGraph(Successor(tasks, completed));
            && g'.Keys == g.Keys - completed
            && forall t :: t in g' ==> forall d :: d in g'[t] <==> d in g[t] && d !in completed
  {
    var g, g' := PlanGraph(tasks), PlanGraph(Successor(tasks, completed));
    AcceptedGraph(tasks);
    hide Accepted, Acyclic, Successor, NoDuplicates;
    SuccessorIds(tasks, completed);
    AcceptedDistinct(tasks);
    TaskMapKeys(Successor(tasks, completed));
    forall t | t in g' ensures forall d :: d in g'[t] <==> d in g[t] && d !in completed {
      SuccessorEdges(tasks, completed, t);
    }
  }

  lemma SuccessorEdges(tasks: seq<Task>, completed: set<TaskId>, t: TaskId)
    requires NoDuplicates(Ids(tasks)) && Closed(PlanGraph(tasks)) && t in Ids(Successor(tasks, completed))
    ensures var g, g' := PlanGraph(tasks), PlanGraph(Successor(tasks, completed));
            t in g && t in g' && forall d :: d in g'[t] <==> d in g[t] && d !in completed
  {
    var g, g' := PlanGraph(tasks), PlanGraph(Successor(tasks, completed));
    var kept, next := Kept(tasks, completed), Successor(tasks, completed);
    SuccessorDistinct(tasks, completed);
    KeptMembers(tasks, completed);
    TaskMapKeys(tasks);
    hide NoDuplicates;
    var i :| 0 <= i < |next| && Ids(next)[i] == t;
    GraphAt(next, i);
    assert kept[i] in tasks;
    var j :| 0 <= j < |tasks| && tasks[j] == kept[i];
    GraphAt(tasks, j);
    forall d ensures d in g'[t] <==> d in g[t] && d !in completed {
      assert d in g'[t] <==> d in g[t] && d in Ids(kept);
      if d in g[t] { assert d in g; }
    }
  }

  lemma AcceptedDistinct(tasks: seq<Task>)
    requires Accepted(tasks)
    ensures NoDuplicates(Ids(tasks))
  {}

  /** Dropping nodes creates no cycle. */
  lemma SubgraphAcyclic(g: Graph, g': Graph)
    requires Acyclic(g) && g'.Keys <= g.Keys && forall t, d :: t in g' && d in g'[t] ==> d in g[t]
    ensures Acyclic(g')
  {
    forall p | IsPath(g', p) ensures IsPath(g, p) {}
    forall t | t in g' ensures !DependsOn(g', t, t) { assert !DependsOn(g, t, t); }
  }

  /** The successor of an accepted plan is accepted, whatever set is said to be completed. */
  lemma SuccessorAccepted(tasks: seq<Task>, completed: set<TaskId>)
    requires Accepted(tasks)
    ensures Accepted(Successor(tasks, completed))
  {
    hide Acyclic, NoDuplicates, Successor, Closed, DepsKnown;
    var next := Successor(tasks, completed);
    SuccessorGraph(tasks, completed);
    SuccessorDistinct(tasks, completed);
    SuccessorDeps(tasks, completed);
    AcceptedGraph(tasks);
    SubgraphAcyclic(PlanGraph(tasks), PlanGraph(next));
    assert map[] + TaskMap(next) == TaskMap(next);
  }

  lemma SuccessorDistinct(tasks: seq<Task>, completed: set<TaskId>)
    requires NoDuplicates(Ids(tasks))
    ensures NoDuplicates(Ids(Successor(tasks, completed)))
  {
    KeptDistinct(tasks, completed);
    SuccessorIds(tasks, completed);
    hide NoDuplicates, Successor;
  }

  lemma SuccessorDeps(tasks: seq<Task>, completed: set<TaskId>)
    ensures DepsKnown(map[], Successor(tasks, completed))
  {
    SuccessorIds(tasks, completed);
    var next, kept := Successor(tasks, completed), Kept(tasks, completed);
    forall i, d | 0 <= i < |next| && d in next[i].dependsOn ensures d in Ids(next) {
      assert next[i] == Rewritten(kept[i], Elements(Ids(kept)));
    }
  }

  /** Replanning preserves meaning: in the successor each kept task ends exactly as in the original
      plan with the completed tasks pinned. */
  lemma {:induction false} SuccessorMeansRest(tasks: seq<Task>, completed: set<TaskId>, ok: set<TaskId>, t: TaskId)
    requires Accepted(tasks) && t in PlanGraph(tasks) && t !in completed
    ensures Closed(PlanGraph(tasks)) && Acyclic(PlanGraph(tasks))
    ensures Closed(PlanGraph(Successor(tasks, completed))) && Acyclic(PlanGraph(Successor(tasks, completed)))
    ensures t in PlanGraph(Successor(tasks, completed))
    ensures Final(PlanGraph(Successor(tasks, completed)), ok, {}, t) == Final(PlanGraph(tasks), ok, completed, t)
  {
    AcceptedGraph(tasks);
    SuccessorAccepted(tasks, completed);
    AcceptedGraph(Successor(tasks, completed));
    SuccessorGraph(tasks, completed);
    hide Accepted, Closed, Acyclic, PlanGraph, Successor;
    RestMeans(PlanGraph(tasks), PlanGraph(Successor(tasks, completed)), completed, ok, t);
  }

  lemma {:induction false} RestMeans(g: Graph, g': Graph, completed: set<TaskId>, ok: set<TaskId>, t: TaskId)
    requires Closed(g) && Acyclic(g) && Closed(g') && Acyclic(g') && g'.Keys == g.Keys - completed && t in g'
    requires forall u :: u in g' ==> forall d :: d in g'[u] <==> d in g[u] && d !in completed
    ensures Final(g', ok, {}, t) == Final(g, ok, completed, t)
    decreases Ancestors(g', t)
  {
    AncestorsShrink(g', t);
    AncestorsShrink(g, t);
    forall d | d in g'[t] ensures Final(g', ok, {}, d) == Final(g, ok, completed, d) {
      RestMeans(g, g', completed, ok, d);
    }
    forall d | d in g[t] && d in completed ensures Final(g, ok, completed, d) == COMPLETED {}
  }

  lemma {:induction false} KeptPlaces(tasks: seq<Task>, completed: set<TaskId>) returns (at: seq<nat>)
    ensures |at| == |Kept(tasks, completed)|
    ensures forall i :: 0 <= i < |at| ==> at[i] < |tasks| && Kept(tasks, completed)[i] == tasks[at[i]]
    ensures forall i, j :: 0 <= i < j < |at| ==> at[i] < at[j]
    ensures forall k :: k in at <==> 0 <= k < |tasks| && tasks[k].id !in completed
    decreases |tasks|
  {
    if tasks == [] {
      at := [];
    } else {
      var n := |tasks| - 1;
      at := KeptPlaces(tasks[..n], completed);
      if tasks[n].id !in completed { at := OneMorePlace(tasks[..n], completed, tasks[n], at); }
      assert tasks == tasks[..n] + [tasks[n]];
    }
  }

  lemma OneMorePlace(tasks: seq<Task>, completed: set<TaskId>, last: Task, at: seq<nat>) returns (more: seq<nat>)
    requires |at| == |Kept(tasks, completed)| && last.id !in completed
    requires forall i :: 0 <= i < |at| ==> at[i] < |tasks| && Kept(tasks, completed)[i] == tasks[at[i]]
    requires forall i, j :: 0 <= i < j < |at| ==> at[i] < at[j]
    requires forall k :: k in at <==> 0 <= k < |tasks| && tasks[k].id !in completed
    ensures |more| == |Kept(tasks, completed)| + 1
    ensures forall i :: 0 <= i < |more| ==>
              more[i] < |tasks| + 1 && (Kept(tasks, completed) + [last])[i] == (tasks + [last])[more[i]]
    ensures forall i, j :: 0 <= i < j < |more| ==> more[i] < more[j]
    ensures forall k :: k in more <==> 0 <= k < |tasks| + 1 && (tasks + [last])[k].id !in completed
  {
    hide Kept;
    more := at + [|tasks|];
    forall k ensures k in more <==> 0 <= k < |tasks| + 1 && (tasks + [last])[k].id !in completed {
      assert k in more <==> k in at || k == |tasks|;
    }
  }

  lemma {:induction false} ReleasedJoins(a: seq<TaskId>, b: seq<TaskId>, kept: set<TaskId>)
    ensures Released(a + b, kept) == Released(a, kept) + Released(b, kept)
    decreases |b|
  {
    if b == [] {
      assert a + b == a;
    } else {
      var init, last := b[..|b| - 1], b[|b| - 1];
      ReleasedJoins(a, init, kept);
      assert (a + b)[..|a + b| - 1] == a + init && (a + b)[|a + b| - 1] == last;
      var one := if last in kept then [last] else [];
      assert Released(a + b, kept) == Released(a + init, kept) + one;
      assert Released(b, kept) == Released(init, kept) + one;
    }
  }

  /** What a successor holds: the tasks that are not completed, in their order, each with its id, type,
      payload and priority, new and unbound, waiting for what it waited for among them. */
  lemma SuccessorSays(tasks: seq<Task>, completed: set<TaskId>) returns (at: seq<nat>)
    ensures |at| == |Successor(tasks, completed)|
    ensures forall i, j :: 0 <= i < j < |at| ==> at[i] < at[j]
    ensures forall k :: k in at <==> 0 <= k < |tasks| && tasks[k].id !in completed
    ensures forall i :: 0 <= i < |at| ==>
              && at[i] < |tasks|
              && var (was, now) := (tasks[at[i]], Successor(tasks, completed)[i]);
              && now.id == was.id && now.capabilityType == was.capabilityType && now.payload == was.payload
              && now.priority == was.priority && now.status == PENDING && now.binding == None
              && forall d :: d in now.dependsOn <==>
                               d in was.dependsOn && exists k :: k in at && 0 <= k < |tasks| && tasks[k].id == d
  {
    at := KeptPlaces(tasks, completed);
    var kept := Kept(tasks, completed);
    hide Kept;
    forall d ensures d in Elements(Ids(kept)) <==> exists k :: k in at && 0 <= k < |tasks| && tasks[k].id == d {
      if d in Elements(Ids(kept)) {
        var i :| 0 <= i < |kept| && Ids(kept)[i] == d;
        assert at[i] in at && tasks[at[i]].id == d;
      }
      if k :| k in at && 0 <= k < |tasks| && tasks[k].id == d {
        var i :| 0 <= i < |at| && at[i] == k;
        assert Ids(kept)[i] == d;
      }
    }
  }

  // -- replanning twice ------------------------------------------------------------------------------

  lemma {:induction false} ReleasedTwice(deps: seq<TaskId>, a: set<TaskId>, b: set<TaskId>)
    requires b <= a
    ensures Released(Released(deps, a), b) == Released(deps, b)
    decreases |deps|
  {
    if deps != [] {
      var init, last := deps[..|deps| - 1], deps[|deps| - 1];
      ReleasedTwice(init, a, b);
      if last in a { assert (Released(init, a) + [last])[..|Released(init, a)|] == Released(init, a); }
      else { assert Released(init, a) + [] == Released(init, a); }
    }
  }

  /** Keeping commutes with rewriting: what is kept of a rewritten list is the rewritten rest. */
  lemma {:induction false} KeptOfRewritten(tasks: seq<Task>, s: set<TaskId>, completed: set<TaskId>)
    ensures var all := seq(|tasks|, i requires 0 <= i < |tasks| => Rewritten(tasks[i], s));
            var kept := Kept(tasks, completed);
            Kept(all, completed) == seq(|kept|, i requires 0 <= i < |kept| => Rewritten(kept[i], s))
    decreases |tasks|
  {
    if tasks != [] {
      var init := tasks[..|tasks| - 1];
      KeptOfRewritten(init, s, completed);
      var all := seq(|tasks|, i requires 0 <= i < |tasks| => Rewritten(tasks[i], s));
      assert all[..|tasks| - 1] == seq(|init|, i requires 0 <= i < |init| => Rewritten(init[i], s));
    }
  }

  lemma {:induction false} KeptTwice(tasks: seq<Task>, first: set<TaskId>, second: set<TaskId>)
    ensures Kept(Kept(tasks, first), second) == Kept(tasks, first + second)
    decreases |tasks|
  {
    if tasks != [] {
      var init, last := tasks[..|tasks| - 1], tasks[|tasks| - 1];
      KeptTwice(init, first, second);
      var kept := Kept(init, first);
      assert (kept + [last])[..|kept|] == kept;
      assert kept + [] == kept;
    }
  }

  /** Two replans in a row are one replan with everything completed so far. */
  lemma ReplansCompose(tasks: seq<Task>, first: set<TaskId>, second: set<TaskId>)
    ensures Successor(Successor(tasks, first), second) == Successor(tasks, first + second)
  {
    var k1 := Kept(tasks, first);
    var s1 := Elements(Ids(k1));
    var k2 := Kept(k1, second);
    var s2 := Elements(Ids(k2));
    KeptTwice(tasks, first, second);
    KeptOfRewritten(k1, s1, second);
    KeptMembers(k1, second);
    var left, right := Successor(Successor(tasks, first), second), Successor(tasks, first + second);
    var rekept := Kept(Successor(tasks, first), second);
    assert |rekept| == |k2| && Ids(rekept) == Ids(k2);
    forall i | 0 <= i < |k2| ensures left[i] == right[i] {
      assert rekept[i] == Rewritten(k2[i], s1);
      ReleasedTwice(k2[i].dependsOn, s1, s2);
    }
    assert left == right;
  }

  // -- a failed run, replanned and run again --------------------------------------------------------------

  /** Any uncancelled run of the successor ends every kept task as the original plan would have
      with the completed tasks pinned. */
  lemma ReplannedRunMeansRest(cfg: Config, completed: set<TaskId>, next: Config, sched: Schedule)
    requires Accepted(cfg.tasks) && next.tasks == Successor(cfg.tasks, completed) && Startable(next, None)
    requires Uncancelled(sched) && Finishes(next, None, sched) && !Raced(EndOfLoop(next, None, sched))
    ensures Closed(cfg.G()) && Acyclic(cfg.G())
    ensures FinalState(next, None, sched).st ==
            map t | t in cfg.G() && t !in completed :: Final(cfg.G(), next.Ok(), completed, t)
  {
    hide Accepted, Closed, Acyclic, FinalState, Finishes, EndOfLoop, Successor, Uncancelled, Raced, PlanGraph;
    AcceptedGraph(cfg.tasks);
    SuccessorGraph(cfg.tasks, completed);
    EveryInterleavingMeansFinal(next, None, sched);
    assert Pins(next.tasks, None) == {};
    forall t | t in cfg.G() && t !in completed
      ensures t in next.G() && Meaning(next, None)[t] == Final(cfg.G(), next.Ok(), completed, t)
    {
      SuccessorMeansRest(cfg.tasks, completed, next.Ok(), t);
    }
  }
}
