/** The scheduler: dependency-aware ready sets over a task graph that is checked on submission,
    with statuses updated in place. */
module Scheduling {
  import opened Schemas
  import opened Dag
  import opened Semantics
  import opened SchedulerSpec
  import opened Kahn
  import opened Sorting

  datatype SchedulerError =
    | DuplicateIds
    | AlreadyScheduled
    | UnknownDependency
    | CycleDetected
    | UnknownTask
    | CannotStart
    | NotRunning

  // -- graphs of task lists -------------------------------------------------

  function Ids(tasks: seq<Task>): (ids: seq<TaskId>)
    ensures |ids| == |tasks| && forall i :: 0 <= i < |tasks| ==> ids[i] == tasks[i].id
  {
    seq(|tasks|, i requires 0 <= i < |tasks| => tasks[i].id)
  }

  /** The task dictionary a list of tasks builds, later entries winning. */
  function TaskMap(tasks: seq<Task>): map<TaskId, Task> {
    if tasks == [] then map[]
    else TaskMap(tasks[..|tasks| - 1])[tasks[|tasks| - 1].id := tasks[|tasks| - 1]]
  }

  function GraphOf(tasks: map<TaskId, Task>): Graph {
    map t | t in tasks :: tasks[t].dependsOn
  }

  function PlanGraph(tasks: seq<Task>): Graph {
    GraphOf(TaskMap(tasks))
  }

  function InitialStatuses(tasks: map<TaskId, Task>): Statuses {
    map t | t in tasks :: tasks[t].status
  }

  lemma {:induction false} TaskMapKeys(tasks: seq<Task>)
    ensures forall t :: t in TaskMap(tasks) <==> t in Ids(tasks)
    ensures forall t :: t in TaskMap(tasks) ==> TaskMap(tasks)[t].id == t && TaskMap(tasks)[t] in tasks
    decreases |tasks|
  {
    if tasks != [] {
      var n := |tasks|;
      var init, last := tasks[..n - 1], tasks[n - 1];
      TaskMapKeys(init);
      assert tasks == init + [last];
      assert Ids(tasks) == Ids(init) + [last.id];
    }
  }

  lemma {:induction false} TaskMapAt(tasks: seq<Task>, i: nat)
    requires i < |tasks| && NoDuplicates(Ids(tasks))
    ensures tasks[i].id in TaskMap(tasks) && TaskMap(tasks)[tasks[i].id] == tasks[i]
    decreases |tasks|
  {
    var n := |tasks|;
    if i < n - 1 {
      var init := tasks[..n - 1];
      assert Ids(init) == Ids(tasks)[..n - 1];
      TaskMapAt(init, i);
      assert Ids(tasks)[i] != Ids(tasks)[n - 1];
    }
  }

  /** Fresh, pairwise distinct ids; only known dependencies; no cycle in the combined graph. */
  ghost predicate Acceptable(known: map<TaskId, Task>, batch: seq<Task>) {
    && NoDuplicates(Ids(batch))
    && (forall t :: t in Ids(batch) ==> t !in known)
    && DepsKnown(known, batch)
    && Acyclic(GraphOf(known + TaskMap(batch)))
  }

  /** The first rule a batch breaks, if any. */
  ghost function Rejection(known: map<TaskId, Task>, batch: seq<Task>): Option<SchedulerError> {
    if !NoDuplicates(Ids(batch)) then Some(DuplicateIds)
    else if exists t :: t in Ids(batch) && t in known then Some(AlreadyScheduled)
    else if !DepsKnown(known, batch) then Some(UnknownDependency)
    else if !Acyclic(GraphOf(known + TaskMap(batch))) then Some(CycleDetected)
    else None
  }

  predicate RepeatsAnId(batch: seq<Task>) {
    exists i, j :: 0 <= i < j < |batch| && batch[i].id == batch[j].id
  }

  predicate TakesAnId(known: map<TaskId, Task>, batch: seq<Task>) {
    exists i :: 0 <= i < |batch| && batch[i].id in known
  }

  predicate Lists(batch: seq<Task>, t: TaskId) {
    exists i :: 0 <= i < |batch| && batch[i].id == t
  }

  /** Some task of the batch depends on what is neither known nor in the batch. */
  predicate DependsOnNothing(known: map<TaskId, Task>, batch: seq<Task>) {
    exists i :: 0 <= i < |batch| && exists d :: d in batch[i].dependsOn && d !in known && !Lists(batch, d)
  }

  /** Which error a batch gets: ids repeated within it come before ids that are taken, these before unknown
      dependencies, and these before a cycle. */
  lemma RejectionSays(known: map<TaskId, Task>, batch: seq<Task>)
    ensures var (err, cyclic) := (Rejection(known, batch), !Acyclic(GraphOf(known + TaskMap(batch))));
            && (err == Some(DuplicateIds) <==> RepeatsAnId(batch))
            && (err == Some(AlreadyScheduled) <==> !RepeatsAnId(batch) && TakesAnId(known, batch))
            && (err == Some(UnknownDependency) <==>
                  !RepeatsAnId(batch) && !TakesAnId(known, batch) && DependsOnNothing(known, batch))
            && (err == Some(CycleDetected) <==>
                  !RepeatsAnId(batch) && !TakesAnId(known, batch) && !DependsOnNothing(known, batch) && cyclic)
            && (err == None <==> Acceptable(known, batch))
  {
    RepeatsSays(batch);
    TakesSays(known, batch);
    DependsSays(known, batch);
    hide Acyclic, GraphOf, TaskMap, RepeatsAnId, TakesAnId, DependsOnNothing, NoDuplicates, DepsKnown, Ids;
  }

  lemma RepeatsSays(batch: seq<Task>)
    ensures RepeatsAnId(batch) <==> !NoDuplicates(Ids(batch))
  {
    if i, j :| 0 <= i < j < |batch| && batch[i].id == batch[j].id { assert Ids(batch)[i] == Ids(batch)[j]; }
  }

  lemma TakesSays(known: map<TaskId, Task>, batch: seq<Task>)
    ensures TakesAnId(known, batch) <==> exists t :: t in Ids(batch) && t in known
  {
    if i :| 0 <= i < |batch| && batch[i].id in known { assert Ids(batch)[i] in Ids(batch); }
    if t :| t in Ids(batch) && t in known {
      var i :| 0 <= i < |batch| && Ids(batch)[i] == t;
      assert batch[i].id in known;
    }
  }

  lemma DependsSays(known: map<TaskId, Task>, batch: seq<Task>)
    ensures DependsOnNothing(known, batch) <==> !DepsKnown(known, batch)
  {
    forall d ensures Lists(batch, d) <==> d in Ids(batch) {
      if i :| 0 <= i < |batch| && batch[i].id == d { assert Ids(batch)[i] in Ids(batch); }
      if d in Ids(batch) {
        var i :| 0 <= i < |batch| && Ids(batch)[i] == d;
        assert batch[i].id == d;
      }
    }
    hide Lists, Ids;
  }

  predicate DepsKnown(known: map<TaskId, Task>, batch: seq<Task>) {
    forall i :: 0 <= i < |batch| ==> forall d :: d in batch[i].dependsOn ==> d in known || d in Ids(batch)
  }

  /** A plan a fresh scheduler accepts. */
  ghost predicate Accepted(tasks: seq<Task>) {
    Acceptable(map[], tasks)
  }

  lemma BatchClosed(known: map<TaskId, Task>, batch: seq<Task>)
    requires Closed(GraphOf(known)) && DepsKnown(known, batch)
    ensures Closed(GraphOf(known + TaskMap(batch)))
  {
    TaskMapKeys(batch);
    var m := known + TaskMap(batch);
    var g := GraphOf(m);
    forall t, d | t in g && d in g[t] ensures d in m {
      assert g[t] == m[t].dependsOn;
      if t in TaskMap(batch) {
        var task := TaskMap(batch)[t];
        assert task in batch;
        var i :| 0 <= i < |batch| && batch[i] == task;
        assert d in batch[i].dependsOn;
        assert d in known || d in Ids(batch);
        assert d in m;
      } else {
        assert t in known && m[t] == known[t];
        assert GraphOf(known)[t] == g[t];
        assert d in GraphOf(known);
        assert d in m;
      }
    }
  }

  lemma AcceptedGraph(tasks: seq<Task>)
    requires Accepted(tasks)
    ensures Closed(PlanGraph(tasks)) && Acyclic(PlanGraph(tasks))
    ensures forall t :: t in PlanGraph(tasks) <==> t in Ids(tasks)
  {
    BatchClosed(map[], tasks);
    TaskMapKeys(tasks);
    assert map[] + TaskMap(tasks) == TaskMap(tasks);
  }

  /** What a first submission leaves. */
  lemma EmptySubmit(batch: seq<Task>)
    ensures map[] + TaskMap(batch) == TaskMap(batch) && [] + Ids(batch) == Ids(batch)
    ensures map[] + InitialStatuses(TaskMap(batch)) == InitialStatuses(TaskMap(batch))
  {
    hide TaskMap, Ids, InitialStatuses;
    var tasks, statuses := TaskMap(batch), InitialStatuses(TaskMap(batch));
    assert map[] + tasks == tasks;
    assert map[] + statuses == statuses;
  }

  // -- submitting again -------------------------------------------------------

  predicate AllPending(batch: seq<Task>) {
    forall i :: 0 <= i < |batch| ==> batch[i].status == PENDING
  }

  /** No task of the batch depends directly on a failed or blocked one. */
  predicate OnFirmGround(st: Statuses, batch: seq<Task>) {
    forall i :: 0 <= i < |batch| ==>
      forall d :: d in batch[i].dependsOn && d in st ==> st[d] != FAILED && st[d] != BLOCKED
  }

  ghost predicate InBatch(batch: seq<Task>, t: TaskId) {
    exists i :: 0 <= i < |batch| && batch[i].id == t
  }

  /** `g'` and `st'` are what accepting a batch of pending tasks makes of the statuses `st`. */
  ghost predicate Extended(st: Statuses, batch: seq<Task>, g: Graph, g': Graph, st': Statuses) {
    && st.Keys == g.Keys && g.Keys <= g'.Keys && st'.Keys == g'.Keys
    && (forall t :: t in g ==> g'[t] == g[t] && st'[t] == st[t])
    && (forall i :: 0 <= i < |batch| ==>
          batch[i].id in g' && batch[i].id !in g && g'[batch[i].id] == batch[i].dependsOn)
    && (forall t :: t in g' && t !in g ==> st'[t] == PENDING && InBatch(batch, t))
  }

  lemma {:induction false} BatchLookup(batch: seq<Task>)
    requires NoDuplicates(Ids(batch))
    ensures forall i :: 0 <= i < |batch| ==> batch[i].id in TaskMap(batch) && TaskMap(batch)[batch[i].id] == batch[i]
    ensures forall t :: t in TaskMap(batch) ==> InBatch(batch, t)
  {
    hide Ids, TaskMap, NoDuplicates;
    TaskMapKeys(batch);
    forall i | 0 <= i < |batch| ensures batch[i].id in TaskMap(batch) && TaskMap(batch)[batch[i].id] == batch[i] {
      TaskMapAt(batch, i);
    }
    forall t | t in TaskMap(batch) ensures InBatch(batch, t) {
      assert t in Ids(batch);
      var i :| 0 <= i < |batch| && Ids(batch)[i] == t;
      assert batch[i].id == t;
    }
  }

  lemma MapExtends(known: map<TaskId, Task>, added: map<TaskId, Task>, st: Statuses, batch: seq<Task>)
    requires st.Keys == known.Keys && added.Keys !! known.Keys
    requires forall i :: 0 <= i < |batch| ==> batch[i].id in added && added[batch[i].id] == batch[i]
    requires forall t :: t in added ==> InBatch(batch, t) && added[t].status == PENDING
    ensures Extended(st, batch, GraphOf(known), GraphOf(known + added), st + InitialStatuses(added))
  {
    hide InBatch, GraphOf, InitialStatuses;
    var g, g', st' := GraphOf(known), GraphOf(known + added), st + InitialStatuses(added);
    GraphAt(known);
    GraphAt(known + added);
    StatusesAt(added);
    forall t | t in known ensures t in g' && g'[t] == g[t] && st'[t] == st[t] {}
    forall t | t in added ensures t in g' && t !in g && st'[t] == PENDING && g'[t] == added[t].dependsOn {}
  }

  lemma GraphAt(tasks: map<TaskId, Task>)
    ensures GraphOf(tasks).Keys == tasks.Keys && forall t :: t in tasks ==> GraphOf(tasks)[t] == tasks[t].dependsOn
  {}

  lemma StatusesAt(tasks: map<TaskId, Task>)
    ensures InitialStatuses(tasks).Keys == tasks.Keys
    ensures forall t :: t in tasks ==> InitialStatuses(tasks)[t] == tasks[t].status
  {}

  lemma AcceptedExtends(known: map<TaskId, Task>, st: Statuses, batch: seq<Task>)
    requires Acceptable(known, batch) && st.Keys == known.Keys && AllPending(batch)
    ensures Extended(st, batch, GraphOf(known), GraphOf(known + TaskMap(batch)), st + InitialStatuses(TaskMap(batch)))
  {
    hide Acyclic, TaskMap, DepsKnown, NoDuplicates, Ids, Extended, GraphOf, InitialStatuses;
    BatchLookup(batch);
    forall t | t in TaskMap(batch) ensures t !in known && TaskMap(batch)[t].status == PENDING {
      var i :| 0 <= i < |batch| && batch[i].id == t;
      assert Ids(batch)[i] == t;
    }
    MapExtends(known, TaskMap(batch), st, batch);
  }

  lemma FirmGroundSound(st: Statuses, batch: seq<Task>, g: Graph, g': Graph, st': Statuses)
    requires Sound(g, st) && Closed(g) && Closed(g') && Extended(st, batch, g, g', st') && OnFirmGround(st, batch)
    ensures Sound(g', st')
  {
    hide Sound, Closed;
    forall t, d | t in g' && t !in g && d in g'[t] && d in st ensures st[d] != FAILED && st[d] != BLOCKED {
      var i :| 0 <= i < |batch| && batch[i].id == t;
      assert d in batch[i].dependsOn;
    }
    ExtendedSound(g, st, g', st');
  }

  lemma ShakyGround(st: Statuses, batch: seq<Task>, g: Graph, g': Graph, st': Statuses)
    requires Extended(st, batch, g, g', st') && !OnFirmGround(st, batch)
    ensures !Sound(g', st') && !AlwaysFinishes(g', st')
  {
    hide AlwaysFinishes;
    var i, d :| 0 <= i < |batch| && d in batch[i].dependsOn && d in st && (st[d] == FAILED || st[d] == BLOCKED);
    var t := batch[i].id;
    assert t in g' && t !in g && st'[t] == PENDING && d in g'[t] && st'[d] == st[d];
    StrandedNeverFinishes(g', st', t, d);
    assert !EdgeOk(st'[d], st'[t]);
  }

  /** A later submission keeps the invariant exactly when it stands on firm ground, and then and only
      then is the scheduler sure to finish every task. */
  lemma LateSubmission(known: map<TaskId, Task>, st: Statuses, batch: seq<Task>)
    requires Closed(GraphOf(known)) && Acceptable(known, batch) && Sound(GraphOf(known), st)
    requires AllPending(batch)
    ensures var (g', st') := (GraphOf(known + TaskMap(batch)), st + InitialStatuses(TaskMap(batch)));
            && (Sound(g', st') <==> OnFirmGround(st, batch))
            && (AlwaysFinishes(g', st') <==> OnFirmGround(st, batch))
  {
    var g, g', st' := GraphOf(known), GraphOf(known + TaskMap(batch)), st + InitialStatuses(TaskMap(batch));
    BatchClosed(known, batch);
    AcceptedExtends(known, st, batch);
    hide OnFirmGround, TaskMap, AlwaysFinishes, Closed, Acyclic, Extended, Sound;
    if OnFirmGround(st, batch) {
      FirmGroundSound(st, batch, g, g', st');
      SoundAlwaysFinishes(g', st');
    } else {
      ShakyGround(st, batch, g, g', st');
    }
  }

  // -- blocking, as the recursive walk leaves it ----------------------------

  ghost function Unfinished(st: Statuses): set<TaskId> {
    set t | t in st && !st[t].Terminal()
  }

  ghost predicate ListsDependents(g: Graph, dependents: map<TaskId, seq<TaskId>>) {
    forall x, c :: c in Listed(dependents, x) <==> c in g && x in g[c]
  }

  /** Only unfinished tasks reachable from `a` changed, and they became blocked. */
  ghost predicate BlockedOnly(g: Graph, st: Statuses, a: TaskId, st': Statuses) {
    && st'.Keys == st.Keys
    && forall t :: t in st && st'[t] != st[t] ==>
         !st[t].Terminal() && st'[t] == BLOCKED && LiveReach(g, st, a, t)
  }

  /** Everything below a task that changed is finished. */
  ghost predicate ChangedAreClosed(g: Graph, st: Statuses, st': Statuses)
    requires st'.Keys == st.Keys
  {
    forall t, c :: t in st && st'[t] != st[t] && c in g && t in g[c] && c in st' ==> st'[c].Terminal()
  }

  lemma LiveReachEdge(g: Graph, st: Statuses, a: TaskId, b: TaskId)
    requires a in g && b in g && a in g[b] && b in st && !st[b].Terminal()
    ensures LiveReach(g, st, a, b)
  {
    var p := [a, b];
    assert LivePath(g, st, p) && p[0] == a && p[|p| - 1] == b;
  }

  /** Reaching further through one more unfinished task. */
  lemma LiveReachPrepend(g: Graph, st: Statuses, mid: Statuses, a: TaskId, b: TaskId, t: TaskId)
    requires a in g && b in g && a in g[b] && b in st && !st[b].Terminal()
    requires LiveReach(g, mid, b, t)
    requires st.Keys == mid.Keys && forall u :: u in st && !mid[u].Terminal() ==> !st[u].Terminal()
    ensures LiveReach(g, st, a, t)
  {
    var p :| LivePath(g, mid, p) && p[0] == b && p[|p| - 1] == t;
    var q := [a] + p;
    forall i, j | 0 <= i && j == i + 1 && j < |q| ensures q[i] in g[q[j]] {
      if i > 0 { assert q[i] == p[i - 1] && q[j] == p[j - 1]; }
    }
    forall i | 1 <= i < |q| ensures q[i] in st && !st[q[i]].Terminal() { assert q[i] == p[i - 1]; }
    assert LivePath(g, st, q) && q[0] == a && q[|q| - 1] == t;
  }

  lemma {:induction false} PathIsBlocked(g: Graph, st: Statuses, a: TaskId, st': Statuses, p: seq<TaskId>)
    requires st.Keys == st'.Keys == g.Keys
    requires BlockedOnly(g, st, a, st') && ChangedAreClosed(g, st, st')
    requires forall c :: c in g && a in g[c] ==> st'[c].Terminal()
    requires LivePath(g, st, p) && p[0] == a
    ensures st'[p[|p| - 1]] == BLOCKED
    decreases |p|
  {
    var n := |p|;
    assert p[n - 2] in g[p[n - 1]];
    if n > 2 {
      var q := p[..n - 1];
      assert LivePath(g, st, q);
      PathIsBlocked(g, st, a, st', q);
      assert st'[p[n - 2]] != st[p[n - 2]];
    }
    assert st'[p[n - 1]].Terminal() && !st[p[n - 1]].Terminal();
  }

  lemma BlockWalkIsExact(g: Graph, st: Statuses, a: TaskId, st': Statuses)
    requires st.Keys == st'.Keys == g.Keys
    requires BlockedOnly(g, st, a, st') && ChangedAreClosed(g, st, st')
    requires forall c :: c in g && a in g[c] ==> st'[c].Terminal()
    ensures st' == BlockFrom(g, st, a)
  {
    forall t | t in st ensures st'[t] == BlockFrom(g, st, a)[t] {
      if LiveReach(g, st, a, t) {
        var p :| LivePath(g, st, p) && p[0] == a && p[|p| - 1] == t;
        PathIsBlocked(g, st, a, st', p);
      }
    }
  }

  lemma OrderCountsKeys(tasks: map<TaskId, Task>, keys: seq<TaskId>, order: map<TaskId, nat>)
    requires Indexed(tasks, keys, order)
    ensures |order| == |keys|
  {
    NoDuplicatesCardinality(keys);
    assert Elements(keys) == order.Keys;
  }

  lemma ExtendIndex(tasks: map<TaskId, Task>, keys: seq<TaskId>, order: map<TaskId, nat>, task: Task)
    requires Indexed(tasks, keys, order) && task.id !in tasks
    ensures Indexed(tasks[task.id := task], keys + [task.id], order[task.id := |keys|])
  {
    assert task.id !in keys;
    var keys' := keys + [task.id];
    forall i, j | 0 <= i < j < |keys'| ensures keys'[i] != keys'[j] {
      if j == |keys| { assert keys[i] in keys; }
    }
    var order' := order[task.id := |keys|];
    forall i | 0 <= i < |keys'| ensures keys'[i] in order' && order'[keys'[i]] == i {
      if i < |keys| { assert keys[i] in keys; }
    }
  }

  lemma ListedMore(dependents: map<TaskId, seq<TaskId>>, d: TaskId, id: TaskId)
    ensures forall x, c :: c in Listed(dependents[d := Listed(dependents, d) + [id]], x) <==>
                             c in Listed(dependents, x) || (c == id && x == d)
  {
    var after := dependents[d := Listed(dependents, d) + [id]];
    forall x, c ensures c in Listed(after, x) <==> c in Listed(dependents, x) || (c == id && x == d) {
      assert Listed(after, x) == if x == d then Listed(dependents, d) + [id] else Listed(dependents, x);
    }
  }

  /** Lists `task` under each of its dependencies. */
  method LinkTask(before: map<TaskId, seq<TaskId>>, task: Task) returns (dependents: map<TaskId, seq<TaskId>>)
    ensures forall x, c :: c in Listed(dependents, x) <==>
                             c in Listed(before, x) || (c == task.id && x in task.dependsOn)
  {
    dependents := before;
    for j := 0 to |task.dependsOn|
      invariant forall x, c :: c in Listed(dependents, x) <==>
                               c in Listed(before, x) || (c == task.id && x in task.dependsOn[..j])
    {
      var d := task.dependsOn[j];
      assert task.dependsOn[..j + 1] == task.dependsOn[..j] + [d];
      ListedMore(dependents, d, task.id);
      dependents := dependents[d := Listed(dependents, d) + [task.id]];
    }
    assert task.dependsOn[..|task.dependsOn|] == task.dependsOn;
  }

  lemma PrefixNone(known: map<TaskId, Task>, st: Statuses, keys: seq<TaskId>, batch: seq<Task>)
    ensures keys + Ids(batch[..0]) == keys
    ensures known + TaskMap(batch[..0]) == known
    ensures st + InitialStatuses(TaskMap(batch[..0])) == st
  {
    assert batch[..0] == [];
    assert InitialStatuses(map[]) == map[];
  }

  lemma PrefixStep(known: map<TaskId, Task>, st: Statuses, keys: seq<TaskId>, batch: seq<Task>, i: nat)
    requires i < |batch|
    ensures keys + Ids(batch[..i + 1]) == keys + Ids(batch[..i]) + [batch[i].id]
    ensures known + TaskMap(batch[..i + 1]) == (known + TaskMap(batch[..i]))[batch[i].id := batch[i]]
    ensures st + InitialStatuses(TaskMap(batch[..i + 1])) ==
            (st + InitialStatuses(TaskMap(batch[..i])))[batch[i].id := batch[i].status]
  {
    hide InitialStatuses;
    var s := batch[..i + 1];
    assert s[..|s| - 1] == batch[..i] && s[|s| - 1] == batch[i];
    assert Ids(s) == Ids(batch[..i]) + [batch[i].id];
    assert TaskMap(s) == TaskMap(batch[..i])[batch[i].id := batch[i]];
    StatusesAdd(TaskMap(batch[..i]), batch[i].id, batch[i]);
  }

  lemma StatusesAdd(tasks: map<TaskId, Task>, id: TaskId, task: Task)
    ensures InitialStatuses(tasks[id := task]) == InitialStatuses(tasks)[id := task.status]
  {}

  lemma ExtendDependents(known: map<TaskId, Task>, task: Task, before: map<TaskId, seq<TaskId>>,
                         after: map<TaskId, seq<TaskId>>)
    requires task.id !in known && ListsDependents(GraphOf(known), before)
    requires forall x, c :: c in Listed(after, x) <==> c in Listed(before, x) || (c == task.id && x in task.dependsOn)
    ensures ListsDependents(GraphOf(known[task.id := task]), after)
  {
    var g, g' := GraphOf(known), GraphOf(known[task.id := task]);
    forall x, c ensures c in Listed(after, x) <==> c in g' && x in g'[c] {
      assert c in Listed(before, x) <==> c in g && x in g[c];
    }
  }

  /** One child of the blocking walk: it is marked, and the walk below it has returned. */
  lemma BlockChildStep(g: Graph, st: Statuses, id: TaskId, mid: Statuses, child: TaskId, st': Statuses)
    requires st.Keys == mid.Keys == st'.Keys == g.Keys
    requires BlockedOnly(g, st, id, mid) && ChangedAreClosed(g, st, mid)
    requires id in g && child in g && id in g[child] && !mid[child].Terminal()
    requires BlockedOnly(g, mid[child := BLOCKED], child, st')
    requires ChangedAreClosed(g, mid[child := BLOCKED], st')
    requires forall c :: c in g && child in g[c] ==> st'[c].Terminal()
    ensures BlockedOnly(g, st, id, st') && ChangedAreClosed(g, st, st')
    ensures st'[child].Terminal() && forall t :: t in st && mid[t].Terminal() ==> st'[t].Terminal()
  {
    var st1 := mid[child := BLOCKED];
    forall t | t in st && st'[t] != st[t]
      ensures !st[t].Terminal() && st'[t] == BLOCKED && LiveReach(g, st, id, t)
    {
      if st'[t] != st1[t] { LiveReachPrepend(g, st, st1, id, child, t); }
      else if t == child { LiveReachEdge(g, st, id, child); }
    }
    forall t, c | t in st && st'[t] != st[t] && c in g && t in g[c] && c in st' ensures st'[c].Terminal() {
      if st'[t] == st1[t] && t != child { assert mid[t] != st[t]; assert mid[c].Terminal(); }
    }
  }

  /** Insertion order and task records agree. */
  ghost predicate Indexed(tasks: map<TaskId, Task>, keys: seq<TaskId>, order: map<TaskId, nat>) {
    && NoDuplicates(keys)
    && (forall t :: t in keys <==> t in tasks)
    && order.Keys == tasks.Keys
    && (forall i :: 0 <= i < |keys| ==> keys[i] in order && order[keys[i]] == i)
    && (forall t :: t in tasks ==> tasks[t].id == t)
  }

  /** Everything a scheduler records except statuses. */
  ghost predicate Registered(tasks: map<TaskId, Task>, keys: seq<TaskId>, order: map<TaskId, nat>,
                             dependents: map<TaskId, seq<TaskId>>)
  {
    && Indexed(tasks, keys, order)
    && ListsDependents(GraphOf(tasks), dependents)
    && Closed(GraphOf(tasks)) && Acyclic(GraphOf(tasks))
  }

  // -- ready sets ---------------------------------------------------------------

  predicate ReadyNow(tasks: map<TaskId, Task>, st: Statuses, t: TaskId) {
    && t in tasks && t in st && st[t] == PENDING
    && forall d :: d in tasks[t].dependsOn ==> d in st && st[d] == COMPLETED
  }

  function FilterReady(tasks: map<TaskId, Task>, st: Statuses, keys: seq<TaskId>): seq<TaskId> {
    if keys == [] then []
    else FilterReady(tasks, st, keys[..|keys| - 1]) +
         (if ReadyNow(tasks, st, keys[|keys| - 1]) then [keys[|keys| - 1]] else [])
  }

  /** Higher priority first; among equals, earlier submission first. */
  predicate Before(tasks: map<TaskId, Task>, order: map<TaskId, nat>, a: TaskId, b: TaskId) {
    var (pa, qa) := (if a in tasks then tasks[a].priority else 0, if a in order then order[a] else 0);
    var (pb, qb) := (if b in tasks then tasks[b].priority else 0, if b in order then order[b] else 0);
    pa > pb || (pa == pb && qa <= qb)
  }

  function ReadyList(tasks: map<TaskId, Task>, keys: seq<TaskId>, order: map<TaskId, nat>, st: Statuses): seq<TaskId> {
    SortBy(FilterReady(tasks, st, keys), (a, b) => Before(tasks, order, a, b))
  }

  lemma {:induction false} FilterReadyMembers(tasks: map<TaskId, Task>, st: Statuses, keys: seq<TaskId>)
    requires NoDuplicates(keys)
    ensures NoDuplicates(FilterReady(tasks, st, keys))
    ensures forall t :: t in FilterReady(tasks, st, keys) <==> t in keys && ReadyNow(tasks, st, t)
    decreases |keys|
  {
    if keys != [] {
      var init, last := keys[..|keys| - 1], keys[|keys| - 1];
      assert keys == init + [last];
      FilterReadyMembers(tasks, st, init);
      assert last !in init by {
        forall i | 0 <= i < |init| ensures init[i] != last { assert keys[i] != keys[|keys| - 1]; }
      }
      JoinedDistinct(FilterReady(tasks, st, init), if ReadyNow(tasks, st, last) then [last] else []);
    }
  }

  /** `t` is more urgent than `u`, or as urgent and submitted before. */
  predicate Sooner(tasks: map<TaskId, Task>, order: map<TaskId, nat>, t: TaskId, u: TaskId) {
    && t in tasks && u in tasks && t in order && u in order
    && (tasks[t].priority > tasks[u].priority
        || (tasks[t].priority == tasks[u].priority && order[t] < order[u]))
  }

  /** The ready list holds exactly the ready tasks, once each, by priority and then by submission. */
  lemma ReadyListIsExact(tasks: map<TaskId, Task>, keys: seq<TaskId>, order: map<TaskId, nat>, st: Statuses)
    requires Indexed(tasks, keys, order) && st.Keys == tasks.Keys
    ensures NoDuplicates(ReadyList(tasks, keys, order, st))
    ensures forall t :: t in ReadyList(tasks, keys, order, st) <==> IsReady(GraphOf(tasks), st, t)
    ensures var r := ReadyList(tasks, keys, order, st);
            forall i, j :: 0 <= i < j < |r| ==> Sooner(tasks, order, r[i], r[j])
  {
    ReadyMembers(tasks, keys, order, st);
    hide IsReady, ReadyList, Indexed;
    var r := ReadyList(tasks, keys, order, st);
    forall i, j | 0 <= i < j < |r| ensures Sooner(tasks, order, r[i], r[j]) {
      ReadyPair(tasks, keys, order, st, i, j);
    }
  }

  lemma ReadyMembers(tasks: map<TaskId, Task>, keys: seq<TaskId>, order: map<TaskId, nat>, st: Statuses)
    requires Indexed(tasks, keys, order) && st.Keys == tasks.Keys
    ensures NoDuplicates(ReadyList(tasks, keys, order, st))
    ensures forall t :: t in ReadyList(tasks, keys, order, st) <==> IsReady(GraphOf(tasks), st, t)
    ensures SortedBy(ReadyList(tasks, keys, order, st), (a, b) => Before(tasks, order, a, b))
  {
    var pending := FilterReady(tasks, st, keys);
    var le := (a, b) => Before(tasks, order, a, b);
    FilterReadyMembers(tasks, st, keys);
    BeforeIsPreorder(tasks, order);
    forall t ensures ReadyNow(tasks, st, t) <==> IsReady(GraphOf(tasks), st, t) { ReadyNowIsReady(tasks, st, t); }
    hide Before, TotalPreorder, ReadyNow, IsReady, SortBy, FilterReady, Indexed;
    SortBySorted(pending, le);
    SameMembers(SortBy(pending, le), pending);
    RearrangedDistinct(SortBy(pending, le), pending);
  }

  /** Any two entries of the ready list: the more urgent comes first, and of two as urgent as each other
      the one submitted first. */
  lemma ReadyPair(tasks: map<TaskId, Task>, keys: seq<TaskId>, order: map<TaskId, nat>, st: Statuses, i: int, j: int)
    requires Indexed(tasks, keys, order) && st.Keys == tasks.Keys
    requires 0 <= i < j < |ReadyList(tasks, keys, order, st)|
    ensures var (t, u) := (ReadyList(tasks, keys, order, st)[i], ReadyList(tasks, keys, order, st)[j]);
            && t in tasks && u in tasks && t in order && u in order
            && (tasks[t].priority > tasks[u].priority
                || (tasks[t].priority == tasks[u].priority && order[t] < order[u]))
  {
    ReadyMembers(tasks, keys, order, st);
    hide Before, IsReady, ReadyList, Indexed;
    var r := ReadyList(tasks, keys, order, st);
    var le := (a, b) => Before(tasks, order, a, b);
    assert r[i] in r && r[j] in r && le(r[i], r[j]);
    ReadyIsKnown(tasks, st, r[i]);
    ReadyIsKnown(tasks, st, r[j]);
    assert r[i] != r[j];
    BeforeByFields(tasks, keys, order, r[i], r[j]);
  }

  lemma ReadyIsKnown(tasks: map<TaskId, Task>, st: Statuses, t: TaskId)
    requires IsReady(GraphOf(tasks), st, t)
    ensures t in GraphOf(tasks)
  {}

  /** Of two tasks the more urgent comes first, of two as urgent as each other the one submitted first. */
  lemma BeforeByFields(tasks: map<TaskId, Task>, keys: seq<TaskId>, order: map<TaskId, nat>, a: TaskId, b: TaskId)
    requires Indexed(tasks, keys, order) && a in tasks && b in tasks && a != b && Before(tasks, order, a, b)
    ensures a in order && b in order
    ensures tasks[a].priority > tasks[b].priority
            || (tasks[a].priority == tasks[b].priority && order[a] < order[b])
  {
    PositionIsKey(tasks, keys, order, a);
    PositionIsKey(tasks, keys, order, b);
  }

  lemma BeforeIsPreorder(tasks: map<TaskId, Task>, order: map<TaskId, nat>)
    ensures TotalPreorder((a, b) => Before(tasks, order, a, b))
  {}

  lemma ReadyNowIsReady(tasks: map<TaskId, Task>, st: Statuses, t: TaskId)
    ensures ReadyNow(tasks, st, t) <==> IsReady(GraphOf(tasks), st, t)
  {}

  lemma PositionIsKey(tasks: map<TaskId, Task>, keys: seq<TaskId>, order: map<TaskId, nat>, a: TaskId)
    requires Indexed(tasks, keys, order) && a in tasks
    ensures order[a] < |keys| && keys[order[a]] == a
  {
    assert a in keys;
    var i :| 0 <= i < |keys| && keys[i] == a;
  }

  // -- the scheduler ----------------------------------------------------------

  class Scheduler {
    var tasks: map<TaskId, Task>
    var keys: seq<TaskId>  // the task dictionary's insertion order
    var order: map<TaskId, nat>
    var dependents: map<TaskId, seq<TaskId>>
    var status: map<TaskId, TaskStatus>

    ghost function G(): Graph
      reads this`tasks
    {
      GraphOf(tasks)
    }

    ghost predicate Valid()
      reads this
    {
      Registered(tasks, keys, order, dependents) && status.Keys == tasks.Keys
    }

    constructor ()
      ensures Valid() && tasks == map[] && keys == [] && status == map[]
    {
      tasks, keys, order, dependents, status := map[], [], map[], map[], map[];
    }

    method Submit(batch: seq<Task>) returns (err: Option<SchedulerError>)
      requires Valid()
      modifies this
      ensures Valid()
      ensures err.None? <==> Acceptable(old(tasks), batch)
      ensures err == Rejection(old(tasks), batch)
      ensures err.Some? ==>
                tasks == old(tasks) && keys == old(keys) && order == old(order) &&
                dependents == old(dependents) && status == old(status)
      ensures err.None? ==> tasks == old(tasks) + TaskMap(batch) && keys == old(keys) + Ids(batch)
      ensures err.None? ==> status == old(status) + InitialStatuses(TaskMap(batch))
      ensures err.None? && Sound(old(G()), old(status)) && AllPending(batch) ==>
                && (Sound(G(), status) <==> OnFirmGround(old(status), batch))
                && (AlwaysFinishes(G(), status) <==> OnFirmGround(old(status), batch))
    {
      ghost var known, st := tasks, status;
      TaskMapKeys(batch);
      var incoming := set i | 0 <= i < |batch| :: batch[i].id;
      assert incoming == Elements(Ids(batch));
      DistinctMeansSameSize(Ids(batch));
      if |incoming| != |batch| { return Some(DuplicateIds); }
      if incoming * tasks.Keys != {} {
        ghost var clash :| clash in incoming * tasks.Keys;
        assert clash in Ids(batch) && clash in tasks;
        return Some(AlreadyScheduled);
      }
      assert forall t :: t in Ids(batch) ==> t !in tasks by {
        forall t | t in Ids(batch) ensures t !in tasks { assert t in incoming; assert t !in incoming * tasks.Keys; }
      }
      if !DepsKnown(tasks, batch) { return Some(UnknownDependency); }
      BatchClosed(tasks, batch);
      var combined := GraphOf(tasks + TaskMap(batch));
      JoinedDistinct(keys, Ids(batch));
      var acyclic := CheckAcyclic(combined, keys + Ids(batch));
      if !acyclic { return Some(CycleDetected); }
      Register(batch);
      if Sound(GraphOf(known), st) && AllPending(batch) { LateSubmission(known, st, batch); }
      err := None;
    }

    /** The insertion loop of an accepted submission. */
    method Register(batch: seq<Task>)
      requires Valid() && Acceptable(tasks, batch) && Closed(GraphOf(tasks + TaskMap(batch)))
      modifies this
      ensures Valid()
      ensures tasks == old(tasks) + TaskMap(batch) && keys == old(keys) + Ids(batch)
      ensures status == old(status) + InitialStatuses(TaskMap(batch))
    {
      hide Indexed, ListsDependents, Closed, Acyclic, GraphOf, InitialStatuses, TaskMap, Ids, NoDuplicates, DepsKnown;
      ghost var known, keys0, status0 := tasks, keys, status;
      StatusesAt(TaskMap(batch));
      PrefixNone(tasks, status, keys, batch);
      for i := 0 to |batch|
        invariant tasks == known + TaskMap(batch[..i])
        invariant keys == keys0 + Ids(batch[..i])
        invariant status == status0 + InitialStatuses(TaskMap(batch[..i]))
        invariant Indexed(tasks, keys, order)
        invariant ListsDependents(GraphOf(tasks), dependents)
      {
        NewIdIsFresh(known, batch, i);
        PrefixStep(known, status0, keys0, batch, i);
        RegisterTask(batch[i]);
      }
      assert batch[..|batch|] == batch;
    }

    method RegisterTask(task: Task)
      requires Indexed(tasks, keys, order) && ListsDependents(GraphOf(tasks), dependents) && task.id !in tasks
      modifies this
      ensures Indexed(tasks, keys, order) && ListsDependents(GraphOf(tasks), dependents)
      ensures tasks == old(tasks)[task.id := task] && keys == old(keys) + [task.id]
      ensures status == old(status)[task.id := task.status]
    {
      OrderCountsKeys(tasks, keys, order);
      ExtendIndex(tasks, keys, order, task);
      ghost var before, known := dependents, tasks;
      dependents := LinkTask(dependents, task);
      ExtendDependents(known, task, before, dependents);
      tasks := tasks[task.id := task];
      order := order[task.id := |order|];
      keys := keys + [task.id];
      status := status[task.id := task.status];
    }

    /** The tasks that may be dispatched now, highest priority first, then submission order. */
    function Ready(): (r: seq<TaskId>)
      requires Valid()
      reads this
      ensures forall t :: t in r <==> t in tasks && status[t] == PENDING
                                      && forall d :: d in tasks[t].dependsOn ==> d in tasks && status[d] == COMPLETED
      ensures forall i, j :: 0 <= i < j < |r| ==> Sooner(tasks, order, r[i], r[j])
    {
      ReadyListIsExact(tasks, keys, order, status);
      ReadyList(tasks, keys, order, status)
    }

    method Start(id: TaskId) returns (err: Option<SchedulerError>)
      requires Valid()
      modifies this`status
      ensures Valid()
      ensures err == if id !in tasks then Some(UnknownTask)
                     else if old(status)[id] == PENDING || old(status)[id] == READY then None
                     else Some(CannotStart)
      ensures status == if err.None? then old(status)[id := RUNNING] else old(status)
    {
      if id !in tasks { return Some(UnknownTask); }
      if status[id] != PENDING && status[id] != READY { return Some(CannotStart); }
      status := status[id := RUNNING];
      err := None;
    }

    method Complete(id: TaskId) returns (err: Option<SchedulerError>)
      requires Valid()
      modifies this`status
      ensures Valid()
      ensures err == if id !in tasks then Some(UnknownTask)
                     else if old(status)[id] == RUNNING then None else Some(NotRunning)
      ensures status == if err.None? then old(status)[id := COMPLETED] else old(status)
    {
      err := Finish(id, COMPLETED);
    }

    method Fail(id: TaskId) returns (err: Option<SchedulerError>)
      requires Valid()
      modifies this`status
      ensures Valid()
      ensures err == if id !in tasks then Some(UnknownTask)
                     else if old(status)[id] == RUNNING then None else Some(NotRunning)
      ensures status == if err.None? then FailTask(G(), old(status), id) else old(status)
    {
      hide Indexed, Closed, Acyclic, BlockFrom, BlockedOnly, ChangedAreClosed, Unfinished, ListsDependents;
      err := Finish(id, FAILED);
      if err.Some? { return; }
      ghost var st, g := status, G();
      BlockDependents(id, g);
      BlockWalkIsExact(g, st, id, status);
    }

    method Cancel(id: TaskId) returns (err: Option<SchedulerError>)
      requires Valid()
      modifies this`status
      ensures Valid()
      ensures err == if id !in tasks then Some(UnknownTask) else None
      ensures status == if id in tasks && !old(status)[id].Terminal() then old(status)[id := CANCELLED] else old(status)
    {
      if id !in tasks { return Some(UnknownTask); }
      if !status[id].Terminal() { status := status[id := CANCELLED]; }
      err := None;
    }

    method Finish(id: TaskId, outcome: TaskStatus) returns (err: Option<SchedulerError>)
      requires Valid()
      modifies this`status
      ensures Valid()
      ensures err == if id !in tasks then Some(UnknownTask)
                     else if old(status)[id] == RUNNING then None else Some(NotRunning)
      ensures status == if err.None? then old(status)[id := outcome] else old(status)
    {
      if id !in tasks { return Some(UnknownTask); }
      if status[id] != RUNNING { return Some(NotRunning); }
      status := status[id := outcome];
      err := None;
    }

    /** Blocks the unfinished dependents of `id`, and theirs in turn; stops at finished tasks. */
    method BlockDependents(id: TaskId, ghost g: Graph)
      requires ListsDependents(g, dependents) && status.Keys == g.Keys && id in g
      modifies this`status
      ensures status.Keys == g.Keys
      ensures BlockedOnly(g, old(status), id, status)
      ensures ChangedAreClosed(g, old(status), status)
      ensures forall c :: c in g && id in g[c] ==> status[c].Terminal()
      decreases Unfinished(status), 1
    {
      hide LiveReach;
      ghost var st := status;
      var children := Listed(dependents, id);
      for i := 0 to |children|
        invariant status.Keys == g.Keys
        invariant BlockedOnly(g, st, id, status)
        invariant ChangedAreClosed(g, st, status)
        invariant forall c :: c in children[..i] ==> c in status && status[c].Terminal()
      {
        var child := children[i];
        assert children[..i + 1] == children[..i] + [child];
        assert child in Listed(dependents, id);
        BlockChild(child, g, st, id);
      }
      assert children[..|children|] == children;
    }

    /** One child of the walk from `id`, which began in the statuses `st`. */
    method BlockChild(child: TaskId, ghost g: Graph, ghost st: Statuses, ghost id: TaskId)
      requires ListsDependents(g, dependents) && status.Keys == st.Keys == g.Keys
      requires id in g && child in g && id in g[child]
      requires BlockedOnly(g, st, id, status) && ChangedAreClosed(g, st, status)
      modifies this`status
      ensures status.Keys == g.Keys
      ensures BlockedOnly(g, st, id, status) && ChangedAreClosed(g, st, status)
      ensures status[child].Terminal()
      ensures forall t :: t in g && old(status)[t].Terminal() ==> status[t].Terminal()
      decreases Unfinished(status), 0
    {
      if !status[child].Terminal() {
        ghost var mid := status;
        status := status[child := BLOCKED];
        assert child in Unfinished(mid) && child !in Unfinished(status);
        BlockDependents(child, g);
        BlockChildStep(g, st, id, mid, child, status);
      }
    }

    method Done() returns (done: bool)
      requires Valid()
      ensures done <==> AllTerminal(status)
    {
      done := forall t :: t in status ==> status[t].Terminal();
    }
  }

  lemma DistinctMeansSameSize(s: seq<TaskId>)
    ensures NoDuplicates(s) <==> |Elements(s)| == |s|
  {
    if NoDuplicates(s) {
      NoDuplicatesCardinality(s);
    } else {
      RepeatMeansSmaller(s);
    }
  }

  lemma {:induction false} ElementsNotMore(s: seq<TaskId>)
    ensures |Elements(s)| <= |s|
    decreases |s|
  {
    if s != [] {
      var init := s[..|s| - 1];
      ElementsNotMore(init);
      assert Elements(s) == Elements(init) + {s[|s| - 1]};
    }
  }

  lemma RepeatMeansSmaller(s: seq<TaskId>)
    requires !NoDuplicates(s)
    ensures |Elements(s)| < |s|
  {
    var i, j :| 0 <= i < j < |s| && s[i] == s[j];
    var r := s[..j] + s[j + 1..];
    forall t | t in s ensures t in r {
      var k :| 0 <= k < |s| && s[k] == t;
      if k == j { assert r[i] == t; } else { assert r[if k < j then k else k - 1] == t; }
    }
    forall t | t in r ensures t in s {}
    assert Elements(s) == Elements(r);
    ElementsNotMore(r);
  }

  lemma JoinedDistinct(a: seq<TaskId>, b: seq<TaskId>)
    requires NoDuplicates(a) && NoDuplicates(b) && forall t :: t in b ==> t !in a
    ensures NoDuplicates(a + b)
  {
    forall i, j | 0 <= i < j < |a + b| ensures (a + b)[i] != (a + b)[j] {
      if i < |a| && j >= |a| { assert (a + b)[j] in b && (a + b)[i] in a; }
    }
  }

  lemma NewIdIsFresh(known: map<TaskId, Task>, batch: seq<Task>, i: nat)
    requires Acceptable(known, batch) && i < |batch|
    ensures batch[i].id !in known + TaskMap(batch[..i])
  {
    TaskMapKeys(batch[..i]);
    assert Ids(batch)[i] == batch[i].id;
    forall k | 0 <= k < i ensures Ids(batch[..i])[k] != batch[i].id { assert Ids(batch)[k] != Ids(batch)[i]; }
  }

  lemma SingleTask(known: map<TaskId, Task>, task: Task)
    ensures TaskMap([task]) == map[task.id := task] && Ids([task]) == [task.id]
    ensures known + TaskMap([task]) == known[task.id := task]
    ensures InitialStatuses(TaskMap([task])) == map[task.id := task.status]
  {
    assert [task][..0] == [];
    assert TaskMap([task]) == map[task.id := task];
  }

  lemma OrderedOneMore(g: Graph, order: seq<TaskId>, t: TaskId, deps: seq<TaskId>)
    requires TopologicalOrder(g, order) && t !in g && forall d :: d in deps ==> d in g
    ensures TopologicalOrder(g[t := deps], order + [t])
  {
    var g', order' := g[t := deps], order + [t];
    assert t !in order;
    forall i | 0 <= i < |order'| ensures DepsBefore(g', order', i) {
      if i < |order| {
        assert DepsBefore(g, order, i);
        assert order[i] in order && order'[..i] == order[..i];
      } else {
        assert order'[..i] == order;
      }
    }
    forall i, j | 0 <= i < j < |order'| ensures order'[i] != order'[j] { if j == |order| { assert order[i] in order; } }
  }

  /** A task with a new id on top of known ones is accepted. */
  lemma OneMore(known: map<TaskId, Task>, order: seq<TaskId>, task: Task)
    requires TopologicalOrder(GraphOf(known), order) && task.id !in known
    requires forall d :: d in task.dependsOn ==> d in known
    ensures Acceptable(known, [task]) && known + TaskMap([task]) == known[task.id := task]
    ensures TopologicalOrder(GraphOf(known[task.id := task]), order + [task.id])
    ensures InitialStatuses(TaskMap([task])) == map[task.id := task.status]
  {
    hide TaskMap, Acyclic, TopologicalOrder;
    SingleTask(known, task);
    var g := GraphOf(known[task.id := task]);
    assert g == GraphOf(known)[task.id := task.dependsOn];
    OrderedOneMore(GraphOf(known), order, task.id, task.dependsOn);
    OrderedIsAcyclic(g, order + [task.id]);
  }

  /** A scheduler whose only task has failed. */
  method OneFailedTask(a: Task) returns (s: Scheduler)
    requires a.dependsOn == [] && a.status == PENDING
    ensures fresh(s) && s.Valid() && s.tasks == map[a.id := a] && s.status == map[a.id := FAILED]
  {
    hide Acyclic, AlwaysFinishes, FailTask, TaskMap, Acceptable, Registered, TopologicalOrder, Sound, OnFirmGround;
    hide InitialStatuses, Rejection, Ids, BlockFrom, GraphOf, DepsKnown, NoDuplicates, Closed;
    s := new Scheduler();
    NoOrder();
    OneMore(map[], [], a);
    var err := s.Submit([a]);
    assert s.status == map[a.id := PENDING];
    err := s.Start(a.id);
    FailOne(s.G(), s.status, a.id);
    err := s.Fail(a.id);
  }

  /** Where a later submission strands: a task on top of one that failed is neither blocked nor ready,
      and nothing else is left to do. */
  method SubmitOnFailed() returns (s: Scheduler, late: TaskId)
    ensures s.Valid() && late in s.status && s.status[late] == PENDING
    ensures Stalled(s.G(), s.status) && !Sound(s.G(), s.status) && !AlwaysFinishes(s.G(), s.status)
  {
    hide Acyclic, AlwaysFinishes, FailTask, TaskMap, Acceptable, Registered, TopologicalOrder, Sound, Stalled;
    hide OnFirmGround, InitialStatuses, Rejection, Ids, BlockFrom, GraphOf, DepsKnown, NoDuplicates, Closed;
    var first, second := Named("first"), Named("second");
    late := second;
    var a := Task(first, "text", "", [], 0, None, PENDING);
    var b := Task(second, "text", "", [first], 0, None, PENDING);
    s := OneFailedTask(a);
    NoOrder();
    OneMore(map[], [], a);
    OneMore(map[first := a], [] + [first], b);
    OnFailed(first, second, b);
    KnownGraphs(first, second, a, b);
    var err := s.Submit([b]);
    assert s.status == map[first := FAILED, second := PENDING];
    assert s.G() == map[first := [], second := [first]];
  }

  lemma OnFailed(first: TaskId, second: TaskId, b: Task)
    requires first != second && b.id == second && b.dependsOn == [first]
    ensures Sound(map[first := []], map[first := FAILED]) && !OnFirmGround(map[first := FAILED], [b])
    ensures Stalled(map[first := [], second := [first]], map[first := FAILED, second := PENDING])
  {
    assert first in [b][0].dependsOn;
    var g, st := map[first := [], second := [first]], map[first := FAILED, second := PENDING];
    assert first in g[second] && st[first] != COMPLETED;
  }

  lemma KnownGraphs(first: TaskId, second: TaskId, a: Task, b: Task)
    requires first != second && a.dependsOn == [] && b.dependsOn == [first]
    ensures GraphOf(map[first := a]) == map[first := []]
    ensures GraphOf(map[first := a, second := b]) == map[first := [], second := [first]]
  {}

  lemma NoOrder()
    ensures TopologicalOrder(GraphOf(map[]), [])
  {}

  lemma FailOne(g: Graph, st: Statuses, t: TaskId)
    requires st.Keys == {t}
    ensures FailTask(g, st, t) == map[t := FAILED]
  {}
}
