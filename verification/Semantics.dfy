/** What a plan means: the status every task must end in, defined by recursion on the
    dependency graph from one verdict per task. */
module Semantics {
  import opened Schemas
  import opened Dag

  type Statuses = map<TaskId, TaskStatus>

  /** The final status of `t` when exactly the tasks of `ok` would succeed if they ran and the
      tasks of `pins` count as completed whatever else happens. */
  ghost function Final(g: Graph, ok: set<TaskId>, pins: set<TaskId>, t: TaskId): TaskStatus
    requires Closed(g) && Acyclic(g) && t in g
    decreases Ancestors(g, t)
  {
    AncestorsShrink(g, t);
    if t in pins then COMPLETED
    else if forall d :: d in g[t] ==> Final(g, ok, pins, d) == COMPLETED then
      if t in ok then COMPLETED else FAILED
    else BLOCKED
  }

  ghost function FinalMap(g: Graph, ok: set<TaskId>, pins: set<TaskId>): Statuses
    requires Closed(g) && Acyclic(g)
  {
    map t | t in g :: Final(g, ok, pins, t)
  }

  ghost predicate AllDepsCompleted(g: Graph, st: Statuses, t: TaskId)
    requires t in g
  {
    forall d :: d in g[t] ==> d in st && st[d] == COMPLETED
  }

  /** `st` satisfies the recursion's equation at every task. */
  ghost predicate Solves(g: Graph, ok: set<TaskId>, pins: set<TaskId>, st: Statuses) {
    && st.Keys == g.Keys
    && forall t :: t in g ==>
         st[t] == if t in pins then COMPLETED
                  else if AllDepsCompleted(g, st, t) then (if t in ok then COMPLETED else FAILED)
                  else BLOCKED
  }

  lemma FinalMapSolves(g: Graph, ok: set<TaskId>, pins: set<TaskId>)
    requires Closed(g) && Acyclic(g)
    ensures Solves(g, ok, pins, FinalMap(g, ok, pins))
  {
    var f := FinalMap(g, ok, pins);
    forall t | t in g
      ensures f[t] == if t in pins then COMPLETED
                      else if AllDepsCompleted(g, f, t) then (if t in ok then COMPLETED else FAILED)
                      else BLOCKED
    {
      assert AllDepsCompleted(g, f, t) <==> forall d :: d in g[t] ==> Final(g, ok, pins, d) == COMPLETED;
    }
  }

  lemma {:induction false} SolutionAt(g: Graph, ok: set<TaskId>, pins: set<TaskId>, st: Statuses, t: TaskId)
    requires Closed(g) && Acyclic(g) && t in g && Solves(g, ok, pins, st)
    ensures st[t] == Final(g, ok, pins, t)
    decreases Ancestors(g, t)
  {
    AncestorsShrink(g, t);
    forall d | d in g[t] ensures st[d] == Final(g, ok, pins, d) {
      SolutionAt(g, ok, pins, st, d);
    }
    assert AllDepsCompleted(g, st, t) <==> forall d :: d in g[t] ==> Final(g, ok, pins, d) == COMPLETED;
  }

  /** The equations have exactly one solution. */
  lemma SolutionIsFinal(g: Graph, ok: set<TaskId>, pins: set<TaskId>, st: Statuses)
    requires Closed(g) && Acyclic(g)
    ensures Solves(g, ok, pins, st) <==> st == FinalMap(g, ok, pins)
  {
    FinalMapSolves(g, ok, pins);
    if Solves(g, ok, pins, st) {
      forall t | t in g ensures st[t] == Final(g, ok, pins, t) { SolutionAt(g, ok, pins, st, t); }
    }
  }

  ghost predicate DependencyClosed(g: Graph, s: set<TaskId>) {
    s <= g.Keys && forall t, d :: t in s && t in g && d in g[t] ==> d in s
  }

  ghost predicate AllAncestorsIn(g: Graph, t: TaskId, s: set<TaskId>) {
    forall a :: DependsOn(g, t, a) ==> a in s
  }

  lemma AllAncestorsStep(g: Graph, t: TaskId, s: set<TaskId>)
    requires Closed(g) && t in g
    ensures AllAncestorsIn(g, t, s) <==> forall d :: d in g[t] ==> d in s && AllAncestorsIn(g, d, s)
  {
    if AllAncestorsIn(g, t, s) {
      forall d | d in g[t] ensures d in s && AllAncestorsIn(g, d, s) {
        EdgeDepends(g, d, t);
        forall a | DependsOn(g, d, a) ensures a in s { DependsTransitive(g, a, d, t); }
      }
    }
    if forall d :: d in g[t] ==> d in s && AllAncestorsIn(g, d, s) {
      forall a | DependsOn(g, t, a) ensures a in s {
        var d := DependsLastEdge(g, a, t);
        assert AllAncestorsIn(g, d, s);
      }
    }
  }

  /** The recursion in closed form, for pinned sets that contain their own dependencies: a task
      completes iff it and all its ancestors succeed, fails iff it alone does not, and is
      blocked iff some ancestor does not succeed. */
  lemma {:induction false} FinalClosedForm(g: Graph, ok: set<TaskId>, pins: set<TaskId>, t: TaskId)
    requires Closed(g) && Acyclic(g) && t in g && DependencyClosed(g, pins)
    ensures Final(g, ok, pins, t) == COMPLETED <==> t in ok + pins && AllAncestorsIn(g, t, ok + pins)
    ensures Final(g, ok, pins, t) == FAILED <==> t !in ok + pins && AllAncestorsIn(g, t, ok + pins)
    ensures Final(g, ok, pins, t) == BLOCKED <==> !AllAncestorsIn(g, t, ok + pins)
    decreases Ancestors(g, t)
  {
    AncestorsShrink(g, t);
    forall d | d in g[t]
      ensures Final(g, ok, pins, d) == COMPLETED <==> d in ok + pins && AllAncestorsIn(g, d, ok + pins)
    {
      FinalClosedForm(g, ok, pins, d);
    }
    AllAncestorsStep(g, t, ok + pins);
    if t in pins {
      forall d | d in g[t] ensures d in pins && AllAncestorsIn(g, d, ok + pins) {
        FinalClosedForm(g, ok, pins, d);
        assert d in pins;
        assert Final(g, ok, pins, d) == COMPLETED;
      }
    }
  }

  /** More successes never turn a completed task into anything else. */
  lemma {:induction false} FinalMonotone(g: Graph, ok: set<TaskId>, ok': set<TaskId>, pins: set<TaskId>,
                                         pins': set<TaskId>, t: TaskId)
    requires Closed(g) && Acyclic(g) && t in g && ok <= ok' && pins <= pins'
    requires Final(g, ok, pins, t) == COMPLETED
    ensures Final(g, ok', pins', t) == COMPLETED
    decreases Ancestors(g, t)
  {
    AncestorsShrink(g, t);
    if t !in pins' {
      forall d | d in g[t] ensures Final(g, ok', pins', d) == COMPLETED {
        FinalMonotone(g, ok, ok', pins, pins', d);
      }
    }
  }
}
