/** The scheduler's transitions on plain status maps, and the invariant every run keeps. */
module SchedulerSpec {
  import opened Schemas
  import opened Dag
  import opened Semantics

  /** A path from `a` to `b` whose nodes after `a` are all unfinished. */
  ghost predicate LivePath(g: Graph, st: Statuses, p: seq<TaskId>) {
    IsPath(g, p) && forall i :: 1 <= i < |p| ==> p[i] in st && !st[p[i]].Terminal()
  }

  ghost predicate LiveReach(g: Graph, st: Statuses, a: TaskId, b: TaskId) {
    exists p :: LivePath(g, st, p) && p[0] == a && p[|p| - 1] == b
  }

  /** The effect of blocking from `a`: every unfinished task reached through unfinished tasks. */
  ghost function BlockFrom(g: Graph, st: Statuses, a: TaskId): Statuses {
    map t | t in st :: if LiveReach(g, st, a, t) then BLOCKED else st[t]
  }

  ghost function FailTask(g: Graph, st: Statuses, t: TaskId): Statuses {
    BlockFrom(g, st[t := FAILED], t)
  }

  /** Pending with every dependency completed. */
  ghost predicate IsReady(g: Graph, st: Statuses, t: TaskId) {
    t in g && t in st && st[t] == PENDING && AllDepsCompleted(g, st, t)
  }

  predicate EdgeOk(dep: TaskStatus, dependent: TaskStatus) {
    && (dependent == RUNNING || dependent == COMPLETED || dependent == FAILED ==> dep == COMPLETED)
    && (dep == FAILED || dep == BLOCKED ==> dependent == BLOCKED)
  }

  ghost predicate HasFailedDep(g: Graph, st: Statuses, t: TaskId)
    requires t in g
  {
    exists d :: d in g[t] && d in st && (st[d] == FAILED || st[d] == BLOCKED)
  }

  /** What every state of an uncancelled single-submission run satisfies. */
  ghost predicate Sound(g: Graph, st: Statuses) {
    && st.Keys == g.Keys
    && (forall t :: t in st ==> st[t] != READY && st[t] != CANCELLED)
    && (forall t, d :: t in g && d in g[t] ==> d in st && EdgeOk(st[d], st[t]))
    && (forall t {:trigger HasFailedDep(g, st, t)} :: t in g && st[t] == BLOCKED ==> HasFailedDep(g, st, t))
  }

  /** A blocked task stays explained while no failed or blocked status changes. */
  lemma BlamePersists(g: Graph, st: Statuses, t: TaskId, status: TaskStatus)
    requires Sound(g, st) && t in g && st[t] != FAILED && st[t] != BLOCKED && status != BLOCKED
    ensures forall u :: u in g && st[t := status][u] == BLOCKED ==> HasFailedDep(g, st[t := status], u)
  {
    var st' := st[t := status];
    forall u | u in g && st'[u] == BLOCKED ensures HasFailedDep(g, st', u) {
      assert HasFailedDep(g, st, u);
      var d :| d in g[u] && d in st && (st[d] == FAILED || st[d] == BLOCKED);
      assert d in g[u] && d in st' && (st'[d] == FAILED || st'[d] == BLOCKED);
    }
  }

  lemma StartSound(g: Graph, st: Statuses, t: TaskId)
    requires Closed(g) && Acyclic(g) && Sound(g, st) && IsReady(g, st, t)
    ensures Sound(g, st[t := RUNNING])
  {
    if t in g[t] { EdgeDepends(g, t, t); }
    BlamePersists(g, st, t, RUNNING);
    hide HasFailedDep, Acyclic, Closed;
    forall u, d | u in g && d in g[u] ensures d in st && EdgeOk(st[t := RUNNING][d], st[t := RUNNING][u]) {
      assert EdgeOk(st[d], st[u]);
    }
  }

  lemma CompleteSound(g: Graph, st: Statuses, t: TaskId)
    requires Sound(g, st) && t in g && st[t] == RUNNING
    ensures Sound(g, st[t := COMPLETED])
  {
    BlamePersists(g, st, t, COMPLETED);
    hide HasFailedDep;
    forall u, d | u in g && d in g[u] ensures d in st && EdgeOk(st[t := COMPLETED][d], st[t := COMPLETED][u]) {
      assert EdgeOk(st[d], st[u]);
    }
  }

  /** Beyond an uncompleted task nothing has run: a path ends in a pending task all of whose
      intermediate tasks are pending, or in a blocked one. */
  lemma {:induction false} BeyondUncompleted(g: Graph, st: Statuses, p: seq<TaskId>)
    requires Sound(g, st) && IsPath(g, p) && st[p[0]] != COMPLETED
    ensures st[p[|p| - 1]] == BLOCKED || (forall i :: 1 <= i < |p| ==> st[p[i]] == PENDING)
    decreases |p|
  {
    var n := |p|;
    assert p[n - 2] in g[p[n - 1]];
    assert EdgeOk(st[p[n - 2]], st[p[n - 1]]);
    if n > 2 {
      var q := p[..n - 1];
      assert IsPath(g, q);
      BeyondUncompleted(g, st, q);
      assert q[|q| - 1] == p[n - 2];
      if st[p[n - 2]] != BLOCKED {
        assert q[n - 2] == p[n - 2];
        forall i | 1 <= i < |p| ensures st[p[i]] == PENDING || st[p[n - 1]] == BLOCKED {
          if i < n - 1 { assert q[i] == p[i]; }
        }
      }
    }
  }

  /** What failing `t` does to one of its dependents. */
  lemma FailReaches(g: Graph, st: Statuses, t: TaskId, u: TaskId)
    requires Sound(g, st) && t in g && st[t] == RUNNING && DependsOn(g, u, t)
    ensures u in g && (st[u] == PENDING || st[u] == BLOCKED)
    ensures st[u] != BLOCKED ==> LiveReach(g, st[t := FAILED], t, u)
  {
    var p :| IsPath(g, p) && p[0] == t && p[|p| - 1] == u;
    BeyondUncompleted(g, st, p);
    if st[u] != BLOCKED { assert LivePath(g, st[t := FAILED], p); }
  }

  lemma ReachDepends(g: Graph, st: Statuses, t: TaskId, u: TaskId)
    requires LiveReach(g, st, t, u)
    ensures DependsOn(g, u, t)
  {
    var p :| LivePath(g, st, p) && p[0] == t && p[|p| - 1] == u;
  }

  /** Failing a running task blocks exactly its transitive dependents, although the walk stops
      at tasks that are already finished. */
  lemma FailBlocksExactlyDependents(g: Graph, st: Statuses, t: TaskId)
    requires Closed(g) && Acyclic(g) && Sound(g, st) && t in g && st[t] == RUNNING
    ensures FailTask(g, st, t).Keys == st.Keys
    ensures forall u :: u in g ==>
              FailTask(g, st, t)[u] == (if u == t then FAILED else if DependsOn(g, u, t) then BLOCKED else st[u])
    ensures forall u :: u in g && u != t && DependsOn(g, u, t) ==> st[u] == PENDING || st[u] == BLOCKED
  {
    assert st.Keys == g.Keys && !DependsOn(g, t, t);
    hide Closed, Acyclic, Sound, DependsOn, LiveReach;
    var st1, st' := st[t := FAILED], FailTask(g, st, t);
    forall u | u in g
      ensures st'[u] == if u == t then FAILED else if DependsOn(g, u, t) then BLOCKED else st[u]
      ensures u != t && DependsOn(g, u, t) ==> st[u] == PENDING || st[u] == BLOCKED
    {
      if LiveReach(g, st1, t, u) { ReachDepends(g, st1, t, u); }
      if DependsOn(g, u, t) { FailReaches(g, st, t, u); }
    }
  }

  lemma FailSound(g: Graph, st: Statuses, t: TaskId)
    requires Closed(g) && Acyclic(g) && Sound(g, st) && t in g && st[t] == RUNNING
    ensures Sound(g, FailTask(g, st, t))
  {
    FailBlocksExactlyDependents(g, st, t);
    var st' := FailTask(g, st, t);
    forall u, d | u in g && d in g[u] ensures d in st' && EdgeOk(st'[d], st'[u]) {
      assert EdgeOk(st[d], st[u]);
      if d == t { EdgeDepends(g, t, u); }
      else if DependsOn(g, d, t) { EdgeDepends(g, d, u); DependsTransitive(g, t, d, u); }
      if u == t { if DependsOn(g, d, t) { EdgeDepends(g, d, t); DependsTransitive(g, t, d, t); } }
    }
    forall u | u in g && st'[u] == BLOCKED ensures HasFailedDep(g, st', u) {
      if DependsOn(g, u, t) {
        var d := DependsLastEdge(g, t, u);
        assert st'[d] == FAILED || st'[d] == BLOCKED;
      } else {
        assert HasFailedDep(g, st, u);
        var d :| d in g[u] && d in st && (st[d] == FAILED || st[d] == BLOCKED);
        assert st'[d] == FAILED || st'[d] == BLOCKED;
      }
    }
  }

  ghost predicate AllTerminal(st: Statuses) {
    forall t :: t in st ==> st[t].Terminal()
  }

  /** A pending task whose dependencies have all got past pending, with nothing running, is ready. */
  lemma FirstPendingIsReady(g: Graph, st: Statuses, t: TaskId)
    requires Closed(g) && Sound(g, st) && t in g && st[t] == PENDING
    requires forall d :: d in g[t] ==> st[d] != PENDING && st[d] != RUNNING
    ensures IsReady(g, st, t)
  {
    forall d | d in g[t] ensures d in st && st[d] == COMPLETED { assert EdgeOk(st[d], st[t]); }
  }

  /** Progress: with nothing running and nothing ready, every task is finished. */
  lemma NothingReadyMeansDone(g: Graph, st: Statuses)
    requires Closed(g) && Acyclic(g) && Sound(g, st)
    requires (forall t :: t in st ==> st[t] != RUNNING) && forall t :: !IsReady(g, st, t)
    ensures AllTerminal(st)
  {
    var done := set t | t in g && st[t] != PENDING;
    if done < g.Keys {
      var t := NextExists(g, done);
      FirstPendingIsReady(g, st, t);
      assert false;
    }
    forall t | t in st ensures st[t].Terminal() { assert t in done; }
  }

  /** Pending tasks on firm ground extend a sound state. */
  lemma ExtendedSound(g: Graph, st: Statuses, g': Graph, st': Statuses)
    requires Sound(g, st) && Closed(g) && g.Keys <= g'.Keys && st'.Keys == g'.Keys && Closed(g')
    requires forall t :: t in g ==> g'[t] == g[t] && st'[t] == st[t]
    requires forall t :: t in g' && t !in g ==> st'[t] == PENDING
    requires forall t, d :: t in g' && t !in g && d in g'[t] && d in st ==> st[d] != FAILED && st[d] != BLOCKED
    ensures Sound(g', st')
  {
    forall t, d | t in g' && d in g'[t] ensures d in st' && EdgeOk(st'[d], st'[t]) {
      if t in g { assert d in g[t] && EdgeOk(st[d], st[t]); }
    }
    forall t | t in g' && st'[t] == BLOCKED ensures HasFailedDep(g', st', t) {
      assert t in g && HasFailedDep(g, st, t);
      var d :| d in g[t] && d in st && (st[d] == FAILED || st[d] == BLOCKED);
      assert d in g'[t] && d in st';
    }
  }

  // -- runs of the scheduler ---------------------------------------------------

  datatype Move = Starting(t: TaskId) | Completing(t: TaskId) | Failing(t: TaskId)

  ghost predicate CanMove(g: Graph, st: Statuses, m: Move) {
    if m.Starting? then IsReady(g, st, m.t) else m.t in g && m.t in st && st[m.t] == RUNNING
  }

  ghost function Moved(g: Graph, st: Statuses, m: Move): Statuses {
    match m
    case Starting(t) => st[t := RUNNING]
    case Completing(t) => st[t := COMPLETED]
    case Failing(t) => FailTask(g, st, t)
  }

  ghost predicate Possible(g: Graph, st: Statuses, moves: seq<Move>) {
    moves == [] || (CanMove(g, st, moves[0]) && Possible(g, Moved(g, st, moves[0]), moves[1..]))
  }

  ghost function MovedAll(g: Graph, st: Statuses, moves: seq<Move>): Statuses
    decreases |moves|
  {
    if moves == [] then st else MovedAll(g, Moved(g, st, moves[0]), moves[1..])
  }

  /** Nothing is running and nothing can start. */
  ghost predicate Stalled(g: Graph, st: Statuses) {
    (forall t :: t in st ==> st[t] != RUNNING) && forall t :: !IsReady(g, st, t)
  }

  /** However its tasks turn out, the scheduler only stops with every task finished. */
  ghost predicate AlwaysFinishes(g: Graph, st: Statuses) {
    forall moves :: Possible(g, st, moves) && Stalled(g, MovedAll(g, st, moves)) ==> AllTerminal(MovedAll(g, st, moves))
  }

  lemma {:induction false} MovesKeepSound(g: Graph, st: Statuses, moves: seq<Move>)
    requires Closed(g) && Acyclic(g) && Sound(g, st) && Possible(g, st, moves)
    ensures Sound(g, MovedAll(g, st, moves))
    decreases |moves|
  {
    hide Sound, Closed, Acyclic, FailTask, IsReady;
    if moves != [] {
      match moves[0] {
        case Starting(t) => StartSound(g, st, t);
        case Completing(t) => CompleteSound(g, st, t);
        case Failing(t) => FailSound(g, st, t);
      }
      MovesKeepSound(g, Moved(g, st, moves[0]), moves[1..]);
    }
  }

  lemma SoundAlwaysFinishes(g: Graph, st: Statuses)
    requires Closed(g) && Acyclic(g) && Sound(g, st)
    ensures AlwaysFinishes(g, st)
  {
    hide Sound, Closed, Acyclic, Possible, MovedAll, AllTerminal;
    forall moves | Possible(g, st, moves) && Stalled(g, MovedAll(g, st, moves))
      ensures AllTerminal(MovedAll(g, st, moves))
    {
      MovesKeepSound(g, st, moves);
      NothingReadyMeansDone(g, MovedAll(g, st, moves));
    }
  }

  ghost function At(st: Statuses, status: TaskStatus): set<TaskId> {
    set t | t in st && st[t] == status
  }

  lemma MoveFirst(g: Graph, st: Statuses, m: Move, rest: seq<Move>)
    requires CanMove(g, st, m) && Possible(g, Moved(g, st, m), rest)
    ensures Possible(g, st, [m] + rest) && MovedAll(g, st, [m] + rest) == MovedAll(g, Moved(g, st, m), rest)
  {
    hide CanMove, Moved;
    assert ([m] + rest)[1..] == rest;
  }

  lemma NoMove(g: Graph, st: Statuses)
    ensures Possible(g, st, []) && MovedAll(g, st, []) == st
  {}

  /** A pending task on top of a failed or blocked one stays pending while everything else succeeds. */
  lemma {:induction false} StrandedRun(g: Graph, st: Statuses, t: TaskId, d: TaskId) returns (moves: seq<Move>)
    requires st.Keys == g.Keys && t in g && st[t] == PENDING
    requires d in g[t] && d in st && (st[d] == FAILED || st[d] == BLOCKED)
    ensures Possible(g, st, moves) && Stalled(g, MovedAll(g, st, moves))
    ensures t in MovedAll(g, st, moves) && MovedAll(g, st, moves)[t] == PENDING
    decreases |At(st, PENDING)|, |At(st, RUNNING)|
  {
    hide FailTask, Possible, MovedAll;
    if u :| u in g && u in st && st[u] == RUNNING {
      var st' := st[u := COMPLETED];
      assert At(st', PENDING) == At(st, PENDING);
      assert At(st', RUNNING) == At(st, RUNNING) - {u};
      moves := StrandedRun(g, st', t, d);
      MoveFirst(g, st, Completing(u), moves);
      moves := [Completing(u)] + moves;
    } else if u :| IsReady(g, st, u) {
      var st' := st[u := RUNNING];
      assert st[d] != COMPLETED;
      assert u != t;
      assert At(st', PENDING) == At(st, PENDING) - {u};
      moves := StrandedRun(g, st', t, d);
      MoveFirst(g, st, Starting(u), moves);
      moves := [Starting(u)] + moves;
    } else {
      NoMove(g, st);
      moves := [];
    }
  }

  lemma StrandedNeverFinishes(g: Graph, st: Statuses, t: TaskId, d: TaskId)
    requires st.Keys == g.Keys && t in g && st[t] == PENDING
    requires d in g[t] && d in st && (st[d] == FAILED || st[d] == BLOCKED)
    ensures !AlwaysFinishes(g, st)
  {
    hide Possible, MovedAll, Stalled;
    var moves := StrandedRun(g, st, t, d);
  }

  /** Each finished task carries its own verdict. */
  ghost predicate Owned(st: Statuses, ok: set<TaskId>, pins: set<TaskId>) {
    && (forall t :: t in pins ==> t in st && st[t] == COMPLETED)
    && (forall t :: t in st && st[t] == COMPLETED && t !in pins ==> t in ok)
    && (forall t :: t in st && st[t] == FAILED ==> t !in ok)
  }

  /** A sound, finished state in which each task kept its own verdict is the plan's meaning. */
  lemma SoundAndDoneIsFinal(g: Graph, st: Statuses, ok: set<TaskId>, pins: set<TaskId>)
    requires Closed(g) && Acyclic(g) && Sound(g, st) && AllTerminal(st) && Owned(st, ok, pins)
    ensures st == FinalMap(g, ok, pins)
  {
    hide Closed, Acyclic, Final;
    forall t | t in g
      ensures st[t] == if t in pins then COMPLETED
                       else if AllDepsCompleted(g, st, t) then (if t in ok then COMPLETED else FAILED)
                       else BLOCKED
    {
      assert st[t].Terminal();
      if st[t] == BLOCKED {
        assert HasFailedDep(g, st, t);
      } else {
        forall d | d in g[t] ensures d in st && st[d] == COMPLETED { assert EdgeOk(st[d], st[t]); }
      }
    }
    SolutionIsFinal(g, ok, pins, st);
  }
}
