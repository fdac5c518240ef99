/** Cycle detection by Kahn's algorithm, proved to decide `Acyclic` on every closed graph,
    repeated dependencies included. */
module Kahn {
  import opened Schemas
  import opened Dag

  ghost predicate NoDuplicates(s: seq<TaskId>) {
    forall i, j :: 0 <= i < j < |s| ==> s[i] != s[j]
  }

  ghost function Elements(s: seq<TaskId>): set<TaskId> {
    set t | t in s
  }

  lemma {:induction false} NoDuplicatesCardinality(s: seq<TaskId>)
    requires NoDuplicates(s)
    ensures |Elements(s)| == |s|
    decreases |s|
  {
    if s != [] {
      var init, last := s[..|s| - 1], s[|s| - 1];
      NoDuplicatesCardinality(init);
      assert Elements(s) == Elements(init) + {last};
      assert last !in Elements(init);
    }
  }

  /** How many entries of `deps` lie outside `v`. */
  ghost function CountOutside(deps: seq<TaskId>, v: set<TaskId>): nat {
    if deps == [] then 0
    else CountOutside(deps[..|deps| - 1], v) + (if deps[|deps| - 1] in v then 0 else 1)
  }

  lemma {:induction false} CountOutsideNone(deps: seq<TaskId>)
    ensures CountOutside(deps, {}) == |deps|
    decreases |deps|
  {
    if deps != [] { CountOutsideNone(deps[..|deps| - 1]); }
  }

  lemma {:induction false} CountOutsideAdd(deps: seq<TaskId>, v: set<TaskId>, x: TaskId)
    requires x !in v
    ensures CountOutside(deps, v + {x}) == CountOutside(deps, v) - Occurrences(deps, x)
    decreases |deps|
  {
    if deps != [] { CountOutsideAdd(deps[..|deps| - 1], v, x); }
  }

  lemma {:induction false} CountOutsideZero(deps: seq<TaskId>, v: set<TaskId>)
    ensures CountOutside(deps, v) == 0 <==> forall d :: d in deps ==> d in v
    decreases |deps|
  {
    if deps != [] {
      var n := |deps|;
      CountOutsideZero(deps[..n - 1], v);
      assert deps == deps[..n - 1] + [deps[n - 1]];
    }
  }

  function Listed(m: map<TaskId, seq<TaskId>>, x: TaskId): seq<TaskId> {
    if x in m then m[x] else []
  }

  function Occurrences(s: seq<TaskId>, x: TaskId): nat {
    if s == [] then 0 else Occurrences(s[..|s| - 1], x) + (if s[|s| - 1] == x then 1 else 0)
  }

  lemma OccurrencesAppend(s: seq<TaskId>, e: TaskId, x: TaskId)
    ensures Occurrences(s + [e], x) == Occurrences(s, x) + (if e == x then 1 else 0)
  {
    assert (s + [e])[..|s|] == s;
  }

  lemma {:induction false} OccurrencesPositive(s: seq<TaskId>, x: TaskId)
    ensures Occurrences(s, x) > 0 <==> x in s
    decreases |s|
  {
    if s != [] {
      OccurrencesPositive(s[..|s| - 1], x);
      assert s == s[..|s| - 1] + [s[|s| - 1]];
    }
  }

  lemma {:induction false} OccurrencesPrefix(s: seq<TaskId>, k: nat, x: TaskId)
    requires k <= |s|
    ensures Occurrences(s[..k], x) <= Occurrences(s, x)
    decreases |s| - k
  {
    if k < |s| {
      OccurrencesAppend(s[..k], s[k], x);
      assert s[..k + 1] == s[..k] + [s[k]];
      OccurrencesPrefix(s, k + 1, x);
    } else {
      assert s[..k] == s;
    }
  }

  ghost function Edges(g: Graph, c: TaskId, x: TaskId): nat {
    if c in g then Occurrences(g[c], x) else 0
  }

  /** `rev` lists `c` under `x` once per occurrence of `x` among the dependencies of `c`. */
  ghost predicate Reverses(g: Graph, rev: map<TaskId, seq<TaskId>>) {
    forall x, c :: Occurrences(Listed(rev, x), c) == Edges(g, c, x)
  }

  /** The same while task `t` is being added: `prefix` is the part of its list already done. */
  ghost function EdgesSoFar(g: Graph, done: set<TaskId>, t: TaskId, prefix: seq<TaskId>, c: TaskId, x: TaskId): nat {
    if c in done then Edges(g, c, x) else if c == t then Occurrences(prefix, x) else 0
  }

  ghost predicate ReversesPart(g: Graph, rev: map<TaskId, seq<TaskId>>, done: set<TaskId>, t: TaskId,
                               prefix: seq<TaskId>)
  {
    forall x, c :: Occurrences(Listed(rev, x), c) == EdgesSoFar(g, done, t, prefix, c, x)
  }

  method AddDependents(g: Graph, rev: map<TaskId, seq<TaskId>>, ghost done: set<TaskId>, t: TaskId)
    returns (rev': map<TaskId, seq<TaskId>>)
    requires t in g && t !in done && ReversesPart(g, rev, done, t, [])
    ensures ReversesPart(g, rev', done, t, g[t])
  {
    rev' := rev;
    var deps := g[t];
    assert deps[..0] == [];
    for j := 0 to |deps|
      invariant ReversesPart(g, rev', done, t, deps[..j])
    {
      var x := deps[j];
      ghost var before := rev';
      rev' := rev'[x := Listed(rev', x) + [t]];
      assert deps[..j + 1] == deps[..j] + [x];
      forall y, c
        ensures Occurrences(Listed(rev', y), c) == EdgesSoFar(g, done, t, deps[..j + 1], c, y)
      {
        assert Occurrences(Listed(before, y), c) == EdgesSoFar(g, done, t, deps[..j], c, y);
        OccurrencesAppend(deps[..j], x, y);
        OccurrencesAppend(Listed(before, x), t, c);
      }
    }
    assert deps[..|deps|] == deps;
  }

  method ReverseEdges(g: Graph, keys: seq<TaskId>) returns (rev: map<TaskId, seq<TaskId>>)
    requires NoDuplicates(keys) && forall t :: t in keys <==> t in g
    ensures Reverses(g, rev)
  {
    rev := map[];
    for i := 0 to |keys|
      invariant forall x, c :: Occurrences(Listed(rev, x), c) == if c in keys[..i] then Edges(g, c, x) else 0
    {
      var t := keys[i];
      ghost var done := Elements(keys[..i]);
      forall x, c ensures Occurrences(Listed(rev, x), c) == EdgesSoFar(g, done, t, [], c, x) {}
      rev := AddDependents(g, rev, done, t);
      assert keys[..i + 1] == keys[..i] + [t];
      forall x, c
        ensures Occurrences(Listed(rev, x), c) == if c in keys[..i + 1] then Edges(g, c, x) else 0
      {
        assert Occurrences(Listed(rev, x), c) == EdgesSoFar(g, done, t, g[t], c, x);
      }
    }
    assert keys[..|keys|] == keys;
  }

  /** Lowers the indegree of every listed child and queues those that reach zero. */
  method Release(children: seq<TaskId>, indegree: map<TaskId, int>, queue: seq<TaskId>)
    returns (indegree': map<TaskId, int>, queue': seq<TaskId>, ghost freed: seq<TaskId>)
    requires forall c :: c in children ==> c in indegree && Occurrences(children, c) <= indegree[c]
    ensures indegree'.Keys == indegree.Keys
    ensures forall c :: c in indegree ==> indegree'[c] == indegree[c] - Occurrences(children, c)
    ensures queue' == queue + freed && NoDuplicates(freed)
    ensures forall c :: c in freed <==> c in children && c in indegree' && indegree'[c] == 0
  {
    indegree', queue', freed := indegree, queue, [];
    for k := 0 to |children|
      invariant indegree'.Keys == indegree.Keys
      invariant forall c :: c in indegree ==> indegree'[c] == indegree[c] - Occurrences(children[..k], c)
      invariant queue' == queue + freed && NoDuplicates(freed)
      invariant forall c :: c in freed <==> c in children[..k] && indegree'[c] == 0
    {
      var c := children[k];
      assert children[..k + 1] == children[..k] + [c];
      forall x ensures Occurrences(children[..k + 1], x) == Occurrences(children[..k], x) + (if x == c then 1 else 0) {
        OccurrencesAppend(children[..k], c, x);
      }
      OccurrencesPrefix(children, k + 1, c);
      indegree' := indegree'[c := indegree'[c] - 1];
      if indegree'[c] == 0 {
        queue' := queue' + [c];
        freed := freed + [c];
      }
    }
    assert children[..|children|] == children;
  }

  /** Every visited task comes after its dependencies. */
  ghost predicate Visited(g: Graph, order: seq<TaskId>) {
    && NoDuplicates(order)
    && (forall t :: t in order ==> t in g)
    && (forall i {:trigger DepsBefore(g, order, i)} :: 0 <= i < |order| ==> DepsBefore(g, order, i))
  }

  ghost predicate Counted(g: Graph, indegree: map<TaskId, int>, order: seq<TaskId>) {
    && indegree.Keys == g.Keys
    && forall c :: c in g ==> indegree[c] == CountOutside(g[c], Elements(order))
  }

  ghost predicate Queued(g: Graph, indegree: map<TaskId, int>, queue: seq<TaskId>, order: seq<TaskId>) {
    && NoDuplicates(queue)
    && indegree.Keys == g.Keys
    && forall t :: t in queue <==> t in g && t !in order && indegree[t] == 0
  }

  ghost predicate KahnState(g: Graph, indegree: map<TaskId, int>, queue: seq<TaskId>, order: seq<TaskId>) {
    Visited(g, order) && Counted(g, indegree, order) && Queued(g, indegree, queue, order)
  }

  lemma VisitKeepsOrder(g: Graph, order: seq<TaskId>, tid: TaskId)
    requires Visited(g, order) && tid in g && tid !in order
    requires CountOutside(g[tid], Elements(order)) == 0
    ensures Visited(g, order + [tid])
  {
    CountOutsideZero(g[tid], Elements(order));
    var order' := order + [tid];
    forall i | 0 <= i < |order'| ensures DepsBefore(g, order', i) {
      if i < |order| {
        assert DepsBefore(g, order, i) && order'[..i] == order[..i];
      } else {
        assert order'[..i] == order;
      }
    }
  }

  lemma VisitKeepsCounts(g: Graph, indegree: map<TaskId, int>, indegree': map<TaskId, int>, order: seq<TaskId>,
                         tid: TaskId, children: seq<TaskId>)
    requires Counted(g, indegree, order) && tid !in order && indegree'.Keys == indegree.Keys
    requires forall c :: Occurrences(children, c) == Edges(g, c, tid)
    requires forall c :: c in indegree ==> indegree'[c] == indegree[c] - Occurrences(children, c)
    ensures Counted(g, indegree', order + [tid])
  {
    assert Elements(order + [tid]) == Elements(order) + {tid};
    forall c | c in g ensures indegree'[c] == CountOutside(g[c], Elements(order + [tid])) {
      CountOutsideAdd(g[c], Elements(order), tid);
    }
  }

  /** A visited task, and the one being visited, never counts `tid` among its dependencies. */
  lemma ChildrenAreUnvisited(g: Graph, order: seq<TaskId>, tid: TaskId, c: TaskId)
    requires Visited(g, order) && tid in g && tid !in order && CountOutside(g[tid], Elements(order)) == 0
    requires c in g && tid in g[c]
    ensures c != tid && c !in order
  {
    CountOutsideZero(g[tid], Elements(order));
    forall i | 0 <= i < |order| ensures order[i] != c { assert DepsBefore(g, order, i); }
  }

  lemma VisitKeepsQueue(g: Graph, indegree: map<TaskId, int>, indegree': map<TaskId, int>, order: seq<TaskId>,
                        rest: seq<TaskId>, tid: TaskId, children: seq<TaskId>, freed: seq<TaskId>)
    requires Visited(g, order) && Counted(g, indegree, order) && Queued(g, indegree, rest + [tid], order)
    requires indegree'.Keys == indegree.Keys
    requires forall c :: Occurrences(children, c) == Edges(g, c, tid)
    requires forall c :: c in indegree ==> indegree'[c] == indegree[c] - Occurrences(children, c)
    requires NoDuplicates(freed) && forall c :: c in freed <==> c in children && c in indegree' && indegree'[c] == 0
    ensures Queued(g, indegree', rest + freed, order + [tid])
  {
    var queue, order', queue' := rest + [tid], order + [tid], rest + freed;
    assert tid in queue && queue[|rest|] == tid;
    forall c
      ensures c in children ==> c in g && c !in order' && indegree[c] > 0
      ensures c in g && c !in children ==> indegree'[c] == indegree[c]
    {
      OccurrencesPositive(children, c);
      if c in children {
        OccurrencesPositive(g[c], tid);
        ChildrenAreUnvisited(g, order, tid, c);
        CountOutsideAdd(g[c], Elements(order), tid);
      }
    }
    forall t ensures t in queue' <==> t in g && t !in order' && indegree'[t] == 0 {
      if t in rest {
        var i :| 0 <= i < |rest| && rest[i] == t;
        assert queue[i] == t && queue[|rest|] == tid;
        assert t in queue;
      }
      if t in g && t !in order' && indegree'[t] == 0 && t !in children { assert t in queue; }
    }
    forall i, j | 0 <= i < j < |queue'| ensures queue'[i] != queue'[j] {
      if j < |rest| { assert queue[i] != queue[j]; }
      else if i < |rest| {
        assert queue[i] in queue && queue'[j] in freed;
      }
    }
  }

  lemma FewerVisitedThanNodes(g: Graph, order: seq<TaskId>)
    requires NoDuplicates(order) && forall t :: t in order ==> t in g
    ensures |order| <= |g.Keys|
    ensures |order| == |g.Keys| <==> forall t :: t in g ==> t in order
  {
    NoDuplicatesCardinality(order);
    var v := Elements(order);
    assert v <= g.Keys;
    if v < g.Keys {
      var extra := g.Keys - v;
      assert g.Keys == v + extra && |g.Keys| == |v| + |extra|;
    }
    assert v == g.Keys || |v| < |g.Keys|;
  }

  lemma NothingVisited(g: Graph, indegree: map<TaskId, int>)
    requires indegree.Keys == g.Keys && forall t :: t in g ==> indegree[t] == |g[t]|
    ensures Visited(g, []) && Counted(g, indegree, [])
  {
    assert Elements([]) == {};
    forall c | c in g ensures indegree[c] == CountOutside(g[c], {}) { CountOutsideNone(g[c]); }
  }

  lemma InitialState(g: Graph, indegree: map<TaskId, int>, queue: seq<TaskId>)
    requires Visited(g, []) && Counted(g, indegree, []) && Queued(g, indegree, queue, [])
    ensures KahnState(g, indegree, queue, [])
  {}

  lemma VisitedNotMore(g: Graph, indegree: map<TaskId, int>, queue: seq<TaskId>, order: seq<TaskId>)
    requires KahnState(g, indegree, queue, order)
    ensures |order| <= |g.Keys|
  {
    FewerVisitedThanNodes(g, order);
  }

  lemma KahnDecides(g: Graph, indegree: map<TaskId, int>, order: seq<TaskId>)
    requires Closed(g) && KahnState(g, indegree, [], order)
    ensures |order| == |g.Keys| <==> Acyclic(g)
  {
    FewerVisitedThanNodes(g, order);
    if |order| == |g.Keys| {
      OrderedIsAcyclic(g, order);
    } else {
      var stuck := g.Keys - Elements(order);
      var missed :| missed in g && missed !in order;
      assert missed in stuck;
      forall t | t in stuck ensures LeansOn(g, t, stuck) {
        assert t !in order;
        assert indegree[t] != 0;
        CountOutsideZero(g[t], Elements(order));
        var d :| d in g[t] && d !in Elements(order);
        assert d in stuck;
      }
      StuckMeansCycle(g, stuck);
    }
  }

  /** The nodes without dependencies, in key order. */
  method Sources(g: Graph, indegree: map<TaskId, int>, keys: seq<TaskId>) returns (queue: seq<TaskId>)
    requires NoDuplicates(keys) && indegree.Keys == g.Keys
    requires forall t :: t in keys <==> t in g
    ensures Queued(g, indegree, queue, [])
  {
    queue := [];
    for i := 0 to |keys|
      invariant NoDuplicates(queue)
      invariant forall t :: t in queue <==> t in keys[..i] && indegree[t] == 0
    {
      assert keys[..i + 1] == keys[..i] + [keys[i]];
      if indegree[keys[i]] == 0 { queue := queue + [keys[i]]; }
    }
    assert keys[..|keys|] == keys;
  }

  /** One turn of the main loop: visit `tid` and lower the indegree of its dependents. */
  method VisitTask(g: Graph, dependents: map<TaskId, seq<TaskId>>, indegree: map<TaskId, int>,
                   rest: seq<TaskId>, tid: TaskId, ghost order: seq<TaskId>)
    returns (indegree': map<TaskId, int>, queue': seq<TaskId>)
    requires Reverses(g, dependents) && KahnState(g, indegree, rest + [tid], order)
    ensures KahnState(g, indegree', queue', order + [tid])
  {
    ghost var queue := rest + [tid];
    assert queue[|rest|] == tid && tid in queue;
    var children := Listed(dependents, tid);
    forall c | c in children ensures c in indegree && Occurrences(children, c) <= indegree[c] {
      OccurrencesPositive(children, c);
      CountOutsideAdd(g[c], Elements(order), tid);
    }
    ghost var freed;
    indegree', queue', freed := Release(children, indegree, rest);
    VisitKeepsOrder(g, order, tid);
    VisitKeepsCounts(g, indegree, indegree', order, tid, children);
    VisitKeepsQueue(g, indegree, indegree', order, rest, tid, children, freed);
  }

  /** The graph's key order is the dictionary's insertion order. */
  method CheckAcyclic(g: Graph, keys: seq<TaskId>) returns (acyclic: bool)
    requires NoDuplicates(keys) && forall t :: t in keys <==> t in g
    requires Closed(g)
    ensures acyclic <==> Acyclic(g)
  {
    hide Visited, Counted, Queued, Acyclic, Closed, NoDuplicates, Reverses, KahnState;
    var indegree: map<TaskId, int> := map t | t in g :: |g[t]|;
    NothingVisited(g, indegree);
    var queue := Sources(g, indegree, keys);
    var visited := 0;
    var dependents := ReverseEdges(g, keys);
    ghost var order: seq<TaskId> := [];
    InitialState(g, indegree, queue);
    while queue != []
      invariant KahnState(g, indegree, queue, order)
      invariant visited == |order| <= |g|
      decreases |g| - visited
    {
      var tid := queue[|queue| - 1];
      var rest := queue[..|queue| - 1];
      assert queue == rest + [tid];
      visited := visited + 1;
      indegree, queue := VisitTask(g, dependents, indegree, rest, tid, order);
      order := order + [tid];
      VisitedNotMore(g, indegree, queue, order);
    }
    acyclic := visited == |g|;
    KahnDecides(g, indegree, order);
  }
}
