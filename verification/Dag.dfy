/** Dependency graphs: paths, cycles, ancestors, and the fact that a finite graph has
    either a node order that respects its edges or a cycle. */
module Dag {
  import opened Schemas

  /** For every node, the nodes it depends on (repetitions allowed). */
  type Graph = map<TaskId, seq<TaskId>>

  ghost predicate Closed(g: Graph) {
    forall t, d :: t in g && d in g[t] ==> d in g
  }

  /** A path lists nodes from a dependency to its dependents, one edge at a time. */
  ghost predicate IsPath(g: Graph, p: seq<TaskId>) {
    && |p| >= 2
    && (forall i :: 0 <= i < |p| ==> p[i] in g)
    && (forall i, j :: 0 <= i && j == i + 1 && j < |p| ==> p[i] in g[p[j]])
  }

  /** `b` depends on `a`, directly or through other tasks. */
  ghost predicate DependsOn(g: Graph, b: TaskId, a: TaskId) {
    exists p :: IsPath(g, p) && p[0] == a && p[|p| - 1] == b
  }

  ghost predicate Acyclic(g: Graph) {
    forall t :: t in g ==> !DependsOn(g, t, t)
  }

  ghost function Ancestors(g: Graph, t: TaskId): set<TaskId> {
    set a | a in g && DependsOn(g, t, a)
  }

  lemma EdgeDepends(g: Graph, a: TaskId, b: TaskId)
    requires a in g && b in g && a in g[b]
    ensures DependsOn(g, b, a)
  {
    var p := [a, b];
    assert IsPath(g, p) && p[0] == a && p[|p| - 1] == b;
  }

  lemma DependsTransitive(g: Graph, a: TaskId, b: TaskId, c: TaskId)
    requires DependsOn(g, b, a) && DependsOn(g, c, b)
    ensures DependsOn(g, c, a)
  {
    var p :| IsPath(g, p) && p[0] == a && p[|p| - 1] == b;
    var q :| IsPath(g, q) && q[0] == b && q[|q| - 1] == c;
    var r := p + q[1..];
    forall i, j | 0 <= i && j == i + 1 && j < |r| ensures r[i] in g && r[j] in g && r[i] in g[r[j]] {
      if j >= |p| { assert r[j] == q[j - |p| + 1] && r[i] == q[i - |p| + 1]; }
    }
    assert IsPath(g, r) && r[0] == a && r[|r| - 1] == c;
  }

  /** The last edge of a path: `b` depends on `a` only through one of its own dependencies. */
  lemma DependsLastEdge(g: Graph, a: TaskId, b: TaskId) returns (d: TaskId)
    requires DependsOn(g, b, a)
    ensures a in g && b in g && d in g && d in g[b] && (d == a || DependsOn(g, d, a))
  {
    var p :| IsPath(g, p) && p[0] == a && p[|p| - 1] == b;
    var n := |p|;
    d := p[n - 2];
    assert d in g[p[n - 1]];
    if n > 2 {
      var q := p[..n - 1];
      assert IsPath(g, q) && q[0] == a && q[|q| - 1] == d;
    }
  }

  /** In an acyclic graph a dependency has strictly fewer ancestors than its dependent. */
  lemma AncestorsShrink(g: Graph, t: TaskId)
    requires Acyclic(g) && Closed(g) && t in g
    ensures forall d :: d in g[t] ==> d in g && Ancestors(g, d) < Ancestors(g, t)
  {
    forall d | d in g[t] ensures d in g && Ancestors(g, d) < Ancestors(g, t) {
      EdgeDepends(g, d, t);
      forall a | a in Ancestors(g, d) ensures a in Ancestors(g, t) {
        DependsTransitive(g, a, d, t);
      }
      assert d in Ancestors(g, t) && d !in Ancestors(g, d);
    }
  }

  ghost predicate DepsBefore(g: Graph, order: seq<TaskId>, i: nat)
    requires i < |order|
  {
    order[i] in g && forall d :: d in g[order[i]] ==> d in order[..i]
  }

  /** An order of all nodes in which every dependency comes before its dependents. */
  ghost predicate TopologicalOrder(g: Graph, order: seq<TaskId>) {
    && (forall t :: t in order <==> t in g)
    && (forall i, j :: 0 <= i < j < |order| ==> order[i] != order[j])
    && (forall i {:trigger DepsBefore(g, order, i)} :: 0 <= i < |order| ==> DepsBefore(g, order, i))
  }

  /** Along a path, positions in a topological order increase. */
  lemma {:induction false} PathIncreases(g: Graph, order: seq<TaskId>, p: seq<TaskId>, i: nat, j: nat)
    requires TopologicalOrder(g, order) && IsPath(g, p)
    requires i < |order| && j < |order| && order[i] == p[0] && order[j] == p[|p| - 1]
    ensures i < j
    decreases |p|
  {
    var n := |p|;
    var d := p[n - 2];
    assert d in g[p[n - 1]];
    assert DepsBefore(g, order, j);
    var k :| 0 <= k < j && order[k] == d;
    if n > 2 {
      var q := p[..n - 1];
      assert IsPath(g, q);
      PathIncreases(g, order, q, i, k);
    } else {
      assert i == k;
    }
  }

  lemma OrderedIsAcyclic(g: Graph, order: seq<TaskId>)
    requires TopologicalOrder(g, order)
    ensures Acyclic(g)
  {
    forall t | t in g ensures !DependsOn(g, t, t) {
      if DependsOn(g, t, t) {
        var p :| IsPath(g, p) && p[0] == t && p[|p| - 1] == t;
        assert t in order;
        var i :| 0 <= i < |order| && order[i] == t;
        PathIncreases(g, order, p, i, i);
        assert false;
      }
    }
  }

  /** Some dependency of `t` lies in `s`. */
  ghost predicate LeansOn(g: Graph, t: TaskId, s: set<TaskId>)
    requires t in g
  {
    exists d :: d in g[t] && d in s
  }

  /** A walk of `n` edges backwards from `start` that never leaves `stuck`. */
  ghost function Walk(g: Graph, stuck: set<TaskId>, start: TaskId, n: nat): (p: seq<TaskId>)
    requires stuck <= g.Keys && start in stuck
    requires forall t :: t in stuck ==> LeansOn(g, t, stuck)
    ensures |p| == n + 1 && p[n] == start
    ensures forall i :: 0 <= i <= n ==> p[i] in stuck
    ensures forall i, j :: 0 <= i && j == i + 1 && j <= n ==> p[i] in g[p[j]]
    decreases n
  {
    if n == 0 then [start]
    else
      assert LeansOn(g, start, stuck);
      var d :| d in g[start] && d in stuck;
      Walk(g, stuck, d, n - 1) + [start]
  }

  lemma {:induction false} PigeonHole(p: seq<TaskId>, s: set<TaskId>) returns (i: nat, j: nat)
    requires forall k :: 0 <= k < |p| ==> p[k] in s
    requires |p| > |s|
    ensures i < j < |p| && p[i] == p[j]
    decreases |p|
  {
    var last := p[|p| - 1];
    if exists k :: 0 <= k < |p| - 1 && p[k] == last {
      i :| 0 <= i < |p| - 1 && p[i] == last;
      j := |p| - 1;
    } else {
      i, j := PigeonHole(p[..|p| - 1], s - {last});
    }
  }

  /** A walk that visits a node twice closes a cycle. */
  lemma RepeatIsCycle(g: Graph, p: seq<TaskId>, i: nat, j: nat)
    requires IsPath(g, p) && i < j < |p| && p[i] == p[j]
    ensures !Acyclic(g)
  {
    var q := p[i..j + 1];
    forall k, l | 0 <= k && l == k + 1 && l < |q| ensures q[k] in g[q[l]] {
      assert q[k] == p[i + k] && q[l] == p[i + l];
    }
    assert IsPath(g, q) && q[0] == p[i] && q[|q| - 1] == p[i];
    assert DependsOn(g, p[i], p[i]);
  }

  /** A nonempty set of nodes each of which depends on another member contains a cycle. */
  lemma StuckMeansCycle(g: Graph, stuck: set<TaskId>)
    requires stuck <= g.Keys && stuck != {}
    requires forall t :: t in stuck ==> LeansOn(g, t, stuck)
    ensures !Acyclic(g)
  {
    var start :| start in stuck;
    var p := Walk(g, stuck, start, |stuck|);
    var i, j := PigeonHole(p, stuck);
    assert IsPath(g, p);
    RepeatIsCycle(g, p, i, j);
  }

  /** Every acyclic closed graph has a minimal element outside any down-closed proper subset. */
  lemma NextExists(g: Graph, done: set<TaskId>) returns (t: TaskId)
    requires Acyclic(g) && Closed(g) && done < g.Keys
    ensures t in g && t !in done && forall d :: d in g[t] ==> d in done
  {
    var stuck := g.Keys - done;
    if forall t :: t in stuck ==> LeansOn(g, t, stuck) {
      var x :| x in g.Keys && x !in done;
      assert x in stuck;
      StuckMeansCycle(g, stuck);
      assert false;
    }
    t :| t in stuck && !LeansOn(g, t, stuck);
  }
}
