/** Directed graphs as adjacency lists, and the walks through them. */
module Walks {
  import opened Ids

  /** Successors per node; a node with no entry has none. */
  type Graph = map<Uuid, seq<Uuid>>

  function Succ(g: Graph, x: Uuid): seq<Uuid> {
    if x in g then g[x] else []
  }

  ghost predicate IsWalk(g: Graph, w: seq<Uuid>) {
    && |w| >= 1
    && forall i :: 0 <= i < |w| - 1 ==> w[i + 1] in Succ(g, w[i])
  }

  ghost predicate WalkFromTo(g: Graph, w: seq<Uuid>, x: Uuid, y: Uuid) {
    IsWalk(g, w) && w[0] == x && w[|w| - 1] == y
  }

  ghost predicate Reaches(g: Graph, x: Uuid, y: Uuid) {
    exists w :: WalkFromTo(g, w, x, y)
  }

  ghost predicate Closed(g: Graph, s: set<Uuid>) {
    forall x, y :: x in s && y in Succ(g, x) ==> y in s
  }

  /** A walk of at least one edge that returns to where it began. */
  ghost predicate IsCycle(g: Graph, w: seq<Uuid>) {
    IsWalk(g, w) && |w| >= 2 && w[0] == w[|w| - 1]
  }

  ghost predicate Acyclic(g: Graph) {
    forall w :: !IsCycle(g, w)
  }

  /** Every id the graph mentions, as a key or as a successor. */
  ghost function Nodes(g: Graph): (s: set<Uuid>)
    ensures g.Keys <= s && Closed(g, s)
  {
    g.Keys + (set x, y | x in g && y in g[x] :: y)
  }

  lemma ReachesSelf(g: Graph, x: Uuid)
    ensures Reaches(g, x, x)
  {
    assert WalkFromTo(g, [x], x, x);
  }

  lemma ReachesStep(g: Graph, x: Uuid, y: Uuid, z: Uuid)
    requires Reaches(g, x, y) && z in Succ(g, y)
    ensures Reaches(g, x, z)
  {
    var w :| WalkFromTo(g, w, x, y);
    assert WalkFromTo(g, w + [z], x, z);
  }

  lemma ReachesTrans(g: Graph, x: Uuid, y: Uuid, z: Uuid)
    requires Reaches(g, x, y) && Reaches(g, y, z)
    ensures Reaches(g, x, z)
  {
    var v :| WalkFromTo(g, v, x, y);
    var w :| WalkFromTo(g, w, y, z);
    assert WalkFromTo(g, v + w[1..], x, z);
  }

  /** A closed set cannot be left. */
  lemma ClosedHolds(g: Graph, s: set<Uuid>, x: Uuid, y: Uuid)
    requires Closed(g, s) && x in s && Reaches(g, x, y)
    ensures y in s
  {
    var w :| WalkFromTo(g, w, x, y);
    ClosedAlong(g, s, w, |w| - 1);
  }

  lemma ClosedAlong(g: Graph, s: set<Uuid>, w: seq<Uuid>, k: nat)
    requires Closed(g, s) && IsWalk(g, w) && w[0] in s && k < |w|
    ensures w[k] in s
  {
    if k > 0 {
      ClosedAlong(g, s, w, k - 1);
      assert w[(k - 1) + 1] in Succ(g, w[k - 1]);
    }
  }

  // ---------------------------------------------------------------- reachability from a set

  ghost predicate Reachable(g: Graph, roots: set<Uuid>, x: Uuid) {
    exists r :: r in roots && Reaches(g, r, x)
  }

  /** Everything reachable from the roots. */
  ghost function Closure(g: Graph, roots: set<Uuid>): set<Uuid> {
    set x | x in Nodes(g) + roots && Reachable(g, roots, x)
  }

  lemma ClosureIsReachable(g: Graph, roots: set<Uuid>)
    ensures forall x :: x in Closure(g, roots) <==> Reachable(g, roots, x)
  {
    var all := Nodes(g) + roots;
    forall x | Reachable(g, roots, x) ensures x in all {
      var r :| r in roots && Reaches(g, r, x);
      ClosedHolds(g, all, r, x);
    }
  }

  lemma ClosureIsClosed(g: Graph, roots: set<Uuid>)
    ensures roots <= Closure(g, roots) && Closed(g, Closure(g, roots))
  {
    ClosureIsReachable(g, roots);
    forall r | r in roots ensures Reachable(g, roots, r) {
      ReachesSelf(g, r);
    }
    forall x, y | x in Closure(g, roots) && y in Succ(g, x) ensures Reachable(g, roots, y) {
      var r :| r in roots && Reaches(g, r, x);
      ReachesStep(g, r, x, y);
    }
  }

  /** The closure is the least set that holds the roots and is closed under the graph's edges. */
  lemma ClosureIsLeast(g: Graph, roots: set<Uuid>)
    ensures roots <= Closure(g, roots) && Closed(g, Closure(g, roots))
    ensures forall s :: roots <= s && Closed(g, s) ==> Closure(g, roots) <= s
  {
    ClosureIsClosed(g, roots);
    ClosureIsReachable(g, roots);
    forall s, x | roots <= s && Closed(g, s) && x in Closure(g, roots) ensures x in s {
      var r :| r in roots && Reaches(g, r, x);
      ClosedHolds(g, s, r, x);
    }
  }

  lemma ClosureWithin(g: Graph, roots: set<Uuid>, s: set<Uuid>)
    requires roots <= s && Closed(g, s)
    ensures Closure(g, roots) <= s
  {
    ClosureIsLeast(g, roots);
  }
}
