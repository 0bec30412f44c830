/** `expand_linked_cards`: breadth-first expansion, complete and in order of link distance. */
module Expansion {
  import opened Ids
  import opened Walks
  import opened LinkGraph

  /** A walk of `n` edges. */
  ghost predicate WalkOfLength(g: Graph, x: Uuid, y: Uuid, n: nat) {
    exists w :: WalkFromTo(g, w, x, y) && |w| == n + 1
  }

  ghost predicate IsDistance(g: Graph, x: Uuid, y: Uuid, d: nat) {
    && WalkOfLength(g, x, y, d)
    && forall n: nat :: WalkOfLength(g, x, y, n) ==> d <= n
  }

  ghost predicate NonDecreasing(level: seq<nat>) {
    forall i, j :: 0 <= i < j < |level| ==> level[i] <= level[j]
  }

  /** `y` has been discovered, at a level of at most `bound`. */
  ghost predicate Known(order: seq<Uuid>, level: seq<nat>, y: Uuid, bound: nat) {
    exists j :: 0 <= j < |order| && j < |level| && order[j] == y && level[j] <= bound
  }

  ghost predicate Explored(g: Graph, order: seq<Uuid>, level: seq<nat>, x: Uuid, at: nat) {
    forall y :: y in Succ(g, x) ==> Known(order, level, y, at + 1)
  }

  /** Discovery order with levels; the first `p` nodes have been explored. */
  ghost predicate Bfs(g: Graph, start: Uuid, order: seq<Uuid>, level: seq<nat>, p: nat) {
    && |level| == |order| >= 1 && p <= |order|
    && order[0] == start && level[0] == 0
    && Distinct(order) && NonDecreasing(level)
    && (forall i :: 0 <= i < |order| ==> WalkOfLength(g, start, order[i], level[i]))
    && (forall i :: 0 <= i < p ==> Explored(g, order, level, order[i], level[i]))
    && (p < |order| ==> level[|order| - 1] <= level[p] + 1)
  }

  lemma StartBfs(g: Graph, start: Uuid)
    ensures Bfs(g, start, [start], [0], 0)
  {
    assert WalkFromTo(g, [start], start, start);
  }

  function Repeat(n: nat, x: nat): (s: seq<nat>)
    ensures |s| == n && forall i :: 0 <= i < n ==> s[i] == x
  {
    seq(n, _ => x)
  }

  lemma StepWalk(g: Graph, x: Uuid, y: Uuid, z: Uuid, n: nat)
    requires WalkOfLength(g, x, y, n) && z in Succ(g, y)
    ensures WalkOfLength(g, x, z, n + 1)
  {
    var w :| WalkFromTo(g, w, x, y) && |w| == n + 1;
    assert WalkFromTo(g, w + [z], x, z);
  }

  lemma KnownGrows(order: seq<Uuid>, level: seq<nat>, y: Uuid, bound: nat, more: seq<Uuid>, moreLevels: seq<nat>)
    requires Known(order, level, y, bound) && |order| == |level|
    ensures Known(order + more, level + moreLevels, y, bound)
  {
    var j :| 0 <= j < |order| && order[j] == y && level[j] <= bound;
    assert (order + more)[j] == y && (level + moreLevels)[j] == level[j];
  }

  lemma ExploredGrows(g: Graph, order: seq<Uuid>, level: seq<nat>, x: Uuid, at: nat, more: seq<Uuid>,
                      moreLevels: seq<nat>)
    requires Explored(g, order, level, x, at) && |order| == |level|
    ensures Explored(g, order + more, level + moreLevels, x, at)
  {
    forall y | y in Succ(g, x) ensures Known(order + more, level + moreLevels, y, at + 1) {
      KnownGrows(order, level, y, at + 1, more, moreLevels);
    }
  }

  /** Exploring the next node discovers exactly its unseen neighbours, one level further out. */
  lemma ExploreKeeps(g: Graph, start: Uuid, order: seq<Uuid>, level: seq<nat>, p: nat, unseen: seq<Uuid>)
    requires Bfs(g, start, order, level, p) && p < |order|
    requires Distinct(unseen) && Elements(unseen) == Elements(Succ(g, order[p])) - Elements(order)
    ensures Bfs(g, start, order + unseen, level + Repeat(|unseen|, level[p] + 1), p + 1)
  {
    var order', level' := order + unseen, level + Repeat(|unseen|, level[p] + 1);
    forall x | x in unseen ensures x in Succ(g, order[p]) && x !in order {
      assert x in Elements(unseen);
    }
    DistinctAppend(order, unseen);
    forall i | 0 <= i < |order'| ensures WalkOfLength(g, start, order'[i], level'[i]) {
      if i >= |order| { StepWalk(g, start, order[p], order'[i], level[p]); }
    }
    forall i | 0 <= i <= p ensures Explored(g, order', level', order'[i], level'[i]) {
      if i < p {
        ExploredGrows(g, order, level, order[i], level[i], unseen, Repeat(|unseen|, level[p] + 1));
      } else {
        NewlyExplored(g, order, level, p, unseen);
      }
    }
  }

  lemma NewlyExplored(g: Graph, order: seq<Uuid>, level: seq<nat>, p: nat, unseen: seq<Uuid>)
    requires p < |order| == |level| && level[|order| - 1] <= level[p] + 1 && NonDecreasing(level)
    requires Elements(unseen) == Elements(Succ(g, order[p])) - Elements(order)
    ensures Explored(g, order + unseen, level + Repeat(|unseen|, level[p] + 1), order[p], level[p])
  {
    var order', level' := order + unseen, level + Repeat(|unseen|, level[p] + 1);
    forall y | y in Succ(g, order[p]) ensures Known(order', level', y, level[p] + 1) {
      if y in order {
        var j :| 0 <= j < |order| && order[j] == y;
        assert order'[j] == y && level'[j] == level[j] <= level[|order| - 1];
      } else {
        assert y in Elements(unseen);
        var j :| 0 <= j < |unseen| && unseen[j] == y;
        assert order'[|order| + j] == y;
      }
    }
  }

  // ---------------------------------------------------------------- what a finished search means

  lemma WalkIsKnown(g: Graph, start: Uuid, order: seq<Uuid>, level: seq<nat>, w: seq<Uuid>, k: nat)
    requires Bfs(g, start, order, level, |order|) && IsWalk(g, w) && w[0] == start && k < |w|
    ensures Known(order, level, w[k], k)
  {
    if k == 0 {
      assert order[0] == w[0] && level[0] == 0;
    } else {
      WalkIsKnown(g, start, order, level, w, k - 1);
      var j :| 0 <= j < |order| && order[j] == w[k - 1] && level[j] <= k - 1;
      assert w[(k - 1) + 1] in Succ(g, w[k - 1]);
      assert Explored(g, order, level, order[j], level[j]);
      var i :| 0 <= i < |order| && order[i] == w[k] && level[i] <= level[j] + 1;
    }
  }

  lemma LevelIsDistance(g: Graph, start: Uuid, order: seq<Uuid>, level: seq<nat>, i: nat)
    requires Bfs(g, start, order, level, |order|) && i < |order|
    ensures IsDistance(g, start, order[i], level[i])
  {
    forall n: nat | WalkOfLength(g, start, order[i], n) ensures level[i] <= n {
      var w :| WalkFromTo(g, w, start, order[i]) && |w| == n + 1;
      WalkIsKnown(g, start, order, level, w, n);
      var j :| 0 <= j < |order| && order[j] == w[n] && level[j] <= n;
      assert i == j;
    }
  }

  lemma OrderIsReachable(g: Graph, start: Uuid, order: seq<Uuid>, level: seq<nat>, y: Uuid)
    requires Bfs(g, start, order, level, |order|)
    ensures y in order <==> Reaches(g, start, y)
  {
    if y in order {
      var i :| 0 <= i < |order| && order[i] == y;
      var w :| WalkFromTo(g, w, start, y) && |w| == level[i] + 1;
    }
    if Reaches(g, start, y) {
      var w :| WalkFromTo(g, w, start, y);
      WalkIsKnown(g, start, order, level, w, |w| - 1);
    }
  }

  // ---------------------------------------------------------------- the method

  /** The ids not seen yet, first occurrence first. */
  function Unvisited(ids: seq<Uuid>, visited: set<Uuid>): seq<Uuid> {
    if ids == [] then []
    else
      var n := |ids| - 1;
      Unvisited(ids[..n], visited) + (if ids[n] in visited || ids[n] in ids[..n] then [] else [ids[n]])
  }

  lemma UnvisitedSnoc(ids: seq<Uuid>, visited: set<Uuid>, x: Uuid)
    ensures Unvisited(ids + [x], visited) ==
            Unvisited(ids, visited) + if x in visited || x in ids then [] else [x]
  {
    assert (ids + [x])[..|ids|] == ids;
  }

  lemma {:induction false} UnvisitedIs(ids: seq<Uuid>, visited: set<Uuid>)
    ensures Distinct(Unvisited(ids, visited))
    ensures Elements(Unvisited(ids, visited)) == Elements(ids) - visited
  {
    if ids != [] {
      var n := |ids| - 1;
      var x, seen := ids[n], Unvisited(ids[..n], visited);
      UnvisitedIs(ids[..n], visited);
      ElementsPop(ids);
      if x !in visited && x !in ids[..n] {
        assert x !in Elements(ids[..n]);
        ElementsAppend(seen, [x]);
        forall y | y in [x] ensures y !in seen { assert y !in Elements(seen); }
        DistinctAppend(seen, [x]);
      } else {
        assert x in visited || x in Elements(ids[..n]);
        assert seen + [] == seen;
      }
    }
  }

  /** They stay in the order of the list. */
  lemma {:induction false} UnvisitedInOrder(ids: seq<Uuid>, visited: set<Uuid>)
    ensures InMentionOrder(Unvisited(ids, visited), ids)
  {
    if ids != [] {
      var n := |ids| - 1;
      UnvisitedInOrder(ids[..n], visited);
      UnvisitedIs(ids[..n], visited);
      assert ids == ids[..n] + [ids[n]];
      forall y | y in Unvisited(ids[..n], visited) ensures y in ids[..n] {
        assert y in Elements(Unvisited(ids[..n], visited));
      }
      OrderStep(Unvisited(ids[..n], visited), ids[..n], ids[n], ids[n] !in visited && ids[n] !in ids[..n]);
    }
  }

  lemma {:induction false} UnvisitedAppend(a: seq<Uuid>, b: seq<Uuid>, visited: set<Uuid>)
    ensures Unvisited(a + b, visited) == Unvisited(a, visited) + Unvisited(b, visited + Elements(a))
  {
    if b == [] {
      assert a + b == a;
    } else {
      var n, x := |b| - 1, b[|b| - 1];
      assert b == b[..n] + [x] && a + b == (a + b[..n]) + [x];
      UnvisitedAppend(a, b[..n], visited);
      UnvisitedSnoc(a + b[..n], visited, x);
      UnvisitedSnoc(b[..n], visited + Elements(a), x);
    }
  }

  method EnqueueAll(ids: seq<Uuid>, visited: set<Uuid>, queue: seq<Uuid>)
    returns (visited': set<Uuid>, queue': seq<Uuid>)
    ensures visited' == visited + Elements(ids)
    ensures queue' == queue + Unvisited(ids, visited)
  {
    visited', queue' := visited, queue;
    for i := 0 to |ids|
      invariant visited' == visited + Elements(ids[..i])
      invariant queue' == queue + Unvisited(ids[..i], visited)
    {
      assert ids[..i + 1] == ids[..i] + [ids[i]];
      UnvisitedSnoc(ids[..i], visited, ids[i]);
      ElementsAppend(ids[..i], [ids[i]]);
      if ids[i] !in visited' {
        visited' := visited' + {ids[i]};
        queue' := queue' + [ids[i]];
      }
    }
    assert ids[..|ids|] == ids;
  }

  lemma EnqueuedTogether(forward: seq<Uuid>, back: seq<Uuid>, visited: set<Uuid>, queue: seq<Uuid>)
    ensures visited + Elements(forward) + Elements(back) == visited + Elements(forward + back)
    ensures queue + Unvisited(forward, visited) + Unvisited(back, visited + Elements(forward)) ==
            queue + Unvisited(forward + back, visited)
  {
    UnvisitedAppend(forward, back, visited);
    ElementsAppend(forward, back);
  }

  /** Forward links first, then back links. */
  method EnqueueNeighbours(node: Uuid, cardMap: map<Uuid, LinkCard>, cards: seq<LinkCard>,
                           visited: set<Uuid>, queue: seq<Uuid>)
    returns (visited': set<Uuid>, queue': seq<Uuid>)
    requires cardMap == CardMap(cards)
    ensures visited' == visited + Elements(Neighbours(cards, node))
    ensures queue' == queue + Unvisited(Neighbours(cards, node), visited)
    ensures var forward := if node in cardMap then Forward(cardMap[node]) else [];
            queue' == queue + Unvisited(forward + BackLinks(node, cards), visited)
  {
    var forward: seq<Uuid> := [];
    if node in cardMap {
      forward := ExtractCardLinks(cardMap[node].content, node);
    }
    visited', queue' := EnqueueAll(forward, visited, queue);
    var back := BackLinks(node, cards);
    EnqueuedTogether(forward, back, visited, queue);
    visited', queue' := EnqueueAll(back, visited', queue');
  }

  /** `result` lists the rest of the start's component once each, nearest first. */
  ghost predicate IsExpansion(cards: seq<LinkCard>, start: Uuid, result: seq<Uuid>) {
    && Distinct(result)
    && Elements(result) == Component(cards, start) - {start}
  }

  lemma HeadNotInTail(x: Uuid, rest: seq<Uuid>)
    requires Distinct([x] + rest)
    ensures x !in rest
  {
    forall i | 0 <= i < |rest| ensures rest[i] != x {
      assert ([x] + rest)[i + 1] == rest[i] && ([x] + rest)[0] == x;
    }
  }

  lemma FinishedMembers(cards: seq<LinkCard>, start: Uuid, result: seq<Uuid>, level: seq<nat>)
    requires Bfs(GraphOf(cards), start, [start] + result, level, 1 + |result|)
    ensures Elements(result) == Component(cards, start) - {start}
  {
    var order := [start] + result;
    ElementsAppend([start], result);
    forall y ensures y in Elements(order) <==> y in Component(cards, start) {
      OrderIsReachable(GraphOf(cards), start, order, level, y);
      InComponent(cards, start, y);
    }
    HeadNotInTail(start, result);
  }

  lemma FinishedOrder(g: Graph, start: Uuid, result: seq<Uuid>, level: seq<nat>)
    requires Bfs(g, start, [start] + result, level, 1 + |result|)
    ensures Distinct(result) && |level| == 1 + |result| && NonDecreasing(level[1..])
    ensures forall i :: 0 <= i < |result| ==> IsDistance(g, start, result[i], level[1..][i])
  {
    var order := [start] + result;
    forall i, j | 0 <= i < j < |result| ensures result[i] != result[j] {
      assert order[i + 1] == result[i] && order[j + 1] == result[j];
    }
    forall i | 0 <= i < |result| ensures IsDistance(g, start, result[i], level[1..][i]) {
      assert order[i + 1] == result[i];
      LevelIsDistance(g, start, order, level, i + 1);
    }
  }

  /** The search's state inside the start's component. */
  ghost predicate BfsIn(cards: seq<LinkCard>, start: Uuid, order: seq<Uuid>, level: seq<nat>, p: nat) {
    Bfs(GraphOf(cards), start, order, level, p) && Elements(order) <= Component(cards, start)
  }

  lemma StartBfsIn(cards: seq<LinkCard>, start: Uuid)
    ensures BfsIn(cards, start, [start], [0], 0) && Elements([start]) == {start}
  {
    StartBfs(GraphOf(cards), start);
    ComponentIsClosed(cards, start);
  }

  /** Levels once the unseen neighbours of the node at `p` are discovered. */
  ghost function NextLevels(level: seq<nat>, p: nat, unseen: seq<Uuid>): seq<nat>
    requires p < |level|
  {
    level + Repeat(|unseen|, level[p] + 1)
  }

  lemma BfsBounds(cards: seq<LinkCard>, start: Uuid, order: seq<Uuid>, level: seq<nat>, p: nat)
    requires BfsIn(cards, start, order, level, p)
    ensures |level| == |order| && p <= |order|
  {
  }

  lemma UnseenInside(cards: seq<LinkCard>, start: Uuid, x: Uuid, seen: set<Uuid>)
    requires x in seen && seen <= Component(cards, start)
    ensures var unseen := Unvisited(Neighbours(cards, x), seen);
            && seen + Elements(unseen) == seen + Elements(Neighbours(cards, x)) <= Component(cards, start)
            && (unseen != [] ==> Component(cards, start) - (seen + Elements(unseen)) < Component(cards, start) - seen)
  {
    var unseen := Unvisited(Neighbours(cards, x), seen);
    UnvisitedIs(Neighbours(cards, x), seen);
    ComponentIsClosed(cards, start);
    if unseen != [] {
      assert unseen[0] in Elements(unseen);
      assert unseen[0] in Component(cards, start) - seen;
    }
  }

  /** One turn of the loop: the node at `p` is explored, and the work left shrinks. */
  lemma ExploreNode(cards: seq<LinkCard>, start: Uuid, order: seq<Uuid>, level: seq<nat>, p: nat)
    requires BfsIn(cards, start, order, level, p) && p < |order| == |level|
    ensures var unseen := Unvisited(Neighbours(cards, order[p]), Elements(order));
            var order' := order + unseen;
            && BfsIn(cards, start, order', NextLevels(level, p, unseen), p + 1)
            && Elements(order') == Elements(order) + Elements(Neighbours(cards, order[p]))
            && (unseen != [] ==>
                  Component(cards, start) - Elements(order') < Component(cards, start) - Elements(order))
  {
    var unseen := Unvisited(Neighbours(cards, order[p]), Elements(order));
    SuccIsNeighbours(cards, order[p]);
    UnvisitedIs(Neighbours(cards, order[p]), Elements(order));
    ExploreKeeps(GraphOf(cards), start, order, level, p, unseen);
    ElementsAppend(order, unseen);
    assert order[p] in Elements(order);
    UnseenInside(cards, start, order[p], Elements(order));
  }

  /** What the loop keeps, over the lists the program really holds. */
  ghost predicate Expanding(cards: seq<LinkCard>, start: Uuid, level: seq<nat>,
                            result: seq<Uuid>, queue: seq<Uuid>, visited: set<Uuid>) {
    && BfsIn(cards, start, [start] + result + queue, level, 1 + |result|)
    && visited == Elements([start] + result + queue)
  }

  lemma FirstTurn(cards: seq<LinkCard>, start: Uuid) returns (level: seq<nat>)
    ensures Expanding(cards, start, level, [], Unvisited(Neighbours(cards, start), {start}),
                      {start} + Elements(Neighbours(cards, start)))
  {
    StartBfsIn(cards, start);
    ExploreNode(cards, start, [start], [0], 0);
    var queue := Unvisited(Neighbours(cards, start), {start});
    level := NextLevels([0], 0, queue);
    NothingReturnedYet(cards, start, level, queue, {start} + Elements(Neighbours(cards, start)));
  }

  lemma NothingReturnedYet(cards: seq<LinkCard>, start: Uuid, level: seq<nat>, queue: seq<Uuid>, visited: set<Uuid>)
    requires BfsIn(cards, start, [start] + queue, level, 1) && visited == Elements([start] + queue)
    ensures Expanding(cards, start, level, [], queue, visited)
  {
    assert [start] + [] + queue == [start] + queue;
  }

  lemma Turn(cards: seq<LinkCard>, start: Uuid, level: seq<nat>,
             result: seq<Uuid>, queue: seq<Uuid>, visited: set<Uuid>) returns (level': seq<nat>)
    requires Expanding(cards, start, level, result, queue, visited) && queue != []
    ensures var unseen := Unvisited(Neighbours(cards, queue[0]), visited);
            var visited' := visited + Elements(Neighbours(cards, queue[0]));
            && Expanding(cards, start, level', result + [queue[0]], queue[1..] + unseen, visited')
            && (if unseen == [] then visited' == visited
                else Component(cards, start) - visited' < Component(cards, start) - visited)
  {
    var order, p := [start] + result + queue, 1 + |result|;
    BfsBounds(cards, start, order, level, p);
    assert order[p] == queue[0];
    ExploreNode(cards, start, order, level, p);
    var unseen := Unvisited(Neighbours(cards, queue[0]), visited);
    level' := NextLevels(level, p, unseen);
    ShiftQueue(start, result, queue, unseen);
  }

  lemma ShiftQueue(start: Uuid, result: seq<Uuid>, queue: seq<Uuid>, unseen: seq<Uuid>)
    requires queue != []
    ensures [start] + result + queue + unseen == [start] + (result + [queue[0]]) + (queue[1..] + unseen)
    ensures unseen == [] ==> [start] + result + queue + unseen == [start] + result + queue
  {
  }

  method StartTurn(start: Uuid, cardMap: map<Uuid, LinkCard>, cards: seq<LinkCard>)
    returns (visited: set<Uuid>, queue: seq<Uuid>, ghost level: seq<nat>)
    requires cardMap == CardMap(cards)
    ensures Expanding(cards, start, level, [], queue, visited)
  {
    level := FirstTurn(cards, start);
    visited, queue := EnqueueNeighbours(start, cardMap, cards, {start}, []);
    assert queue == Unvisited(Neighbours(cards, start), {start});
  }

  method TakeTurn(start: Uuid, cardMap: map<Uuid, LinkCard>, cards: seq<LinkCard>, ghost level: seq<nat>,
                  result: seq<Uuid>, visited: set<Uuid>, queue: seq<Uuid>)
    returns (result': seq<Uuid>, visited': set<Uuid>, queue': seq<Uuid>, ghost level': seq<nat>)
    requires cardMap == CardMap(cards) && Expanding(cards, start, level, result, queue, visited) && queue != []
    ensures Expanding(cards, start, level', result', queue', visited')
    ensures if visited' == visited then |queue'| < |queue|
            else Component(cards, start) - visited' < Component(cards, start) - visited
  {
    var current := queue[0];
    level' := Turn(cards, start, level, result, queue, visited);
    result' := result + [current];
    visited', queue' := EnqueueNeighbours(current, cardMap, cards, visited, queue[1..]);
  }

  /**
    `expand_linked_cards` terminates on every card list and returns, without duplicates and in nondecreasing
    link distance, exactly the ids reachable from the start by forward or back links, the start excluded.
   */
  method ExpandLinkedCards(start: Uuid, cards: seq<LinkCard>)
    returns (result: seq<Uuid>, ghost distance: seq<nat>)
    ensures IsExpansion(cards, start, result)
    ensures |distance| == |result| && NonDecreasing(distance)
    ensures forall i :: 0 <= i < |result| ==> IsDistance(GraphOf(cards), start, result[i], distance[i])
  {
    var cardMap := CardMap(cards);
    var visited, queue, level := StartTurn(start, cardMap, cards);
    result := [];
    while queue != []
      invariant Expanding(cards, start, level, result, queue, visited)
      decreases Component(cards, start) - visited, |queue|
    {
      result, visited, queue, level := TakeTurn(start, cardMap, cards, level, result, visited, queue);
    }
    distance := FinishedExpansion(cards, start, level, result, visited);
  }

  lemma FinishedExpansion(cards: seq<LinkCard>, start: Uuid, level: seq<nat>, result: seq<Uuid>, visited: set<Uuid>)
    returns (distance: seq<nat>)
    requires Expanding(cards, start, level, result, [], visited)
    ensures IsExpansion(cards, start, result)
    ensures |distance| == |result| && NonDecreasing(distance)
    ensures forall i :: 0 <= i < |result| ==> IsDistance(GraphOf(cards), start, result[i], distance[i])
  {
    assert [start] + result + [] == [start] + result;
    FinishedMembers(cards, start, result, level);
    FinishedOrder(GraphOf(cards), start, result, level);
    distance := level[1..];
  }
}
