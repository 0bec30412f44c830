/** `detect_cycle`: an iterative three-colour depth-first search with an explicit stack and path. */
module CycleDetection {
  import opened Ids
  import opened Walks

  datatype Color = White | Gray | Black

  datatype Frame = Frame(node: Uuid, idx: nat, parents: seq<Uuid>)

  /** The search's working state. */
  datatype Dfs = Dfs(color: map<Uuid, Color>, stack: seq<Frame>, path: seq<Uuid>) {
    function ColorOf(x: Uuid): Color { if x in color then color[x] else White }

    function Top(): Frame
      requires stack != []
    {
      stack[|stack| - 1]
    }

    function Enter(x: Uuid, parents: seq<Uuid>): Dfs {
      Dfs(color[x := Gray], stack + [Frame(x, 0, parents)], path + [x])
    }

    function Advance(): Dfs
      requires stack != []
    {
      Dfs(color, stack[|stack| - 1 := Top().(idx := Top().idx + 1)], path)
    }

    function Leave(): Dfs
      requires stack != [] && path != []
    {
      Dfs(color[Top().node := Black], stack[..|stack| - 1], path[..|path| - 1])
    }
  }

  // ---------------------------------------------------------------- what the search keeps

  /** The node the path goes on to after index `i`. */
  function Onward(path: seq<Uuid>, i: nat): Option<Uuid> {
    if i + 1 < |path| then Some(path[i + 1]) else None
  }

  /**
    A frame holds its node's successors, and those already examined are finished, except the one the path goes
    on to.
   */
  ghost predicate FrameOk(g: Graph, f: Frame, node: Uuid, onward: Option<Uuid>, done: seq<Uuid>) {
    && f.node == node
    && Elements(f.parents) == Elements(Succ(g, node))
    && f.idx <= |f.parents|
    && forall j :: 0 <= j < f.idx ==> f.parents[j] in done || onward == Some(f.parents[j])
  }

  /** One frame per path node. */
  ghost predicate Framed(g: Graph, s: Dfs, done: seq<Uuid>) {
    && |s.stack| == |s.path|
    && forall i :: 0 <= i < |s.stack| ==> FrameOk(g, s.stack[i], s.path[i], Onward(s.path, i), done)
  }

  /** Gray is exactly the path; black is exactly `done`, the nodes in the order they were finished. */
  ghost predicate Colored(s: Dfs, done: seq<Uuid>) {
    && (forall x :: s.ColorOf(x) == Gray <==> x in s.path)
    && (forall x :: s.ColorOf(x) == Black <==> x in done)
    && Distinct(s.path) && Distinct(done)
  }

  ghost predicate Linked(g: Graph, path: seq<Uuid>) {
    forall i :: 0 <= i < |path| - 1 ==> path[i + 1] in Succ(g, path[i])
  }

  /** Every edge from a finished node leads to a node finished before it. */
  ghost predicate Topological(g: Graph, done: seq<Uuid>) {
    forall i, y :: 0 <= i < |done| && y in Succ(g, done[i]) ==> y in done[..i]
  }

  ghost predicate Searching(g: Graph, s: Dfs, done: seq<Uuid>) {
    Framed(g, s, done) && Colored(s, done) && Linked(g, s.path) && Topological(g, done)
  }

  ghost function Seen(s: Dfs, done: seq<Uuid>): set<Uuid> { Elements(s.path) + Elements(done) }

  /** Steps left on the stack if nothing new is entered. */
  ghost function Work(stack: seq<Frame>): nat {
    if stack == [] then 0
    else
      var top := stack[|stack| - 1];
      Work(stack[..|stack| - 1]) + (if top.idx <= |top.parents| then |top.parents| - top.idx else 0) + 1
  }

  // ---------------------------------------------------------------- moving one frame on

  lemma FrameAdvances(g: Graph, f: Frame, node: Uuid, done: seq<Uuid>)
    requires FrameOk(g, f, node, None, done) && f.idx < |f.parents|
    ensures FrameOk(g, f.(idx := f.idx + 1), node, Some(f.parents[f.idx]), done)
    ensures f.parents[f.idx] in done ==> FrameOk(g, f.(idx := f.idx + 1), node, None, done)
    ensures f.parents[f.idx] in Succ(g, node) && f.parents[f.idx] in Nodes(g)
  {
    assert f.parents[f.idx] in Elements(f.parents);
  }

  lemma FrameReturns(g: Graph, f: Frame, node: Uuid, child: Uuid, done: seq<Uuid>)
    requires FrameOk(g, f, node, Some(child), done)
    ensures FrameOk(g, f, node, None, done + [child])
  {
  }

  lemma FrameKept(g: Graph, f: Frame, node: Uuid, onward: Option<Uuid>, done: seq<Uuid>, x: Uuid)
    requires FrameOk(g, f, node, onward, done)
    ensures FrameOk(g, f, node, onward, done + [x])
  {
  }

  lemma TopFrame(g: Graph, s: Dfs, done: seq<Uuid>)
    requires Framed(g, s, done) && s.stack != []
    ensures FrameOk(g, s.Top(), s.path[|s.path| - 1], None, done)
  {
  }

  // ---------------------------------------------------------------- entering a white node

  lemma EnterColors(s: Dfs, done: seq<Uuid>, x: Uuid, parents: seq<Uuid>)
    requires Colored(s, done) && s.ColorOf(x) == White
    ensures Colored(s.Enter(x, parents), done)
    ensures x !in s.path && x !in done
  {
  }

  /** The state after examining the top frame's next successor and entering it. */
  function Descend(s: Dfs, parents: seq<Uuid>): Dfs
    requires s.stack != [] && s.Top().idx < |s.Top().parents|
  {
    s.Advance().Enter(s.Top().parents[s.Top().idx], parents)
  }

  lemma DescendFrames(g: Graph, s: Dfs, done: seq<Uuid>, parents: seq<Uuid>)
    requires Framed(g, s, done) && s.stack != [] && s.Top().idx < |s.Top().parents|
    requires Elements(parents) == Elements(Succ(g, s.Top().parents[s.Top().idx]))
    ensures Framed(g, Descend(s, parents), done)
  {
    var s', n, next := Descend(s, parents), |s.stack|, s.Top().parents[s.Top().idx];
    TopFrame(g, s, done);
    FrameAdvances(g, s.Top(), s.path[n - 1], done);
    assert s'.stack == s.stack[..n - 1] + [s.Top().(idx := s.Top().idx + 1), Frame(next, 0, parents)];
    forall i | 0 <= i < n + 1 ensures FrameOk(g, s'.stack[i], s'.path[i], Onward(s'.path, i), done) {
      if i < n - 1 {
        assert FrameOk(g, s.stack[i], s.path[i], Onward(s.path, i), done);
      }
    }
  }

  lemma DescendKeeps(g: Graph, s: Dfs, done: seq<Uuid>, parents: seq<Uuid>)
    requires Searching(g, s, done) && s.stack != [] && s.Top().idx < |s.Top().parents|
    requires s.ColorOf(s.Top().parents[s.Top().idx]) == White
    requires Elements(parents) == Elements(Succ(g, s.Top().parents[s.Top().idx]))
    ensures Searching(g, Descend(s, parents), done)
    ensures Seen(s, done) <= Seen(Descend(s, parents), done)
    ensures Nodes(g) - Seen(Descend(s, parents), done) < Nodes(g) - Seen(s, done)
  {
    var next := s.Top().parents[s.Top().idx];
    TopFrame(g, s, done);
    FrameAdvances(g, s.Top(), s.path[|s.path| - 1], done);
    EnterColors(s.Advance(), done, next, parents);
    DescendFrames(g, s, done, parents);
    SeenGrows(g, s, done, next);
  }

  lemma SeenGrows(g: Graph, s: Dfs, done: seq<Uuid>, x: Uuid)
    requires x !in s.path && x !in done && x in Nodes(g)
    ensures Elements(s.path + [x]) + Elements(done) == Seen(s, done) + {x}
    ensures Nodes(g) - (Seen(s, done) + {x}) < Nodes(g) - Seen(s, done)
  {
    ElementsAppend(s.path, [x]);
    assert x in Nodes(g) - Seen(s, done);
  }

  // ---------------------------------------------------------------- passing over a finished node

  lemma SkipFrames(g: Graph, s: Dfs, done: seq<Uuid>)
    requires Framed(g, s, done) && s.stack != [] && s.Top().idx < |s.Top().parents|
    requires s.Top().parents[s.Top().idx] in done
    ensures Framed(g, s.Advance(), done)
  {
    var s', n := s.Advance(), |s.stack|;
    TopFrame(g, s, done);
    FrameAdvances(g, s.Top(), s.path[n - 1], done);
    assert s'.stack == s.stack[..n - 1] + [s.Top().(idx := s.Top().idx + 1)];
    forall i | 0 <= i < n ensures FrameOk(g, s'.stack[i], s'.path[i], Onward(s'.path, i), done) {
      if i < n - 1 {
        assert FrameOk(g, s.stack[i], s.path[i], Onward(s.path, i), done);
      }
    }
  }

  lemma SkipKeeps(g: Graph, s: Dfs, done: seq<Uuid>)
    requires Searching(g, s, done) && s.stack != [] && s.Top().idx < |s.Top().parents|
    requires s.Top().parents[s.Top().idx] in done
    ensures Searching(g, s.Advance(), done)
    ensures Work(s.Advance().stack) < Work(s.stack)
  {
    SkipFrames(g, s, done);
    assert s.Advance().stack[..|s.stack| - 1] == s.stack[..|s.stack| - 1];
  }

  // ---------------------------------------------------------------- finishing a node

  lemma LeaveOrders(g: Graph, s: Dfs, done: seq<Uuid>)
    requires Searching(g, s, done) && s.stack != [] && s.Top().idx == |s.Top().parents|
    ensures Topological(g, done + [s.Top().node])
  {
    var node, all := s.Top().node, done + [s.Top().node];
    TopFrame(g, s, done);
    forall i, y | 0 <= i < |all| && y in Succ(g, all[i]) ensures y in all[..i] {
      if i < |done| {
        assert all[..i] == done[..i];
      } else {
        assert all[..i] == done;
        assert y in Elements(s.Top().parents);
      }
    }
  }

  lemma LeaveFrames(g: Graph, s: Dfs, done: seq<Uuid>)
    requires Framed(g, s, done) && s.stack != []
    ensures Framed(g, s.Leave(), done + [s.Top().node])
  {
    var s', done', n := s.Leave(), done + [s.Top().node], |s.stack|;
    TopFrame(g, s, done);
    forall i | 0 <= i < n - 1 ensures FrameOk(g, s'.stack[i], s'.path[i], Onward(s'.path, i), done') {
      assert FrameOk(g, s.stack[i], s.path[i], Onward(s.path, i), done);
      if i == n - 2 {
        FrameReturns(g, s.stack[i], s.path[i], s.Top().node, done);
      } else {
        FrameKept(g, s.stack[i], s.path[i], Onward(s.path, i), done, s.Top().node);
      }
    }
  }

  lemma LeaveColors(g: Graph, s: Dfs, done: seq<Uuid>)
    requires s.stack != [] && s.path != [] && s.Top().node == s.path[|s.path| - 1] && Colored(s, done)
    ensures Colored(s.Leave(), done + [s.Top().node])
    ensures Seen(s.Leave(), done + [s.Top().node]) == Seen(s, done)
  {
    var s', node := s.Leave(), s.Top().node;
    ElementsPop(s.path);
    ElementsAppend(done, [node]);
    assert s.path == s'.path + [node];
    assert node in s.path && node !in done;
    forall x ensures x in s'.path <==> x in s.path && x != node {
      assert x in s.path <==> x in s'.path || x == node;
    }
  }

  lemma LeaveKeeps(g: Graph, s: Dfs, done: seq<Uuid>)
    requires Searching(g, s, done) && s.stack != [] && s.Top().idx == |s.Top().parents|
    ensures Searching(g, s.Leave(), done + [s.Top().node])
    ensures Seen(s.Leave(), done + [s.Top().node]) == Seen(s, done)
    ensures Work(s.Leave().stack) < Work(s.stack)
  {
    TopFrame(g, s, done);
    LeaveOrders(g, s, done);
    LeaveFrames(g, s, done);
    LeaveColors(g, s, done);
  }

  // ---------------------------------------------------------------- what the two answers mean

  /** The path from the gray node onward, closed by that node. */
  function CycleFrom(path: seq<Uuid>, from: nat, next: Uuid): seq<Uuid>
    requires from < |path|
  {
    path[from..] + [next]
  }

  lemma GrayClosesCycle(g: Graph, s: Dfs, done: seq<Uuid>, from: nat)
    requires Searching(g, s, done) && s.stack != [] && s.Top().idx < |s.Top().parents|
    requires from < |s.path| && s.path[from] == s.Top().parents[s.Top().idx]
    ensures var cycle := CycleFrom(s.path, from, s.path[from]);
            IsCycle(g, cycle) && Distinct(cycle[..|cycle| - 1])
  {
    var cycle := CycleFrom(s.path, from, s.path[from]);
    TopFrame(g, s, done);
    FrameAdvances(g, s.Top(), s.path[|s.path| - 1], done);
    assert cycle[..|cycle| - 1] == s.path[from..];
    forall i | 0 <= i < |cycle| - 1 ensures cycle[i + 1] in Succ(g, cycle[i]) {
      if i < |cycle| - 2 {
        assert s.path[from + i + 1] in Succ(g, s.path[from + i]);
      }
    }
  }

  /** Walking from a finished node moves strictly down the finishing order. */
  lemma WalkDescends(g: Graph, done: seq<Uuid>, w: seq<Uuid>, start: nat, k: nat) returns (rank: nat)
    requires Topological(g, done) && IsWalk(g, w) && k < |w|
    requires start < |done| && done[start] == w[0]
    ensures rank + k <= start && done[rank] == w[k]
  {
    if k == 0 {
      rank := start;
    } else {
      var prev := WalkDescends(g, done, w, start, k - 1);
      assert w[(k - 1) + 1] in Succ(g, done[prev]);
      rank :| 0 <= rank < prev && done[rank] == w[k];
    }
  }

  /** A finishing order over every node with successors rules cycles out. */
  lemma FinishedIsAcyclic(g: Graph, done: seq<Uuid>)
    requires Topological(g, done) && Distinct(done)
    requires forall x :: x in g ==> x in done
    ensures Acyclic(g)
  {
    forall w | IsCycle(g, w) ensures false {
      assert w[0 + 1] in Succ(g, w[0]);
      assert w[0] in done;
      var start :| 0 <= start < |done| && done[start] == w[0];
      var rank := WalkDescends(g, done, w, start, |w| - 1);
    }
  }

  /** `sorted_implies`. */
  method SortedImplies(g: Graph, x: Uuid) returns (parents: seq<Uuid>)
    ensures Ascending(parents) && multiset(parents) == multiset(Succ(g, x))
    ensures Elements(parents) == Elements(Succ(g, x))
  {
    parents := Sort(Succ(g, x));
    SortOrders(Succ(g, x));
  }

  method Position(path: seq<Uuid>, x: Uuid) returns (at: Option<nat>)
    ensures at.None? <==> x !in path
    ensures at.Some? ==> at.value < |path| && path[at.value] == x
  {
    for i := 0 to |path|
      invariant x !in path[..i]
    {
      if path[i] == x { return Some(i); }
    }
    at := None;
  }

  function UnwrapOr(o: Option<nat>, default: nat): nat { if o.Some? then o.value else default }

  /**
    One run of the inner loop, from a state with something on the stack: either everything entered is finished,
    or a cycle is returned.
   */
  method Search(g: Graph, s0: Dfs, ghost done0: seq<Uuid>)
    returns (s: Dfs, ghost done: seq<Uuid>, cycle: Option<seq<Uuid>>)
    requires Searching(g, s0, done0)
    ensures cycle.Some? ==> IsCycle(g, cycle.value) && Distinct(cycle.value[..|cycle.value| - 1])
    ensures cycle.None? ==> Searching(g, s, done) && s.stack == [] && Seen(s0, done0) <= Seen(s, done)
  {
    s, done, cycle := s0, done0, None;
    while s.stack != []
      invariant Searching(g, s, done) && Seen(s0, done0) <= Seen(s, done)
      decreases Nodes(g) - Seen(s, done), Work(s.stack)
    {
      var top := s.Top();
      if top.idx >= |top.parents| {
        LeaveKeeps(g, s, done);
        s, done := s.Leave(), done + [top.node];
      } else {
        var next := top.parents[top.idx];
        match s.ColorOf(next)
        case White =>
          var parents := SortedImplies(g, next);
          DescendKeeps(g, s, done, parents);
          s := Descend(s, parents);
        case Gray =>
          var at := Position(s.path, next);
          assert at.Some?;  // the fallback below is never taken
          GrayClosesCycle(g, s, done, at.value);
          return s, done, Some(CycleFrom(s.path, UnwrapOr(at, 0), next));
        case Black =>
          SkipKeeps(g, s, done);
          s := s.Advance();
      }
    }
  }

  lemma StartKeeps(g: Graph, s: Dfs, done: seq<Uuid>, x: Uuid, parents: seq<Uuid>)
    requires Searching(g, s, done) && s.stack == [] && s.ColorOf(x) == White
    requires Elements(parents) == Elements(Succ(g, x))
    ensures Searching(g, s.Enter(x, parents), done)
    ensures Seen(s.Enter(x, parents), done) == Seen(s, done) + {x}
  {
    EnterColors(s, done, x, parents);
    ElementsAppend(s.path, [x]);
  }

  lemma ColoredIsSeen(s: Dfs, done: seq<Uuid>, x: Uuid)
    requires Colored(s, done)
    ensures s.ColorOf(x) != White <==> x in Seen(s, done)
  {
  }

  /** One turn of the outer loop: nothing to do for a colored start, a search from a white one. */
  method SearchFrom(g: Graph, s0: Dfs, ghost done0: seq<Uuid>, start: Uuid)
    returns (s: Dfs, ghost done: seq<Uuid>, cycle: Option<seq<Uuid>>)
    requires Searching(g, s0, done0) && s0.stack == []
    ensures cycle.Some? ==> IsCycle(g, cycle.value) && Distinct(cycle.value[..|cycle.value| - 1])
    ensures cycle.None? ==>
              Searching(g, s, done) && s.stack == [] && Seen(s0, done0) + {start} <= Seen(s, done)
  {
    ColoredIsSeen(s0, done0, start);
    if s0.ColorOf(start) != White {
      return s0, done0, None;
    }
    var parents := SortedImplies(g, start);
    StartKeeps(g, s0, done0, start, parents);
    s, done, cycle := Search(g, s0.Enter(start, parents), done0);
  }

  lemma StartsSearching(g: Graph, s: Dfs)
    requires s.stack == [] && s.path == [] && forall x :: s.ColorOf(x) == White
    ensures Searching(g, s, [])
  {
  }

  /** The keys in the order a `BTreeMap` gives them. */
  method SortedKeys(g: Graph) returns (keys: seq<Uuid>)
    ensures Elements(keys) == g.Keys
  {
    keys := Collect(g.Keys);
  }

  lemma CycleRefutes(g: Graph, w: seq<Uuid>)
    requires IsCycle(g, w)
    ensures !Acyclic(g)
  {
  }

  lemma AllFinished(g: Graph, keys: seq<Uuid>, s: Dfs, done: seq<Uuid>)
    requires Elements(keys) == g.Keys <= Seen(s, done) && Searching(g, s, done) && s.stack == []
    ensures Acyclic(g)
  {
    FinishedIsAcyclic(g, done);
  }

  /**
    `detect_cycle` terminates on every graph, returns `None` exactly when the implies relation is acyclic, and
    otherwise a closed walk that repeats no node but its ends.
   */
  method DetectCycle(g: Graph) returns (cycle: Option<seq<Uuid>>)
    ensures cycle.None? <==> Acyclic(g)
    ensures cycle.Some? ==> IsCycle(g, cycle.value) && Distinct(cycle.value[..|cycle.value| - 1])
  {
    var s := Dfs(map x | x in g :: White, [], []);
    ghost var done: seq<Uuid> := [];
    StartsSearching(g, s);
    var keys := SortedKeys(g);
    for k := 0 to |keys|
      invariant Searching(g, s, done) && s.stack == []
      invariant Elements(keys[..k]) <= Seen(s, done)
    {
      ElementsPop(keys[..k + 1]);
      assert keys[..k + 1][..k] == keys[..k];
      s, done, cycle := SearchFrom(g, s, done, keys[k]);
      if cycle.Some? {
        CycleRefutes(g, cycle.value);
        return;
      }
    }
    assert keys[..|keys|] == keys;
    AllFinished(g, keys, s, done);
    cycle := None;
  }
}
