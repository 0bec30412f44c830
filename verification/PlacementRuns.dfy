/** Whole sessions of placing, moving and collision-resolving. */
module PlacementRuns {
  import opened Ids
  import opened Integers
  import opened Priority
  import opened PlacementProofs

  datatype Action =
    | Place(id: Uuid, position: InsertPosition, draw: nat)
    | Move(id: Uuid, target: InsertPosition, draw: nat)
    | Resolve(id: Uuid, desired: I64, draw: nat)

  predicate Holds(board: seq<CardRef>, id: Uuid) {
    exists i :: 0 <= i < |board| && board[i].id == id
  }

  /** A new card needs a new id and a free integer; only a card on the board can move. */
  predicate Enabled(board: seq<CardRef>, a: Action) {
    match a
    case Move(id, _, _) => Holds(board, id)
    case _ => !Holds(board, a.id) && |board| < OPEN_RANGE
  }

  function Outcome(board: seq<CardRef>, a: Action): Placement {
    match a
    case Place(_, position, draw) => PlaceCard(board, position, draw)
    case Move(id, target, draw) => MoveCard(board, id, target, draw)
    case Resolve(_, desired, draw) => ResolveCollision(board, desired, draw)
  }

  function Act(board: seq<CardRef>, a: Action): seq<CardRef> {
    match a
    case Place(id, position, _) => Apply(board, Outcome(board, a), id, InsertIndex(board, position))
    case Move(id, target, _) =>
      var others := Without(board, id);
      Apply(others, Outcome(board, a), id, InsertIndex(others, target))
    case Resolve(id, desired, _) => Apply(board, Outcome(board, a), id, CollisionIndex(board, desired))
  }

  /** The board after each action, from the start; a session whose every action is enabled. */
  predicate IsRun(boards: seq<seq<CardRef>>, actions: seq<Action>) {
    && |boards| == |actions| + 1
    && forall i :: 0 <= i < |actions| ==>
         Enabled(boards[i], actions[i]) && boards[i + 1] == Act(boards[i], actions[i])
  }

  // ---------------------------------------------------------------- taking a card out

  lemma HoldsCons(board: seq<CardRef>, id: Uuid)
    requires board != []
    ensures Holds(board, id) <==> board[0].id == id || Holds(board[1..], id)
  {
    if Holds(board, id) {
      var i :| 0 <= i < |board| && board[i].id == id;
      if i > 0 { assert board[1..][i - 1].id == id; }
    }
    if Holds(board[1..], id) {
      var i :| 0 <= i < |board| - 1 && board[1..][i].id == id;
      assert board[i + 1].id == id;
    }
  }

  lemma WithoutCount(board: seq<CardRef>, id: Uuid)
    requires UniqueIds(board)
    ensures |Without(board, id)| == if Holds(board, id) then |board| - 1 else |board|
  {
    if board != [] {
      WithoutCount(board[1..], id);
      HoldsCons(board, id);
    }
  }

  lemma WithoutMembers(board: seq<CardRef>, id: Uuid)
    ensures forall c :: c in Without(board, id) <==> c in board && c.id != id
  {
    if board != [] {
      WithoutMembers(board[1..], id);
      assert board == [board[0]] + board[1..];
    }
  }

  lemma WithoutKeepsValid(board: seq<CardRef>, id: Uuid)
    requires ValidBoard(board)
    ensures ValidBoard(Without(board, id))
  {
    if board != [] {
      var rest := board[1..];
      assert board == [board[0]] + rest;
      WithoutKeepsValid(rest, id);
      WithoutMembers(rest, id);
      WithoutCons(board[0], rest, id);
    }
  }

  /** What the board is without one of its cards: still valid, the same cards otherwise. */
  lemma WithoutIsSubsequence(board: seq<CardRef>, id: Uuid)
    requires ValidBoard(board)
    ensures ValidBoard(Without(board, id)) && Fresh(Without(board, id), id)
    ensures forall c :: c in Without(board, id) <==> c in board && c.id != id
    ensures |Without(board, id)| == if Holds(board, id) then |board| - 1 else |board|
  {
    WithoutCount(board, id);
    WithoutMembers(board, id);
    WithoutKeepsValid(board, id);
    assert forall i :: 0 <= i < |Without(board, id)| ==> Without(board, id)[i] in Without(board, id);
  }

  /** Putting back a card that is above all the others keeps the board valid. */
  lemma WithoutCons(card: CardRef, rest: seq<CardRef>, id: Uuid)
    requires ValidBoard([card] + rest) && ValidBoard(Without(rest, id))
    requires forall c :: c in Without(rest, id) ==> c in rest
    ensures ValidBoard([card] + Without(rest, id))
  {
    var small, all := Without(rest, id), [card] + rest;
    forall i | 0 <= i < |small| ensures card.priority > small[i].priority && card.id != small[i].id {
      assert small[i] in rest;
      var k :| 0 <= k < |rest| && rest[k] == small[i];
      assert all[k + 1] == small[i] && all[0] == card;
    }
    assert all[0] == card;
  }

  // ---------------------------------------------------------------- runs

  lemma PlacedOnBoard(board: seq<CardRef>, id: Uuid, position: InsertPosition, draw: nat)
    requires ValidBoard(board) && !Holds(board, id) && |board| < OPEN_RANGE
    ensures var out := Apply(board, PlaceCard(board, position, draw), id, InsertIndex(board, position));
            ValidBoard(out) && |out| == |board| + 1
  {
    assert Fresh(board, id);
    PlaceCardKeepsOrder(board, position, draw, id);
  }

  lemma MovedOnBoard(board: seq<CardRef>, id: Uuid, target: InsertPosition, draw: nat)
    requires ValidBoard(board) && Holds(board, id)
    ensures var others := Without(board, id);
            var out := Apply(others, PlaceCard(others, target, draw), id, InsertIndex(others, target));
            ValidBoard(out) && |out| == |board|
  {
    OthersFit(board, id);
    PlaceCardKeepsOrder(Without(board, id), target, draw, id);
  }

  /** Every enabled action keeps the board valid. */
  lemma ActKeepsBoard(board: seq<CardRef>, a: Action)
    requires ValidBoard(board) && Enabled(board, a)
    ensures ValidBoard(Act(board, a))
    ensures |Act(board, a)| == if a.Move? then |board| else |board| + 1
  {
    match a
    case Place(id, position, draw) => PlacedOnBoard(board, id, position, draw);
    case Move(id, target, draw) => MovedOnBoard(board, id, target, draw);
    case Resolve(id, desired, draw) => PlacedOnBoard(board, id, At(CollisionIndex(board, desired)), draw);
  }

  /** A valid board cannot hold more cards than the open range has integers. */
  lemma DescendingFits(board: seq<CardRef>)
    requires ValidBoard(board)
    ensures |board| <= OPEN_RANGE
  {
    if board != [] { DescendingSpan(board, 0, |board| - 1); }
  }

  /** The board without a card it holds has room for that card. */
  lemma OthersFit(board: seq<CardRef>, id: Uuid)
    requires ValidBoard(board) && Holds(board, id)
    ensures ValidBoard(Without(board, id)) && Fresh(Without(board, id), id)
    ensures |Without(board, id)| == |board| - 1 < OPEN_RANGE
  {
    WithoutIsSubsequence(board, id);
    DescendingFits(board);
  }

  /** Over every run, every board on the way has distinct priorities in list order, inside the open range. */
  lemma RunKeepsBoard(boards: seq<seq<CardRef>>, actions: seq<Action>, k: nat)
    requires IsRun(boards, actions) && ValidBoard(boards[0]) && k < |boards|
    ensures ValidBoard(boards[k])
  {
    if k > 0 {
      RunKeepsBoard(boards, actions, k - 1);
      ActKeepsBoard(boards[k - 1], actions[k - 1]);
      assert boards[k] == Act(boards[k - 1], actions[k - 1]);
    }
  }

  /** A list that holds the other cards in order, and the moved card at its index. */
  ghost predicate OthersAround(others: seq<CardRef>, out: seq<CardRef>, id: Uuid, idx: nat) {
    && |out| == |others| + 1 && idx <= |others| && out[idx].id == id
    && (forall i :: 0 <= i < idx ==> out[i].id == others[i].id)
    && (forall i :: idx <= i < |others| ==> out[i + 1].id == others[i].id)
  }

  lemma MovePlaces(board: seq<CardRef>, others: seq<CardRef>, id: Uuid, target: InsertPosition, draw: nat)
    requires others == Without(board, id) && ValidBoard(others) && Fresh(others, id) && |others| < OPEN_RANGE
    ensures var out, idx := Act(board, Move(id, target, draw)), InsertIndex(others, target);
            && ValidBoard(out) && OthersAround(others, out, id, idx) && IsAskedFor(target, |others|, idx)
            && (MoveCard(board, id, target, draw).Rebalanced? <==> NeighbourGap(others, idx) <= 1)
  {
    PlaceCardKeepsOrder(others, target, draw, id);
  }

  /** Moving permutes the board: the other cards keep their order and the moved card lands on the target. */
  lemma MoveCardKeepsOthers(board: seq<CardRef>, id: Uuid, target: InsertPosition, draw: nat)
    requires ValidBoard(board) && Holds(board, id)
    ensures var others := Without(board, id);
            var out, idx := Act(board, Move(id, target, draw)), InsertIndex(others, target);
            && ValidBoard(out) && |out| == |board| && OthersAround(others, out, id, idx)
            && IsAskedFor(target, |board| - 1, idx)
            && (MoveCard(board, id, target, draw).Rebalanced? <==> NeighbourGap(others, idx) <= 1)
  {
    OthersFit(board, id);
    MovePlaces(board, Without(board, id), id, target, draw);
  }

  /** Cards above the desired priority end above the new card, and all others below it. */
  lemma ResolveCollisionSplits(board: seq<CardRef>, id: Uuid, desired: I64, draw: nat, i: nat)
    requires ValidBoard(board) && Fresh(board, id) && |board| < OPEN_RANGE && i < |board|
    ensures var out := Act(board, Resolve(id, desired, draw));
            var p := ResolveCollision(board, desired, draw).priority;
            && ValidBoard(out) && |out| == |board| + 1
            && (board[i].priority > desired ==> out[i].id == board[i].id && out[i].priority > p)
            && (board[i].priority <= desired ==> out[i + 1].id == board[i].id && out[i + 1].priority < p)
  {
    var idx := CollisionIndex(board, desired);
    PlaceCardKeepsOrder(board, At(idx), draw, id);
    SplitAround(board, Act(board, Resolve(id, desired, draw)), idx, desired, i);
  }

  lemma SplitAround(board: seq<CardRef>, out: seq<CardRef>, idx: nat, desired: I64, i: nat)
    requires Descending(board) && Descending(out) && |out| == |board| + 1 && idx <= |board| && i < |board|
    requires forall j :: 0 <= j < idx ==> board[j].priority > desired && out[j].id == board[j].id
    requires forall j :: idx <= j < |board| ==> out[j + 1].id == board[j].id
    requires idx < |board| ==> board[idx].priority <= desired
    ensures board[i].priority > desired ==> out[i].id == board[i].id && out[i].priority > out[idx].priority
    ensures board[i].priority <= desired ==>
              out[i + 1].id == board[i].id && out[i + 1].priority < out[idx].priority
  {
    assert i > idx ==> board[idx].priority > board[i].priority;
  }

  // ---------------------------------------------------------------- inserting at the edges

  const MIN_EDGE_MOVE: int := 28_672
  const MAX_EDGE_MOVE: int := 36_864
  const FIRST_SPREAD: int := 0x1000_0000_0000_0000
  const EDGE_INSERTS: int := 0x8000_0000_0000

  predicate AtTop(a: Action) { a.Place? && (a.position == Top || a.position == At(0)) }

  predicate AtBottom(board: seq<CardRef>, a: Action) {
    a.Place? && (a.position == Bottom || (a.position.At? && a.position.index >= |board|))
  }

  /** An insert at either end of the list. */
  predicate AtEdge(board: seq<CardRef>, a: Action) { AtTop(a) || AtBottom(board, a) }

  predicate Within(board: seq<CardRef>, bound: int) {
    forall i :: 0 <= i < |board| ==> -bound <= board[i].priority <= bound
  }

  lemma CappedMove(upper: I64, lower: I64, draw: nat)
    requires upper - lower >= MAX_EDGE_GAP
    ensures upper == I64_MAX && lower != I64_MIN ==>
              var b := CapEdgeBounds(upper, lower);
              MIN_EDGE_MOVE <= ComputePriority(b.0, b.1, draw) - lower <= MAX_EDGE_MOVE
    ensures lower == I64_MIN && upper != I64_MAX ==>
              var b := CapEdgeBounds(upper, lower);
              MIN_EDGE_MOVE <= upper - ComputePriority(b.0, b.1, draw) <= MAX_EDGE_MOVE
  {
  }

  /** An insert at the top lands that far above the old top, and one at the bottom that far below the old bottom. */
  predicate MovesItsEnd(board: seq<CardRef>, a: Action, p: int) {
    && board != []
    && (AtTop(a) ==> MIN_EDGE_MOVE <= p - board[0].priority <= MAX_EDGE_MOVE)
    && (AtBottom(board, a) ==> MIN_EDGE_MOVE <= board[|board| - 1].priority - p <= MAX_EDGE_MOVE)
  }

  /** One edge insert moves its end of the list by between 28672 and 36864. */
  lemma EdgeInsertMoves(board: seq<CardRef>, a: Action)
    requires ValidBoard(board) && board != [] && AtEdge(board, a)
    requires Within(board, I64_MAX - MAX_EDGE_GAP)
    ensures Outcome(board, a).Simple?
    ensures MovesItsEnd(board, a, Outcome(board, a).priority)
  {
    var b := BoundsForPosition(board, a.position);
    CappedMove(b.0, b.1, a.draw);
  }

  lemma EdgePlaced(board: seq<CardRef>, position: InsertPosition, draw: nat, upper: I64)
    requires board != [] && Within(board, I64_MAX - 65_536) && upper - 65_536 > I64_MIN
    requires (position == Top && upper == board[0].priority + 65_536)
             || (position == Bottom && upper == board[|board| - 1].priority)
    ensures PlaceCard(board, position, draw) == Simple(ComputePriority(upper, upper - 65_536, draw))
  {
    var b := BoundsForPosition(board, position);
    assert CapEdgeBounds(b.0, b.1) == (upper, upper - 65_536);
  }

  /** Every such move is the outcome of some draw, at both ends. */
  lemma EdgeInsertAnyMove(board: seq<CardRef>, position: InsertPosition, move: int)
    requires ValidBoard(board) && board != [] && Within(board, I64_MAX - 65_536) && 28_672 <= move <= 36_864
    requires position == Top || position == Bottom
    ensures exists draw: nat {:trigger PlaceCard(board, position, draw)} ::
              PlaceCard(board, position, draw) ==
              Simple(if position == Top then board[0].priority + move else board[|board| - 1].priority - move)
  {
    var upper := if position == Top then board[0].priority + 65_536 else board[|board| - 1].priority;
    var jitter := if position == Top then move - 32_768 else 32_768 - move;
    JitterIsArbitrary(upper, upper - 65_536, jitter);
    var draw: nat :| ComputePriority(upper, upper - 65_536, draw) ==
                     Clamp(upper - 65_536 + 32_768 + jitter, upper - 65_536 + 1, upper - 1);
    EdgePlaced(board, position, draw, upper);
  }

  lemma FirstInsert(a: Action)
    requires a.Place?
    ensures Outcome([], a).Simple?
    ensures -FIRST_SPREAD <= Outcome([], a).priority <= FIRST_SPREAD
  {
  }

  lemma EdgeStep(board: seq<CardRef>, a: Action, bound: int)
    requires ValidBoard(board) && Enabled(board, a) && AtEdge(board, a)
    requires Within(board, bound) && FIRST_SPREAD <= bound <= I64_MAX - MAX_EDGE_GAP
    ensures Outcome(board, a).Simple?
    ensures Within(Act(board, a), bound + MAX_EDGE_MOVE)
  {
    if board == [] { FirstInsert(a); } else { EdgeInsertMoves(board, a); }
    var p, idx := Outcome(board, a).priority, InsertIndex(board, a.position);
    SimpleList(board, p, a.id, idx);
    WithinInsert(board, bound, CardRef(a.id, p), idx);
  }

  lemma WithinInsert(board: seq<CardRef>, bound: int, card: CardRef, idx: nat)
    requires Within(board, bound) && idx <= |board| && bound >= 0
    requires -bound - MAX_EDGE_MOVE <= card.priority <= bound + MAX_EDGE_MOVE
    ensures Within(board[..idx] + [card] + board[idx..], bound + MAX_EDGE_MOVE)
  {
  }

  /** What is known after `k` inserts at the two ends. */
  lemma EdgeRunBounds(boards: seq<seq<CardRef>>, actions: seq<Action>, k: nat)
    requires IsRun(boards, actions) && boards[0] == [] && |actions| <= EDGE_INSERTS
    requires forall i :: 0 <= i < |actions| ==> AtEdge(boards[i], actions[i])
    requires k < |boards|
    ensures ValidBoard(boards[k]) && Within(boards[k], FIRST_SPREAD + k * MAX_EDGE_MOVE)
  {
    RunKeepsBoard(boards, actions, k);
    if k > 0 {
      EdgeRunBounds(boards, actions, k - 1);
      assert Enabled(boards[k - 1], actions[k - 1]) && AtEdge(boards[k - 1], actions[k - 1]);
      EdgeStep(boards[k - 1], actions[k - 1], FIRST_SPREAD + (k - 1) * MAX_EDGE_MOVE);
      assert boards[k] == Act(boards[k - 1], actions[k - 1]);
    }
  }

  /**
    Starting from the empty list, any mix of up to 2^47 inserts at the two ends, under every jitter, never
    rebalances.
   */
  lemma EdgeInsertsStaySimple(boards: seq<seq<CardRef>>, actions: seq<Action>, k: nat)
    requires IsRun(boards, actions) && boards[0] == [] && |actions| <= EDGE_INSERTS
    requires forall i :: 0 <= i < |actions| ==> AtEdge(boards[i], actions[i])
    requires k < |actions|
    ensures Outcome(boards[k], actions[k]).Simple?
    ensures k > 0 ==>
              actions[k].Place? && MovesItsEnd(boards[k], actions[k], Outcome(boards[k], actions[k]).priority)
  {
    EdgeRunBounds(boards, actions, k);
    assert Enabled(boards[k], actions[k]) && AtEdge(boards[k], actions[k]);
    EdgeStep(boards[k], actions[k], FIRST_SPREAD + k * MAX_EDGE_MOVE);
    if k > 0 {
      EdgeRunBounds(boards, actions, k - 1);
      assert Enabled(boards[k - 1], actions[k - 1]) && AtEdge(boards[k - 1], actions[k - 1]);
      ActKeepsBoard(boards[k - 1], actions[k - 1]);
      assert boards[k] == Act(boards[k - 1], actions[k - 1]);
      EdgeInsertMoves(boards[k], actions[k]);
    }
  }
}
