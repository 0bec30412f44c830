/** What placing a card does to the whole list, for every position and every jitter. */
module PlacementProofs {
  import opened Ids
  import opened Integers
  import opened Priority

  /** The gap the new card is aimed at, before any capping. */
  function NeighbourGap(cards: seq<CardRef>, idx: nat): int
    requires idx <= |cards|
  {
    UpperAt(cards, idx) - LowerAt(cards, idx)
  }

  /**
    Whether the window can hold its cards and the new one. Below the last card the bound is virtual, so
    `I64_MIN` itself may be used there.
   */
  predicate HasRoom(cards: seq<CardRef>, w: Window) {
    w.upper - w.lower >= w.Slots() + (if w.right + 1 < |cards| then 1 else 0)
  }

  // ---------------------------------------------------------------- the slots of a window

  lemma SlotGap(w: Window, k: int)
    requires w.Slots() >= 2
    ensures w.Ideal(k) - w.Ideal(k + 1) == w.Step() >= 1
    ensures w.Ideal(0) == w.upper - w.Step()
    ensures w.Ideal(w.Slots() - 1) == w.upper - w.Step() * w.Slots()
  {
  }

  lemma SlotSpread(w: Window, j: int, k: int)
    requires w.Slots() >= 2 && j <= k
    ensures w.Ideal(j) - w.Ideal(k) == w.Step() * (k - j) >= k - j
    decreases k - j
  {
    if j < k {
      SlotSpread(w, j, k - 1);
      SlotGap(w, k - 1);
      assert w.Step() * (k - j) == w.Step() * (k - 1 - j) + w.Step();
    }
  }

  /** With room to spare every slot falls strictly between the bounds and no clamp is active. */
  lemma SlotInside(w: Window, k: int)
    requires 0 <= k < w.Slots() && w.Slots() >= 2
    requires w.upper - w.lower > w.Slots()
    ensures w.Step() == (w.upper - w.lower) / (w.Slots() + 1)
    ensures w.lower + w.Step() <= w.Ideal(k) <= w.upper - w.Step()
    ensures w.Slot(k) == w.Ideal(k)
  {
    var n, space := w.Slots() + 1, w.upper - w.lower;
    assert space / n >= 1;
    assert (space / n) * n <= space;
    SlotSpread(w, 0, k);
    SlotSpread(w, k, w.Slots() - 1);
    SlotGap(w, 0);
    assert w.Step() * n == w.Step() * w.Slots() + w.Step();
  }

  /** With no slot to spare the step is one. */
  lemma TightStep(w: Window)
    requires w.Slots() >= 2 && 0 <= w.upper - w.lower <= w.Slots()
    ensures w.Step() == 1
    ensures forall k :: w.Ideal(k) == w.upper - k - 1
  {
    assert (w.upper - w.lower) / (w.Slots() + 1) == 0;
  }

  // ---------------------------------------------------------------- optimality

  /** `ps` puts every slot of the window strictly inside its bounds with all neighbouring gaps at least `g`. */
  ghost predicate SpreadBy(w: Window, ps: seq<int>, g: int) {
    && |ps| == w.Slots() >= 2
    && w.upper - ps[0] >= g
    && (forall i :: 0 <= i < |ps| - 1 ==> ps[i] - ps[i + 1] >= g)
    && ps[|ps| - 1] - w.lower >= g
  }

  lemma GapsAddUp(w: Window, ps: seq<int>, g: int, k: nat)
    requires SpreadBy(w, ps, g) && k < |ps|
    ensures w.upper - ps[k] >= g * (k + 1)
  {
    if k > 0 {
      GapsAddUp(w, ps, g, k - 1);
      assert ps[k - 1] - ps[k] >= g;
      assert g * (k + 1) == g * k + g;
    }
  }

  /** The slots the code uses, from the top down. */
  function SlotsOf(w: Window): (ps: seq<int>)
    requires w.Slots() >= 2
    ensures |ps| == w.Slots()
  {
    seq(w.Slots(), k => w.Slot(k))
  }

  lemma SlotsFollow(w: Window, k: int)
    requires w.Slots() >= 2 && w.upper - w.lower > w.Slots() && 0 <= k < w.Slots() - 1
    ensures w.Slot(k) - w.Slot(k + 1) == w.Step()
  {
    SlotInside(w, k);
    SlotInside(w, k + 1);
    SlotGap(w, k);
  }

  lemma SlotsAreSpread(w: Window)
    requires w.Slots() >= 2 && w.upper - w.lower > w.Slots()
    ensures SpreadBy(w, SlotsOf(w), w.Step())
  {
    var ps, g := SlotsOf(w), w.Step();
    SlotInside(w, 0);
    SlotInside(w, |ps| - 1);
    forall i | 0 <= i < |ps| - 1 ensures ps[i] - ps[i + 1] >= g {
      SlotsFollow(w, i);
    }
  }

  lemma SpreadIsBounded(w: Window, ps: seq<int>, g: int)
    requires SpreadBy(w, ps, g) && w.upper - w.lower > w.Slots()
    ensures g <= w.Step()
  {
    var n, space := w.Slots() + 1, w.upper - w.lower;
    GapsAddUp(w, ps, g, |ps| - 1);
    assert g * n == g * |ps| + g;
    BoundedByAverage(g, n, space);
  }

  /**
    Rebalancing is optimal: the slots it uses are `Step` apart, and no arrangement of the same cards between
    the same bounds has a larger smallest gap.
   */
  lemma RebalanceIsOptimal(w: Window)
    requires w.Slots() >= 2 && w.upper - w.lower > w.Slots()
    ensures SpreadBy(w, SlotsOf(w), w.Step())
    ensures forall ps, g :: SpreadBy(w, ps, g) ==> g <= w.Step()
  {
    SlotsAreSpread(w);
    forall ps, g | SpreadBy(w, ps, g) ensures g <= w.Step() {
      SpreadIsBounded(w, ps, g);
    }
  }

  lemma BoundedByAverage(g: int, n: int, space: int)
    requires n > 0 && g * n <= space
    ensures g <= space / n
  {
    var q := space / n;
    assert (q + 1) * n == q * n + n;
    if g > q { ProductGrows(q + 1, g, n); }
  }

  lemma ProductGrows(a: int, b: int, n: int)
    requires a <= b && n >= 0
    ensures a * n <= b * n
  {
    assert b * n == a * n + (b - a) * n;
  }

  // ---------------------------------------------------------------- the list after a rebalance

  lemma ShiftInWindow(cards: seq<CardRef>, w: Window, idx: nat, from: nat, i: nat)
    requires UniqueIds(cards) && w.left <= from <= w.right + 1 <= |cards| && i < |cards|
    ensures ShiftOf(ShiftsFrom(cards, w, idx, from), cards[i]) ==
            if from <= i <= w.right then MovedTo(w, idx, i) else cards[i].priority
    decreases w.right + 1 - from
  {
    if from <= w.right {
      ShiftInWindow(cards, w, idx, from + 1, i);
      var rest := ShiftsFrom(cards, w, idx, from + 1);
      if MovedTo(w, idx, from) != cards[from].priority {
        var all := [(cards[from].id, MovedTo(w, idx, from))] + rest;
        assert all[1..] == rest;
      } else {
        assert [] + rest == rest;
      }
    }
  }

  /** Priority at index `k` once the window is redistributed: a slot inside the window, the old card elsewhere. */
  function RebalancedPriority(cards: seq<CardRef>, w: Window, k: nat): I64
    requires w.left <= w.right < |cards| && k <= |cards|
  {
    if k < w.left then cards[k].priority
    else if k <= w.right + 1 then w.Slot(k - w.left)
    else cards[k - 1].priority
  }

  lemma WindowList(cards: seq<CardRef>, w: Window, placement: Placement, idx: nat, id: Uuid, k: nat)
    requires UniqueIds(cards) && k <= |cards|
    requires w.left <= w.right < |cards| && w.left <= idx <= w.right + 1
    requires placement.priority == w.Slot(idx - w.left)
    requires Shifts(placement) == ShiftsFrom(cards, w, idx, w.left)
    ensures var out := Apply(cards, placement, id, idx);
            |out| == |cards| + 1 && out[k].priority == RebalancedPriority(cards, w, k)
  {
    if k != idx {
      ShiftInWindow(cards, w, idx, w.left, if k < idx then k else k - 1);
    }
  }

  ghost predicate IsWindow(cards: seq<CardRef>, w: Window) {
    && w.left <= w.right < |cards|
    && w.upper == UpperAt(cards, w.left)
    && w.lower == LowerAt(cards, w.right + 1)
  }

  /** `out` is the list whose window was redistributed. */
  ghost predicate IsRebalanced(cards: seq<CardRef>, out: seq<CardRef>, w: Window) {
    && IsWindow(cards, w)
    && |out| == |cards| + 1
    && forall k :: 0 <= k < |out| ==> out[k].priority == RebalancedPriority(cards, w, k)
  }

  lemma RebalancedList(cards: seq<CardRef>, idx: nat, draw: nat, id: Uuid)
    requires cards != [] && UniqueIds(cards) && idx <= |cards|
    ensures IsRebalanced(cards, Apply(cards, RebalancedAt(cards, idx, draw), id, idx), PackedWindow(cards, idx))
  {
    forall k: nat | k <= |cards| {
      WindowList(cards, PackedWindow(cards, idx), RebalancedAt(cards, idx, draw), idx, id, k);
    }
  }

  /** Inserting never reorders the other cards, whatever the placement. */
  lemma OthersKeepOrder(cards: seq<CardRef>, placement: Placement, id: Uuid, idx: nat)
    requires idx <= |cards|
    ensures var out := Apply(cards, placement, id, idx);
            && |out| == |cards| + 1
            && out[idx] == CardRef(id, placement.priority)
            && (forall i :: 0 <= i < idx ==> out[i].id == cards[i].id)
            && (forall i :: idx <= i < |cards| ==> out[i + 1].id == cards[i].id)
  {
  }

  lemma SlotFits(cards: seq<CardRef>, w: Window, k: int)
    requires IsWindow(cards, w) && HasRoom(cards, w) && 0 <= k < w.Slots()
    ensures w.Slot(k) == w.Ideal(k) < w.upper
    ensures w.right + 1 < |cards| ==> w.lower < w.Slot(k)
  {
    if w.upper - w.lower > w.Slots() {
      SlotInside(w, k);
    } else {
      TightStep(w);
    }
  }

  lemma RoomGivesOrder(cards: seq<CardRef>, w: Window, j: nat, k: nat)
    requires Descending(cards) && IsWindow(cards, w) && HasRoom(cards, w)
    requires j < k <= |cards|
    ensures RebalancedPriority(cards, w, j) > RebalancedPriority(cards, w, k)
  {
    if w.left <= j <= w.right + 1 { SlotFits(cards, w, j - w.left); }
    if w.left <= k <= w.right + 1 { SlotFits(cards, w, k - w.left); }
    if w.left <= j && k <= w.right + 1 { SlotSpread(w, j - w.left, k - w.left); }
  }

  lemma NoRoomBreaksOrder(cards: seq<CardRef>, w: Window)
    requires Descending(cards) && IsWindow(cards, w) && !HasRoom(cards, w)
    ensures w.right + 1 < |cards| ==>
              RebalancedPriority(cards, w, w.right + 1) <= RebalancedPriority(cards, w, w.right + 2)
    ensures w.right + 1 == |cards| ==>
              RebalancedPriority(cards, w, w.right) <= RebalancedPriority(cards, w, w.right + 1)
  {
    TightStep(w);
  }

  lemma RebalanceExact(cards: seq<CardRef>, idx: nat, draw: nat, id: Uuid)
    requires cards != [] && Descending(cards) && UniqueIds(cards) && idx <= |cards|
    ensures Descending(Apply(cards, RebalancedAt(cards, idx, draw), id, idx)) <==>
            HasRoom(cards, PackedWindow(cards, idx))
  {
    var w, out := PackedWindow(cards, idx), Apply(cards, RebalancedAt(cards, idx, draw), id, idx);
    RebalancedList(cards, idx, draw, id);
    if HasRoom(cards, w) {
      forall j, k | 0 <= j < k < |out| ensures out[j].priority > out[k].priority {
        RoomGivesOrder(cards, w, j, k);
      }
    } else {
      NoRoomBreaksOrder(cards, w);
      var j := if w.right + 1 < |cards| then w.right + 1 else w.right;
      assert out[j].priority <= out[j + 1].priority;
    }
  }

  lemma SimpleList(cards: seq<CardRef>, p: I64, id: Uuid, idx: nat)
    requires idx <= |cards|
    ensures Apply(cards, Simple(p), id, idx) == cards[..idx] + [CardRef(id, p)] + cards[idx..]
  {
    assert Shifted(cards, []) == cards;
  }

  lemma SimpleKeepsOrder(cards: seq<CardRef>, p: I64, id: Uuid, idx: nat)
    requires Descending(cards) && idx <= |cards|
    requires UpperAt(cards, idx) > p > LowerAt(cards, idx)
    ensures Descending(Apply(cards, Simple(p), id, idx))
  {
    SimpleList(cards, p, id, idx);
  }

  lemma CappedStaysInside(upper: I64, lower: I64, draw: nat)
    requires upper - lower > 1
    ensures var b := CapEdgeBounds(upper, lower);
            lower < ComputePriority(b.0, b.1, draw) < upper
  {
  }

  /** The two branches of placement, told apart by the gap the caller can see. */
  lemma PlaceCardCases(cards: seq<CardRef>, position: InsertPosition, draw: nat)
    ensures var idx := InsertIndex(cards, position);
            var placement := PlaceCard(cards, position, draw);
            if NeighbourGap(cards, idx) > 1 then
              placement.Simple? && LowerAt(cards, idx) < placement.priority < UpperAt(cards, idx)
            else
              cards != [] && placement == RebalancedAt(cards, idx, draw)
  {
    var b := BoundsForPosition(cards, position);
    if NeighbourGap(cards, b.2) > 1 {
      CappedStaysInside(b.0, b.1, draw);
    }
  }

  /**
    Exactly when placement works, for every strictly descending list over the whole `i64` range: the result is
    strictly descending if and only if the gap is open or the packed window has room.
   */
  lemma PlaceCardExact(cards: seq<CardRef>, position: InsertPosition, draw: nat, id: Uuid)
    requires Descending(cards) && UniqueIds(cards)
    ensures var idx := InsertIndex(cards, position);
            Descending(Apply(cards, PlaceCard(cards, position, draw), id, idx)) <==>
            NeighbourGap(cards, idx) > 1 || HasRoom(cards, PackedWindow(cards, idx))
  {
    var idx := InsertIndex(cards, position);
    PlaceCardCases(cards, position, draw);
    if NeighbourGap(cards, idx) > 1 {
      SimpleKeepsOrder(cards, PlaceCard(cards, position, draw).priority, id, idx);
    } else {
      RebalanceExact(cards, idx, draw, id);
    }
  }

  function TopPair(): seq<CardRef> { [CardRef(1, I64_MAX), CardRef(2, I64_MAX - 2)] }

  lemma TopPairWindow()
    ensures PackedWindow(TopPair(), 0) == Window(0, 0, I64_MAX, I64_MAX - 2)
    ensures Window(0, 0, I64_MAX, I64_MAX - 2).Step() == 1
    ensures !HasRoom(TopPair(), Window(0, 0, I64_MAX, I64_MAX - 2))
  {
    assert PackedRight(TopPair(), 0) == 0;
  }

  lemma TopPairMoves(draw: nat)
    ensures PlaceCard(TopPair(), Top, draw) == Rebalanced(I64_MAX - 1, [(1, I64_MAX - 2)])
  {
    var w := Window(0, 0, I64_MAX, I64_MAX - 2);
    TopPairWindow();
    assert ShiftsFrom(TopPair(), w, 0, 1) == [];
    assert ShiftsFrom(TopPair(), w, 0, 0) == [(1, I64_MAX - 2)] + ShiftsFrom(TopPair(), w, 0, 1);
  }

  /** The failing family is real: a card stored at `I64_MAX` can be moved onto the card below it. */
  lemma TopInsertCanCollide(draw: nat, id: Uuid)
    ensures var cards := TopPair();
            && Descending(cards) && UniqueIds(cards)
            && !Descending(Apply(cards, PlaceCard(cards, Top, draw), id, 0))
            && PlaceCard(cards, Top, draw) == Rebalanced(I64_MAX - 1, [(1, I64_MAX - 2)])
  {
    TopPairWindow();
    TopPairMoves(draw);
    PlaceCardExact(TopPair(), Top, draw, id);
  }

  // ---------------------------------------------------------------- lists inside the open range

  /** Cards `left..=right` are consecutive integers, and the run cannot be extended on either side. */
  ghost predicate MaximalPackedRun(cards: seq<CardRef>, w: Window) {
    && w.left <= w.right < |cards|
    && (forall i :: w.left <= i < w.right ==> GapBelow(cards, i) == 1)
    && (w.left > 0 ==> GapBelow(cards, w.left - 1) > 1)
    && (w.right + 1 < |cards| ==> GapBelow(cards, w.right) > 1)
  }

  lemma DescendingSpan(cards: seq<CardRef>, a: nat, b: nat)
    requires Descending(cards) && a <= b < |cards|
    ensures cards[a].priority - cards[b].priority >= b - a
    decreases b - a
  {
    if a < b { DescendingSpan(cards, a, b - 1); }
  }

  lemma RunIsMaximal(cards: seq<CardRef>, idx: nat)
    requires Descending(cards) && cards != [] && idx <= |cards| && NeighbourGap(cards, idx) <= 1
    ensures MaximalPackedRun(cards, PackedWindow(cards, idx))
  {
    var w := PackedWindow(cards, idx);
    forall i | w.left <= i < w.right ensures GapBelow(cards, i) == 1 {
      assert cards[i].priority > cards[i + 1].priority;
    }
  }

  lemma RunFits(cards: seq<CardRef>, w: Window)
    requires Descending(cards) && InOpenRange(cards) && |cards| < OPEN_RANGE
    requires MaximalPackedRun(cards, w) && IsWindow(cards, w)
    ensures w.upper - w.lower > w.Slots()
  {
    DescendingSpan(cards, w.left, w.right);
    if w.left > 0 { assert GapBelow(cards, w.left - 1) > 1; }
    if w.right + 1 < |cards| { assert GapBelow(cards, w.right) > 1; }
  }

  /** One free integer anywhere in the open range is enough for the window to have room to spare. */
  lemma WindowHasRoom(cards: seq<CardRef>, idx: nat)
    requires Descending(cards) && InOpenRange(cards) && 0 < |cards| < OPEN_RANGE
    requires idx <= |cards| && NeighbourGap(cards, idx) <= 1
    ensures var w := PackedWindow(cards, idx);
            && w.upper - w.lower > w.Slots()
            && MaximalPackedRun(cards, w)
  {
    RunIsMaximal(cards, idx);
    RunFits(cards, PackedWindow(cards, idx));
  }

  /** A packed window never keeps all its cards in place, so the outcome really is `Rebalanced`. */
  lemma SomeCardShifts(cards: seq<CardRef>, idx: nat)
    requires Descending(cards) && InOpenRange(cards) && 0 < |cards| < OPEN_RANGE
    requires idx <= |cards| && NeighbourGap(cards, idx) <= 1
    ensures var w := PackedWindow(cards, idx); ShiftsFrom(cards, w, idx, w.left) != []
  {
    var w := PackedWindow(cards, idx);
    WindowHasRoom(cards, idx);
    if idx > 0 { ShiftsNonEmpty(cards, w, idx, w.left, idx - 1); }
    if idx < |cards| { ShiftsNonEmpty(cards, w, idx, w.left, idx); }
    NeighboursSpread(w, idx - w.left);
  }

  /** The slots around the new card's slot are two steps apart, or one step from the slot at an edge. */
  lemma NeighboursSpread(w: Window, s: int)
    requires w.Slots() >= 2 && w.upper - w.lower > w.Slots() && 0 <= s < w.Slots()
    ensures 0 < s < w.Slots() - 1 ==> w.Slot(s - 1) - w.Slot(s + 1) >= 2
    ensures s == 0 ==> w.Slot(1) <= w.upper - 2
    ensures s == w.Slots() - 1 ==> w.Slot(s - 1) >= w.lower + 2
  {
    SlotInside(w, s);
    if s > 0 { SlotInside(w, s - 1); SlotGap(w, s - 1); }
    if s < w.Slots() - 1 { SlotInside(w, s + 1); SlotGap(w, s); }
  }

  lemma ShiftsNonEmpty(cards: seq<CardRef>, w: Window, idx: nat, from: nat, i: nat)
    requires w.left <= from <= i <= w.right < |cards|
    ensures ShiftsFrom(cards, w, idx, from) == [] ==> MovedTo(w, idx, i) == cards[i].priority
    decreases i - from
  {
    if from < i { ShiftsNonEmpty(cards, w, idx, from + 1, i); }
  }

  lemma InsertKeepsIdsUnique(cards: seq<CardRef>, out: seq<CardRef>, id: Uuid, idx: nat)
    requires UniqueIds(cards) && Fresh(cards, id) && idx <= |cards| && |out| == |cards| + 1
    requires out[idx].id == id
    requires forall i :: 0 <= i < idx ==> out[i].id == cards[i].id
    requires forall i :: idx <= i < |cards| ==> out[i + 1].id == cards[i].id
    ensures UniqueIds(out)
  {
    forall i, j | 0 <= i < j < |out| ensures out[i].id != out[j].id {
      assert j > idx ==> out[(j - 1) + 1].id == cards[j - 1].id;
      assert i > idx ==> out[(i - 1) + 1].id == cards[i - 1].id;
    }
  }

  /** A board a client may hold: distinct cards, strictly ordered, inside the open range. */
  ghost predicate ValidBoard(cards: seq<CardRef>) {
    Descending(cards) && InOpenRange(cards) && UniqueIds(cards)
  }

  /** Indices of `Apply`'s list that keep the card and priority they had. */
  ghost predicate UnchangedOutside(cards: seq<CardRef>, out: seq<CardRef>, w: Window)
    requires |out| == |cards| + 1 && w.right < |cards|
  {
    && (forall k :: 0 <= k < w.left && k < |cards| ==> out[k].priority == cards[k].priority)
    && (forall k :: w.right + 1 < k < |out| ==> out[k].priority == cards[k - 1].priority)
  }

  lemma SlotInOpenRange(cards: seq<CardRef>, w: Window, k: nat)
    requires InOpenRange(cards) && IsWindow(cards, w) && w.upper - w.lower > w.Slots() && k <= |cards|
    ensures I64_MIN < RebalancedPriority(cards, w, k) < I64_MAX
    ensures w.left <= k <= w.right + 1 ==> RebalancedPriority(cards, w, k) == w.Ideal(k - w.left)
  {
    if w.left <= k <= w.right + 1 { SlotInside(w, k - w.left); }
  }

  /** The window's cards stand one even step apart, counted down from the upper bound, and no clamp acts. */
  ghost predicate EvenlySpread(out: seq<CardRef>, w: Window) {
    && w.left <= w.right && w.right + 1 < |out|
    && var step := (w.upper - w.lower) / (w.right - w.left + 3);
       forall k :: w.left <= k <= w.right + 1 ==> out[k].priority == w.upper - step * (k - w.left + 1)
  }

  lemma RebalancedOutcome(cards: seq<CardRef>, out: seq<CardRef>, w: Window)
    requires InOpenRange(cards) && IsRebalanced(cards, out, w) && w.upper - w.lower > w.Slots()
    ensures InOpenRange(out)
    ensures UnchangedOutside(cards, out, w)
    ensures EvenlySpread(out, w)
  {
    forall k: nat | k <= |cards| { SlotInOpenRange(cards, w, k); }
    SlotInside(w, 0);
  }

  lemma SimpleInOpenRange(cards: seq<CardRef>, p: I64, id: Uuid, idx: nat)
    requires InOpenRange(cards) && idx <= |cards| && I64_MIN < p < I64_MAX
    ensures InOpenRange(Apply(cards, Simple(p), id, idx))
  {
    SimpleList(cards, p, id, idx);
  }

  lemma PlacedInOpenRange(cards: seq<CardRef>, position: InsertPosition, draw: nat, id: Uuid)
    requires ValidBoard(cards) && |cards| < OPEN_RANGE
    ensures InOpenRange(Apply(cards, PlaceCard(cards, position, draw), id, InsertIndex(cards, position)))
  {
    var idx, placement := InsertIndex(cards, position), PlaceCard(cards, position, draw);
    PlaceCardCases(cards, position, draw);
    if NeighbourGap(cards, idx) > 1 {
      SimpleInOpenRange(cards, placement.priority, id, idx);
    } else {
      RebalanceInOpenRange(cards, idx, draw, id);
    }
  }

  lemma RebalanceInOpenRange(cards: seq<CardRef>, idx: nat, draw: nat, id: Uuid)
    requires ValidBoard(cards) && |cards| < OPEN_RANGE
    requires idx <= |cards| && NeighbourGap(cards, idx) <= 1
    ensures var w := PackedWindow(cards, idx);
            var out := Apply(cards, RebalancedAt(cards, idx, draw), id, idx);
            && InOpenRange(out)
            && |out| == |cards| + 1
            && UnchangedOutside(cards, out, w)
            && EvenlySpread(out, w)
  {
    WindowHasRoom(cards, idx);
    RebalancedList(cards, idx, draw, id);
    RebalancedOutcome(cards, Apply(cards, RebalancedAt(cards, idx, draw), id, idx), PackedWindow(cards, idx));
  }

  /** `idx` is where the position asks for in a list of `n` cards: the front, the end, or the index cut to the end. */
  ghost predicate IsAskedFor(position: InsertPosition, n: nat, idx: nat) {
    && (position == Top ==> idx == 0)
    && (position == Bottom ==> idx == n)
    && (forall i: nat :: position == At(i) ==> idx == if i <= n then i else n)
  }

  /**
    The placement theorem: for every valid board with a free integer left, every position and every draw,
    applying the placement gives a valid board with the new card in first place for `Top`, in last place for
    `Bottom` and at the index for `At`, and the other cards in their old order; the outcome is `Rebalanced` exactly
    when the neighbour gap is at most one.
   */
  lemma PlaceCardKeepsOrder(cards: seq<CardRef>, position: InsertPosition, draw: nat, id: Uuid)
    requires ValidBoard(cards) && Fresh(cards, id) && |cards| < OPEN_RANGE
    ensures var idx := InsertIndex(cards, position);
            var placement := PlaceCard(cards, position, draw);
            var out := Apply(cards, placement, id, idx);
            && ValidBoard(out)
            && |out| == |cards| + 1
            && IsAskedFor(position, |cards|, idx)
            && out[idx] == CardRef(id, placement.priority)
            && (forall i :: 0 <= i < idx ==> out[i].id == cards[i].id)
            && (forall i :: idx <= i < |cards| ==> out[i + 1].id == cards[i].id)
            && (placement.Rebalanced? <==> NeighbourGap(cards, idx) <= 1)
  {
    var idx, placement := InsertIndex(cards, position), PlaceCard(cards, position, draw);
    PlaceCardCases(cards, position, draw);
    PlaceCardExact(cards, position, draw, id);
    PlacedInOpenRange(cards, position, draw, id);
    OthersKeepOrder(cards, placement, id, idx);
    InsertKeepsIdsUnique(cards, Apply(cards, placement, id, idx), id, idx);
    if NeighbourGap(cards, idx) <= 1 {
      WindowHasRoom(cards, idx);
      SomeCardShifts(cards, idx);
    }
  }

  lemma RunHasRoom(cards: seq<CardRef>, idx: nat)
    requires ValidBoard(cards) && 0 < |cards| < OPEN_RANGE && idx <= |cards| && NeighbourGap(cards, idx) <= 1
    ensures var w := PackedWindow(cards, idx);
            MaximalPackedRun(cards, w) && w.Step() == (w.upper - w.lower) / (w.Slots() + 1)
  {
    WindowHasRoom(cards, idx);
    SlotInside(PackedWindow(cards, idx), 0);
  }

  lemma LocalAt(cards: seq<CardRef>, idx: nat, draw: nat, id: Uuid)
    requires ValidBoard(cards) && 0 < |cards| < OPEN_RANGE && idx <= |cards| && NeighbourGap(cards, idx) <= 1
    ensures var w := PackedWindow(cards, idx);
            var out := Apply(cards, RebalancedAt(cards, idx, draw), id, idx);
            && |out| == |cards| + 1
            && UnchangedOutside(cards, out, w)
            && MaximalPackedRun(cards, w)
            && EvenlySpread(out, w)
            && w.Step() == (w.upper - w.lower) / (w.Slots() + 1)
  {
    RunHasRoom(cards, idx);
    RebalanceInOpenRange(cards, idx, draw, id);
  }

  /**
    What a rebalance leaves alone: every card outside the maximal packed run around the insertion point keeps
    its priority, and inside it no clamp is active.
   */
  lemma RebalanceIsLocal(cards: seq<CardRef>, position: InsertPosition, draw: nat, id: Uuid)
    requires ValidBoard(cards) && |cards| < OPEN_RANGE
    requires NeighbourGap(cards, InsertIndex(cards, position)) <= 1
    ensures var idx := InsertIndex(cards, position);
            var w := PackedWindow(cards, idx);
            var out := Apply(cards, PlaceCard(cards, position, draw), id, idx);
            && |out| == |cards| + 1
            && UnchangedOutside(cards, out, w)
            && MaximalPackedRun(cards, w)
            && EvenlySpread(out, w)
            && w.Step() == (w.upper - w.lower) / (w.Slots() + 1)
  {
    PlaceCardCases(cards, position, draw);
    LocalAt(cards, InsertIndex(cards, position), draw, id);
  }
}
