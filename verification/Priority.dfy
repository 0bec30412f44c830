/** Priority placement and rebalancing: an order-maintenance allocator over the `i64` line. */
module Priority {
  import opened Ids
  import opened Integers

  const JITTER_DIVISOR: int := 16
  const MAX_EDGE_GAP: int := 65_536

  /** Number of integers strictly between the two virtual bounds. */
  const OPEN_RANGE: nat := (I64_MAX - I64_MIN - 1) as nat

  /** What placement reads of a card. */
  datatype CardRef = CardRef(id: Uuid, priority: I64)

  datatype InsertPosition = Top | Bottom | At(index: nat)

  datatype Placement =
    | Simple(priority: I64)
    | Rebalanced(priority: I64, shifted: seq<(Uuid, I64)>)

  ghost predicate Descending(cards: seq<CardRef>) {
    forall i, j :: 0 <= i < j < |cards| ==> cards[i].priority > cards[j].priority
  }

  ghost predicate InOpenRange(cards: seq<CardRef>) {
    forall i :: 0 <= i < |cards| ==> I64_MIN < cards[i].priority < I64_MAX
  }

  ghost predicate UniqueIds(cards: seq<CardRef>) {
    forall i, j :: 0 <= i < j < |cards| ==> cards[i].id != cards[j].id
  }

  ghost predicate Fresh(cards: seq<CardRef>, id: Uuid) {
    forall i :: 0 <= i < |cards| ==> cards[i].id != id
  }

  function Clamp(p: int, lo: int, hi: int): int { Max(lo, Min(hi, p)) }

  /** Half of `gap`, rounded toward zero as the source's integer division rounds. */
  function Half(gap: int): int { if gap >= 0 then gap / 2 else -((-gap) / 2) }

  function JitterRange(gap: int): (r: int)
    requires gap > 2
    ensures 1 <= r <= gap / 2
  {
    Max(gap / JITTER_DIVISOR, 1)
  }

  /**
    Midpoint plus jitter. `draw` is the random generator's outcome, reduced to the range the source asks
    for, so a statement about every `draw` is a statement about every jitter.
   */
  function ComputePriority(upper: I64, lower: I64, draw: nat): (p: I64)
    ensures upper - lower > 1 ==> lower < p < upper
    ensures 0 <= upper - lower <= 1 ==> p == lower
    ensures upper < lower ==> p == lower - (lower - upper) / 2
    ensures upper - lower > 2 ==>
              var mid, range := lower + (upper - lower) / 2, Max((upper - lower) / 16, 1);
              mid - range <= p <= mid + range
  {
    var gap := upper - lower;
    var mid := lower + Half(gap);
    if gap <= 2 then mid
    else
      var range := JitterRange(gap);
      var jitter := draw % (range * 2 + 1) - range;
      Clamp(mid + jitter, lower + 1, upper - 1)
  }

  lemma SmallMod(a: nat, n: nat)
    requires a < n
    ensures a % n == a
  {
  }

  lemma DrawGives(upper: I64, lower: I64, draw: nat)
    requires upper - lower > 2 && draw <= 2 * JitterRange(upper - lower)
    ensures ComputePriority(upper, lower, draw) ==
            Clamp(lower + (upper - lower) / 2 + (draw - JitterRange(upper - lower)), lower + 1, upper - 1)
  {
    SmallMod(draw, JitterRange(upper - lower) * 2 + 1);
  }

  /** Every value the jitter may take is the outcome of some draw. */
  lemma JitterIsArbitrary(upper: I64, lower: I64, jitter: int)
    requires upper - lower > 2
    requires -Max((upper - lower) / 16, 1) <= jitter <= Max((upper - lower) / 16, 1)
    ensures exists draw: nat {:trigger ComputePriority(upper, lower, draw)} ::
              ComputePriority(upper, lower, draw) ==
              Clamp(lower + (upper - lower) / 2 + jitter, lower + 1, upper - 1)
  {
    var draw: nat := jitter + JitterRange(upper - lower);
    DrawGives(upper, lower, draw);
    assert ComputePriority(upper, lower, draw) ==
           Clamp(lower + (upper - lower) / 2 + jitter, lower + 1, upper - 1);
  }

  /** Pulls a virtual bound in, when exactly one of the two bounds is virtual. */
  function CapEdgeBounds(upper: I64, lower: I64): (b: (I64, I64))
    ensures upper > lower ==> lower <= b.1 < b.0 <= upper
    ensures upper - lower > 1 <==> b.0 - b.1 > 1
    ensures b.0 - b.1 > MAX_EDGE_GAP ==> b == (upper, lower)
  {
    if upper - lower <= MAX_EDGE_GAP then (upper, lower)
    else
      (if upper == I64_MAX && lower != I64_MIN then Min(lower + MAX_EDGE_GAP, I64_MAX) else upper,
       if lower == I64_MIN && upper != I64_MAX then Max(upper - MAX_EDGE_GAP, I64_MIN) else lower)
  }

  /** (upper, lower, index) for an insert position. */
  function BoundsForPosition(cards: seq<CardRef>, position: InsertPosition): (b: (I64, I64, nat))
    ensures b.2 <= |cards|
    ensures b.0 == UpperAt(cards, b.2) && b.1 == LowerAt(cards, b.2)
  {
    match position
    case Top => (I64_MAX, if cards == [] then I64_MIN else cards[0].priority, 0)
    case Bottom => (if cards == [] then I64_MAX else cards[|cards| - 1].priority, I64_MIN, |cards|)
    case At(index) =>
      var idx := Min(index, |cards|);
      (if idx == 0 then I64_MAX else cards[idx - 1].priority,
       if idx < |cards| then cards[idx].priority else I64_MIN,
       idx)
  }

  /** The priority just above slot `idx`, or the virtual top. */
  function UpperAt(cards: seq<CardRef>, idx: nat): I64
    requires idx <= |cards|
  {
    if idx == 0 then I64_MAX else cards[idx - 1].priority
  }

  /** The priority just below slot `idx`, or the virtual bottom. */
  function LowerAt(cards: seq<CardRef>, idx: nat): I64
    requires idx <= |cards|
  {
    if idx < |cards| then cards[idx].priority else I64_MIN
  }

  function InsertIndex(cards: seq<CardRef>, position: InsertPosition): (idx: nat)
    ensures idx <= |cards|
  {
    BoundsForPosition(cards, position).2
  }

  // ---------------------------------------------------------------- the packed window

  function GapBelow(cards: seq<CardRef>, i: nat): int
    requires i + 1 < |cards|
  {
    cards[i].priority - cards[i + 1].priority
  }

  /** First card of the packed run that ends at `start`. */
  function PackedLeft(cards: seq<CardRef>, start: nat): (left: nat)
    requires start < |cards|
    ensures left <= start
    ensures forall i :: left <= i < start ==> GapBelow(cards, i) <= 1
    ensures left == 0 || GapBelow(cards, left - 1) > 1
  {
    if start > 0 && GapBelow(cards, start - 1) <= 1 then PackedLeft(cards, start - 1) else start
  }

  /** Last card of the packed run that begins at `start`. */
  function PackedRight(cards: seq<CardRef>, start: nat): (right: nat)
    requires start < |cards|
    ensures start <= right < |cards|
    ensures forall i :: start <= i < right ==> GapBelow(cards, i) <= 1
    ensures right + 1 == |cards| || GapBelow(cards, right) > 1
    decreases |cards| - start
  {
    if start + 1 < |cards| && GapBelow(cards, start) <= 1 then PackedRight(cards, start + 1) else start
  }

  /** Cards `left..=right` may move, strictly between `upper` and `lower`. */
  datatype Window = Window(left: nat, right: nat, upper: I64, lower: I64) {
    /** Slots to fill: the window's cards and the new one. */
    function Slots(): int { right - left + 2 }

    function Step(): int
      requires Slots() >= 2
    {
      Max((upper - lower) / (Slots() + 1), 1)
    }

    function Ideal(slot: int): int
      requires Slots() >= 2
    {
      upper - Step() * (slot + 1)
    }

    /** Priority of a slot, counted from the top, clamped as the source clamps it. */
    function Slot(slot: int): I64
      requires Slots() >= 2
    {
      Clamp(Ideal(slot), I64_MIN, I64_MAX)
    }
  }

  function PackedWindow(cards: seq<CardRef>, idx: nat): (w: Window)
    requires cards != [] && idx <= |cards|
    ensures w.left <= idx <= w.right + 1 <= |cards| && w.left <= w.right
    ensures w.upper == UpperAt(cards, w.left) && w.lower == LowerAt(cards, w.right + 1)
    ensures forall i :: w.left <= i < w.right && i != idx - 1 ==> GapBelow(cards, i) <= 1
    ensures 0 < idx < |cards| ==> w.left < idx <= w.right
    ensures w.left > 0 ==> GapBelow(cards, w.left - 1) > 1
    ensures w.right + 1 < |cards| ==> GapBelow(cards, w.right) > 1
  {
    var left := PackedLeft(cards, if idx > 0 then idx - 1 else 0);
    var right := PackedRight(cards, if idx < |cards| then idx else |cards| - 1);
    Window(left, right, UpperAt(cards, left), LowerAt(cards, right + 1))
  }

  /** The priority card `i` of the window moves to: cards at or after `idx` leave one slot for the new card. */
  function MovedTo(w: Window, idx: nat, i: nat): I64
    requires w.left <= i <= w.right
  {
    w.Slot(if i < idx then i - w.left else i - w.left + 1)
  }

  /** The shifts for window cards `i..`: those whose priority really changes, in order. */
  function ShiftsFrom(cards: seq<CardRef>, w: Window, idx: nat, i: nat): seq<(Uuid, I64)>
    requires w.left <= i <= w.right + 1 <= |cards|
    decreases w.right + 1 - i
  {
    if i > w.right then []
    else (if MovedTo(w, idx, i) != cards[i].priority then [(cards[i].id, MovedTo(w, idx, i))] else [])
         + ShiftsFrom(cards, w, idx, i + 1)
  }

  function RebalancedAt(cards: seq<CardRef>, idx: nat, draw: nat): (r: Placement)
    requires idx <= |cards|
    ensures r.Rebalanced? ==> r.shifted != []
  {
    if cards == [] then Simple(ComputePriority(I64_MAX, I64_MIN, draw))
    else
      var w := PackedWindow(cards, idx);
      var shifted := ShiftsFrom(cards, w, idx, w.left);
      if shifted == [] then Simple(w.Slot(idx - w.left))
      else Rebalanced(w.Slot(idx - w.left), shifted)
  }

  method ScanLeft(cards: seq<CardRef>, start: nat) returns (left: nat)
    requires start < |cards|
    ensures left == PackedLeft(cards, start)
  {
    left := start;
    while left > 0
      invariant left <= start
      invariant PackedLeft(cards, left) == PackedLeft(cards, start)
    {
      var gap := cards[left - 1].priority - cards[left].priority;
      if gap > 1 { break; }
      left := left - 1;
    }
  }

  method ScanRight(cards: seq<CardRef>, start: nat) returns (right: nat)
    requires start < |cards|
    ensures right == PackedRight(cards, start)
  {
    right := start;
    while right + 1 < |cards|
      invariant start <= right < |cards|
      invariant PackedRight(cards, right) == PackedRight(cards, start)
    {
      var gap := cards[right].priority - cards[right + 1].priority;
      if gap > 1 { break; }
      right := right + 1;
    }
  }

  method ScanWindow(cards: seq<CardRef>, insertIdx: nat) returns (w: Window)
    requires cards != [] && insertIdx <= |cards|
    ensures w == PackedWindow(cards, insertIdx)
  {
    var left := ScanLeft(cards, if insertIdx > 0 then insertIdx - 1 else 0);
    var right := ScanRight(cards, if insertIdx < |cards| then insertIdx else |cards| - 1);
    var rangeUpper := if left == 0 then I64_MAX else cards[left - 1].priority;
    var rangeLower := if right >= |cards| - 1 then I64_MIN else cards[right + 1].priority;
    w := Window(left, right, rangeUpper, rangeLower);
  }

  /** The slot-assignment loop: the new card's slot, and the shift of every window card that moves. */
  method Redistribute(cards: seq<CardRef>, w: Window, insertIdx: nat)
    returns (priority: I64, shifted: seq<(Uuid, I64)>)
    requires w.left <= w.right < |cards| && w.left <= insertIdx <= w.right + 1
    ensures priority == w.Slot(insertIdx - w.left)
    ensures shifted == ShiftsFrom(cards, w, insertIdx, w.left)
  {
    var newSlot := insertIdx - w.left;
    shifted := [];
    var newPriority: Option<I64> := None;
    var slot := 0;
    var i := w.left;
    while i <= w.right
      invariant w.left <= i <= w.right + 1
      invariant slot == if newPriority.None? then i - w.left else i - w.left + 1
      invariant newPriority.None? <==> i <= insertIdx
      invariant newPriority.Some? ==> newPriority.value == w.Slot(newSlot)
      invariant shifted + ShiftsFrom(cards, w, insertIdx, i) == ShiftsFrom(cards, w, insertIdx, w.left)
    {
      if slot == newSlot && newPriority.None? {
        newPriority := Some(w.Slot(slot));
        slot := slot + 1;
      }
      var newP := w.Slot(slot);
      ghost var rest := ShiftsFrom(cards, w, insertIdx, i + 1);
      assert newP == MovedTo(w, insertIdx, i);
      if newP != cards[i].priority {
        assert shifted + ([(cards[i].id, newP)] + rest) == shifted + [(cards[i].id, newP)] + rest;
        shifted := shifted + [(cards[i].id, newP)];
      } else {
        assert [] + rest == rest;
      }
      slot := slot + 1;
      i := i + 1;
    }
    if newPriority.None? {
      newPriority := Some(w.Slot(slot));
    }
    priority := newPriority.value;
  }

  /** The whole rebalancing procedure, computing `RebalancedAt`. */
  method Rebalance(cards: seq<CardRef>, insertIdx: nat, draw: nat) returns (placement: Placement)
    requires insertIdx <= |cards|
    ensures placement == RebalancedAt(cards, insertIdx, draw)
  {
    if cards == [] {
      return Simple(ComputePriority(I64_MAX, I64_MIN, draw));
    }
    var w := ScanWindow(cards, insertIdx);
    var priority, shifted := Redistribute(cards, w, insertIdx);
    placement := if shifted == [] then Simple(priority) else Rebalanced(priority, shifted);
  }

  function TryPlace(cards: seq<CardRef>, upper: I64, lower: I64, idx: nat, draw: nat): Placement
    requires idx <= |cards|
  {
    if upper - lower > 1 then Simple(ComputePriority(upper, lower, draw))
    else RebalancedAt(cards, idx, draw)
  }

  function PlaceCard(cards: seq<CardRef>, position: InsertPosition, draw: nat): Placement {
    var (upper, lower, idx) := BoundsForPosition(cards, position);
    var (upper', lower') := CapEdgeBounds(upper, lower);
    TryPlace(cards, upper', lower', idx, draw)
  }

  function Without(cards: seq<CardRef>, id: Uuid): seq<CardRef> {
    if cards == [] then []
    else (if cards[0].id != id then [cards[0]] else []) + Without(cards[1..], id)
  }

  function MoveCard(cards: seq<CardRef>, id: Uuid, target: InsertPosition, draw: nat): Placement {
    PlaceCard(Without(cards, id), target, draw)
  }

  /** First index whose priority is at most `desired`, or the end of the list. */
  function CollisionIndex(cards: seq<CardRef>, desired: I64): (idx: nat)
    ensures idx <= |cards|
    ensures forall i :: 0 <= i < idx ==> cards[i].priority > desired
    ensures idx < |cards| ==> cards[idx].priority <= desired
  {
    if cards == [] || cards[0].priority <= desired then 0 else 1 + CollisionIndex(cards[1..], desired)
  }

  function ResolveCollision(cards: seq<CardRef>, desired: I64, draw: nat): Placement {
    PlaceCard(cards, At(CollisionIndex(cards, desired)), draw)
  }

  // ---------------------------------------------------------------- applying a placement

  function ShiftOf(shifted: seq<(Uuid, I64)>, card: CardRef): I64 {
    if shifted == [] then card.priority
    else if shifted[0].0 == card.id then shifted[0].1
    else ShiftOf(shifted[1..], card)
  }

  function Shifts(placement: Placement): seq<(Uuid, I64)> {
    if placement.Simple? then [] else placement.shifted
  }

  /** The cards after their shifted versions replaced them. */
  function Shifted(cards: seq<CardRef>, shifted: seq<(Uuid, I64)>): (out: seq<CardRef>)
    ensures |out| == |cards|
  {
    seq(|cards|, i requires 0 <= i < |cards| => CardRef(cards[i].id, ShiftOf(shifted, cards[i])))
  }

  /** The list a client holds once the placement is applied and the new card sits at `idx`. */
  function Apply(cards: seq<CardRef>, placement: Placement, id: Uuid, idx: nat): (out: seq<CardRef>)
    requires idx <= |cards|
  {
    var moved := Shifted(cards, Shifts(placement));
    moved[..idx] + [CardRef(id, placement.priority)] + moved[idx..]
  }
}
