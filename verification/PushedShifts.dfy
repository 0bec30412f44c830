/**
 * Whether the server takes the shifts of a placement. The editor pushes them from the top card of the run down, one
 * item each, and the new card last; each priority must be free at its turn.
 */
module PushedShifts {
  import opened Ids
  import opened Integers
  import opened Priority
  import opened PlacementProofs
  import opened ShiftedVersions

  /** No other card has the priority. */
  predicate Free(held: map<Uuid, I64>, id: Uuid, p: I64) {
    forall k :: k in held && k != id ==> held[k] != p
  }

  /** The priorities after the moves, one after the other, unless one is refused. */
  function TakeAll(held: map<Uuid, I64>, moves: seq<(Uuid, I64)>): Option<map<Uuid, I64>>
    decreases |moves|
  {
    if moves == [] then Some(held)
    else if Free(held, moves[0].0, moves[0].1) then TakeAll(held[moves[0].0 := moves[0].1], moves[1..])
    else None
  }

  lemma {:induction false} TakeLast(held: map<Uuid, I64>, moves: seq<(Uuid, I64)>, last: (Uuid, I64))
    ensures TakeAll(held, moves + [last]).Some? <==>
            TakeAll(held, moves).Some? && Free(TakeAll(held, moves).value, last.0, last.1)
    decreases |moves|
  {
    if moves == [] {
      assert [] + [last] == [last];
    } else {
      assert (moves + [last])[1..] == moves[1..] + [last];
      TakeLast(held[moves[0].0 := moves[0].1], moves[1..], last);
    }
  }

  /** The priorities are those of the list. */
  ghost predicate Holds(held: map<Uuid, I64>, refs: seq<CardRef>) {
    && (forall k :: 0 <= k < |refs| ==> refs[k].id in held && held[refs[k].id] == refs[k].priority)
    && (forall id :: id in held ==> Names(refs, 0, id))
  }

  ghost predicate FreeIn(refs: seq<CardRef>, id: Uuid, p: I64) {
    forall k :: 0 <= k < |refs| ==> refs[k].id == id || refs[k].priority != p
  }

  lemma FreeExact(held: map<Uuid, I64>, refs: seq<CardRef>, id: Uuid, p: I64)
    requires Holds(held, refs)
    ensures Free(held, id, p) <==> FreeIn(refs, id, p)
  {
    if FreeIn(refs, id, p) {
      forall j | j in held && j != id ensures held[j] != p {
        assert Names(refs, 0, j);
        var k :| 0 <= k < |refs| && refs[k].id == j;
      }
    }
  }

  // ---------------------------------------------------------------- half-way through a rebalance

  /** The list when the window's cards before `i` have moved. */
  ghost function Midway(refs: seq<CardRef>, w: Window, idx: nat, i: nat): (r: seq<CardRef>)
    requires w.left <= i <= w.right + 1 <= |refs|
    ensures |r| == |refs|
    ensures forall k :: 0 <= k < |refs| ==> r[k].id == refs[k].id
    ensures forall k :: 0 <= k < |refs| ==>
              r[k].priority == if w.left <= k < i then MovedTo(w, idx, k) else refs[k].priority
  {
    seq(|refs|, k requires 0 <= k < |refs| =>
      if w.left <= k < i then CardRef(refs[k].id, MovedTo(w, idx, k)) else refs[k])
  }

  /** Card `i` does not move onto a card of the run below it, which still has its old priority. */
  ghost predicate ClearAt(refs: seq<CardRef>, w: Window, idx: nat, i: nat)
    requires w.left <= i <= w.right < |refs|
  {
    forall j :: i < j <= w.right ==> refs[j].priority != MovedTo(w, idx, i)
  }

  ghost predicate ClearFrom(refs: seq<CardRef>, w: Window, idx: nat, i: nat)
    requires w.left <= i && w.right < |refs|
  {
    forall k :: i <= k <= w.right ==> ClearAt(refs, w, idx, k)
  }

  /** No card of the packed window moves onto the old priority of one below it. */
  ghost predicate MovesClear(refs: seq<CardRef>, idx: nat)
    requires refs != [] && idx <= |refs|
  {
    var w := PackedWindow(refs, idx);
    ClearFrom(refs, w, idx, w.left)
  }

  ghost predicate Above(refs: seq<CardRef>, i: nat, j: nat)
    requires i < |refs| && j < |refs|
  {
    refs[i].priority > refs[j].priority && refs[i].id != refs[j].id
  }

  ghost predicate Ordered(refs: seq<CardRef>) {
    forall i: nat, j: nat {:trigger Above(refs, i, j)} :: i < j < |refs| ==> Above(refs, i, j)
  }

  lemma BoardIsOrdered(refs: seq<CardRef>)
    requires Descending(refs) && UniqueIds(refs)
    ensures Ordered(refs)
  {
  }

  /** A window with room to spare on an ordered list. */
  ghost predicate Roomy(refs: seq<CardRef>, w: Window, idx: nat) {
    && Ordered(refs) && IsWindow(refs, w)
    && w.upper - w.lower > w.Slots()
    && w.left <= idx <= w.right + 1
  }

  lemma MovesApart(refs: seq<CardRef>, w: Window, idx: nat, i: nat, j: nat)
    requires Roomy(refs, w, idx) && w.left <= i < j <= w.right
    ensures MovedTo(w, idx, i) > MovedTo(w, idx, j)
  {
    var a, b := if i < idx then i - w.left else i - w.left + 1, if j < idx then j - w.left else j - w.left + 1;
    SlotInside(w, a);
    SlotInside(w, b);
    SlotSpread(w, a, b);
  }

  lemma MoveInside(refs: seq<CardRef>, w: Window, idx: nat, i: nat)
    requires Roomy(refs, w, idx) && w.left <= i <= w.right
    ensures w.lower < MovedTo(w, idx, i) < w.upper
  {
    SlotInside(w, if i < idx then i - w.left else i - w.left + 1);
  }

  lemma OutsideWindow(refs: seq<CardRef>, w: Window, idx: nat, k: nat)
    requires Roomy(refs, w, idx) && k < |refs|
    ensures k < w.left ==> refs[k].priority >= w.upper
    ensures k > w.right ==> refs[k].priority <= w.lower
  {
    if k < w.left - 1 { assert Above(refs, k, w.left - 1); }
    if k > w.right + 1 { assert Above(refs, w.right + 1, k); }
  }

  /** At its turn a card's new priority is free exactly if no card below it in the run still has it. */
  lemma FreeAtTurn(refs: seq<CardRef>, w: Window, idx: nat, i: nat)
    requires Roomy(refs, w, idx) && w.left <= i <= w.right
    ensures FreeIn(Midway(refs, w, idx, i), refs[i].id, MovedTo(w, idx, i)) <==> ClearAt(refs, w, idx, i)
  {
    var mid, p := Midway(refs, w, idx, i), MovedTo(w, idx, i);
    MoveInside(refs, w, idx, i);
    if ClearAt(refs, w, idx, i) {
      forall k | 0 <= k < |mid| ensures mid[k].id == refs[i].id || mid[k].priority != p {
        OutsideWindow(refs, w, idx, k);
        if w.left <= k < i { MovesApart(refs, w, idx, k, i); }
      }
    } else {
      var j :| i < j <= w.right && refs[j].priority == p;
      assert Above(refs, i, j);
      assert mid[j].id != refs[i].id && mid[j].priority == p;
    }
  }

  /** The cards before `i` have moved, the others not yet. */
  ghost predicate AtTurn(held: map<Uuid, I64>, refs: seq<CardRef>, w: Window, idx: nat, i: nat) {
    Roomy(refs, w, idx) && w.left <= i <= w.right + 1 && Holds(held, Midway(refs, w, idx, i))
  }

  lemma MoveOne(held: map<Uuid, I64>, refs: seq<CardRef>, w: Window, idx: nat, i: nat)
    requires AtTurn(held, refs, w, idx, i) && i <= w.right
    ensures AtTurn(held[refs[i].id := MovedTo(w, idx, i)], refs, w, idx, i + 1)
  {
    var next, mid := held[refs[i].id := MovedTo(w, idx, i)], Midway(refs, w, idx, i);
    var out := Midway(refs, w, idx, i + 1);
    forall k | 0 <= k < |out| ensures out[k].id in next && next[out[k].id] == out[k].priority {
      assert mid[k].id in held && held[mid[k].id] == mid[k].priority;
      if k < i { assert Above(refs, k, i); }
      if k > i { assert Above(refs, i, k); }
    }
    forall id | id in next ensures Names(out, 0, id) {
      if id == refs[i].id {
        assert out[i].id == id;
      } else {
        assert Names(mid, 0, id);
        var k :| 0 <= k < |mid| && mid[k].id == id;
        assert out[k].id == id;
      }
    }
  }

  lemma MidwayStays(refs: seq<CardRef>, w: Window, idx: nat, i: nat)
    requires w.left <= i <= w.right < |refs| && MovedTo(w, idx, i) == refs[i].priority
    ensures Midway(refs, w, idx, i + 1) == Midway(refs, w, idx, i)
  {
    var next, mid := Midway(refs, w, idx, i + 1), Midway(refs, w, idx, i);
    forall k | 0 <= k < |refs| ensures next[k] == mid[k] {
      assert next[k].id == mid[k].id && next[k].priority == mid[k].priority;
    }
  }

  lemma StayIsClear(refs: seq<CardRef>, w: Window, idx: nat, i: nat)
    requires Ordered(refs) && w.left <= i <= w.right < |refs| && MovedTo(w, idx, i) == refs[i].priority
    ensures ClearAt(refs, w, idx, i)
  {
    forall j | i < j <= w.right ensures refs[j].priority != refs[i].priority {
      assert Above(refs, i, j);
    }
  }

  lemma StayOne(held: map<Uuid, I64>, refs: seq<CardRef>, w: Window, idx: nat, i: nat)
    requires AtTurn(held, refs, w, idx, i) && i <= w.right && MovedTo(w, idx, i) == refs[i].priority
    ensures AtTurn(held, refs, w, idx, i + 1)
    ensures ClearAt(refs, w, idx, i)
    ensures ShiftsFrom(refs, w, idx, i) == ShiftsFrom(refs, w, idx, i + 1)
  {
    ShiftsCases(refs, w, idx, i);
    MidwayStays(refs, w, idx, i);
    StayIsClear(refs, w, idx, i);
  }

  /** The moves are taken exactly if `clear`, and then lead to the list `out`. */
  ghost predicate TakenIff(held: map<Uuid, I64>, moves: seq<(Uuid, I64)>, clear: bool, out: seq<CardRef>) {
    && (TakeAll(held, moves).Some? <==> clear)
    && (TakeAll(held, moves).Some? ==> Holds(TakeAll(held, moves).value, out))
  }

  lemma TakeFirst(held: map<Uuid, I64>, move: (Uuid, I64), rest: seq<(Uuid, I64)>, clear: bool, out: seq<CardRef>)
    requires TakenIff(held[move.0 := move.1], rest, clear, out)
    ensures TakenIff(held, [move] + rest, Free(held, move.0, move.1) && clear, out)
  {
    assert ([move] + rest)[1..] == rest;
  }

  lemma FreeToMove(held: map<Uuid, I64>, refs: seq<CardRef>, w: Window, idx: nat, i: nat)
    requires AtTurn(held, refs, w, idx, i) && i <= w.right
    ensures Free(held, refs[i].id, MovedTo(w, idx, i)) <==> ClearAt(refs, w, idx, i)
  {
    FreeExact(held, Midway(refs, w, idx, i), refs[i].id, MovedTo(w, idx, i));
    FreeAtTurn(refs, w, idx, i);
  }

  /** Card `i` moves if it is clear; the rest follows. */
  lemma FirstTaken(held: map<Uuid, I64>, refs: seq<CardRef>, w: Window, idx: nat, i: nat, later: bool,
                   out: seq<CardRef>)
    requires AtTurn(held, refs, w, idx, i) && i <= w.right && MovedTo(w, idx, i) != refs[i].priority
    requires TakenIff(held[refs[i].id := MovedTo(w, idx, i)], ShiftsFrom(refs, w, idx, i + 1), later, out)
    ensures TakenIff(held, ShiftsFrom(refs, w, idx, i), ClearAt(refs, w, idx, i) && later, out)
  {
    FreeToMove(held, refs, w, idx, i);
    ShiftsCases(refs, w, idx, i);
    TakeFirst(held, (refs[i].id, MovedTo(w, idx, i)), ShiftsFrom(refs, w, idx, i + 1), later, out);
  }

  lemma ShiftsCases(refs: seq<CardRef>, w: Window, idx: nat, i: nat)
    requires w.left <= i <= w.right < |refs|
    ensures var rest := ShiftsFrom(refs, w, idx, i + 1);
            ShiftsFrom(refs, w, idx, i) ==
            if MovedTo(w, idx, i) == refs[i].priority then rest else [(refs[i].id, MovedTo(w, idx, i))] + rest
  {
    assert [] + ShiftsFrom(refs, w, idx, i + 1) == ShiftsFrom(refs, w, idx, i + 1);
  }

  /** The shifts from card `i` on are taken exactly if each is clear at its turn, and then the window has moved. */
  lemma {:induction false} ShiftsTaken(held: map<Uuid, I64>, refs: seq<CardRef>, w: Window, idx: nat, i: nat)
    requires AtTurn(held, refs, w, idx, i)
    ensures TakenIff(held, ShiftsFrom(refs, w, idx, i), ClearFrom(refs, w, idx, i), Midway(refs, w, idx, w.right + 1))
    decreases w.right + 1 - i
  {
    if i <= w.right {
      ClearStep(refs, w, idx, i);
      if MovedTo(w, idx, i) == refs[i].priority {
        StayOne(held, refs, w, idx, i);
        ShiftsTaken(held, refs, w, idx, i + 1);
      } else {
        var next := held[refs[i].id := MovedTo(w, idx, i)];
        MoveOne(held, refs, w, idx, i);
        ShiftsTaken(next, refs, w, idx, i + 1);
        FirstTaken(held, refs, w, idx, i, ClearFrom(refs, w, idx, i + 1), Midway(refs, w, idx, w.right + 1));
      }
    }
  }

  lemma ClearStep(refs: seq<CardRef>, w: Window, idx: nat, i: nat)
    requires w.left <= i <= w.right < |refs|
    ensures ClearFrom(refs, w, idx, i) <==> ClearAt(refs, w, idx, i) && ClearFrom(refs, w, idx, i + 1)
  {
  }

  /** Once the window has moved the new card's slot is free: slots are all different. */
  lemma NewSlotIsFree(refs: seq<CardRef>, w: Window, idx: nat, id: Uuid)
    requires Roomy(refs, w, idx)
    ensures FreeIn(Midway(refs, w, idx, w.right + 1), id, w.Slot(idx - w.left))
  {
    var s := idx - w.left;
    SlotInside(w, s);
    var moved := Midway(refs, w, idx, w.right + 1);
    forall k | 0 <= k < |moved| ensures moved[k].priority != w.Slot(s) {
      OutsideWindow(refs, w, idx, k);
      if w.left <= k <= w.right {
        var t := if k < idx then k - w.left else k - w.left + 1;
        SlotInside(w, t);
        if t < s { SlotSpread(w, t, s); } else { SlotSpread(w, s, t); }
      }
    }
  }

  // ---------------------------------------------------------------- when a placement is taken

  /** What is pushed for a placement: the shifts in order, then the new card. */
  function Moves(placement: Placement, id: Uuid): seq<(Uuid, I64)> {
    Shifts(placement) + [(id, placement.priority)]
  }

  lemma NewCardTaken(held: map<Uuid, I64>, moves: seq<(Uuid, I64)>, clear: bool, out: seq<CardRef>, last: (Uuid, I64))
    requires TakenIff(held, moves, clear, out) && FreeIn(out, last.0, last.1)
    ensures TakeAll(held, moves + [last]).Some? <==> clear
  {
    TakeLast(held, moves, last);
    if clear { FreeExact(TakeAll(held, moves).value, out, last.0, last.1); }
  }

  lemma WindowTaken(held: map<Uuid, I64>, refs: seq<CardRef>, w: Window, idx: nat, id: Uuid)
    requires Roomy(refs, w, idx) && Holds(held, refs)
    ensures TakeAll(held, ShiftsFrom(refs, w, idx, w.left) + [(id, w.Slot(idx - w.left))]).Some? <==>
            ClearFrom(refs, w, idx, w.left)
  {
    assert Midway(refs, w, idx, w.left) == refs;
    ShiftsTaken(held, refs, w, idx, w.left);
    NewSlotIsFree(refs, w, idx, id);
    NewCardTaken(held, ShiftsFrom(refs, w, idx, w.left), ClearFrom(refs, w, idx, w.left),
                 Midway(refs, w, idx, w.right + 1), (id, w.Slot(idx - w.left)));
  }

  lemma WindowIsRoomy(refs: seq<CardRef>, idx: nat)
    requires ValidBoard(refs) && 0 < |refs| < OPEN_RANGE
    requires idx <= |refs| && NeighbourGap(refs, idx) <= 1
    ensures Roomy(refs, PackedWindow(refs, idx), idx)
  {
    WindowHasRoom(refs, idx);
    BoardIsOrdered(refs);
  }

  lemma RebalanceMoves(refs: seq<CardRef>, idx: nat, draw: nat, id: Uuid)
    requires refs != [] && idx <= |refs|
    ensures var w := PackedWindow(refs, idx);
            Moves(RebalancedAt(refs, idx, draw), id) ==
            ShiftsFrom(refs, w, idx, w.left) + [(id, w.Slot(idx - w.left))]
  {
  }

  lemma RebalanceTaken(held: map<Uuid, I64>, refs: seq<CardRef>, idx: nat, draw: nat, id: Uuid)
    requires refs != [] && idx <= |refs| && Roomy(refs, PackedWindow(refs, idx), idx) && Holds(held, refs)
    ensures TakeAll(held, Moves(RebalancedAt(refs, idx, draw), id)).Some? <==> MovesClear(refs, idx)
  {
    var w := PackedWindow(refs, idx);
    WindowTaken(held, refs, w, idx, id);
    RebalanceMoves(refs, idx, draw, id);
  }

  lemma SimpleTaken(held: map<Uuid, I64>, refs: seq<CardRef>, idx: nat, id: Uuid, p: I64)
    requires Descending(refs) && Holds(held, refs) && idx <= |refs|
    requires LowerAt(refs, idx) < p < UpperAt(refs, idx)
    ensures TakeAll(held, [(id, p)]).Some?
  {
    forall k: nat | k < |refs| ensures refs[k].priority != p {
      if k < idx { assert refs[k].priority >= refs[idx - 1].priority; }
      if k >= idx { assert refs[k].priority <= refs[idx].priority; }
    }
    FreeExact(held, refs, id, p);
  }

  /**
   * Exactly when the server takes a placement, for every valid board with a free integer, position and draw: the gap
   * is open, or no card of the packed window moves onto the old priority of one below it. The new card adds no
   * condition.
   */
  lemma PlacementTaken(held: map<Uuid, I64>, refs: seq<CardRef>, position: InsertPosition, draw: nat, id: Uuid)
    requires ValidBoard(refs) && |refs| < OPEN_RANGE && Holds(held, refs)
    ensures var placement, idx := PlaceCard(refs, position, draw), InsertIndex(refs, position);
            TakeAll(held, Moves(placement, id)).Some? <==>
            NeighbourGap(refs, idx) > 1 || (refs != [] && MovesClear(refs, idx))
  {
    var placement, idx := PlaceCard(refs, position, draw), InsertIndex(refs, position);
    PlaceCardCases(refs, position, draw);
    if NeighbourGap(refs, idx) > 1 {
      assert Moves(placement, id) == [(id, placement.priority)];
      SimpleTaken(held, refs, idx, id, placement.priority);
    } else {
      WindowIsRoomy(refs, idx);
      RebalanceTaken(held, refs, idx, draw, id);
    }
  }

  /** A card moves clear exactly if it stays, rises, or drops below its whole run. */
  lemma ClearOfRun(refs: seq<CardRef>, w: Window, idx: nat, i: nat)
    requires Descending(refs) && MaximalPackedRun(refs, w) && w.left <= i <= w.right
    ensures ClearAt(refs, w, idx, i) <==>
            MovedTo(w, idx, i) >= refs[i].priority || MovedTo(w, idx, i) < refs[w.right].priority
  {
    var p := MovedTo(w, idx, i);
    if refs[w.right].priority <= p < refs[i].priority {
      var j := i + (refs[i].priority - p);
      RunIsConsecutive(refs, w, i, w.right);
      RunIsConsecutive(refs, w, i, j);
    }
    forall j | i < j <= w.right ensures refs[i].priority > refs[j].priority >= refs[w.right].priority {}
  }

  lemma RunIsConsecutive(refs: seq<CardRef>, w: Window, i: nat, j: nat)
    requires MaximalPackedRun(refs, w) && w.left <= i <= j <= w.right
    ensures refs[i].priority - refs[j].priority == j - i
    decreases j
  {
    if i < j {
      RunIsConsecutive(refs, w, i, j - 1);
      assert GapBelow(refs, j - 1) == 1;
    }
  }

  function PackedFour(): seq<CardRef> {
    [CardRef(1, 103), CardRef(2, 100), CardRef(3, 99), CardRef(4, 98), CardRef(5, 97), CardRef(6, 90)]
  }

  lemma PackedFourMoves(draw: nat)
    ensures PackedWindow(PackedFour(), 2) == Window(1, 4, 103, 90)
    ensures MovedTo(Window(1, 4, 103, 90), 2, 2) == 97
    ensures PlaceCard(PackedFour(), At(2), draw) == Rebalanced(99, [(2, 101), (3, 97), (4, 95), (5, 93)])
  {
    var refs, w := PackedFour(), Window(1, 4, 103, 90);
    assert PackedLeft(refs, 1) == 1;
    assert PackedRight(refs, 4) == 4;
    assert PackedRight(refs, 3) == 4;
    assert PackedRight(refs, 2) == 4;
    assert w.Step() == 2;
    assert ShiftsFrom(refs, w, 2, 4) == [(5, 93)] + ShiftsFrom(refs, w, 2, 5) == [(5, 93)];
    assert ShiftsFrom(refs, w, 2, 3) == [(4, 95)] + ShiftsFrom(refs, w, 2, 4);
    assert ShiftsFrom(refs, w, 2, 2) == [(3, 97)] + ShiftsFrom(refs, w, 2, 3);
    assert ShiftsFrom(refs, w, 2, 1) == [(2, 101)] + ShiftsFrom(refs, w, 2, 2);
  }

  lemma PackedFourIsBoard()
    ensures ValidBoard(PackedFour())
    ensures NeighbourGap(PackedFour(), 2) == 1
  {
    var refs := PackedFour();
    forall i, j | 0 <= i < j < |refs| ensures refs[i].priority > refs[j].priority && refs[i].id != refs[j].id {}
  }

  lemma PackedFourNotClear()
    ensures !MovesClear(PackedFour(), 2)
  {
    var refs := PackedFour();
    PackedFourMoves(0);
    assert refs[4].priority == 97;
    assert !ClearAt(refs, PackedWindow(refs, 2), 2, 2);
  }

  lemma FirstTwoItems(held: map<Uuid, I64>)
    requires Holds(held, PackedFour())
    ensures TakeAll(held, [(2, 101)]).Some?
    ensures TakeAll(held, [(2, 101), (3, 97)]) == None
  {
    var refs := PackedFour();
    FreeExact(held, refs, 2, 101);
    var first, second := (2, 101), (3, 97);
    assert [first, second] == [first] + [second];
    TakeLast(held, [], first);
    TakeLast(held, [first], second);
    assert refs[4] == CardRef(5, 97);
    assert held[2 := 101][5] == 97;
  }

  /** Six cards of which four are packed: whatever is drawn, the second item moves card 3 onto card 5. */
  lemma PackedRunIsRefused(held: map<Uuid, I64>, draw: nat, id: Uuid)
    requires Holds(held, PackedFour())
    ensures ValidBoard(PackedFour())
    ensures PlaceCard(PackedFour(), At(2), draw) == Rebalanced(99, [(2, 101), (3, 97), (4, 95), (5, 93)])
    ensures TakeAll(held, [(2, 101)]).Some?
    ensures TakeAll(held, [(2, 101), (3, 97)]) == None
    ensures TakeAll(held, Moves(PlaceCard(PackedFour(), At(2), draw), id)) == None
  {
    PackedFourIsBoard();
    PackedFourMoves(draw);
    PackedFourNotClear();
    PlacementTaken(held, PackedFour(), At(2), draw, id);
    FirstTwoItems(held);
  }
}
