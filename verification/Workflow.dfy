/**
 * From a placement to another client's list: the versions a client pushes for it, the server's checks on them, and
 * the merge by a client that receives them (clients/lib/src/sync.rs).
 */
module Workflow {
  import opened Ids
  import opened Bytes
  import opened Integers
  import opened Canonical
  import opened Chains
  import opened IndexMaps
  import opened Sync
  import opened SyncLaws
  import opened Priority
  import opened PlacementProofs
  import opened ShiftedVersions
  import opened Pushing
  import opened PushedShifts
  import opened PushedVersions

  // ---------------------------------------------------------------- the merged list

  ghost function UpdatedCards(blake: Blake, shifted: seq<(Uuid, I64)>, cards: seq<Card>, now: I64): (r: seq<Card>)
    requires CanGrow(cards)
    ensures |r| == |cards|
  {
    seq(|cards|, i requires 0 <= i < |cards| => Updated(blake, shifted, cards, i, now))
  }

  /** The list with the shifted versions in place and the new card at its index. */
  ghost function PlacedCards(blake: Blake, shifted: seq<(Uuid, I64)>, cards: seq<Card>, now: I64, card: Card,
                             idx: nat): seq<Card>
    requires CanGrow(cards) && idx <= |cards|
  {
    var r := UpdatedCards(blake, shifted, cards, now);
    r[..idx] + [card] + r[idx..]
  }

  lemma PlacedRefs(blake: Blake, placement: Placement, cards: seq<Card>, now: I64, card: Card, idx: nat)
    requires CanGrow(cards) && idx <= |cards| && card.body.priority == placement.priority
    ensures RefsOf(PlacedCards(blake, Shifts(placement), cards, now, card, idx)) ==
            Apply(RefsOf(cards), placement, card.body.id, idx)
  {
    UpdatedRefs(blake, Shifts(placement), cards, now);
    SpliceRefs(UpdatedCards(blake, Shifts(placement), cards, now), card, idx);
  }

  lemma UpdatedRefs(blake: Blake, shifted: seq<(Uuid, I64)>, cards: seq<Card>, now: I64)
    requires CanGrow(cards)
    ensures RefsOf(UpdatedCards(blake, shifted, cards, now)) == Shifted(RefsOf(cards), shifted)
  {
    var r, moved := RefsOf(UpdatedCards(blake, shifted, cards, now)), Shifted(RefsOf(cards), shifted);
    forall i | 0 <= i < |cards| ensures r[i] == moved[i] {}
  }

  lemma SpliceRefs(cards: seq<Card>, card: Card, idx: nat)
    requires idx <= |cards|
    ensures RefsOf(cards[..idx] + [card] + cards[idx..]) == RefsOf(cards)[..idx] + [RefOf(card)] + RefsOf(cards)[idx..]
  {
  }

  lemma RefsUnique(cards: seq<Card>)
    ensures UniqueIds(RefsOf(cards)) <==> OneCardPerId(cards)
  {
    var entries, refs := CardEntries(cards), RefsOf(cards);
    if OneCardPerId(cards) {
      forall i, j | 0 <= i < j < |refs| ensures refs[i].id != refs[j].id {
        assert entries[i].key != entries[j].key;
      }
    }
    if UniqueIds(refs) {
      forall i, j | 0 <= i < j < |cards| ensures entries[i].key != entries[j].key {
        assert refs[i].id != refs[j].id;
      }
    }
  }

  lemma RefsDescending(cards: seq<Card>)
    requires Descending(RefsOf(cards))
    ensures ByPriority(cards) && DistinctPriorities(cards)
  {
    var refs := RefsOf(cards);
    forall i, j | 0 <= i < j < |cards| ensures cards[i].body.priority > cards[j].body.priority {
      assert refs[i].priority > refs[j].priority;
    }
  }

  /** What a client pushes for a placement. */
  function Pushed(blake: Blake, placement: Placement, cards: seq<Card>, now: I64, card: Card): ChangeSet
    requires CanGrow(cards)
  {
    ChangeSet(BuildShiftedVersions(blake, Shifts(placement), cards, now) + [card], [], [])
  }

  /** The versions of a push, and their ids once each. */
  lemma {:induction false} BuiltOnce(blake: Blake, shifted: seq<(Uuid, I64)>, cards: seq<Card>, now: I64)
    requires CanGrow(cards) && ShiftsOnce(shifted)
    ensures OneCardPerId(BuildShiftedVersions(blake, shifted, cards, now))
    ensures forall v :: v in BuildShiftedVersions(blake, shifted, cards, now) ==> HasShift(shifted, v.body.id)
  {
    if shifted != [] {
      var s, rest := shifted[0], shifted[1..];
      assert shifted == [s] + rest;
      BuiltOnce(blake, rest, cards, now);
      FoundIsIn(cards, s.0);
      var vs := BuildShiftedVersions(blake, rest, cards, now);
      forall v | v in vs ensures v.body.id != s.0 && HasShift(shifted, v.body.id) {
        HasShiftCons(s, rest, v.body.id);
        NotInRest(s, rest);
      }
      HasShiftCons(s, rest, s.0);
      if FindCard(cards, s.0).Some? {
        UniqueCons(ShiftVersion(blake, FindCard(cards, s.0).value, s.1, now), vs);
      }
    }
  }

  lemma NotInRest(s: (Uuid, I64), rest: seq<(Uuid, I64)>)
    requires ShiftsOnce([s] + rest)
    ensures !HasShift(rest, s.0)
  {
    forall j | 0 <= j < |rest| ensures rest[j].0 != s.0 {
      assert ([s] + rest)[0].0 != ([s] + rest)[j + 1].0;
    }
  }

  lemma UniqueCons(card: Card, cards: seq<Card>)
    requires OneCardPerId(cards) && forall v :: v in cards ==> v.body.id != card.body.id
    ensures OneCardPerId([card] + cards)
  {
    RefsUnique(cards);
    RefsUnique([card] + cards);
    var refs := RefsOf([card] + cards);
    forall i, j | 0 <= i < j < |refs| ensures refs[i].id != refs[j].id {
      assert cards[j - 1] in cards;
      assert i > 0 ==> RefsOf(cards)[i - 1].id != RefsOf(cards)[j - 1].id;
    }
  }

  lemma UniqueSnoc(cards: seq<Card>, card: Card)
    requires OneCardPerId(cards) && forall v :: v in cards ==> v.body.id != card.body.id
    ensures OneCardPerId(cards + [card])
  {
    RefsUnique(cards);
    RefsUnique(cards + [card]);
    var refs := RefsOf(cards + [card]);
    forall i, j | 0 <= i < j < |refs| ensures refs[i].id != refs[j].id {
      assert cards[i] in cards;
      assert j < |cards| ==> RefsOf(cards)[i].id != RefsOf(cards)[j].id;
    }
  }

  // ---------------------------------------------------------------- merging what was pushed

  /** What a push is made of: a fresh card, and one version for each shifted card. */
  ghost predicate GoodPush(shifted: seq<(Uuid, I64)>, cards: seq<Card>, card: Card) {
    && CanGrow(cards) && OneCardPerId(cards) && ShiftsOnce(shifted) && ShiftsAmong(shifted, RefsOf(cards), 0)
    && Fresh(RefsOf(cards), card.body.id)
  }

  lemma FreshIsNew(cards: seq<Card>, id: Uuid, v: Card)
    requires Fresh(RefsOf(cards), id) && v in cards
    ensures v.body.id != id
  {
    var i :| 0 <= i < |cards| && cards[i] == v;
    assert RefsOf(cards)[i].id != id;
  }

  lemma NoShiftForNew(shifted: seq<(Uuid, I64)>, cards: seq<Card>, card: Card)
    requires GoodPush(shifted, cards, card)
    ensures !HasShift(shifted, card.body.id)
  {
    forall j | 0 <= j < |shifted| ensures shifted[j].0 != card.body.id {
      assert Names(RefsOf(cards), 0, shifted[j].0);
      var i :| 0 <= i < |RefsOf(cards)| && RefsOf(cards)[i].id == shifted[j].0;
    }
  }

  lemma PushIsUnique(blake: Blake, shifted: seq<(Uuid, I64)>, cards: seq<Card>, now: I64, card: Card)
    requires GoodPush(shifted, cards, card)
    ensures OneCardPerId(BuildShiftedVersions(blake, shifted, cards, now) + [card])
  {
    var vs := BuildShiftedVersions(blake, shifted, cards, now);
    BuiltOnce(blake, shifted, cards, now);
    NoShiftForNew(shifted, cards, card);
    UniqueSnoc(vs, card);
  }

  ghost predicate IsUpdated(blake: Blake, shifted: seq<(Uuid, I64)>, cards: seq<Card>, now: I64, v: Card, i: nat)
    requires CanGrow(cards)
  {
    i < |cards| && v == Updated(blake, shifted, cards, i, now)
  }

  ghost predicate SomeUpdated(blake: Blake, shifted: seq<(Uuid, I64)>, cards: seq<Card>, now: I64, v: Card)
    requires CanGrow(cards)
  {
    exists i: nat :: IsUpdated(blake, shifted, cards, now, v, i)
  }

  lemma InPlaced(blake: Blake, shifted: seq<(Uuid, I64)>, cards: seq<Card>, now: I64, card: Card, idx: nat, v: Card)
    requires CanGrow(cards) && idx <= |cards|
    ensures v in PlacedCards(blake, shifted, cards, now, card, idx) <==>
            v == card || SomeUpdated(blake, shifted, cards, now, v)
  {
    var r := UpdatedCards(blake, shifted, cards, now);
    assert r == r[..idx] + r[idx..];
    if SomeUpdated(blake, shifted, cards, now, v) {
      var i: nat :| IsUpdated(blake, shifted, cards, now, v, i);
      assert r[i] == v;
    }
    if v in r {
      var i: nat :| i < |r| && r[i] == v;
      assert IsUpdated(blake, shifted, cards, now, v, i);
    }
  }

  /** A pushed id is the new card's or a shifted one, and what is pushed for it is in the placed list. */
  lemma PushedIsUpdated(blake: Blake, shifted: seq<(Uuid, I64)>, cards: seq<Card>, now: I64, card: Card, v: Card)
    requires GoodPush(shifted, cards, card)
    requires v in BuildShiftedVersions(blake, shifted, cards, now) + [card]
    ensures v == card || (HasShift(shifted, v.body.id) && SomeUpdated(blake, shifted, cards, now, v))
  {
    if v != card {
      BuiltOnce(blake, shifted, cards, now);
      BuiltVersions(blake, shifted, cards, now, v);
      var i: nat :| IsVersion(blake, shifted, cards, now, v, i);
      assert IsUpdated(blake, shifted, cards, now, v, i);
    }
  }

  lemma ShiftedIsPushed(blake: Blake, shifted: seq<(Uuid, I64)>, cards: seq<Card>, now: I64, i: nat)
    requires CanGrow(cards) && OneCardPerId(cards) && ShiftsOnce(shifted)
    requires i < |cards| && HasShift(shifted, cards[i].body.id)
    ensures Updated(blake, shifted, cards, i, now) in BuildShiftedVersions(blake, shifted, cards, now)
  {
    var v := Updated(blake, shifted, cards, i, now);
    BuiltVersions(blake, shifted, cards, now, v);
    assert IsVersion(blake, shifted, cards, now, v, i);
  }

  /** The merged collection: what was pushed, and the cards that were not. */
  function Received(blake: Blake, shifted: seq<(Uuid, I64)>, cards: seq<Card>, now: I64, card: Card): map<Uuid, Card>
    requires CanGrow(cards)
  {
    CardsById(cards) + CardsById(BuildShiftedVersions(blake, shifted, cards, now) + [card])
  }

  lemma PlacedIsReceived(blake: Blake, shifted: seq<(Uuid, I64)>, cards: seq<Card>, now: I64, card: Card, v: Card)
    requires GoodPush(shifted, cards, card)
    requires v == card || SomeUpdated(blake, shifted, cards, now, v)
    ensures Lookup(Received(blake, shifted, cards, now, card), v.body.id) == Some(v)
  {
    var pushed := BuildShiftedVersions(blake, shifted, cards, now) + [card];
    PushIsUnique(blake, shifted, cards, now, card);
    CardIsIn(pushed, v);
    if v != card {
      var i: nat :| IsUpdated(blake, shifted, cards, now, v, i);
      if HasShift(shifted, v.body.id) {
        ShiftedIsPushed(blake, shifted, cards, now, i);
      } else {
        assert v == cards[i];
        CardIsIn(cards, v);
        FreshIsNew(cards, card.body.id, v);
        NotPushed(blake, shifted, cards, now, card, v.body.id);
      }
    }
  }

  lemma NotPushed(blake: Blake, shifted: seq<(Uuid, I64)>, cards: seq<Card>, now: I64, card: Card, id: Uuid)
    requires GoodPush(shifted, cards, card) && id != card.body.id && !HasShift(shifted, id)
    ensures id !in CardsById(BuildShiftedVersions(blake, shifted, cards, now) + [card])
  {
    var pushed := BuildShiftedVersions(blake, shifted, cards, now) + [card];
    PushIsUnique(blake, shifted, cards, now, card);
    if id in CardsById(pushed) {
      ByIdKey(pushed, id);
      CardIsIn(pushed, CardsById(pushed)[id]);
      PushedIsUpdated(blake, shifted, cards, now, card, CardsById(pushed)[id]);
    }
  }

  lemma ReceivedIsPlaced(blake: Blake, shifted: seq<(Uuid, I64)>, cards: seq<Card>, now: I64, card: Card, v: Card)
    requires GoodPush(shifted, cards, card)
    requires Lookup(Received(blake, shifted, cards, now, card), v.body.id) == Some(v)
    ensures v == card || SomeUpdated(blake, shifted, cards, now, v)
  {
    var pushed := BuildShiftedVersions(blake, shifted, cards, now) + [card];
    PushIsUnique(blake, shifted, cards, now, card);
    if v.body.id in CardsById(pushed) {
      CardIsIn(pushed, v);
      PushedIsUpdated(blake, shifted, cards, now, card, v);
    } else {
      CardIsIn(cards, v);
      var i: nat :| i < |cards| && cards[i] == v;
      if HasShift(shifted, v.body.id) {
        ShiftedIsPushed(blake, shifted, cards, now, i);
        CardIsIn(pushed, Updated(blake, shifted, cards, i, now));
      } else {
        assert IsUpdated(blake, shifted, cards, now, v, i);
      }
    }
  }

  /** The merged collection is the placed list, by id. */
  lemma ReceivedIs(blake: Blake, shifted: seq<(Uuid, I64)>, cards: seq<Card>, now: I64, card: Card, idx: nat)
    requires GoodPush(shifted, cards, card) && idx <= |cards|
    requires OneCardPerId(PlacedCards(blake, shifted, cards, now, card, idx))
    ensures CardsById(PlacedCards(blake, shifted, cards, now, card, idx)) == Received(blake, shifted, cards, now, card)
  {
    var placed, m := PlacedCards(blake, shifted, cards, now, card, idx), Received(blake, shifted, cards, now, card);
    forall k ensures Lookup(CardsById(placed), k) == Lookup(m, k) {
      if k in CardsById(placed) {
        var v := CardsById(placed)[k];
        ByIdKey(placed, k);
        CardIsIn(placed, v);
        InPlaced(blake, shifted, cards, now, card, idx, v);
        PlacedIsReceived(blake, shifted, cards, now, card, v);
      } else if k in m {
        ReceivedKey(blake, shifted, cards, now, card, k);
        ReceivedIsPlaced(blake, shifted, cards, now, card, m[k]);
        InPlaced(blake, shifted, cards, now, card, idx, m[k]);
        CardIsIn(placed, m[k]);
      }
    }
    SameLookups(CardsById(placed), m);
  }

  lemma ReceivedKey(blake: Blake, shifted: seq<(Uuid, I64)>, cards: seq<Card>, now: I64, card: Card, k: Uuid)
    requires GoodPush(shifted, cards, card) && k in Received(blake, shifted, cards, now, card)
    ensures Received(blake, shifted, cards, now, card)[k].body.id == k
  {
    var pushed := BuildShiftedVersions(blake, shifted, cards, now) + [card];
    PushIsUnique(blake, shifted, cards, now, card);
    if k in CardsById(pushed) { ByIdKey(pushed, k); } else { ByIdKey(cards, k); }
  }

  // ---------------------------------------------------------------- what the server makes of it

  /** A client about to place a new card: a valid board with a free integer, and a first version at the placement. */
  ghost predicate Placing(blake: Blake, cards: seq<Card>, position: InsertPosition, draw: nat, card: Card) {
    && OneCardPerId(cards) && CanGrow(cards) && |cards| < OPEN_RANGE
    && ValidBoard(RefsOf(cards)) && Fresh(RefsOf(cards), card.body.id)
    && VerifyCard(blake, card) && card.body.ancestor == ZERO_DIGEST
    && card.body.priority == PlaceCard(RefsOf(cards), position, draw).priority
  }

  /** The store holds the same cards, and neither they nor the new one were deleted. */
  ghost predicate InStep(store: Store, cards: seq<Card>, card: Card) {
    && store.cards == CardsById(cards)
    && card.body.id !in store.deleted
    && forall c :: c in cards ==> c.body.id !in store.deleted
  }

  lemma HeadMoves(v: Card, rest: seq<Card>)
    ensures MovesOf([v] + rest) == [(v.body.id, v.body.priority)] + MovesOf(rest)
  {
  }

  lemma ShiftsAmongRest(shifted: seq<(Uuid, I64)>, refs: seq<CardRef>)
    requires shifted != [] && ShiftsAmong(shifted, refs, 0)
    ensures Names(refs, 0, shifted[0].0) && ShiftsAmong(shifted[1..], refs, 0)
  {
    var rest := shifted[1..];
    forall j | 0 <= j < |rest| ensures Names(refs, 0, rest[j].0) {
      assert rest[j] == shifted[j + 1];
    }
  }

  lemma ListedIsFound(cards: seq<Card>, id: Uuid)
    requires Names(RefsOf(cards), 0, id)
    ensures FindCard(cards, id).Some? && FindCard(cards, id).value.body.id == id
    ensures FindCard(cards, id).value in cards
  {
    FoundIsIn(cards, id);
    var i :| 0 <= i < |RefsOf(cards)| && RefsOf(cards)[i].id == id;
    assert cards[i] in cards;
  }

  lemma {:induction false} BuiltMoves(blake: Blake, shifted: seq<(Uuid, I64)>, cards: seq<Card>, now: I64)
    requires CanGrow(cards) && ShiftsAmong(shifted, RefsOf(cards), 0)
    ensures MovesOf(BuildShiftedVersions(blake, shifted, cards, now)) == shifted
  {
    if shifted != [] {
      ShiftsAmongRest(shifted, RefsOf(cards));
      ListedIsFound(cards, shifted[0].0);
      BuiltMoves(blake, shifted[1..], cards, now);
      var v := ShiftVersion(blake, FindCard(cards, shifted[0].0).value, shifted[0].1, now);
      HeadMoves(v, BuildShiftedVersions(blake, shifted[1..], cards, now));
    }
  }

  lemma StoreHolds(cards: seq<Card>)
    requires OneCardPerId(cards)
    ensures Holds(Priorities(CardsById(cards)), RefsOf(cards))
  {
    var held, refs := Priorities(CardsById(cards)), RefsOf(cards);
    forall k | 0 <= k < |refs| ensures refs[k].id in held && held[refs[k].id] == refs[k].priority {
      CardIsIn(cards, cards[k]);
    }
    forall id | id in held ensures Names(refs, 0, id) {
      ByIdKey(cards, id);
      CardIsIn(cards, CardsById(cards)[id]);
      var k :| 0 <= k < |cards| && cards[k] == CardsById(cards)[id];
      assert refs[k].id == id;
    }
  }

  /** Each shifted version follows the one the store holds. */
  lemma VersionExtends(blake: Blake, store: Store, shifted: seq<(Uuid, I64)>, cards: seq<Card>, now: I64, card: Card,
                       v: Card)
    requires GoodPush(shifted, cards, card) && InStep(store, cards, card)
    requires v in BuildShiftedVersions(blake, shifted, cards, now)
    ensures Extends(blake, store, v)
  {
    BuiltVersions(blake, shifted, cards, now, v);
    var i: nat :| IsVersion(blake, shifted, cards, now, v, i);
    CardIsIn(cards, cards[i]);
  }

  /** The new card is the first of its id. */
  lemma NewCardExtends(blake: Blake, store: Store, cards: seq<Card>, card: Card)
    requires OneCardPerId(cards) && InStep(store, cards, card) && Fresh(RefsOf(cards), card.body.id)
    requires VerifyCard(blake, card) && card.body.ancestor == ZERO_DIGEST
    ensures Extends(blake, store, card)
  {
    var id := card.body.id;
    if id in CardsById(cards) {
      ByIdKey(cards, id);
      CardIsIn(cards, CardsById(cards)[id]);
      FreshIsNew(cards, id, CardsById(cards)[id]);
    }
  }

  lemma PushExtends(blake: Blake, store: Store, shifted: seq<(Uuid, I64)>, cards: seq<Card>, now: I64, card: Card)
    requires GoodPush(shifted, cards, card) && InStep(store, cards, card)
    requires VerifyCard(blake, card) && card.body.ancestor == ZERO_DIGEST
    ensures AllExtend(blake, store, BuildShiftedVersions(blake, shifted, cards, now) + [card])
  {
    var built := BuildShiftedVersions(blake, shifted, cards, now);
    PushIsUnique(blake, shifted, cards, now, card);
    NewCardExtends(blake, store, cards, card);
    forall i | 0 <= i < |built| ensures Extends(blake, store, built[i]) {
      VersionExtends(blake, store, shifted, cards, now, card, built[i]);
    }
  }

  lemma PushMoves(blake: Blake, shifted: seq<(Uuid, I64)>, cards: seq<Card>, now: I64, card: Card)
    requires CanGrow(cards) && ShiftsAmong(shifted, RefsOf(cards), 0)
    ensures MovesOf(BuildShiftedVersions(blake, shifted, cards, now) + [card]) ==
            shifted + [(card.body.id, card.body.priority)]
  {
    BuiltMoves(blake, shifted, cards, now);
    var built := BuildShiftedVersions(blake, shifted, cards, now);
    assert MovesOf(built + [card]) == MovesOf(built) + [(card.body.id, card.body.priority)];
  }

  /** What the client can see before it pushes: the gap is open, or its packed run moves clear of itself. */
  ghost predicate PushIsClear(refs: seq<CardRef>, position: InsertPosition) {
    var idx := InsertIndex(refs, position);
    NeighbourGap(refs, idx) > 1 || (refs != [] && MovesClear(refs, idx))
  }

  /** The placed list holds each id once, in descending order. */
  lemma PlacedIsBoard(blake: Blake, cards: seq<Card>, position: InsertPosition, draw: nat, now: I64, card: Card)
    requires Placing(blake, cards, position, draw, card)
    ensures var placement, idx := PlaceCard(RefsOf(cards), position, draw), InsertIndex(RefsOf(cards), position);
            var placed := PlacedCards(blake, Shifts(placement), cards, now, card, idx);
            && GoodPush(Shifts(placement), cards, card)
            && RefsOf(placed) == Apply(RefsOf(cards), placement, card.body.id, idx)
            && ValidBoard(RefsOf(placed))
            && OneCardPerId(placed) && ByPriority(placed) && DistinctPriorities(placed)
  {
    var refs := RefsOf(cards);
    var placement, idx := PlaceCard(refs, position, draw), InsertIndex(refs, position);
    var placed := PlacedCards(blake, Shifts(placement), cards, now, card, idx);
    PlacementShiftsOnce(refs, position, draw);
    PlaceCardKeepsOrder(refs, position, draw, card.body.id);
    PlacedRefs(blake, placement, cards, now, card, idx);
    RefsUnique(placed);
    RefsDescending(placed);
  }

  /**
   * Exactly when a placement reaches the server, for any position and draw: the push is stored whole if and only if
   * the gap is open or no card of the packed run moves onto the old priority of one below it, and the store then
   * holds the placed list. Otherwise an item is refused for its priority, and nothing is stored.
   */
  lemma PushTaken(blake: Blake, store: Store, cards: seq<Card>, position: InsertPosition, draw: nat, now: I64,
                  card: Card)
    requires Placing(blake, cards, position, draw, card) && InStep(store, cards, card)
    ensures var placement, idx := PlaceCard(RefsOf(cards), position, draw), InsertIndex(RefsOf(cards), position);
            TakenExactlyIf(
              PushFrom(blake, store, ItemsOf(Pushed(blake, placement, cards, now, card).cards), 0),
              PushIsClear(RefsOf(cards), position),
              store.(cards := CardsById(PlacedCards(blake, Shifts(placement), cards, now, card, idx))))
  {
    var placement, idx := PlaceCard(RefsOf(cards), position, draw), InsertIndex(RefsOf(cards), position);
    PlacedIsBoard(blake, cards, position, draw, now, card);
    PushExtends(blake, store, Shifts(placement), cards, now, card);
    PushMoves(blake, Shifts(placement), cards, now, card);
    VersionsTaken(blake, store, Pushed(blake, placement, cards, now, card).cards);
    StoreHolds(cards);
    PlacementTaken(Priorities(CardsById(cards)), RefsOf(cards), position, draw, card.body.id);
    ReceivedIs(blake, Shifts(placement), cards, now, card, idx);
  }

  /**
   * The way round, once the server has taken the push. One client places a new card and pushes the shifted versions
   * with it; the server stores them; another client that held the same list merges them. Whatever order its sort
   * gives equal priorities, it ends with the very list the placement meant, which is also what the server holds: the
   * new card at its index, the others in their old order with nothing but their priorities changed, on a valid board.
   */
  lemma PushReproducesPlacement(blake: Blake, store: Store, cards: seq<Card>, position: InsertPosition, draw: nat,
                                now: I64, card: Card, r: seq<Card>)
    requires Placing(blake, cards, position, draw, card) && InStep(store, cards, card)
    requires var pushed := Pushed(blake, PlaceCard(RefsOf(cards), position, draw), cards, now, card);
             && PushFrom(blake, store, ItemsOf(pushed.cards), 0).Accepted?
             && CardsById(r) == Merged(CardsById(cards), CardDelta(pushed))
    requires OneCardPerId(r) && ByPriority(r)
    ensures var placement, idx := PlaceCard(RefsOf(cards), position, draw), InsertIndex(RefsOf(cards), position);
            var pushed := Pushed(blake, placement, cards, now, card);
            && r == PlacedCards(blake, Shifts(placement), cards, now, card, idx)
            && RefsOf(r) == Apply(RefsOf(cards), placement, card.body.id, idx)
            && ValidBoard(RefsOf(r))
            && PushFrom(blake, store, ItemsOf(pushed.cards), 0).store == store.(cards := CardsById(r))
  {
    var placement, idx := PlaceCard(RefsOf(cards), position, draw), InsertIndex(RefsOf(cards), position);
    PushTaken(blake, store, cards, position, draw, now, card);
    PlacedIsBoard(blake, cards, position, draw, now, card);
    ReceivedIs(blake, Shifts(placement), cards, now, card, idx);
    NothingDeleted(CardsById(cards), Pushed(blake, placement, cards, now, card));
    ListIsDetermined(r, PlacedCards(blake, Shifts(placement), cards, now, card, idx));
  }

  lemma NothingDeleted(local: map<Uuid, Card>, changes: ChangeSet)
    requires changes.deleted == []
    ensures Merged(local, CardDelta(changes)) == local + CardsById(changes.cards)
  {
    assert Elements([]) == {};
    assert local - {} == local;
  }

  /** The server, and then the receiving client: both move to the placed list, or neither to anything. */
  method ReceivePlacement(server: SqliteStorage, cards: seq<Card>, position: InsertPosition, draw: nat, now: I64,
                          card: Card)
    returns (taken: bool, r: seq<Card>)
    requires Placing(server.blake, cards, position, draw, card) && InStep(server.store, cards, card)
    modifies server
    ensures taken <==> PushIsClear(RefsOf(cards), position)
    ensures !taken ==> r == cards && server.store == old(server.store)
    ensures var placement, idx := PlaceCard(RefsOf(cards), position, draw), InsertIndex(RefsOf(cards), position);
            taken ==> RefsOf(r) == Apply(RefsOf(cards), placement, card.body.id, idx) && ValidBoard(RefsOf(r))
    ensures taken ==> server.store == old(server.store).(cards := CardsById(r))
  {
    var pushed := Pushed(server.blake, PlaceCard(RefsOf(cards), position, draw), cards, now, card);
    PushTaken(server.blake, server.store, cards, position, draw, now, card);
    ghost var before := server.store;
    var refusal := server.PushBatch(ItemsOf(pushed.cards));
    taken, r := refusal == None, cards;
    if taken {
      r := ApplyCardChangeset(cards, pushed);
      PushReproducesPlacement(server.blake, before, cards, position, draw, now, card, r);
    }
  }
}
