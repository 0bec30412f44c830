/** The card versions that carry out a placement's shifts (clients/lib/src/priority.rs). */
module ShiftedVersions {
  import opened Ids
  import opened Integers
  import opened Canonical
  import opened Chains
  import opened Sync
  import opened Priority
  import opened PlacementProofs

  function RefOf(card: Card): CardRef { CardRef(card.body.id, card.body.priority) }

  function RefsOf(cards: seq<Card>): (r: seq<CardRef>)
    ensures |r| == |cards|
  {
    seq(|cards|, i requires 0 <= i < |cards| => RefOf(cards[i]))
  }

  function FindCard(cards: seq<Card>, id: Uuid): Option<Card> {
    if cards == [] then None
    else if cards[0].body.id == id then Some(cards[0])
    else FindCard(cards[1..], id)
  }

  /** Cards whose version count leaves room for one more; the source stops with a panic at the last count. */
  ghost predicate CanGrow(cards: seq<Card>) {
    forall c :: c in cards ==> c.body.count < I64_MAX
  }

  /** The next version of a card, with only its priority changed. */
  function ShiftVersion(blake: Blake, c: Card, p: I64, now: I64): (r: Card)
    requires c.body.count < I64_MAX
    ensures r.body.id == c.body.id && r.body.priority == p
  {
    NextCard(blake, c, CardEdit(c.body.content, p, c.body.tags, c.body.blazed, now, c.body.dueDate))
  }

  /** A shifted version is the next one of its card and changes nothing a user sees but the priority. */
  lemma ShiftKeepsRest(blake: Blake, c: Card, p: I64, now: I64)
    requires c.body.count < I64_MAX
    ensures var v := ShiftVersion(blake, c, p, now).body;
            && v.id == c.body.id && v.priority == p && v.modifiedAt == now
            && v.content == c.body.content && v.blazed == c.body.blazed && v.dueDate == c.body.dueDate
            && multiset(v.tags) == multiset(c.body.tags) && v.createdAt == c.body.createdAt
            && v.count == c.body.count + 1 && v.ancestor == c.hash
  {
  }

  lemma {:induction false} FoundIsIn(cards: seq<Card>, id: Uuid)
    ensures FindCard(cards, id).Some? ==> FindCard(cards, id).value in cards && FindCard(cards, id).value.body.id == id
    ensures FindCard(cards, id) == None ==> forall c :: c in cards ==> c.body.id != id
  {
    if cards != [] {
      assert cards == [cards[0]] + cards[1..];
      FoundIsIn(cards[1..], id);
    }
  }

  /** New versions for the shifted cards that are in the list; unknown ids are dropped. */
  function BuildShiftedVersions(blake: Blake, shifted: seq<(Uuid, I64)>, cards: seq<Card>, now: I64): seq<Card>
    requires CanGrow(cards)
  {
    if shifted == [] then []
    else
      FoundIsIn(cards, shifted[0].0);
      var rest := BuildShiftedVersions(blake, shifted[1..], cards, now);
      match FindCard(cards, shifted[0].0)
      case Some(c) => [ShiftVersion(blake, c, shifted[0].1, now)] + rest
      case None => rest
  }

  // ---------------------------------------------------------------- shifts name cards of the list, once each

  ghost predicate HasShift(shifted: seq<(Uuid, I64)>, id: Uuid) {
    exists j :: 0 <= j < |shifted| && shifted[j].0 == id
  }

  ghost predicate ShiftsOnce(shifted: seq<(Uuid, I64)>) {
    forall i, j :: 0 <= i < j < |shifted| ==> shifted[i].0 != shifted[j].0
  }

  ghost predicate Names(refs: seq<CardRef>, from: nat, id: Uuid) {
    exists i :: from <= i < |refs| && refs[i].id == id
  }

  /** Every shift is for a card of the list from `from` on. */
  ghost predicate ShiftsAmong(shifted: seq<(Uuid, I64)>, refs: seq<CardRef>, from: nat) {
    forall j :: 0 <= j < |shifted| ==> Names(refs, from, shifted[j].0)
  }

  lemma {:induction false} ShiftsFromOnce(refs: seq<CardRef>, w: Window, idx: nat, i: nat)
    requires UniqueIds(refs) && w.left <= i <= w.right + 1 <= |refs|
    ensures ShiftsOnce(ShiftsFrom(refs, w, idx, i)) && ShiftsAmong(ShiftsFrom(refs, w, idx, i), refs, i)
    decreases w.right + 1 - i
  {
    if i <= w.right {
      ShiftsFromOnce(refs, w, idx, i + 1);
      var rest := ShiftsFrom(refs, w, idx, i + 1);
      var all := ShiftsFrom(refs, w, idx, i);
      if MovedTo(w, idx, i) != refs[i].priority {
        assert all == [(refs[i].id, MovedTo(w, idx, i))] + rest;
        ShiftsCons(refs, (refs[i].id, MovedTo(w, idx, i)), rest, i);
      } else {
        assert all == rest;
      }
    }
  }

  lemma ShiftsCons(refs: seq<CardRef>, s: (Uuid, I64), rest: seq<(Uuid, I64)>, i: nat)
    requires UniqueIds(refs) && i < |refs| && refs[i].id == s.0
    requires ShiftsOnce(rest) && ShiftsAmong(rest, refs, i + 1)
    ensures ShiftsOnce([s] + rest) && ShiftsAmong([s] + rest, refs, i)
  {
    forall j | 0 <= j < |rest| ensures rest[j].0 != s.0 && Names(refs, i, rest[j].0) {
      assert Names(refs, i + 1, rest[j].0);
      var k :| i + 1 <= k < |refs| && refs[k].id == rest[j].0;
    }
    assert refs[i].id == s.0;
    assert Names(refs, i, s.0);
  }

  /** Every shift gives a card of the list from `from` on a priority it did not have. */
  ghost predicate ShiftsChange(shifted: seq<(Uuid, I64)>, refs: seq<CardRef>) {
    forall j :: 0 <= j < |shifted| ==> MovesACard(refs, shifted[j])
  }

  ghost predicate MovesACard(refs: seq<CardRef>, s: (Uuid, I64)) {
    exists i :: 0 <= i < |refs| && refs[i].id == s.0 && refs[i].priority != s.1
  }

  lemma {:induction false} ShiftsFromChange(refs: seq<CardRef>, w: Window, idx: nat, i: nat)
    requires w.left <= i <= w.right + 1 <= |refs|
    ensures ShiftsChange(ShiftsFrom(refs, w, idx, i), refs)
    decreases w.right + 1 - i
  {
    if i <= w.right {
      ShiftsFromChange(refs, w, idx, i + 1);
      if MovedTo(w, idx, i) != refs[i].priority {
        assert MovesACard(refs, (refs[i].id, MovedTo(w, idx, i)));
      }
    }
  }

  lemma PlacementShiftsOnce(refs: seq<CardRef>, position: InsertPosition, draw: nat)
    requires UniqueIds(refs)
    ensures ShiftsOnce(Shifts(PlaceCard(refs, position, draw)))
    ensures ShiftsAmong(Shifts(PlaceCard(refs, position, draw)), refs, 0)
    ensures ShiftsChange(Shifts(PlaceCard(refs, position, draw)), refs)
  {
    var idx := InsertIndex(refs, position);
    PlaceCardCases(refs, position, draw);
    if NeighbourGap(refs, idx) <= 1 {
      var w := PackedWindow(refs, idx);
      ShiftsFromOnce(refs, w, idx, w.left);
      ShiftsFromChange(refs, w, idx, w.left);
    }
  }

  // ---------------------------------------------------------------- the cards afterwards

  /** What the user wrote is as it was: text, tags, flag and due date. */
  ghost predicate SameButPriority(a: CardBody, b: CardBody) {
    && b.content == a.content && b.blazed == a.blazed && b.dueDate == a.dueDate
    && multiset(b.tags) == multiset(a.tags) && b.createdAt == a.createdAt
  }

  /** Card `i` of the list after the shifts. */
  ghost function Updated(blake: Blake, shifted: seq<(Uuid, I64)>, cards: seq<Card>, i: nat, now: I64): (r: Card)
    requires CanGrow(cards) && i < |cards|
    ensures r.body.id == cards[i].body.id
    ensures r.body.priority == ShiftOf(shifted, RefOf(cards[i]))
    ensures SameButPriority(cards[i].body, r.body)
  {
    if HasShift(shifted, cards[i].body.id)
    then ShiftVersion(blake, cards[i], ShiftOf(shifted, RefOf(cards[i])), now)
    else
      NoShiftStays(shifted, RefOf(cards[i]));
      cards[i]
  }

  lemma {:induction false} NoShiftStays(shifted: seq<(Uuid, I64)>, ref: CardRef)
    requires !HasShift(shifted, ref.id)
    ensures ShiftOf(shifted, ref) == ref.priority
  {
    if shifted != [] {
      assert forall j :: 0 <= j < |shifted[1..]| ==> shifted[1..][j] == shifted[j + 1];
      NoShiftStays(shifted[1..], ref);
    }
  }

  lemma HasShiftCons(s: (Uuid, I64), rest: seq<(Uuid, I64)>, id: Uuid)
    ensures HasShift([s] + rest, id) <==> s.0 == id || HasShift(rest, id)
  {
    var all := [s] + rest;
    if s.0 == id { assert all[0].0 == id; }
    if HasShift(rest, id) {
      var j :| 0 <= j < |rest| && rest[j].0 == id;
      assert all[j + 1].0 == id;
    }
    if HasShift(all, id) {
      var j :| 0 <= j < |all| && all[j].0 == id;
      assert j > 0 ==> rest[j - 1].0 == id;
    }
  }

  lemma {:induction false} FindsCard(cards: seq<Card>, i: nat)
    requires OneCardPerId(cards) && i < |cards|
    ensures FindCard(cards, cards[i].body.id) == Some(cards[i])
  {
    if i > 0 {
      assert CardEntries(cards)[0].key != CardEntries(cards)[i].key;
      assert CardEntries(cards[1..]) == CardEntries(cards)[1..];
      FindsCard(cards[1..], i - 1);
    }
  }

  /** A version made for one of the cards. */
  ghost predicate IsVersion(blake: Blake, shifted: seq<(Uuid, I64)>, cards: seq<Card>, now: I64, v: Card, i: nat)
    requires CanGrow(cards)
  {
    i < |cards| && HasShift(shifted, cards[i].body.id) && v == Updated(blake, shifted, cards, i, now)
  }

  ghost predicate SomeVersion(blake: Blake, shifted: seq<(Uuid, I64)>, cards: seq<Card>, now: I64, v: Card)
    requires CanGrow(cards)
  {
    exists i: nat :: IsVersion(blake, shifted, cards, now, v, i)
  }

  /** The version made for the head of a list of shifts, or for one of the others. */
  lemma VersionCons(blake: Blake, s: (Uuid, I64), rest: seq<(Uuid, I64)>, cards: seq<Card>, now: I64, v: Card, i: nat)
    requires CanGrow(cards) && ShiftsOnce([s] + rest) && i < |cards|
    ensures IsVersion(blake, [s] + rest, cards, now, v, i) <==>
            if s.0 == cards[i].body.id then v == ShiftVersion(blake, cards[i], s.1, now)
            else IsVersion(blake, rest, cards, now, v, i)
  {
    HasShiftCons(s, rest, cards[i].body.id);
    assert ([s] + rest)[1..] == rest;
  }

  /** The versions built are those of the cards that have a shift, each with the priority it shifts to. */
  lemma {:induction false} BuiltVersions(blake: Blake, shifted: seq<(Uuid, I64)>, cards: seq<Card>, now: I64, v: Card)
    requires CanGrow(cards) && OneCardPerId(cards) && ShiftsOnce(shifted)
    ensures v in BuildShiftedVersions(blake, shifted, cards, now) <==>
            SomeVersion(blake, shifted, cards, now, v)
  {
    if shifted != [] {
      var s, rest := shifted[0], shifted[1..];
      assert shifted == [s] + rest;
      BuiltVersions(blake, rest, cards, now, v);
      FoundIsIn(cards, s.0);
      if v in BuildShiftedVersions(blake, shifted, cards, now) {
        BuiltIsVersion(blake, s, rest, cards, now, v);
      }
      if SomeVersion(blake, shifted, cards, now, v) {
        var i: nat :| IsVersion(blake, shifted, cards, now, v, i);
        VersionCons(blake, s, rest, cards, now, v, i);
        FindsCard(cards, i);
      }
    }
  }

  lemma OtherVersion(blake: Blake, s: (Uuid, I64), rest: seq<(Uuid, I64)>, cards: seq<Card>, now: I64, v: Card, i: nat)
    requires CanGrow(cards) && ShiftsOnce([s] + rest) && IsVersion(blake, rest, cards, now, v, i)
    ensures IsVersion(blake, [s] + rest, cards, now, v, i)
  {
    var j :| 0 <= j < |rest| && rest[j].0 == cards[i].body.id;
    assert ([s] + rest)[0].0 != ([s] + rest)[j + 1].0;
    VersionCons(blake, s, rest, cards, now, v, i);
  }

  lemma BuiltIsVersion(blake: Blake, s: (Uuid, I64), rest: seq<(Uuid, I64)>, cards: seq<Card>, now: I64, v: Card)
    requires CanGrow(cards) && OneCardPerId(cards) && ShiftsOnce([s] + rest)
    requires v in BuildShiftedVersions(blake, [s] + rest, cards, now)
    requires v in BuildShiftedVersions(blake, rest, cards, now) <==>
             SomeVersion(blake, rest, cards, now, v)
    ensures SomeVersion(blake, [s] + rest, cards, now, v)
  {
    assert ([s] + rest)[1..] == rest;
    FoundIsIn(cards, s.0);
    if v in BuildShiftedVersions(blake, rest, cards, now) {
      var i: nat :| IsVersion(blake, rest, cards, now, v, i);
      OtherVersion(blake, s, rest, cards, now, v, i);
    } else {
      var c := FindCard(cards, s.0).value;
      var i: nat :| i < |cards| && cards[i] == c;
      VersionCons(blake, s, rest, cards, now, v, i);
    }
  }
}
