/** The card link graph: links read from card text, and the breadth-first expansion over both directions. */
module LinkGraph {
  import opened Ids
  import opened Walks

  /**
    Card text with the answers of the two searches the client runs on it: `refs`, the ids the UUID pattern
    matches in order, and `lowered`, the ids whose lower-case form occurs in the text.
   */
  datatype Content = Content(text: string, refs: seq<Uuid>, lowered: set<Uuid>)

  datatype LinkCard = LinkCard(id: Uuid, content: Content, count: nat)

  /** No later card has the id of card `i`. */
  ghost predicate UniqueFrom(cards: seq<LinkCard>, i: nat) {
    forall j :: i < j < |cards| ==> cards[j].id != cards[i].id
  }

  ghost predicate UniqueCards(cards: seq<LinkCard>) {
    forall i: nat {:trigger UniqueFrom(cards, i)} :: i < |cards| ==> UniqueFrom(cards, i)
  }

  function CardIds(cards: seq<LinkCard>): set<Uuid> { set i | 0 <= i < |cards| :: cards[i].id }

  // ---------------------------------------------------------------- links of one card

  /** The referenced ids, first mention first, without repeats and without the card's own. */
  function Links(refs: seq<Uuid>, own: Uuid): (links: seq<Uuid>)
    ensures forall x :: x in links <==> x in refs && x != own
    ensures Distinct(links)
  {
    if refs == [] then []
    else
      var n := |refs| - 1;
      var links := Links(refs[..n], own);
      assert refs == refs[..n] + [refs[n]];
      if refs[n] != own && refs[n] !in links then links + [refs[n]] else links
  }

  /** `x` is first mentioned before `y` is. */
  ghost predicate MentionedBefore(refs: seq<Uuid>, x: Uuid, y: Uuid) {
    exists k :: 0 <= k < |refs| && refs[k] == x && y !in refs[..k + 1]
  }

  /** The ids stand in the order in which the list first mentions them. */
  ghost predicate InMentionOrder(ids: seq<Uuid>, refs: seq<Uuid>) {
    forall p, q :: 0 <= p < q < |ids| ==> MentionedBefore(refs, ids[p], ids[q])
  }

  lemma MentionStays(refs: seq<Uuid>, last: Uuid, x: Uuid, y: Uuid)
    requires MentionedBefore(refs, x, y)
    ensures MentionedBefore(refs + [last], x, y)
  {
    var k :| 0 <= k < |refs| && refs[k] == x && y !in refs[..k + 1];
    assert (refs + [last])[..k + 1] == refs[..k + 1] && (refs + [last])[k] == x;
  }

  lemma NewMention(refs: seq<Uuid>, x: Uuid, y: Uuid)
    requires x in refs && y !in refs
    ensures MentionedBefore(refs + [y], x, y)
  {
    var k :| 0 <= k < |refs| && refs[k] == x;
    assert (refs + [y])[..k + 1] == refs[..k + 1] && (refs + [y])[k] == x;
    assert forall z :: z in refs[..k + 1] ==> z in refs;
  }

  /** One more mention, which may or may not add its id. */
  lemma OrderStep(ids: seq<Uuid>, refs: seq<Uuid>, x: Uuid, adds: bool)
    requires InMentionOrder(ids, refs) && forall y :: y in ids ==> y in refs
    requires adds ==> x !in refs
    ensures InMentionOrder(if adds then ids + [x] else ids, refs + [x])
  {
    var all := if adds then ids + [x] else ids;
    forall p, q | 0 <= p < q < |all| ensures MentionedBefore(refs + [x], all[p], all[q]) {
      assert ids[p] in ids;
      if q < |ids| { MentionStays(refs, x, ids[p], ids[q]); } else { NewMention(refs, ids[p], x); }
    }
  }

  /** Links are in the order of first mention. */
  lemma {:induction false} LinksInOrder(refs: seq<Uuid>, own: Uuid)
    ensures InMentionOrder(Links(refs, own), refs)
  {
    if refs != [] {
      var n := |refs| - 1;
      var links := Links(refs[..n], own);
      LinksInOrder(refs[..n], own);
      assert refs == refs[..n] + [refs[n]];
      OrderStep(links, refs[..n], refs[n], refs[n] != own && refs[n] !in links);
    }
  }

  method ExtractCardLinks(content: Content, own: Uuid) returns (links: seq<Uuid>)
    ensures links == Links(content.refs, own)
  {
    links := [];
    var seen: set<Uuid> := {};
    for i := 0 to |content.refs|
      invariant links == Links(content.refs[..i], own)
      invariant seen == Elements(links)
    {
      assert content.refs[..i + 1][..i] == content.refs[..i];
      var x := content.refs[i];
      if x != own && x !in seen {
        ElementsAppend(links, [x]);
        seen := seen + {x};
        links := links + [x];
      }
    }
    assert content.refs[..|content.refs|] == content.refs;
  }

  function Forward(card: LinkCard): seq<Uuid> { Links(card.content.refs, card.id) }

  /** Whether `card` is reported as linking to `node`: the text search first, the pattern search second. */
  predicate LinksBack(card: LinkCard, node: Uuid): (r: bool)
    ensures r <==> card.id != node && node in card.content.lowered && node in card.content.refs
  {
    card.id != node && node in card.content.lowered && node in Forward(card)
  }

  function BackLinks(node: Uuid, cards: seq<LinkCard>): seq<Uuid> {
    if cards == [] then []
    else (if LinksBack(cards[0], node) then [cards[0].id] else []) + BackLinks(node, cards[1..])
  }

  /** Some card with id `y` is reported as linking back to `x`. */
  ghost predicate IsLinkedFrom(cards: seq<LinkCard>, x: Uuid, y: Uuid) {
    exists i :: 0 <= i < |cards| && cards[i].id == y && LinksBack(cards[i], x)
  }

  lemma {:induction false} BackLinksAre(node: Uuid, cards: seq<LinkCard>, y: Uuid)
    ensures y in BackLinks(node, cards) <==> IsLinkedFrom(cards, node, y)
  {
    if cards != [] {
      var rest := cards[1..];
      BackLinksAre(node, rest, y);
      if IsLinkedFrom(rest, node, y) {
        var i :| 0 <= i < |rest| && rest[i].id == y && LinksBack(rest[i], node);
        assert cards[i + 1] == rest[i];
      }
      if IsLinkedFrom(cards, node, y) {
        var i :| 0 <= i < |cards| && cards[i].id == y && LinksBack(cards[i], node);
        if i > 0 { assert rest[i - 1] == cards[i]; }
      }
    }
  }

  /** The cards at these places link back to the node, in list order, and no other does. */
  ghost predicate LinkBackFrom(places: seq<nat>, node: Uuid, cards: seq<LinkCard>) {
    && (forall p :: 0 <= p < |places| ==> places[p] < |cards| && LinksBack(cards[places[p]], node))
    && (forall p, q :: 0 <= p < q < |places| ==> places[p] < places[q])
    && (forall i :: 0 <= i < |cards| && LinksBack(cards[i], node) ==> i in places)
  }

  ghost function IdsAt(places: seq<nat>, cards: seq<LinkCard>): seq<Uuid>
    requires forall p :: 0 <= p < |places| ==> places[p] < |cards|
  {
    seq(|places|, p requires 0 <= p < |places| => cards[places[p]].id)
  }

  ghost function Later(places: seq<nat>): (r: seq<nat>)
    ensures |r| == |places| && forall p :: 0 <= p < |r| ==> r[p] == places[p] + 1
  {
    seq(|places|, p requires 0 <= p < |places| => places[p] + 1)
  }

  lemma LaterHolds(rest: seq<nat>, i: nat)
    requires i in rest
    ensures i + 1 in Later(rest)
  {
    var p :| 0 <= p < |rest| && rest[p] == i;
    assert Later(rest)[p] == i + 1;
  }

  lemma LinkBackCons(rest: seq<nat>, node: Uuid, cards: seq<LinkCard>)
    requires cards != [] && LinkBackFrom(rest, node, cards[1..])
    ensures LinkBackFrom((if LinksBack(cards[0], node) then [0] else []) + Later(rest), node, cards)
  {
    var places := (if LinksBack(cards[0], node) then [0] else []) + Later(rest);
    forall i | 0 <= i < |cards| && LinksBack(cards[i], node) ensures i in places {
      if i == 0 {
        assert places[0] == 0;
      } else {
        assert cards[1..][i - 1] == cards[i];
        LaterHolds(rest, i - 1);
      }
    }
  }

  lemma IdsAtLater(rest: seq<nat>, cards: seq<LinkCard>, first: bool)
    requires cards != [] && forall p :: 0 <= p < |rest| ==> rest[p] < |cards| - 1
    ensures var places := (if first then [0] else []) + Later(rest);
            && (forall p :: 0 <= p < |places| ==> places[p] < |cards|)
            && IdsAt(places, cards) == (if first then [cards[0].id] else []) + IdsAt(rest, cards[1..])
  {
    forall p | 0 <= p < |rest| ensures cards[1..][rest[p]] == cards[Later(rest)[p]] {}
  }

  /** Back links come in list order. */
  lemma {:induction false} BackLinksInOrder(node: Uuid, cards: seq<LinkCard>) returns (places: seq<nat>)
    ensures LinkBackFrom(places, node, cards) && BackLinks(node, cards) == IdsAt(places, cards)
  {
    if cards == [] {
      places := [];
    } else {
      var rest := BackLinksInOrder(node, cards[1..]);
      LinkBackCons(rest, node, cards);
      IdsAtLater(rest, cards, LinksBack(cards[0], node));
      places := (if LinksBack(cards[0], node) then [0] else []) + Later(rest);
    }
  }

  /** Cards by id; a later card replaces an earlier one with the same id. */
  function CardMap(cards: seq<LinkCard>): (m: map<Uuid, LinkCard>)
    ensures m.Keys == CardIds(cards)
    ensures forall x :: x in m ==> m[x] in cards && m[x].id == x
  {
    if cards == [] then map[]
    else
      var n := |cards| - 1;
      var m := CardMap(cards[..n])[cards[n].id := cards[n]];
      assert m.Keys == CardIds(cards) by {
        assert forall i :: 0 <= i < n ==> cards[..n][i] == cards[i];
      }
      m
  }

  lemma CardMapFinds(cards: seq<LinkCard>, i: nat)
    requires UniqueCards(cards) && i < |cards|
    ensures cards[i].id in CardMap(cards) && CardMap(cards)[cards[i].id] == cards[i]
  {
    var c := CardMap(cards)[cards[i].id];
    var k: nat :| k < |cards| && cards[k] == c;
    assert UniqueFrom(cards, i) && UniqueFrom(cards, k);
  }

  /** What `enqueue_neighbors` looks at: the node's own links, then the cards linking back. */
  function Neighbours(cards: seq<LinkCard>, node: Uuid): seq<Uuid> {
    (if node in CardMap(cards) then Links(CardMap(cards)[node].content.refs, node) else [])
    + BackLinks(node, cards)
  }

  // ---------------------------------------------------------------- the graph

  ghost function Mentioned(cards: seq<LinkCard>): set<Uuid> {
    CardIds(cards) + (set i, x | 0 <= i < |cards| && x in cards[i].content.refs :: x)
  }

  ghost function GraphOf(cards: seq<LinkCard>): Graph {
    map x | x in Mentioned(cards) :: Neighbours(cards, x)
  }

  lemma BackLinksAreMentioned(cards: seq<LinkCard>, x: Uuid)
    ensures BackLinks(x, cards) != [] ==> x in Mentioned(cards)
  {
    if BackLinks(x, cards) != [] {
      var y := BackLinks(x, cards)[0];
      BackLinksAre(x, cards, y);
      var i :| 0 <= i < |cards| && cards[i].id == y && LinksBack(cards[i], x);
      assert x in cards[i].content.refs;
    }
  }

  lemma SuccIsNeighbours(cards: seq<LinkCard>, x: Uuid)
    ensures Succ(GraphOf(cards), x) == Neighbours(cards, x)
  {
    BackLinksAreMentioned(cards, x);
  }

  /** Everything linked to `x`, in either direction and through any number of steps, `x` included. */
  ghost function Component(cards: seq<LinkCard>, x: Uuid): set<Uuid> {
    Closure(GraphOf(cards), {x})
  }

  /** Some card with id `x` references `y`. */
  ghost predicate LinksTo(cards: seq<LinkCard>, x: Uuid, y: Uuid) {
    exists i :: 0 <= i < |cards| && cards[i].id == x && y in Forward(cards[i])
  }

  lemma NeighbourCases(cards: seq<LinkCard>, x: Uuid, y: Uuid)
    requires UniqueCards(cards)
    ensures y in Neighbours(cards, x) <==> LinksTo(cards, x, y) || IsLinkedFrom(cards, x, y)
  {
    BackLinksAre(x, cards, y);
    if LinksTo(cards, x, y) {
      var i :| 0 <= i < |cards| && cards[i].id == x && y in Forward(cards[i]);
      CardMapFinds(cards, i);
    }
    if x in CardMap(cards) && y in Forward(CardMap(cards)[x]) {
      var i :| 0 <= i < |cards| && cards[i] == CardMap(cards)[x];
      assert LinksTo(cards, x, y);
    }
  }

  // ---------------------------------------------------------------- when links are symmetric

  ghost predicate SymmetricLinks(cards: seq<LinkCard>) {
    forall x, y :: y in Neighbours(cards, x) ==> x in Neighbours(cards, y)
  }

  /** Every reference is written in lower case, or is returned by the card it names. */
  ghost predicate ReferencesAreFound(cards: seq<LinkCard>) {
    forall i, y :: 0 <= i < |cards| && y in Forward(cards[i]) ==>
      y in cards[i].content.lowered || LinksTo(cards, y, cards[i].id)
  }

  lemma FoundIsReturned(cards: seq<LinkCard>, i: nat, y: Uuid)
    requires UniqueCards(cards) && i < |cards| && y in Forward(cards[i])
    ensures cards[i].id in Neighbours(cards, y) <==>
            y in cards[i].content.lowered || LinksTo(cards, y, cards[i].id)
  {
    NeighbourCases(cards, y, cards[i].id);
    if y in cards[i].content.lowered {
      assert LinksBack(cards[i], y);
      assert IsLinkedFrom(cards, y, cards[i].id);
    }
    if IsLinkedFrom(cards, y, cards[i].id) {
      var k :| 0 <= k < |cards| && cards[k].id == cards[i].id && LinksBack(cards[k], y);
      CardMapFinds(cards, i);
      CardMapFinds(cards, k);
    }
  }

  lemma LinkedIsNeighbour(cards: seq<LinkCard>, x: Uuid, y: Uuid)
    requires UniqueCards(cards) && LinksTo(cards, x, y)
    ensures y in Neighbours(cards, x)
  {
    NeighbourCases(cards, x, y);
  }

  /** The pre-filter on the lower-case form is exactly what can break symmetry. */
  lemma SymmetryExact(cards: seq<LinkCard>)
    requires UniqueCards(cards)
    ensures SymmetricLinks(cards) <==> ReferencesAreFound(cards)
  {
    if SymmetricLinks(cards) {
      forall i, y | 0 <= i < |cards| && y in Forward(cards[i])
        ensures y in cards[i].content.lowered || LinksTo(cards, y, cards[i].id)
      {
        LinkedIsNeighbour(cards, cards[i].id, y);
        FoundIsReturned(cards, i, y);
      }
    }
    if ReferencesAreFound(cards) {
      forall x, y | y in Neighbours(cards, x) ensures x in Neighbours(cards, y) {
        NeighbourCases(cards, x, y);
        if LinksTo(cards, x, y) {
          var i :| 0 <= i < |cards| && cards[i].id == x && y in Forward(cards[i]);
          FoundIsReturned(cards, i, y);
        } else {
          assert LinksTo(cards, y, x);
          LinkedIsNeighbour(cards, y, x);
        }
      }
    }
  }

  /** A card that names another in upper case, where the id has a hexadecimal letter. */
  function UpperCaseSample(): seq<LinkCard> {
    [LinkCard(1, Content("00000000-0000-0000-0000-00000000000A", [10], {}), 1), LinkCard(10, Content("", [], {}), 1)]
  }

  lemma SampleLinksForward()
    ensures LinksTo(UpperCaseSample(), 1, 10)
  {
    var cards := UpperCaseSample();
    assert cards[0].content.refs == [10];
    assert 10 in Forward(cards[0]);
  }

  lemma SampleLinksNothingBack()
    ensures !LinksTo(UpperCaseSample(), 10, 1) && !IsLinkedFrom(UpperCaseSample(), 10, 1)
  {
    var cards := UpperCaseSample();
    assert cards[1].content.refs == [];
    assert !LinksBack(cards[0], 10);
  }

  /** Such a reference is followed forward and never back. */
  lemma UpperCaseIsOneWay()
    ensures var cards := UpperCaseSample();
            10 in Neighbours(cards, 1) && 1 !in Neighbours(cards, 10)
  {
    var cards := UpperCaseSample();
    SampleLinksForward();
    SampleLinksNothingBack();
    assert cards[0].id == 1 && cards[1].id == 10;
    NeighbourCases(cards, 1, 10);
    NeighbourCases(cards, 10, 1);
  }

  // ---------------------------------------------------------------- components

  lemma ReachesBack(cards: seq<LinkCard>, w: seq<Uuid>, x: Uuid, y: Uuid)
    requires SymmetricLinks(cards) && WalkFromTo(GraphOf(cards), w, x, y)
    ensures Reaches(GraphOf(cards), y, x)
    decreases |w|
  {
    var g := GraphOf(cards);
    if |w| == 1 {
      ReachesSelf(g, x);
    } else {
      assert w[0 + 1] in Succ(g, w[0]);
      SuccIsNeighbours(cards, w[0]);
      SuccIsNeighbours(cards, w[1]);
      assert IsWalk(g, w[1..]) by {
        forall i | 0 <= i < |w| - 2 ensures w[1..][i + 1] in Succ(g, w[1..][i]) {
          assert w[(i + 1) + 1] in Succ(g, w[i + 1]);
        }
      }
      ReachesBack(cards, w[1..], w[1], y);
      ReachesStep(g, y, w[1], x);
    }
  }

  lemma InComponent(cards: seq<LinkCard>, x: Uuid, y: Uuid)
    ensures y in Component(cards, x) <==> Reaches(GraphOf(cards), x, y)
  {
    ClosureIsReachable(GraphOf(cards), {x});
    if Reaches(GraphOf(cards), x, y) { assert Reachable(GraphOf(cards), {x}, y); }
  }

  /** Every member of a component has the same component. */
  lemma ComponentIsShared(cards: seq<LinkCard>, x: Uuid, y: Uuid)
    requires SymmetricLinks(cards) && y in Component(cards, x)
    ensures Component(cards, y) == Component(cards, x)
  {
    var g := GraphOf(cards);
    InComponent(cards, x, y);
    var w :| WalkFromTo(g, w, x, y);
    ReachesBack(cards, w, x, y);
    forall z ensures z in Component(cards, y) <==> z in Component(cards, x) {
      InComponent(cards, x, z);
      InComponent(cards, y, z);
      if Reaches(g, y, z) { ReachesTrans(g, x, y, z); }
      if Reaches(g, x, z) { ReachesTrans(g, y, x, z); }
    }
  }

  ghost predicate ClosedUnderLinks(cards: seq<LinkCard>, s: set<Uuid>) {
    forall y, z :: y in s && z in Neighbours(cards, y) ==> z in s
  }

  /** A component holds its origin and every neighbour of a member. */
  lemma ComponentIsClosed(cards: seq<LinkCard>, x: Uuid)
    ensures x in Component(cards, x) && ClosedUnderLinks(cards, Component(cards, x))
  {
    ClosureIsClosed(GraphOf(cards), {x});
    forall y, z | y in Component(cards, x) && z in Neighbours(cards, y) ensures z in Component(cards, x) {
      SuccIsNeighbours(cards, y);
    }
  }

  lemma ClosedInGraph(cards: seq<LinkCard>, s: set<Uuid>)
    requires ClosedUnderLinks(cards, s)
    ensures Closed(GraphOf(cards), s)
  {
    forall y, z | y in s && z in Succ(GraphOf(cards), y) ensures z in s {
      SuccIsNeighbours(cards, y);
    }
  }

  /** Nothing smaller than the component holds the origin and is closed. */
  lemma ComponentIsLeast(cards: seq<LinkCard>, x: Uuid, s: set<Uuid>)
    requires x in s && ClosedUnderLinks(cards, s)
    ensures Component(cards, x) <= s
  {
    ClosedInGraph(cards, s);
    ClosureWithin(GraphOf(cards), {x}, s);
  }
}
