/** Forward, back, mutual and transitive link counts. */
module LinkCounting {
  import opened Ids
  import opened LinkGraph
  import opened Expansion

  datatype LinkCounts = LinkCounts(forward: nat, back: nat, mutual: nat, transitive: nat) {
    function Direct(): nat { forward + back + mutual }
  }

  type Counts = map<Uuid, LinkCounts>

  type Pair = (Uuid, Uuid)

  /** An entry, or the default when the card has none. */
  function Of(counts: Counts, x: Uuid): LinkCounts {
    if x in counts then counts[x] else LinkCounts(0, 0, 0, 0)
  }

  /** Links between cards the client holds: targets that name no card are dropped. */
  function Outgoing(cards: seq<LinkCard>): (out: map<Uuid, set<Uuid>>)
    ensures out.Keys == CardIds(cards)
  {
    var m := CardMap(cards);
    map x | x in m :: Elements(Links(m[x].content.refs, x)) * CardIds(cards)
  }

  ghost predicate WellFormed(out: map<Uuid, set<Uuid>>) {
    forall x :: x in out ==> x !in out[x] && out[x] <= out.Keys
  }

  lemma OutgoingIsWellFormed(cards: seq<LinkCard>)
    ensures WellFormed(Outgoing(cards))
  {
  }

  function Out(out: map<Uuid, set<Uuid>>, x: Uuid): set<Uuid> { if x in out then out[x] else {} }

  function In(out: map<Uuid, set<Uuid>>, x: Uuid): set<Uuid> { set y | y in out && x in out[y] }

  /** What the counts of a card are meant to be. */
  function Exact(out: map<Uuid, set<Uuid>>, x: Uuid): LinkCounts {
    LinkCounts(|Out(out, x) - In(out, x)|, |In(out, x) - Out(out, x)|, |Out(out, x) * In(out, x)|, 0)
  }

  // ---------------------------------------------------------------- what the counts are of

  /** The cards that card `x` links to. */
  ghost function Targets(cards: seq<LinkCard>, x: Uuid): set<Uuid> {
    set y | y in CardIds(cards) && LinksTo(cards, x, y)
  }

  /** The cards that link to card `x`. */
  ghost function Sources(cards: seq<LinkCard>, x: Uuid): set<Uuid> {
    set y | y in CardIds(cards) && x in CardIds(cards) && LinksTo(cards, y, x)
  }

  /** The direct counts: links out only, links in only, and links both ways. */
  ghost predicate CountsLinks(cards: seq<LinkCard>, x: Uuid, c: LinkCounts) {
    && c.forward == |Targets(cards, x) - Sources(cards, x)|
    && c.back == |Sources(cards, x) - Targets(cards, x)|
    && c.mutual == |Targets(cards, x) * Sources(cards, x)|
  }

  /** Exactly the links between cards that the client holds are counted. */
  lemma OutgoingIs(cards: seq<LinkCard>, x: Uuid, y: Uuid)
    requires UniqueCards(cards)
    ensures y in Out(Outgoing(cards), x) <==> y in CardIds(cards) && LinksTo(cards, x, y)
  {
    if LinksTo(cards, x, y) {
      var i :| 0 <= i < |cards| && cards[i].id == x && y in Forward(cards[i]);
      CardMapFinds(cards, i);
    }
    if x in CardMap(cards) && y in Forward(CardMap(cards)[x]) {
      var i :| 0 <= i < |cards| && cards[i] == CardMap(cards)[x];
      assert LinksTo(cards, x, y);
    }
  }

  lemma ExactCountsLinks(cards: seq<LinkCard>, x: Uuid)
    requires UniqueCards(cards)
    ensures CountsLinks(cards, x, Exact(Outgoing(cards), x))
  {
    var out := Outgoing(cards);
    forall y ensures y in Out(out, x) <==> y in Targets(cards, x) {
      OutgoingIs(cards, x, y);
    }
    assert Out(out, x) == Targets(cards, x);
    forall y ensures y in In(out, x) <==> y in Sources(cards, x) {
      OutgoingIs(cards, y, x);
    }
    assert In(out, x) == Sources(cards, x);
  }

  // ---------------------------------------------------------------- counting pairs

  predicate Mutual(out: map<Uuid, set<Uuid>>, p: Pair) { p.1 in out && p.0 in out[p.1] }

  function OneWay(out: map<Uuid, set<Uuid>>, ps: set<Pair>): set<Pair> { set p | p in ps && !Mutual(out, p) }

  function TwoWay(out: map<Uuid, set<Uuid>>, ps: set<Pair>): set<Pair> { set p | p in ps && Mutual(out, p) }

  datatype End = Source | Target {
    function Of(p: Pair): Uuid { if Source? then p.0 else p.1 }
  }

  /** The pairs whose given end is `x`. */
  function AtEnd(ps: set<Pair>, e: End, x: Uuid): set<Pair> { set p | p in ps && e.Of(p) == x }

  /** The counts once the pairs `ps` have been looked at. */
  function Tally(out: map<Uuid, set<Uuid>>, ps: set<Pair>, x: Uuid): LinkCounts {
    LinkCounts(|AtEnd(OneWay(out, ps), Source, x)|, |AtEnd(OneWay(out, ps), Target, x)|,
               |AtEnd(TwoWay(out, ps), Source, x)|, 0)
  }

  lemma AtEndAdds(ps: set<Pair>, p: Pair, e: End, x: Uuid)
    requires p !in ps
    ensures |AtEnd(ps + {p}, e, x)| == |AtEnd(ps, e, x)| + if e.Of(p) == x then 1 else 0
  {
    assert AtEnd(ps + {p}, e, x) == AtEnd(ps, e, x) + if e.Of(p) == x then {p} else {};
  }

  lemma WaysAdd(out: map<Uuid, set<Uuid>>, ps: set<Pair>, p: Pair)
    ensures OneWay(out, ps + {p}) == OneWay(out, ps) + if Mutual(out, p) then {} else {p}
    ensures TwoWay(out, ps + {p}) == TwoWay(out, ps) + if Mutual(out, p) then {p} else {}
  {
  }

  lemma TallyAdds(out: map<Uuid, set<Uuid>>, ps: set<Pair>, p: Pair, x: Uuid)
    requires p !in ps
    ensures var t, t' := Tally(out, ps, x), Tally(out, ps + {p}, x);
            && t'.forward == t.forward + (if p.0 == x && !Mutual(out, p) then 1 else 0)
            && t'.back == t.back + (if p.1 == x && !Mutual(out, p) then 1 else 0)
            && t'.mutual == t.mutual + (if p.0 == x && Mutual(out, p) then 1 else 0)
  {
    WaysAdd(out, ps, p);
    assert OneWay(out, ps) + {} == OneWay(out, ps) && TwoWay(out, ps) + {} == TwoWay(out, ps);
    if Mutual(out, p) {
      AtEndAdds(TwoWay(out, ps), p, Source, x);
    } else {
      AtEndAdds(OneWay(out, ps), p, Source, x);
      AtEndAdds(OneWay(out, ps), p, Target, x);
    }
  }

  /** One step of the double loop. */
  function Count(out: map<Uuid, set<Uuid>>, counts: Counts, p: Pair): Counts {
    if Mutual(out, p) then
      counts[p.0 := Of(counts, p.0).(mutual := Of(counts, p.0).mutual + 1)]
    else
      var counts' := counts[p.0 := Of(counts, p.0).(forward := Of(counts, p.0).forward + 1)];
      counts'[p.1 := Of(counts', p.1).(back := Of(counts', p.1).back + 1)]
  }

  ghost predicate Tallied(out: map<Uuid, set<Uuid>>, counts: Counts, ps: set<Pair>) {
    forall x :: Of(counts, x) == Tally(out, ps, x)
  }

  lemma CountKeeps(out: map<Uuid, set<Uuid>>, counts: Counts, ps: set<Pair>, p: Pair)
    requires Tallied(out, counts, ps) && p !in ps && p.0 != p.1
    ensures Tallied(out, Count(out, counts, p), ps + {p})
  {
    forall x ensures Of(Count(out, counts, p), x) == Tally(out, ps + {p}, x) {
      TallyAdds(out, ps, p, x);
      assert Of(counts, x) == Tally(out, ps, x);
    }
  }

  function Pairs(out: map<Uuid, set<Uuid>>): set<Pair> {
    set x, y | x in out && y in out[x] :: (x, y)
  }

  function From(x: Uuid, ys: set<Uuid>): set<Pair> { set y | y in ys :: (x, y) }

  function To(xs: set<Uuid>, y: Uuid): set<Pair> { set x | x in xs :: (x, y) }

  lemma {:induction false} FromToSize(x: Uuid, ys: set<Uuid>)
    ensures |From(x, ys)| == |ys| == |To(ys, x)|
  {
    if ys != {} {
      var y :| y in ys;
      FromToSize(x, ys - {y});
      assert From(x, ys) == From(x, ys - {y}) + {(x, y)};
      assert To(ys, x) == To(ys - {y}, x) + {(y, x)};
    }
  }

  /** Once every pair has been looked at, the tally is the exact count. */
  lemma TallyIsExact(out: map<Uuid, set<Uuid>>, x: Uuid)
    ensures Tally(out, Pairs(out), x) == Exact(out, x)
  {
    var ps := Pairs(out);
    assert AtEnd(OneWay(out, ps), Source, x) == From(x, Out(out, x) - In(out, x));
    assert AtEnd(OneWay(out, ps), Target, x) == To(In(out, x) - Out(out, x), x);
    assert AtEnd(TwoWay(out, ps), Source, x) == From(x, Out(out, x) * In(out, x));
    FromToSize(x, Out(out, x) - In(out, x));
    FromToSize(x, In(out, x) - Out(out, x));
    FromToSize(x, Out(out, x) * In(out, x));
  }

  /** The inner loop, over one card's links in any order. */
  method CountLinks(out: map<Uuid, set<Uuid>>, own: Uuid, links: set<Uuid>, counts0: Counts, ghost ps: set<Pair>)
    returns (counts: Counts)
    requires Tallied(out, counts0, ps) && own !in links && ps !! From(own, links)
    ensures Tallied(out, counts, ps + From(own, links))
  {
    counts := counts0;
    var rest := links;
    assert ps + From(own, links - rest) == ps;
    while rest != {}
      invariant rest <= links
      invariant Tallied(out, counts, ps + From(own, links - rest))
      decreases rest
    {
      var target :| target in rest;
      ghost var seen := ps + From(own, links - rest);
      CountKeeps(out, counts, seen, (own, target));
      assert seen + {(own, target)} == ps + From(own, links - (rest - {target}));
      counts := Count(out, counts, (own, target));
      rest := rest - {target};
    }
    assert links - {} == links;
  }

  function PairsOf(out: map<Uuid, set<Uuid>>, owners: set<Uuid>): set<Pair> {
    set x, y | x in out && x in owners && y in out[x] :: (x, y)
  }

  /** The outer loop, over the cards in any order: the counts are exact whatever the iteration order. */
  method CountAll(out: map<Uuid, set<Uuid>>) returns (counts: Counts)
    requires WellFormed(out)
    ensures forall x :: Of(counts, x) == Exact(out, x)
  {
    counts := map[];
    var rest := out.Keys;
    assert PairsOf(out, {}) == {};
    while rest != {}
      invariant rest <= out.Keys
      invariant Tallied(out, counts, PairsOf(out, out.Keys - rest))
      decreases rest
    {
      var own :| own in rest;
      counts := CountLinks(out, own, out[own], counts, PairsOf(out, out.Keys - rest));
      assert PairsOf(out, out.Keys - rest) + From(own, out[own]) == PairsOf(out, out.Keys - (rest - {own}));
      rest := rest - {own};
    }
    assert PairsOf(out, out.Keys - {}) == Pairs(out);
    forall x ensures Of(counts, x) == Exact(out, x) {
      TallyIsExact(out, x);
    }
  }

  method CountOutgoing(cards: seq<LinkCard>) returns (counts: Counts)
    ensures forall x :: Of(counts, x) == Exact(Outgoing(cards), x)
  {
    OutgoingIsWellFormed(cards);
    counts := CountAll(Outgoing(cards));
  }

  /** `compute_all_link_counts`: per card the links out only, in only, and both ways, among the cards held. */
  method ComputeAllLinkCounts(cards: seq<LinkCard>) returns (counts: Counts)
    ensures forall x :: Of(counts, x) == Exact(Outgoing(cards), x)
    ensures UniqueCards(cards) ==> forall x :: CountsLinks(cards, x, Of(counts, x))
  {
    counts := CountOutgoing(cards);
    if UniqueCards(cards) {
      forall x ensures CountsLinks(cards, x, Of(counts, x)) {
        ExactCountsLinks(cards, x);
      }
    }
  }

  // ---------------------------------------------------------------- totals over all cards

  function TotalForward(out: map<Uuid, set<Uuid>>, ids: seq<Uuid>): nat {
    if ids == [] then 0 else Exact(out, ids[0]).forward + TotalForward(out, ids[1..])
  }

  function TotalBack(out: map<Uuid, set<Uuid>>, ids: seq<Uuid>): nat {
    if ids == [] then 0 else Exact(out, ids[0]).back + TotalBack(out, ids[1..])
  }

  function TotalMutual(out: map<Uuid, set<Uuid>>, ids: seq<Uuid>): nat {
    if ids == [] then 0 else Exact(out, ids[0]).mutual + TotalMutual(out, ids[1..])
  }

  function AtEnds(ps: set<Pair>, e: End, ids: seq<Uuid>): set<Pair> { set p | p in ps && e.Of(p) in ids }

  lemma AtEndsSplit(ps: set<Pair>, e: End, ids: seq<Uuid>)
    requires ids != [] && Distinct(ids)
    ensures |AtEnds(ps, e, ids)| == |AtEnd(ps, e, ids[0])| + |AtEnds(ps, e, ids[1..])|
  {
    assert ids == [ids[0]] + ids[1..];
    assert AtEnds(ps, e, ids) == AtEnd(ps, e, ids[0]) + AtEnds(ps, e, ids[1..]);
  }

  /** Each total counts the pairs whose owner (or target) is among the ids. */
  lemma {:induction false} TotalsArePairs(out: map<Uuid, set<Uuid>>, ids: seq<Uuid>)
    requires Distinct(ids)
    ensures TotalForward(out, ids) == |AtEnds(OneWay(out, Pairs(out)), Source, ids)|
    ensures TotalBack(out, ids) == |AtEnds(OneWay(out, Pairs(out)), Target, ids)|
    ensures TotalMutual(out, ids) == |AtEnds(TwoWay(out, Pairs(out)), Source, ids)|
  {
    if ids == [] {
      assert forall ps, e :: AtEnds(ps, e, []) == {};
    } else {
      TotalsArePairs(out, ids[1..]);
      TallyIsExact(out, ids[0]);
      AtEndsSplit(OneWay(out, Pairs(out)), Source, ids);
      AtEndsSplit(OneWay(out, Pairs(out)), Target, ids);
      AtEndsSplit(TwoWay(out, Pairs(out)), Source, ids);
    }
  }

  function Swapped(ps: set<Pair>): set<Pair> { set p | p in ps :: (p.1, p.0) }

  lemma {:induction false} SwappedSize(ps: set<Pair>)
    ensures |Swapped(ps)| == |ps|
  {
    if ps != {} {
      var p :| p in ps;
      SwappedSize(ps - {p});
      assert Swapped(ps) == Swapped(ps - {p}) + {(p.1, p.0)};
      assert (p.1, p.0) !in Swapped(ps - {p});
    }
  }

  function Upward(ps: set<Pair>): set<Pair> { set p | p in ps && p.0 < p.1 }

  function Downward(ps: set<Pair>): set<Pair> { set p | p in ps && p.0 > p.1 }

  lemma Halves(ps: set<Pair>)
    requires forall p :: p in ps ==> p.0 != p.1 && (p.1, p.0) in ps
    ensures Swapped(Upward(ps)) == Downward(ps)
    ensures |ps| == |Upward(ps)| + |Downward(ps)|
  {
    assert ps == Upward(ps) + Downward(ps);
    forall p | p in Downward(ps) ensures p in Swapped(Upward(ps)) {
      assert (p.1, p.0) in Upward(ps);
    }
  }

  lemma TwoWayIsEven(out: map<Uuid, set<Uuid>>)
    requires WellFormed(out)
    ensures |TwoWay(out, Pairs(out))| % 2 == 0
  {
    var all := TwoWay(out, Pairs(out));
    Halves(all);
    SwappedSize(Upward(all));
  }

  lemma AllAtEnds(out: map<Uuid, set<Uuid>>, ps: set<Pair>, e: End, ids: seq<Uuid>)
    requires WellFormed(out) && Elements(ids) == out.Keys && ps <= Pairs(out)
    ensures AtEnds(ps, e, ids) == ps
  {
    forall p | p in ps ensures e.Of(p) in ids {
      assert e.Of(p) in Elements(ids);
    }
  }

  /** Over all cards, forward links and back links balance and mutual links pair up. */
  lemma TotalsBalance(out: map<Uuid, set<Uuid>>, ids: seq<Uuid>)
    requires WellFormed(out) && Distinct(ids) && Elements(ids) == out.Keys
    ensures TotalForward(out, ids) == TotalBack(out, ids)
    ensures TotalMutual(out, ids) % 2 == 0
  {
    TotalsArePairs(out, ids);
    AllAtEnds(out, OneWay(out, Pairs(out)), Source, ids);
    AllAtEnds(out, OneWay(out, Pairs(out)), Target, ids);
    AllAtEnds(out, TwoWay(out, Pairs(out)), Source, ids);
    TwoWayIsEven(out);
  }

  // ---------------------------------------------------------------- the transitive count

  function SaturatingSub(a: nat, b: nat): (r: nat)
    ensures if a >= b then r + b == a else r == 0
  {
    if a >= b then a - b else 0
  }

  /** Direct counts with the transitive one filled in, given how many cards are reachable. */
  function WithTransitive(direct: LinkCounts, reachable: nat): LinkCounts {
    direct.(transitive := SaturatingSub(reachable, direct.Direct()))
  }

  ghost function ReachableCount(cards: seq<LinkCard>, x: Uuid): nat { |Component(cards, x) - {x}| }

  /** Each card's direct counts, with the transitive one filled in for the cards `done` so far. */
  ghost predicate Expanded(counts: Counts, direct: Uuid -> LinkCounts, reachable: Uuid -> nat, done: set<Uuid>) {
    forall x :: Of(counts, x) == FilledIn(direct(x), reachable(x), x in done)
  }

  lemma ExpansionSize(cards: seq<LinkCard>, id: Uuid, expanded: seq<Uuid>)
    requires IsExpansion(cards, id, expanded)
    ensures |expanded| == ReachableCount(cards, id)
  {
    DistinctSize(expanded);
  }

  function FilledIn(direct: LinkCounts, reachable: nat, done: bool): LinkCounts {
    if done then WithTransitive(direct, reachable) else direct
  }

  lemma FilledInAgain(direct: LinkCounts, reachable: nat, done: bool)
    ensures WithTransitive(FilledIn(direct, reachable, done), reachable) == FilledIn(direct, reachable, true)
  {
  }

  lemma NothingExpanded(counts: Counts, cards: seq<LinkCard>)
    requires forall x :: Of(counts, x) == Exact(Outgoing(cards), x)
    ensures Expanded(counts, ExactCounts(cards), ReachableCounts(cards), CardIds(cards[..0]))
  {
  }

  lemma ExpandOne(counts: Counts, direct: Uuid -> LinkCounts, reachable: Uuid -> nat, done: set<Uuid>,
                  id: Uuid, entry: LinkCounts)
    requires Expanded(counts, direct, reachable, done)
    requires entry == FilledIn(direct(id), reachable(id), true)
    ensures Expanded(counts[id := entry], direct, reachable, done + {id})
  {
  }

  ghost function ExactCounts(cards: seq<LinkCard>): Uuid -> LinkCounts {
    (x: Uuid) => Exact(Outgoing(cards), x)
  }

  ghost function ReachableCounts(cards: seq<LinkCard>): Uuid -> nat {
    (x: Uuid) => ReachableCount(cards, x)
  }

  /** One turn of the loop: expand one card and set its transitive count. */
  method ExpandCard(cards: seq<LinkCard>, counts: Counts, ghost done: set<Uuid>, id: Uuid) returns (counts': Counts)
    requires Expanded(counts, ExactCounts(cards), ReachableCounts(cards), done)
    ensures Expanded(counts', ExactCounts(cards), ReachableCounts(cards), done + {id})
  {
    var expanded, _ := ExpandLinkedCards(id, cards);
    ExpansionSize(cards, id, expanded);
    var entry := WithTransitive(Of(counts, id), |expanded|);
    NewEntry(counts, ExactCounts(cards), ReachableCounts(cards), done, id, |expanded|);
    counts' := counts[id := entry];
  }

  lemma NewEntry(counts: Counts, direct: Uuid -> LinkCounts, reachable: Uuid -> nat, done: set<Uuid>,
                 id: Uuid, size: nat)
    requires Expanded(counts, direct, reachable, done) && size == reachable(id)
    ensures Expanded(counts[id := WithTransitive(Of(counts, id), size)], direct, reachable, done + {id})
  {
    FilledInAgain(direct(id), reachable(id), id in done);
    ExpandOne(counts, direct, reachable, done, id, WithTransitive(Of(counts, id), size));
  }

  /** Per card the direct counts, and beyond them what expansion reaches less the back links it does not. */
  method ComputeAllLinkCountsRecursive(cards: seq<LinkCard>) returns (counts: Counts)
    ensures forall x :: Of(counts, x) ==
              if x in CardIds(cards)
              then Exact(Outgoing(cards), x).(transitive := SaturatingSub(|Beyond(cards, x)|, |Unreached(cards, x)|))
              else Exact(Outgoing(cards), x)
  {
    counts := CountOutgoing(cards);
    NothingExpanded(counts, cards);
    for i := 0 to |cards|
      invariant Expanded(counts, ExactCounts(cards), ReachableCounts(cards), CardIds(cards[..i]))
    {
      counts := ExpandCard(cards, counts, CardIds(cards[..i]), cards[i].id);
      CardIdsStep(cards, i);
    }
    assert cards[..|cards|] == cards;
    AllExpanded(cards, counts);
  }

  lemma AllExpanded(cards: seq<LinkCard>, counts: Counts)
    requires Expanded(counts, ExactCounts(cards), ReachableCounts(cards), CardIds(cards))
    ensures forall x :: Of(counts, x) ==
              if x in CardIds(cards)
              then Exact(Outgoing(cards), x).(transitive := SaturatingSub(|Beyond(cards, x)|, |Unreached(cards, x)|))
              else Exact(Outgoing(cards), x)
  {
    forall x | x in CardIds(cards)
      ensures FilledIn(Exact(Outgoing(cards), x), ReachableCount(cards, x), true).transitive ==
              SaturatingSub(|Beyond(cards, x)|, |Unreached(cards, x)|)
    {
      TransitiveIs(cards, x);
    }
  }

  lemma CardIdsStep(cards: seq<LinkCard>, i: nat)
    requires i < |cards|
    ensures CardIds(cards[..i + 1]) == CardIds(cards[..i]) + {cards[i].id}
  {
    assert cards[..i + 1] == cards[..i] + [cards[i]];
    assert forall k :: 0 <= k < i ==> cards[..i + 1][k] == cards[..i][k];
    assert cards[..i + 1][i] == cards[i];
  }

  // ---------------------------------------------------------------- what the transitive count counts

  /** What expansion reaches beyond the direct links. */
  ghost function Beyond(cards: seq<LinkCard>, x: Uuid): set<Uuid> {
    Component(cards, x) - {x} - Out(Outgoing(cards), x) - In(Outgoing(cards), x)
  }

  /** Cards that link here and that expansion does not reach. */
  ghost function Unreached(cards: seq<LinkCard>, x: Uuid): set<Uuid> {
    In(Outgoing(cards), x) - Component(cards, x)
  }

  lemma OutIsNeighbour(cards: seq<LinkCard>, x: Uuid, y: Uuid)
    requires y in Out(Outgoing(cards), x)
    ensures y in Neighbours(cards, x) && y != x
  {
    assert y in Links(CardMap(cards)[x].content.refs, x);
  }

  lemma NotInOwn(out: map<Uuid, set<Uuid>>, x: Uuid)
    requires WellFormed(out)
    ensures x !in In(out, x)
  {
  }

  lemma OutIsReached(cards: seq<LinkCard>, x: Uuid)
    requires x in CardIds(cards)
    ensures Out(Outgoing(cards), x) <= Component(cards, x) - {x}
    ensures x !in In(Outgoing(cards), x)
  {
    var reached := Component(cards, x);
    ComponentIsClosed(cards, x);
    forall y | y in Out(Outgoing(cards), x) ensures y in reached && y != x {
      OutIsNeighbour(cards, x, y);
    }
    OutgoingIsWellFormed(cards);
    NotInOwn(Outgoing(cards), x);
  }

  lemma SameUnion(c: set<Uuid>, o: set<Uuid>, i: set<Uuid>, x: Uuid)
    requires o <= c - {x} && x !in i
    ensures |c - {x}| + |i - c| == |o + i| + |c - {x} - o - i|
  {
    assert (c - {x}) + (i - c) == (o + i) + (c - {x} - o - i);
  }

  /** Reached cards and unreached back links together are the direct links and what lies beyond them. */
  lemma DirectBalance(cards: seq<LinkCard>, x: Uuid)
    requires x in CardIds(cards)
    ensures |Component(cards, x) - {x}| + |Unreached(cards, x)| ==
            Exact(Outgoing(cards), x).Direct() + |Beyond(cards, x)|
  {
    var o, i := Out(Outgoing(cards), x), In(Outgoing(cards), x);
    OutIsReached(cards, x);
    SameUnion(Component(cards, x), o, i, x);
    DirectSize(o, i);
  }

  /** The subtraction stays exact exactly when no more back links are unreached than there are ids beyond. */
  lemma SaturatesExactly(cards: seq<LinkCard>, x: Uuid)
    requires x in CardIds(cards)
    ensures Exact(Outgoing(cards), x).Direct() <= ReachableCount(cards, x) <==>
            |Unreached(cards, x)| <= |Beyond(cards, x)|
  {
    DirectBalance(cards, x);
  }

  /** What the transitive count is, with or without saturation. */
  lemma TransitiveIs(cards: seq<LinkCard>, x: Uuid)
    requires x in CardIds(cards)
    ensures FilledIn(Exact(Outgoing(cards), x), ReachableCount(cards, x), true).transitive ==
            SaturatingSub(|Beyond(cards, x)|, |Unreached(cards, x)|)
  {
    DirectBalance(cards, x);
  }

  /** With symmetric links no back link is unreached. */
  lemma NothingUnreached(cards: seq<LinkCard>, x: Uuid)
    requires UniqueCards(cards) && SymmetricLinks(cards) && x in CardIds(cards)
    ensures Unreached(cards, x) == {}
  {
    ComponentIsClosed(cards, x);
    forall y | y in In(Outgoing(cards), x) ensures y in Component(cards, x) {
      DirectIsNeighbour(cards, x, y);
    }
  }

  /** So with symmetric links the subtraction never saturates, and counts exactly what lies beyond the direct links. */
  lemma NeverSaturates(cards: seq<LinkCard>, x: Uuid)
    requires UniqueCards(cards) && SymmetricLinks(cards) && x in CardIds(cards)
    ensures Exact(Outgoing(cards), x).Direct() <= ReachableCount(cards, x)
    ensures FilledIn(Exact(Outgoing(cards), x), ReachableCount(cards, x), true).transitive == |Beyond(cards, x)|
  {
    NothingUnreached(cards, x);
    SaturatesExactly(cards, x);
    TransitiveIs(cards, x);
  }

  /** Every card of the component references cards only. */
  ghost predicate ReferencesCards(cards: seq<LinkCard>, x: Uuid) {
    forall y, z :: y in Component(cards, x) && y in CardMap(cards) && z in Links(CardMap(cards)[y].content.refs, y) ==>
      z in CardIds(cards)
  }

  lemma CardsOfComponent(cards: seq<LinkCard>, x: Uuid)
    requires x in CardIds(cards)
    ensures Component(cards, x) <= CardIds(cards) <==> ReferencesCards(cards, x)
  {
    ComponentIsClosed(cards, x);
    if Component(cards, x) <= CardIds(cards) {
      forall y, z | y in Component(cards, x) && y in CardMap(cards) && z in Links(CardMap(cards)[y].content.refs, y)
        ensures z in CardIds(cards)
      {
        assert z in Neighbours(cards, y);
      }
    }
    if ReferencesCards(cards, x) { ReferencedCardsClose(cards, x); }
  }

  lemma ReferencedCardsClose(cards: seq<LinkCard>, x: Uuid)
    requires x in CardIds(cards) && ReferencesCards(cards, x)
    ensures Component(cards, x) <= CardIds(cards)
  {
    var s := Component(cards, x) * CardIds(cards);
    ComponentIsClosed(cards, x);
    forall y, z | y in s && z in Neighbours(cards, y) ensures z in s {
      if z !in Links(CardMap(cards)[y].content.refs, y) { BackLinksAre(y, cards, z); }
    }
    ComponentIsLeast(cards, x, s);
  }

  lemma CountsTheRest(beyond: set<Uuid>, cards: set<Uuid>)
    ensures |beyond| == |beyond * cards| <==> beyond <= cards
  {
    assert beyond == beyond * cards + (beyond - cards);
    if |beyond| == |beyond * cards| { assert beyond - cards == {}; }
    if beyond <= cards { assert beyond * cards == beyond; }
  }

  /**
    Ids that name no card can lie beyond too; only cards are counted exactly when the component references no others.
   */
  lemma CountsCardsExactly(cards: seq<LinkCard>, x: Uuid)
    requires x in CardIds(cards)
    ensures |Beyond(cards, x)| == |Beyond(cards, x) * CardIds(cards)| <==> ReferencesCards(cards, x)
  {
    CardsOfComponent(cards, x);
    CountsTheRest(Beyond(cards, x), CardIds(cards));
    DirectAreCards(cards, x);
    assert Beyond(cards, x) <= CardIds(cards) <==> Component(cards, x) <= CardIds(cards) by {
      forall y | y in Component(cards, x) && y !in CardIds(cards) ensures y in Beyond(cards, x) {}
    }
  }

  lemma DirectAreCards(cards: seq<LinkCard>, x: Uuid)
    ensures Out(Outgoing(cards), x) <= CardIds(cards) && In(Outgoing(cards), x) <= CardIds(cards)
  {
    OutgoingIsWellFormed(cards);
  }

  lemma DirectSize(o: set<Uuid>, i: set<Uuid>)
    ensures |o - i| + |i - o| + |o * i| == |o + i|
  {
    assert o + i == (o - i) + (i - o) + (o * i);
  }

  lemma DirectIsNeighbour(cards: seq<LinkCard>, x: Uuid, y: Uuid)
    requires UniqueCards(cards) && SymmetricLinks(cards)
    requires y in Out(Outgoing(cards), x) || y in In(Outgoing(cards), x)
    ensures y in Neighbours(cards, x) && y != x
  {
    var m := CardMap(cards);
    if y in Out(Outgoing(cards), x) {
      assert y in Links(m[x].content.refs, x);
    } else {
      assert x in Links(m[y].content.refs, y);
      assert x in Neighbours(cards, y);
    }
  }

  /** It does saturate for a card named in upper case: the back link is counted, and not followed by the expansion. */
  lemma UpperCaseSaturates()
    ensures var cards := UpperCaseSample();
            UniqueCards(cards) && Exact(Outgoing(cards), 10).Direct() > ReachableCount(cards, 10)
  {
    var cards := UpperCaseSample();
    UpperCaseBackLink(cards);
    OneWayComponent(cards);
    BackLinkSaturates(cards, 10, 1);
  }

  lemma UpperCaseBackLink(cards: seq<LinkCard>)
    requires cards == UpperCaseSample()
    ensures UniqueCards(cards) && 1 in In(Outgoing(cards), 10) && 10 in CardIds(cards)
  {
    assert cards[0].id == 1 && cards[1].id == 10;
    CardMapFinds(cards, 0);
    assert 10 in Forward(cards[0]);
  }

  lemma BackLinkSaturates(cards: seq<LinkCard>, x: Uuid, y: Uuid)
    requires x in CardIds(cards) && Component(cards, x) == {x} && y in In(Outgoing(cards), x) && y != x
    ensures Exact(Outgoing(cards), x).Direct() > ReachableCount(cards, x)
  {
    LoneSets(Component(cards, x), Out(Outgoing(cards), x), In(Outgoing(cards), x), x, y);
    SaturatesExactly(cards, x);
  }

  lemma LoneSets(c: set<Uuid>, o: set<Uuid>, i: set<Uuid>, x: Uuid, y: Uuid)
    requires c == {x} && y in i && y != x
    ensures |i - c| > |c - {x} - o - i|
  {
    assert c - {x} - o - i == {};
    assert y in i - c;
  }

  lemma OneWayComponent(cards: seq<LinkCard>)
    requires cards == UpperCaseSample()
    ensures Component(cards, 10) == {10}
  {
    assert cards[0].id == 1 && cards[1].id == 10;
    forall y ensures y !in Neighbours(cards, 10) {
      NeighbourCases(cards, 10, y);
    }
    ComponentIsLeast(cards, 10, {10});
    ComponentIsClosed(cards, 10);
  }
}
