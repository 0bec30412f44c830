/** The background pass that keeps the link-graph cache: cancellable, incremental, filled a component at a time. */
module LinkCaching {
  import opened Bytes
  import opened Ids
  import opened Integers
  import opened LinkGraph
  import opened Expansion
  import opened LinkCounting
  import opened CacheModel

  /** One scheduled chain of idle callbacks, with what its closure captured. */
  datatype Pass = Pass(generation: nat, cards: seq<LinkCard>, hashes: map<Uuid, Digest>,
                       cardIds: seq<Uuid>, offset: nat, filled: set<Uuid>)

  const U32: nat := 0x1_0000_0000
  const U64: nat := 0x1_0000_0000_0000_0000
  const FINGERPRINT_FACTOR: nat := 0x517c_c1b7_2722_0a95

  function CountSum(cards: seq<LinkCard>): nat {
    if cards == [] then 0 else CountSum(cards[..|cards| - 1]) + cards[|cards| - 1].count
  }

  /** The cheap change detector: card count and version sum, in wrapping 64-bit arithmetic. */
  function Fingerprint(cards: seq<LinkCard>): nat {
    (|cards| * FINGERPRINT_FACTOR + CountSum(cards)) % U64
  }

  lemma WrapsLate(a: nat, b: nat)
    ensures (a % U64 + b) % U64 == (a + b) % U64
  {
    assert a == a / U64 * U64 + a % U64;
  }

  /** The fold over the cards' version counts. */
  method ComputeFingerprint(cards: seq<LinkCard>) returns (fp: nat)
    ensures fp == Fingerprint(cards)
  {
    var start := |cards| * FINGERPRINT_FACTOR;
    fp := start % U64;
    for i := 0 to |cards|
      invariant fp == (start + CountSum(cards[..i])) % U64
    {
      assert cards[..i + 1][..i] == cards[..i];
      WrapsLate(start + CountSum(cards[..i]), cards[i].count);
      fp := (fp + cards[i].count) % U64;
    }
    assert cards[..|cards|] == cards;
  }

  lemma {:induction false} CountSumJoin(a: seq<LinkCard>, b: seq<LinkCard>)
    ensures CountSum(a + b) == CountSum(a) + CountSum(b)
  {
    if b == [] {
      assert a + b == a;
    } else {
      assert (a + b)[..|a + b| - 1] == a + b[..|b| - 1];
      CountSumJoin(a, b[..|b| - 1]);
    }
  }

  lemma SumAround(before: seq<LinkCard>, card: LinkCard, rest: seq<LinkCard>)
    ensures CountSum(before + [card] + rest) == CountSum(before + rest) + card.count
  {
    CountSumJoin(before + [card], rest);
    CountSumJoin(before, rest);
    assert (before + [card])[..|before|] == before;
  }

  lemma MembersAround(before: seq<LinkCard>, card: LinkCard, rest: seq<LinkCard>)
    ensures multiset(before + [card] + rest) == multiset(before + rest) + multiset{card}
  {
  }

  lemma TakenApart(cards: seq<LinkCard>, i: nat)
    requires i < |cards|
    ensures cards == cards[..i] + [cards[i]] + cards[i + 1..]
  {
  }

  lemma CountSumSplit(cards: seq<LinkCard>, i: nat)
    requires i < |cards|
    ensures CountSum(cards) == CountSum(cards[..i] + cards[i + 1..]) + cards[i].count
    ensures multiset(cards) == multiset(cards[..i] + cards[i + 1..]) + multiset{cards[i]}
  {
    TakenApart(cards, i);
    SumAround(cards[..i], cards[i], cards[i + 1..]);
    MembersAround(cards[..i], cards[i], cards[i + 1..]);
  }

  lemma LessOne(init: seq<LinkCard>, last: LinkCard, a: seq<LinkCard>, rest: seq<LinkCard>, b: seq<LinkCard>)
    requires a == init + [last] && multiset(a) == multiset(b) && multiset(b) == multiset(rest) + multiset{last}
    ensures multiset(init) == multiset(rest)
  {
    assert multiset(init) == multiset(a) - multiset{last};
    assert multiset(rest) == multiset(b) - multiset{last};
  }

  /** The sum does not depend on the order of the list. */
  lemma {:induction false} CountSumPermutes(a: seq<LinkCard>, b: seq<LinkCard>)
    requires multiset(a) == multiset(b)
    ensures |a| == |b| && CountSum(a) == CountSum(b)
  {
    assert |a| == |multiset(a)| == |multiset(b)| == |b|;
    if a != [] {
      var n := |a| - 1;
      assert a[n] in multiset(b);
      var i :| 0 <= i < |b| && b[i] == a[n];
      CountSumSplit(b, i);
      var rest := b[..i] + b[i + 1..];
      LessOne(a[..n], a[n], a, rest, b);
      CountSumPermutes(a[..n], rest);
    }
  }

  // ---------------------------------------------------------------- what the fingerprint notices

  lemma WrapsEqual(a: nat, b: nat, k: nat)
    ensures (k + a) % U64 == (k + b) % U64 <==> a % U64 == b % U64
  {
    if a % U64 == b % U64 { WrapsBy(k + b, a - b, TurnsApart(a, b)); }
    if (k + a) % U64 == (k + b) % U64 { WrapsBy(b, a - b, TurnsApart(k + a, k + b)); }
  }

  /** Numbers that wrap to one value differ by whole turns. */
  function TurnsApart(a: nat, b: nat): (j: int)
    requires a % U64 == b % U64
    ensures a - b == j * U64
  {
    assert a == a / U64 * U64 + a % U64 && b == b / U64 * U64 + b % U64;
    a / U64 - b / U64
  }

  lemma WrapsBy(b: int, d: int, j: int)
    requires d == j * U64
    ensures (b + d) % U64 == b % U64
  {
  }

  lemma WrapsApart(a: nat, d: nat)
    requires 0 < d < U64
    ensures a % U64 != (a + d) % U64
  {
  }

  /** Lists of one length have one fingerprint exactly if their version sums agree modulo 2^64. */
  lemma FingerprintExact(a: seq<LinkCard>, b: seq<LinkCard>)
    requires |a| == |b|
    ensures Fingerprint(a) == Fingerprint(b) <==> CountSum(a) % U64 == CountSum(b) % U64
  {
    WrapsEqual(CountSum(a), CountSum(b), |a| * FINGERPRINT_FACTOR);
  }

  /** A card is edited, which raises its version count; other cards may change places. */
  ghost predicate EditOf(before: seq<LinkCard>, after: seq<LinkCard>, was: LinkCard, now: LinkCard) {
    && multiset(after) + multiset{was} == multiset(before) + multiset{now}
    && was.id == now.id && 0 < now.count - was.count < U64
  }

  /** A card is added. */
  ghost predicate AddedTo(before: seq<LinkCard>, after: seq<LinkCard>, card: LinkCard) {
    multiset(after) == multiset(before) + multiset{card} && card.count <= I64_MAX
  }

  /** The list is one longer, whatever else was edited, as long as the version sum moves by less than 2^62. */
  ghost predicate OneLonger(before: seq<LinkCard>, after: seq<LinkCard>) {
    |after| == |before| + 1 && -0x4000_0000_0000_0000 < CountSum(after) - CountSum(before) < 0x4000_0000_0000_0000
  }

  /** One card is edited, added, or removed, or one is added or removed along with edits of others. */
  ghost predicate OneStep(before: seq<LinkCard>, after: seq<LinkCard>) {
    || (exists a, b :: EditOf(before, after, a, b))
    || (exists c :: AddedTo(before, after, c))
    || (exists c :: AddedTo(after, before, c))
    || OneLonger(before, after) || OneLonger(after, before)
  }

  lemma EditIsNoticed(before: seq<LinkCard>, after: seq<LinkCard>, a: LinkCard, b: LinkCard)
    requires EditOf(before, after, a, b)
    ensures Fingerprint(before) != Fingerprint(after)
  {
    assert multiset(after + [a]) == multiset(before + [b]);
    CountSumPermutes(after + [a], before + [b]);
    assert (after + [a])[..|after|] == after && (before + [b])[..|before|] == before;
    FingerprintExact(before, after);
    WrapsApart(CountSum(before), b.count - a.count);
  }

  lemma AdditionIsNoticed(before: seq<LinkCard>, after: seq<LinkCard>, c: LinkCard)
    requires AddedTo(before, after, c)
    ensures Fingerprint(before) != Fingerprint(after)
  {
    assert multiset(after) == multiset(before + [c]);
    CountSumPermutes(after, before + [c]);
    assert (before + [c])[..|before|] == before;
    assert |after| * FINGERPRINT_FACTOR == |before| * FINGERPRINT_FACTOR + FINGERPRINT_FACTOR;
    WrapsApart(|before| * FINGERPRINT_FACTOR + CountSum(before), FINGERPRINT_FACTOR + c.count);
  }

  lemma OneLongerIsNoticed(before: seq<LinkCard>, after: seq<LinkCard>)
    requires OneLonger(before, after)
    ensures Fingerprint(before) != Fingerprint(after)
  {
    assert |after| * FINGERPRINT_FACTOR == |before| * FINGERPRINT_FACTOR + FINGERPRINT_FACTOR;
    WrapsApart(|before| * FINGERPRINT_FACTOR + CountSum(before),
               FINGERPRINT_FACTOR + (CountSum(after) - CountSum(before)));
  }

  /** Every such step changes the fingerprint. */
  lemma OneStepIsNoticed(before: seq<LinkCard>, after: seq<LinkCard>)
    requires OneStep(before, after)
    ensures Fingerprint(before) != Fingerprint(after)
  {
    if a, b :| EditOf(before, after, a, b) {
      EditIsNoticed(before, after, a, b);
    } else if c :| AddedTo(before, after, c) {
      AdditionIsNoticed(before, after, c);
    } else if c :| AddedTo(after, before, c) {
      AdditionIsNoticed(after, before, c);
    } else if OneLonger(before, after) {
      OneLongerIsNoticed(before, after);
    } else {
      OneLongerIsNoticed(after, before);
    }
  }

  /** The 32-bit counter, wrapping at its last value. */
  function NextGeneration(generation: nat): nat { if generation + 1 < U32 then generation + 1 else 0 }

  /** A card with at least one link to or from another card the client holds. */
  predicate IsLinked(cards: seq<LinkCard>, x: Uuid) {
    x in CardIds(cards) && Out(Outgoing(cards), x) + In(Outgoing(cards), x) != {}
  }

  /** That is: a card that links to another card held, or that one links to. */
  lemma IsLinkedIs(cards: seq<LinkCard>, x: Uuid)
    requires UniqueCards(cards)
    ensures IsLinked(cards, x) <==>
            x in CardIds(cards) && exists y :: y in CardIds(cards) && (LinksTo(cards, x, y) || LinksTo(cards, y, x))
  {
    var out := Outgoing(cards);
    forall y ensures y in Out(out, x) + In(out, x) && x in CardIds(cards) <==>
                     x in CardIds(cards) && y in CardIds(cards) && (LinksTo(cards, x, y) || LinksTo(cards, y, x))
    {
      OutgoingIs(cards, x, y);
      OutgoingIs(cards, y, x);
    }
    assert Out(out, x) + In(out, x) != {} <==> exists y :: y in Out(out, x) + In(out, x);
  }

  /** The client reads this off the direct link counts. */
  lemma LinkedByCounts(cards: seq<LinkCard>, x: Uuid)
    requires x in CardIds(cards)
    ensures Exact(Outgoing(cards), x).Direct() > 0 <==> IsLinked(cards, x)
  {
    DirectSize(Out(Outgoing(cards), x), In(Outgoing(cards), x));
  }

  function AllLinked(cards: seq<LinkCard>, among: seq<LinkCard>): seq<Uuid> {
    if among == [] then []
    else AllLinked(cards, among[..|among| - 1])
         + if IsLinked(cards, among[|among| - 1].id) then [among[|among| - 1].id] else []
  }

  function NotCached(ids: seq<Uuid>, cache: Cache): (r: seq<Uuid>)
    ensures forall x :: x in r <==> x in ids && x !in cache
  {
    if ids == [] then []
    else (if ids[0] in cache then [] else [ids[0]]) + NotCached(ids[1..], cache)
  }

  method HasLinks(cards: seq<LinkCard>, direct: Counts, id: Uuid) returns (linked: bool)
    requires id in CardIds(cards) && Of(direct, id) == Exact(Outgoing(cards), id)
    ensures linked == IsLinked(cards, id)
  {
    LinkedByCounts(cards, id);
    var c := Of(direct, id);
    linked := c.forward > 0 || c.back > 0 || c.mutual > 0;
  }

  /** Ids of the cards whose direct counts are not all zero. */
  method CollectLinked(cards: seq<LinkCard>) returns (linked: seq<Uuid>)
    ensures linked == AllLinked(cards, cards)
  {
    var direct := ComputeAllLinkCounts(cards);
    linked := [];
    for i := 0 to |cards|
      invariant linked == AllLinked(cards, cards[..i])
    {
      assert cards[..i + 1][..i] == cards[..i];
      var hasLinks := HasLinks(cards, direct, cards[i].id);
      if hasLinks {
        linked := linked + [cards[i].id];
      }
    }
    assert cards[..|cards|] == cards;
  }

  lemma AllLinkedIs(cards: seq<LinkCard>, among: seq<LinkCard>, x: Uuid)
    ensures x in AllLinked(cards, among) <==> x in CardIds(among) && IsLinked(cards, x)
  {
    if among != [] {
      var n := |among| - 1;
      AllLinkedIs(cards, among[..n], x);
      CardIdsStep(among, n);
      assert among[..n + 1] == among;
    }
  }

  // ---------------------------------------------------------------- what a running pass keeps

  /** The cache invariant, on the contents of the pass's own cards. */
  ghost predicate Sound(hash: Content -> Digest, cards: seq<LinkCard>, hashes: map<Uuid, Digest>,
                        cache: Cache, contents: Contents) {
    && UniqueCards(cards) && SymmetricLinks(cards) && HashesCurrent(hash, cards, hashes)
    && CacheInv(hash, cache, contents) && CacheCurrent(cards, cache, contents)
  }

  /** What has been filled is the whole component; what has not been filled is a card. */
  ghost predicate FilledExactly(cards: seq<LinkCard>, filled: set<Uuid>, cache: Cache) {
    && (forall x :: x in filled ==> x in cache && Group(cache, x) == Component(cards, x))
    && (forall x :: x in cache ==> x in filled || x in CardIds(cards))
  }

  /** Every linked card is cached or still on the work list. */
  ghost predicate Covers(cards: seq<LinkCard>, cardIds: seq<Uuid>, cache: Cache) {
    forall x {:trigger IsLinked(cards, x)} :: IsLinked(cards, x) ==> x in cache || x in cardIds
  }

  ghost predicate Processed(cardIds: seq<Uuid>, offset: nat, filled: set<Uuid>) {
    offset <= |cardIds| && forall i :: 0 <= i < offset ==> cardIds[i] in filled
  }

  /** The id belongs to the component of a linked card. */
  ghost predicate ShouldCache(cards: seq<LinkCard>, x: Uuid) {
    exists y {:trigger IsLinked(cards, y)} :: IsLinked(cards, y) && x in Component(cards, y)
  }

  /** Only linked cards are queued, and only their components are filled. */
  ghost predicate WorkIsLinked(cards: seq<LinkCard>, cardIds: seq<Uuid>, filled: set<Uuid>) {
    && (forall x :: x in cardIds ==> IsLinked(cards, x))
    && (forall x :: x in filled ==> ShouldCache(cards, x))
  }

  ghost predicate StampedAt(cards: seq<LinkCard>, hashes: map<Uuid, Digest>, cache: Cache, x: Uuid) {
    IsLinked(cards, x) ==> x in hashes && (x in cache ==> cache[x].hash == hashes[x])
  }

  /** Entries of linked cards carry the digests of the pass. */
  ghost predicate Stamped(cards: seq<LinkCard>, hashes: map<Uuid, Digest>, cache: Cache) {
    forall x {:trigger StampedAt(cards, hashes, cache, x)} :: StampedAt(cards, hashes, cache, x)
  }

  ghost predicate PassInv(hash: Content -> Digest, p: Pass, cache: Cache, contents: Contents) {
    && Sound(hash, p.cards, p.hashes, cache, contents)
    && FilledExactly(p.cards, p.filled, cache)
    && Covers(p.cards, p.cardIds, cache)
    && Processed(p.cardIds, p.offset, p.filled)
    && WorkIsLinked(p.cards, p.cardIds, p.filled)
    && Stamped(p.cards, p.hashes, cache)
  }

  /** The id has an entry exactly if it should, and the entry is what expansion returns on these cards. */
  ghost predicate ExactAt(cards: seq<LinkCard>, cache: Cache, x: Uuid) {
    && (x in cache <==> ShouldCache(cards, x))
    && (x in cache ==> IsExpansion(cards, x, cache[x].reachable))
  }

  /** The entries are those of the linked cards' components, no more and no fewer, and each is right. */
  ghost predicate ExactFor(cards: seq<LinkCard>, cache: Cache) {
    forall x {:trigger ExactAt(cards, cache, x)} :: ExactAt(cards, cache, x)
  }

  /** A card that references another card is counted as linked. */
  lemma LinkerIsLinked(cards: seq<LinkCard>, z: Uuid, y: Uuid)
    requires z in CardMap(cards) && y in Links(CardMap(cards)[z].content.refs, z) && y in CardIds(cards)
    ensures IsLinked(cards, z)
  {
    assert y in Out(Outgoing(cards), z);
  }

  lemma SkipKeeps(hash: Content -> Digest, p: Pass, cache: Cache, contents: Contents)
    requires PassInv(hash, p, cache, contents) && p.offset < |p.cardIds| && p.cardIds[p.offset] in p.filled
    ensures PassInv(hash, p.(offset := p.offset + 1), cache, contents)
  {
    ProcessedSkips(p.cardIds, p.offset, p.filled);
  }

  lemma ProcessedSkips(cardIds: seq<Uuid>, offset: nat, filled: set<Uuid>)
    requires Processed(cardIds, offset, filled) && offset < |cardIds| && cardIds[offset] in filled
    ensures Processed(cardIds, offset + 1, filled)
  {
  }

  lemma FilledStaysExact(cards: seq<LinkCard>, cache: Cache, hashes: map<Uuid, Digest>, component: seq<Uuid>,
                         cid: Uuid, x: Uuid)
    requires SymmetricLinks(cards) && IsComponent(cards, component, cid)
    requires x in component || (x in cache && Group(cache, x) == Component(cards, x))
    ensures var cache' := Filled(cache, hashes, component);
            x in cache' && Group(cache', x) == Component(cards, x)
  {
    FilledShares(cache, hashes, component);
    if x in component {
      assert x in Elements(component);
      ComponentIsShared(cards, cid, x);
    }
  }

  lemma FilledExactlyGrows(cards: seq<LinkCard>, filled: set<Uuid>, cache: Cache, hashes: map<Uuid, Digest>,
                           component: seq<Uuid>, cid: Uuid)
    requires SymmetricLinks(cards) && IsComponent(cards, component, cid)
    requires FilledExactly(cards, filled, cache)
    ensures FilledExactly(cards, filled + Elements(component), Filled(cache, hashes, component))
  {
    var cache' := Filled(cache, hashes, component);
    forall x | x in filled + Elements(component)
      ensures x in cache' && Group(cache', x) == Component(cards, x)
    {
      FilledStaysExact(cards, cache, hashes, component, cid, x);
    }
  }

  /** One turn of the callback's loop: a whole component is written, stale members included. */
  lemma TurnKeeps(hash: Content -> Digest, p: Pass, cache: Cache, contents: Contents, component: seq<Uuid>)
    requires PassInv(hash, p, cache, contents) && p.offset < |p.cardIds|
    requires IsComponent(p.cards, component, p.cardIds[p.offset])
    ensures PassInv(hash, p.(offset := p.offset + 1, filled := p.filled + Elements(component)),
                    Filled(cache, p.hashes, component), Recorded(contents, p.cards, component))
  {
    var cid, cache' := p.cardIds[p.offset], Filled(cache, p.hashes, component);
    LinkedIsNotAlone(p.cards, cid);
    FillKeeps(hash, p.cards, cache, contents, p.hashes, component, cid);
    FilledExactlyGrows(p.cards, p.filled, cache, p.hashes, component, cid);
    CoversGrows(p.cards, p.cardIds, cache, cache');
    ProcessedGrows(p, component);
    WorkStaysLinked(p, component);
    FilledIsStamped(p.cards, p.hashes, cache, component);
  }

  lemma FilledIsStamped(cards: seq<LinkCard>, hashes: map<Uuid, Digest>, cache: Cache, component: seq<Uuid>)
    requires Stamped(cards, hashes, cache)
    ensures Stamped(cards, hashes, Filled(cache, hashes, component))
  {
    forall x ensures StampedAt(cards, hashes, Filled(cache, hashes, component), x) {
      assert StampedAt(cards, hashes, cache, x);
    }
  }

  /** A linked card has company in its component. */
  lemma LinkedIsNotAlone(cards: seq<LinkCard>, x: Uuid)
    requires UniqueCards(cards) && SymmetricLinks(cards) && IsLinked(cards, x)
    ensures Component(cards, x) != {x}
  {
    var y := LinkedTo(cards, x);
    DirectIsNeighbour(cards, x, y);
    NeighbourIsInside(cards, x, y);
  }

  lemma LinkedTo(cards: seq<LinkCard>, x: Uuid) returns (y: Uuid)
    requires IsLinked(cards, x)
    ensures y in Out(Outgoing(cards), x) || y in In(Outgoing(cards), x)
  {
    y :| y in Out(Outgoing(cards), x) + In(Outgoing(cards), x);
  }

  lemma NeighbourIsInside(cards: seq<LinkCard>, x: Uuid, y: Uuid)
    requires y in Neighbours(cards, x)
    ensures y in Component(cards, x)
  {
    ComponentIsClosed(cards, x);
  }

  lemma WorkStaysLinked(p: Pass, component: seq<Uuid>)
    requires WorkIsLinked(p.cards, p.cardIds, p.filled) && p.offset < |p.cardIds|
    requires IsComponent(p.cards, component, p.cardIds[p.offset])
    ensures WorkIsLinked(p.cards, p.cardIds, p.filled + Elements(component))
  {
    assert IsLinked(p.cards, p.cardIds[p.offset]);
  }

  lemma CoversGrows(cards: seq<LinkCard>, cardIds: seq<Uuid>, cache: Cache, cache': Cache)
    requires Covers(cards, cardIds, cache) && cache.Keys <= cache'.Keys
    ensures Covers(cards, cardIds, cache')
  {
    forall x | IsLinked(cards, x) ensures x in cache' || x in cardIds {
      assert x in cache ==> x in cache'.Keys;
    }
  }

  lemma ProcessedGrows(p: Pass, component: seq<Uuid>)
    requires Processed(p.cardIds, p.offset, p.filled) && p.offset < |p.cardIds|
    requires IsComponent(p.cards, component, p.cardIds[p.offset])
    ensures Processed(p.cardIds, p.offset + 1, p.filled + Elements(component))
  {
    ComponentIsClosed(p.cards, p.cardIds[p.offset]);
    assert p.cardIds[p.offset] in Elements(component);
  }

  /** A stale group that misses part of its component is impossible once the work list is drained. */
  lemma UnfilledIsClosed(hash: Content -> Digest, p: Pass, cache: Cache, contents: Contents, x: Uuid)
    requires PassInv(hash, p, cache, contents) && p.offset == |p.cardIds|
    requires x in cache && Group(cache, x) != Component(p.cards, x)
    ensures ClosedUnderLinks(p.cards, Group(cache, x))
  {
    var group := Group(cache, x);
    assert EntryInv(hash, cache, contents, x);
    forall y, z | y in group && z in Neighbours(p.cards, y) ensures z in group {
      assert y in cache && Group(cache, y) == group;
      if y in p.filled {
        ComponentIsClosed(p.cards, y);
      } else {
        assert y in CardMap(p.cards) && contents[y] == CardMap(p.cards)[y].content;
        if z !in Links(CardMap(p.cards)[y].content.refs, y) {
          BackLinkStaysInside(hash, p, cache, contents, y, z);
        }
      }
    }
  }

  lemma BackLinkStaysInside(hash: Content -> Digest, p: Pass, cache: Cache, contents: Contents, y: Uuid, z: Uuid)
    requires PassInv(hash, p, cache, contents) && p.offset == |p.cardIds|
    requires y in cache && y in CardIds(p.cards) && z in BackLinks(y, p.cards)
    ensures z in Group(cache, y)
  {
    BackLinksAre(y, p.cards, z);
    var i :| 0 <= i < |p.cards| && p.cards[i].id == z && LinksBack(p.cards[i], y);
    CardMapFinds(p.cards, i);
    LinkerIsLinked(p.cards, z, y);
    assert z in p.cardIds ==> z in p.filled;
    assert z in cache && z in contents && contents[z] == p.cards[i].content;
    assert EntryInv(hash, cache, contents, z);
    assert y in Group(cache, z);
  }

  /**
    When the work list is drained the cache is exact: selective invalidation left nothing stale that a fill
    did not overwrite.
   */
  lemma DrainedIsExact(hash: Content -> Digest, p: Pass, cache: Cache, contents: Contents)
    requires PassInv(hash, p, cache, contents) && p.offset == |p.cardIds|
    ensures ExactFor(p.cards, cache)
  {
    forall x ensures ExactAt(p.cards, cache, x) {
      if x in cache {
        DrainedKey(hash, p, cache, contents, x);
        DrainedEntry(hash, p, cache, contents, x);
      }
      if ShouldCache(p.cards, x) { DrainedCovers(hash, p, cache, contents, x); }
    }
  }

  /** What belongs to a linked card's component has an entry. */
  lemma DrainedCovers(hash: Content -> Digest, p: Pass, cache: Cache, contents: Contents, x: Uuid)
    requires PassInv(hash, p, cache, contents) && p.offset == |p.cardIds| && ShouldCache(p.cards, x)
    ensures x in cache
  {
    var y :| IsLinked(p.cards, y) && x in Component(p.cards, y);
    assert y in p.cardIds ==> y in p.filled;
    assert y in cache;
    DrainedGroup(hash, p, cache, contents, y);
    assert EntryInv(hash, cache, contents, y);
    assert x in Group(cache, y);
  }

  /** Nothing else has one. */
  lemma DrainedKey(hash: Content -> Digest, p: Pass, cache: Cache, contents: Contents, x: Uuid)
    requires PassInv(hash, p, cache, contents) && p.offset == |p.cardIds| && x in cache
    ensures ShouldCache(p.cards, x)
  {
    var n := CachedNeighbour(hash, p, cache, contents, x);
    KeyIsWanted(p.cards, p.cardIds, p.filled, cache, x, n);
  }

  lemma EntryFacts(hash: Content -> Digest, cache: Cache, contents: Contents, x: Uuid)
    requires CacheInv(hash, cache, contents) && x in cache
    ensures SharedGroup(cache, Group(cache, x)) && cache[x].reachable != [] && x !in cache[x].reachable
  {
    assert EntryInv(hash, cache, contents, x);
  }

  /** An entry reaches a neighbour, which has an entry too. */
  lemma GroupNeighbour(cards: seq<LinkCard>, cache: Cache, x: Uuid) returns (n: Uuid)
    requires x in cache && Group(cache, x) == Component(cards, x) && SharedGroup(cache, Group(cache, x))
    requires cache[x].reachable != [] && x !in cache[x].reachable
    ensures n in Neighbours(cards, x) && n in Component(cards, x) && n in cache
  {
    assert cache[x].reachable[0] in Group(cache, x);
    n := HasNeighbour(cards, x);
    assert n in Group(cache, x);
  }

  lemma CachedNeighbour(hash: Content -> Digest, p: Pass, cache: Cache, contents: Contents, x: Uuid) returns (n: Uuid)
    requires PassInv(hash, p, cache, contents) && p.offset == |p.cardIds| && x in cache
    ensures n in Neighbours(p.cards, x) && n in Component(p.cards, x) && n in cache
  {
    DrainedGroup(hash, p, cache, contents, x);
    EntryFacts(hash, cache, contents, x);
    n := GroupNeighbour(p.cards, cache, x);
  }

  lemma KeyIsWanted(cards: seq<LinkCard>, cardIds: seq<Uuid>, filled: set<Uuid>, cache: Cache, x: Uuid, n: Uuid)
    requires UniqueCards(cards) && SymmetricLinks(cards)
    requires FilledExactly(cards, filled, cache) && WorkIsLinked(cards, cardIds, filled)
    requires x in cache && n in cache && n in Neighbours(cards, x) && n in Component(cards, x)
    ensures ShouldCache(cards, x)
  {
    if x in filled {
    } else if n in filled {
      SharesShouldCache(cards, x, n);
    } else {
      CardNeighbourIsLinked(cards, x, n);
    }
  }

  lemma HasNeighbour(cards: seq<LinkCard>, x: Uuid) returns (n: Uuid)
    requires Component(cards, x) != {x}
    ensures n in Neighbours(cards, x) && n != x && n in Component(cards, x)
  {
    ComponentIsClosed(cards, x);
    if forall y :: y in Neighbours(cards, x) ==> y == x { ComponentIsLeast(cards, x, {x}); }
    n :| n in Neighbours(cards, x) && n != x;
  }

  lemma SharesShouldCache(cards: seq<LinkCard>, x: Uuid, n: Uuid)
    requires SymmetricLinks(cards) && n in Component(cards, x) && ShouldCache(cards, n)
    ensures ShouldCache(cards, x)
  {
    var y :| IsLinked(cards, y) && n in Component(cards, y);
    ComponentIsShared(cards, x, n);
    ComponentIsShared(cards, y, n);
    ComponentIsClosed(cards, x);
  }

  /** Two cards that are neighbours are both in a linked card's component. */
  lemma CardNeighbourIsLinked(cards: seq<LinkCard>, x: Uuid, n: Uuid)
    requires UniqueCards(cards) && SymmetricLinks(cards)
    requires x in CardIds(cards) && n in CardIds(cards) && n in Neighbours(cards, x)
    ensures ShouldCache(cards, x)
  {
    ComponentIsClosed(cards, x);
    ComponentIsClosed(cards, n);
    if n in Links(CardMap(cards)[x].content.refs, x) {
      LinkerIsLinked(cards, x, n);
    } else {
      BackLinksAre(x, cards, n);
      var i :| 0 <= i < |cards| && cards[i].id == n && LinksBack(cards[i], x);
      CardMapFinds(cards, i);
      LinkerIsLinked(cards, n, x);
      assert x in Neighbours(cards, n);
    }
  }

  lemma DrainedGroup(hash: Content -> Digest, p: Pass, cache: Cache, contents: Contents, x: Uuid)
    requires PassInv(hash, p, cache, contents) && p.offset == |p.cardIds| && x in cache
    ensures Group(cache, x) == Component(p.cards, x)
  {
    var group := Group(cache, x);
    assert EntryInv(hash, cache, contents, x);
    if group != Component(p.cards, x) {
      UnfilledIsClosed(hash, p, cache, contents, x);
      ComponentIsLeast(p.cards, x, group);
      ComponentIsClosed(p.cards, x);
      assert x in group * Component(p.cards, x);
      GroupInsideComponent(p.cards, cache, contents, group, x);
    }
  }

  lemma GroupIsExpansion(cards: seq<LinkCard>, cache: Cache, x: Uuid)
    requires x in cache && Group(cache, x) == Component(cards, x)
    requires Distinct(cache[x].reachable) && x !in cache[x].reachable
    ensures IsExpansion(cards, x, cache[x].reachable)
  {
  }

  lemma DrainedEntry(hash: Content -> Digest, p: Pass, cache: Cache, contents: Contents, x: Uuid)
    requires PassInv(hash, p, cache, contents) && p.offset == |p.cardIds| && x in cache
    ensures IsExpansion(p.cards, x, cache[x].reachable)
  {
    DrainedGroup(hash, p, cache, contents, x);
    assert EntryInv(hash, cache, contents, x);
    GroupIsExpansion(p.cards, cache, x);
  }

  lemma WorkListCovers(cards: seq<LinkCard>, cache: Cache)
    ensures Covers(cards, NotCached(AllLinked(cards, cards), cache), cache)
  {
    forall x | IsLinked(cards, x) ensures x in cache || x in NotCached(AllLinked(cards, cards), cache) {
      AllLinkedIs(cards, cards, x);
    }
  }

  lemma WorkListIsLinked(cards: seq<LinkCard>, cache: Cache)
    ensures WorkIsLinked(cards, NotCached(AllLinked(cards, cards), cache), {})
  {
    forall x | x in NotCached(AllLinked(cards, cards), cache) ensures IsLinked(cards, x) {
      AllLinkedIs(cards, cards, x);
    }
  }

  /** A pass starts from what survived invalidation. */
  lemma StartKeeps(hash: Content -> Digest, cards: seq<LinkCard>, cache: Cache, contents: Contents,
                   needed: set<Uuid>, generation: nat)
    requires UniqueCards(cards) && SymmetricLinks(cards)
    requires CacheInv(hash, cache, contents) && HashesTell(hash, cards, cache, contents)
    requires Elements(AllLinked(cards, cards)) <= needed
    ensures var hashes := ContentHashes(hash, cards, needed);
            var cache' := Invalidated(cache, hashes, CardIds(cards));
            var work := NotCached(AllLinked(cards, cards), cache');
            PassInv(hash, Pass(generation, cards, hashes, work, 0, {}), cache', contents)
  {
    var hashes := ContentHashes(hash, cards, needed);
    InvalidateKeeps(hash, cache, contents, hashes, CardIds(cards));
    SurvivorsAreCurrent(hash, cards, cache, contents, needed);
    WorkListCovers(cards, Invalidated(cache, hashes, CardIds(cards)));
    WorkListIsLinked(cards, Invalidated(cache, hashes, CardIds(cards)));
    SurvivorsAreStamped(hash, cards, cache, needed);
  }

  lemma SurvivorsAreStamped(hash: Content -> Digest, cards: seq<LinkCard>, cache: Cache, needed: set<Uuid>)
    requires Elements(AllLinked(cards, cards)) <= needed
    ensures var hashes := ContentHashes(hash, cards, needed);
            Stamped(cards, hashes, Invalidated(cache, hashes, CardIds(cards)))
  {
    var hashes := ContentHashes(hash, cards, needed);
    forall x ensures StampedAt(cards, hashes, Invalidated(cache, hashes, CardIds(cards)), x) {
      AllLinkedIs(cards, cards, x);
    }
  }

  // ---------------------------------------------------------------- batches

  function ApplyBatch(cache: Cache, batch: seq<(Uuid, Entry)>): Cache {
    if batch == [] then cache
    else ApplyBatch(cache, batch[..|batch| - 1])[batch[|batch| - 1].0 := batch[|batch| - 1].1]
  }

  function MemberEntries(hashes: map<Uuid, Digest>, component: seq<Uuid>, n: nat): (r: seq<(Uuid, Entry)>)
    requires n <= |component|
    ensures |r| == n
  {
    seq(n, i requires 0 <= i < n => (component[i], EntryFor(hashes, component, component[i])))
  }

  lemma BatchGrows(cache: Cache, batch: seq<(Uuid, Entry)>, entry: (Uuid, Entry))
    ensures ApplyBatch(cache, batch + [entry]) == ApplyBatch(cache, batch)[entry.0 := entry.1]
  {
    assert (batch + [entry])[..|batch|] == batch;
  }

  lemma MemberEntriesGrow(batch: seq<(Uuid, Entry)>, hashes: map<Uuid, Digest>, component: seq<Uuid>, n: nat)
    requires n < |component|
    ensures batch + MemberEntries(hashes, component, n + 1) ==
            (batch + MemberEntries(hashes, component, n))
            + [(component[n], EntryFor(hashes, component, component[n]))]
  {
  }

  lemma {:induction false} BatchFills(cache: Cache, batch: seq<(Uuid, Entry)>, hashes: map<Uuid, Digest>,
                                      component: seq<Uuid>, n: nat)
    requires n <= |component|
    ensures ApplyBatch(cache, batch + MemberEntries(hashes, component, n)) ==
            ApplyBatch(cache, batch) + Members(hashes, component, n)
  {
    if n == 0 {
      assert batch + MemberEntries(hashes, component, 0) == batch;
      assert Members(hashes, component, 0) == map[];
    } else {
      var last := component[n - 1];
      BatchFills(cache, batch, hashes, component, n - 1);
      MemberEntriesGrow(batch, hashes, component, n - 1);
      BatchGrows(cache, batch + MemberEntries(hashes, component, n - 1), (last, EntryFor(hashes, component, last)));
      MembersGrow(ApplyBatch(cache, batch), hashes, component, n - 1);
    }
  }

  function Members(hashes: map<Uuid, Digest>, component: seq<Uuid>, n: nat): Cache
    requires n <= |component|
  {
    map m | m in component[..n] :: EntryFor(hashes, component, m)
  }

  lemma MembersGrow(cache: Cache, hashes: map<Uuid, Digest>, component: seq<Uuid>, n: nat)
    requires n < |component|
    ensures (cache + Members(hashes, component, n))[component[n] := EntryFor(hashes, component, component[n])] ==
            cache + Members(hashes, component, n + 1)
  {
    assert component[..n + 1] == component[..n] + [component[n]];
  }

  /** Queues an entry for every member of the component. */
  method FillMembers(component: seq<Uuid>, hashes: map<Uuid, Digest>, batch: seq<(Uuid, Entry)>, filled: set<Uuid>)
    returns (batch': seq<(Uuid, Entry)>, filled': set<Uuid>)
    ensures batch' == batch + MemberEntries(hashes, component, |component|)
    ensures filled' == filled + Elements(component)
  {
    batch', filled' := batch, filled;
    for i := 0 to |component|
      invariant batch' == batch + MemberEntries(hashes, component, i)
      invariant filled' == filled + Elements(component[..i])
    {
      var member := component[i];
      batch' := batch' + [(member, Entry(HashOr(hashes, member), Others(component, member)))];
      filled' := filled' + {member};
      assert component[..i + 1] == component[..i] + [member];
      ElementsAppend(component[..i], [member]);
    }
    assert component[..|component|] == component;
  }

  method InsertBatch(cache: Cache, batch: seq<(Uuid, Entry)>) returns (cache': Cache)
    ensures cache' == ApplyBatch(cache, batch)
  {
    cache' := cache;
    for i := 0 to |batch|
      invariant cache' == ApplyBatch(cache, batch[..i])
    {
      assert batch[..i + 1][..i] == batch[..i];
      cache' := cache'[batch[i].0 := batch[i].1];
    }
    assert batch[..|batch|] == batch;
  }

  // ---------------------------------------------------------------- the mutable cache

  ghost predicate Current(pending: seq<Pass>, generation: nat) {
    exists i :: 0 <= i < |pending| && pending[i].generation == generation
  }

  /** Every callback that would still run keeps the pass invariant, and works for `cards`. */
  ghost predicate PendingOk(hash: Content -> Digest, pending: seq<Pass>, generation: nat, cards: seq<LinkCard>,
                            cache: Cache, contents: Contents) {
    forall i :: 0 <= i < |pending| && pending[i].generation == generation ==>
      pending[i].cards == cards && PassInv(hash, pending[i], cache, contents)
  }

  ghost predicate AtMostOneCurrent(pending: seq<Pass>, generation: nat) {
    forall i, j :: 0 <= i < j < |pending| ==>
      pending[i].generation != generation || pending[j].generation != generation
  }

  ghost predicate DigestAt(hash: Content -> Digest, cards: seq<LinkCard>, cache: Cache, x: Uuid) {
    IsLinked(cards, x) && x in cache ==> cache[x].hash == hash(CardMap(cards)[x].content)
  }

  /** Entries of linked cards carry the digests of the cards' contents, so that a later change can tell them. */
  ghost predicate DigestsFor(hash: Content -> Digest, cards: seq<LinkCard>, cache: Cache) {
    forall x {:trigger DigestAt(hash, cards, cache, x)} :: DigestAt(hash, cards, cache, x)
  }

  lemma StampedDigests(hash: Content -> Digest, p: Pass, cache: Cache, contents: Contents)
    requires PassInv(hash, p, cache, contents)
    ensures DigestsFor(hash, p.cards, cache)
  {
    forall x ensures DigestAt(hash, p.cards, cache, x) {
      assert StampedAt(p.cards, p.hashes, cache, x);
    }
  }

  /** What holds between callbacks, for as long as the links and digests could be trusted. */
  ghost predicate Consistent(hash: Content -> Digest, cache: Cache, contents: Contents, pending: seq<Pass>,
                             generation: nat, cards: Option<seq<LinkCard>>) {
    && CacheInv(hash, cache, contents)
    && AtMostOneCurrent(pending, generation)
    && (cards.None? ==> !Current(pending, generation) && cache == map[])
    && (cards.Some? ==> PendingOk(hash, pending, generation, cards.value, cache, contents))
    && (cards.Some? && !Current(pending, generation) ==>
          ExactFor(cards.value, cache) && DigestsFor(hash, cards.value, cache))
  }

  /**
    What the exactness result rests on when the cards change: unique ids, links found in both directions,
    digests that tell changed contents apart, and no callback left over from a full turn of the 32-bit counter.
   */
  ghost predicate Trustworthy(hash: Content -> Digest, cards: seq<LinkCard>, cache: Cache, contents: Contents,
                              pending: seq<Pass>, generation: nat) {
    && UniqueCards(cards) && SymmetricLinks(cards)
    && HashesTell(hash, cards, cache, contents)
    && !Current(pending, generation)
  }

  /** Ids whose content is hashed: cached ones, to detect changes, and linked ones, to be cached. */
  function Needed(cards: seq<LinkCard>, cache: Cache): set<Uuid> { cache.Keys + Elements(AllLinked(cards, cards)) }

  function NewHashes(hash: Content -> Digest, cards: seq<LinkCard>, cache: Cache): map<Uuid, Digest> {
    ContentHashes(hash, cards, Needed(cards, cache))
  }

  /** Only the contents that are needed are hashed: those of cached and of linked cards. */
  lemma HashedAreNeeded(hash: Content -> Digest, cards: seq<LinkCard>, cache: Cache, x: Uuid)
    ensures x in NewHashes(hash, cards, cache) <==> x in CardIds(cards) && (x in cache || IsLinked(cards, x))
    ensures x in NewHashes(hash, cards, cache) ==>
              NewHashes(hash, cards, cache)[x] == hash(CardMap(cards)[x].content)
  {
    AllLinkedIs(cards, cards, x);
  }

  /** The cache after selective invalidation. */
  function Evicted(hash: Content -> Digest, cards: seq<LinkCard>, cache: Cache): Cache {
    Invalidated(cache, NewHashes(hash, cards, cache), CardIds(cards))
  }

  /** `after` still holds card `m` of `before` with its content. */
  ghost predicate Kept(before: seq<LinkCard>, after: seq<LinkCard>, m: Uuid) {
    && m in CardMap(before) && m in CardMap(after)
    && CardMap(after)[m].content == CardMap(before)[m].content
  }

  ghost predicate AllKept(before: seq<LinkCard>, after: seq<LinkCard>, component: set<Uuid>) {
    forall m {:trigger Kept(before, after, m)} :: m in component ==> Kept(before, after, m)
  }

  /** Card `m` is linked, and if its content changes so does the digest. */
  ghost predicate IsTold(hash: Content -> Digest, before: seq<LinkCard>, after: seq<LinkCard>, m: Uuid) {
    && IsLinked(before, m)
    && (m in CardMap(before) && m in CardMap(after) && !Kept(before, after, m) ==>
          hash(CardMap(after)[m].content) != hash(CardMap(before)[m].content))
  }

  ghost predicate AllTold(hash: Content -> Digest, before: seq<LinkCard>, after: seq<LinkCard>, component: set<Uuid>) {
    forall m {:trigger IsTold(hash, before, after, m)} :: m in component ==> IsTold(hash, before, after, m)
  }

  lemma KeptIsUnchanged(hash: Content -> Digest, before: seq<LinkCard>, after: seq<LinkCard>, cache: Cache, m: Uuid)
    requires ExactFor(before, cache) && DigestsFor(hash, before, cache) && IsTold(hash, before, after, m)
    ensures m in cache
    ensures m !in CacheModel.Changed(cache, NewHashes(hash, after, cache)) <==> Kept(before, after, m)
  {
    ComponentIsClosed(before, m);
    assert ExactAt(before, cache, m);
    assert DigestAt(hash, before, cache, m);
  }

  lemma SurvivesUnchanged(cache: Cache, hashes: map<Uuid, Digest>, cardIds: set<Uuid>, x: Uuid, component: set<Uuid>)
    requires x in component && x in cache && Elements(cache[x].reachable) == component - {x}
    requires hashes.Keys <= cardIds
    ensures x in Invalidated(cache, hashes, cardIds) <==>
            x in cardIds && component !! CacheModel.Changed(cache, hashes)
    ensures x in Invalidated(cache, hashes, cardIds) ==> Invalidated(cache, hashes, cardIds)[x] == cache[x]
  {
    var changed := CacheModel.Changed(cache, hashes);
    assert component == {x} + (component - {x});
    assert component !! changed <==> x !in changed && (component - {x}) !! changed;
  }

  lemma UnchangedAreKept(hash: Content -> Digest, before: seq<LinkCard>, after: seq<LinkCard>, cache: Cache,
                         component: set<Uuid>)
    requires ExactFor(before, cache) && DigestsFor(hash, before, cache) && AllTold(hash, before, after, component)
    ensures component !! CacheModel.Changed(cache, NewHashes(hash, after, cache)) <==> AllKept(before, after, component)
  {
    var changed := CacheModel.Changed(cache, NewHashes(hash, after, cache));
    forall m | m in component ensures m !in changed <==> Kept(before, after, m) {
      assert IsTold(hash, before, after, m);
      KeptIsUnchanged(hash, before, after, cache, m);
    }
  }

  lemma EntryIsComponent(cards: seq<LinkCard>, cache: Cache, x: Uuid)
    requires ExactFor(cards, cache) && IsLinked(cards, x)
    ensures x in Component(cards, x) && x in cache && Elements(cache[x].reachable) == Component(cards, x) - {x}
  {
    ComponentIsClosed(cards, x);
    assert ExactAt(cards, cache, x);
  }

  /**
    Invalidation, exactly. When the cache is right for `before` and digests tell its contents from those of `after`,
    the entry of a component of linked cards survives if and only if `after` still holds every card of the component
    with its content; so other components are not computed again.
   */
  lemma SurvivesExactly(hash: Content -> Digest, before: seq<LinkCard>, after: seq<LinkCard>, cache: Cache, x: Uuid)
    requires ExactFor(before, cache) && DigestsFor(hash, before, cache)
    requires AllTold(hash, before, after, Component(before, x))
    ensures x in Evicted(hash, after, cache) <==> AllKept(before, after, Component(before, x))
    ensures x in Evicted(hash, after, cache) ==> x in cache && Evicted(hash, after, cache)[x] == cache[x]
  {
    ComponentIsClosed(before, x);
    assert IsTold(hash, before, after, x);
    EntryIsComponent(before, cache, x);
    UnchangedAreKept(hash, before, after, cache, Component(before, x));
    SurvivesUnchanged(cache, NewHashes(hash, after, cache), CardIds(after), x, Component(before, x));
    if AllKept(before, after, Component(before, x)) { assert Kept(before, after, x); }
  }

  /** The pass that is scheduled, computed from the cache as it is after invalidation; none if nothing is left to do. */
  function Scheduled(hash: Content -> Digest, cards: seq<LinkCard>, cache: Cache, generation: nat): seq<Pass> {
    var work := NotCached(AllLinked(cards, cards), Evicted(hash, cards, cache));
    if work == [] then [] else [Pass(generation, cards, NewHashes(hash, cards, cache), work, 0, {})]
  }

  /** A pass is scheduled exactly when a linked card is left without an entry. */
  lemma ScheduledWhenNeeded(hash: Content -> Digest, cards: seq<LinkCard>, cache: Cache, generation: nat)
    ensures Scheduled(hash, cards, cache, generation) == [] <==>
            forall x :: IsLinked(cards, x) ==> x in Evicted(hash, cards, cache)
  {
    var work := NotCached(AllLinked(cards, cards), Evicted(hash, cards, cache));
    forall x ensures x in work <==> IsLinked(cards, x) && x !in Evicted(hash, cards, cache) {
      AllLinkedIs(cards, cards, x);
    }
    assert work != [] ==> work[0] in work;
  }

  /** What starting a pass does to the cache, the scheduled callbacks and the generation counter. */
  ghost predicate Begun(hash: Content -> Digest, cards: seq<LinkCard>,
                        cache0: Cache, pending0: seq<Pass>, generation0: nat,
                        cache: Cache, pending: seq<Pass>, generation: nat) {
    && generation == NextGeneration(generation0)
    && cache == Evicted(hash, cards, cache0)
    && pending == pending0 + Scheduled(hash, cards, cache0, generation)
  }

  lemma StartConsistent(hash: Content -> Digest, cards: seq<LinkCard>, cache: Cache, contents: Contents,
                        pending: seq<Pass>, generation: nat)
    requires CacheInv(hash, cache, contents)
    requires Trustworthy(hash, cards, cache, contents, pending, generation)
    ensures Consistent(hash, Evicted(hash, cards, cache), contents,
                       pending + Scheduled(hash, cards, cache, generation), generation, Some(cards))
  {
    var cache' := Evicted(hash, cards, cache);
    var work := NotCached(AllLinked(cards, cards), cache');
    var pass := Pass(generation, cards, NewHashes(hash, cards, cache), work, 0, {});
    StartKeeps(hash, cards, cache, contents, Needed(cards, cache), generation);
    if work == [] {
      DrainedIsExact(hash, pass, cache', contents);
      StampedDigests(hash, pass, cache', contents);
      assert pending + [] == pending;
    } else {
      PushCurrent(pending, pass, generation);
    }
  }

  lemma PushCurrent(pending: seq<Pass>, pass: Pass, generation: nat)
    requires !Current(pending, generation) && pass.generation == generation
    ensures AtMostOneCurrent(pending + [pass], generation) && Current(pending + [pass], generation)
    ensures forall i :: 0 <= i < |pending + [pass]| && (pending + [pass])[i].generation == generation ==>
              (pending + [pass])[i] == pass
  {
    assert (pending + [pass])[|pending|] == pass;
  }

  function Remove(pending: seq<Pass>, i: nat): seq<Pass>
    requires i < |pending|
  {
    pending[..i] + pending[i + 1..]
  }

  /** Callback `i` has got further and has work left; the others wait as before. */
  ghost predicate Progressed(before: seq<Pass>, after: seq<Pass>, i: nat) {
    && i < |before| == |after|
    && before[i].offset < after[i].offset < |before[i].cardIds|
    && after == before[i := before[i].(offset := after[i].offset, filled := after[i].filled)]
  }

  lemma RemovedAre(pending: seq<Pass>, i: nat)
    requires i < |pending|
    ensures |Remove(pending, i)| == |pending| - 1
    ensures forall k :: 0 <= k < |pending| - 1 ==> Remove(pending, i)[k] == pending[if k < i then k else k + 1]
  {
  }

  lemma RemoveStale(pending: seq<Pass>, generation: nat, i: nat)
    requires i < |pending| && pending[i].generation != generation
    ensures Current(Remove(pending, i), generation) <==> Current(pending, generation)
    ensures AtMostOneCurrent(pending, generation) ==> AtMostOneCurrent(Remove(pending, i), generation)
  {
    var rest := Remove(pending, i);
    RemovedAre(pending, i);
    if Current(pending, generation) {
      var k :| 0 <= k < |pending| && pending[k].generation == generation;
      assert rest[if k < i then k else k - 1] == pending[k];
    }
  }

  /** A cancelled callback leaves everything as it was. */
  lemma CancelledKeeps(hash: Content -> Digest, cache: Cache, contents: Contents, pending: seq<Pass>,
                       generation: nat, cards: Option<seq<LinkCard>>, i: nat)
    requires Consistent(hash, cache, contents, pending, generation, cards)
    requires i < |pending| && pending[i].generation != generation
    ensures Consistent(hash, cache, contents, Remove(pending, i), generation, cards)
  {
    RemoveStale(pending, generation, i);
    if cards.Some? {
      RemovedAre(pending, i);
      assert PendingOk(hash, Remove(pending, i), generation, cards.value, cache, contents);
    }
  }

  /** A callback of the current pass, rescheduled with work left or finished. */
  lemma ProgressKeeps(hash: Content -> Digest, cache: Cache, contents: Contents, pending: seq<Pass>,
                      generation: nat, i: nat, p: Pass)
    requires i < |pending| && pending[i].generation == generation == p.generation
    requires AtMostOneCurrent(pending, generation) && PassInv(hash, p, cache, contents)
    ensures Consistent(hash, cache, contents,
                       if p.offset < |p.cardIds| then pending[i := p] else Remove(pending, i), generation,
                       Some(p.cards))
  {
    assert CacheInv(hash, cache, contents);
    if p.offset < |p.cardIds| {
      ReplacedCurrent(hash, cache, contents, pending, generation, i, p);
    } else {
      RemovedCurrent(pending, generation, i);
      assert PassInv(hash, p, cache, contents);
      DrainedIsExact(hash, p, cache, contents);
      StampedDigests(hash, p, cache, contents);
    }
  }

  lemma ReplacedCurrent(hash: Content -> Digest, cache: Cache, contents: Contents, pending: seq<Pass>,
                        generation: nat, i: nat, p: Pass)
    requires i < |pending| && pending[i].generation == generation == p.generation
    requires AtMostOneCurrent(pending, generation) && PassInv(hash, p, cache, contents)
    ensures var pending' := pending[i := p];
            && AtMostOneCurrent(pending', generation) && Current(pending', generation)
            && PendingOk(hash, pending', generation, p.cards, cache, contents)
  {
    assert pending[i := p][i] == p;
  }

  lemma RemovedCurrent(pending: seq<Pass>, generation: nat, i: nat)
    requires i < |pending| && pending[i].generation == generation && AtMostOneCurrent(pending, generation)
    ensures !Current(Remove(pending, i), generation)
  {
    RemovedAre(pending, i);
  }

  /** Each entry is the one from before, or the expansion on these cards. */
  ghost predicate OldOrExact(cards: seq<LinkCard>, before: Cache, after: Cache) {
    && before.Keys <= after.Keys
    && forall x :: x in after ==>
         (x in before && after[x] == before[x]) || IsExpansion(cards, x, after[x].reachable)
  }

  lemma FillIsExact(cards: seq<LinkCard>, before: Cache, cache: Cache, hashes: map<Uuid, Digest>,
                    component: seq<Uuid>, cid: Uuid)
    requires SymmetricLinks(cards) && IsComponent(cards, component, cid) && OldOrExact(cards, before, cache)
    ensures OldOrExact(cards, before, Filled(cache, hashes, component))
  {
    var cache' := Filled(cache, hashes, component);
    forall x | x in cache' && x in component ensures IsExpansion(cards, x, cache'[x].reachable) {
      FilledStaysExact(cards, cache, hashes, component, cid, x);
      OthersDistinct(component, x);
      GroupIsExpansion(cards, cache', x);
    }
  }

  lemma ExpansionIsComponent(cards: seq<LinkCard>, cid: Uuid, expanded: seq<Uuid>)
    requires IsExpansion(cards, cid, expanded)
    ensures IsComponent(cards, expanded + [cid], cid)
  {
    ComponentIsClosed(cards, cid);
    ElementsAppend(expanded, [cid]);
    assert cid !in Elements(expanded);
    DistinctAppend(expanded, [cid]);
  }

  /** The component of the next card on the list, computed afresh on the pass's cards. */
  method NextComponent(p: Pass) returns (component: seq<Uuid>)
    requires p.offset < |p.cardIds|
    ensures IsComponent(p.cards, component, p.cardIds[p.offset])
  {
    var cid := p.cardIds[p.offset];
    var expanded, _ := ExpandLinkedCards(cid, p.cards);
    ExpansionIsComponent(p.cards, cid, expanded);
    component := expanded + [cid];
  }

  lemma BatchFillsAll(cache: Cache, batch: seq<(Uuid, Entry)>, hashes: map<Uuid, Digest>, component: seq<Uuid>)
    ensures ApplyBatch(cache, batch + MemberEntries(hashes, component, |component|)) ==
            Filled(ApplyBatch(cache, batch), hashes, component)
  {
    BatchFills(cache, batch, hashes, component, |component|);
    assert component[..|component|] == component;
  }

  ghost predicate HasContent(cards: seq<LinkCard>, c: Content) {
    exists i :: 0 <= i < |cards| && cards[i].content == c
  }

  /** What is recorded was recorded before, or is the content of one of the cards. */
  ghost predicate ContentsFrom(contents': Contents, contents: Contents, cards: seq<LinkCard>) {
    forall id :: id in contents' ==>
      (id in contents && contents'[id] == contents[id]) || HasContent(cards, contents'[id])
  }

  lemma RecordedFrom(before: Contents, contents: Contents, cards: seq<LinkCard>, component: seq<Uuid>)
    requires ContentsFrom(contents, before, cards)
    ensures ContentsFrom(Recorded(contents, cards, component), before, cards)
  {
    forall id | id in CardMap(cards) ensures HasContent(cards, CardMap(cards)[id].content) {
      var i :| 0 <= i < |cards| && cards[i] == CardMap(cards)[id];
    }
  }

  /** One idle callback: at least one turn, then as many as the idle budget allows. */
  method RunTurns(hash: Content -> Digest, p0: Pass, ghost cache: Cache, ghost contents: Contents,
                  ghost trusted: bool, budget: nat)
    returns (p: Pass, batch: seq<(Uuid, Entry)>, ghost contents': Contents)
    requires trusted ==> PassInv(hash, p0, cache, contents)
    ensures trusted ==> PassInv(hash, p, ApplyBatch(cache, batch), contents')
    ensures trusted ==> OldOrExact(p0.cards, cache, ApplyBatch(cache, batch))
    ensures p == p0.(offset := p.offset, filled := p.filled)
    ensures p0.offset < |p0.cardIds| ==> p0.offset < p.offset <= |p0.cardIds|
    ensures p0.offset >= |p0.cardIds| ==> p.offset == p0.offset
    ensures p0.offset <= |p0.cardIds| ==> p.offset == Min(p0.offset + budget + 1, |p0.cardIds|)
    ensures ContentsFrom(contents', contents, p0.cards)
  {
    p, batch, contents' := p0, [], contents;
    var turns := 0;
    while turns <= budget
      invariant turns <= budget + 1
      invariant trusted ==> PassInv(hash, p, ApplyBatch(cache, batch), contents')
      invariant trusted ==> OldOrExact(p0.cards, cache, ApplyBatch(cache, batch))
      invariant p == p0.(offset := p.offset, filled := p.filled)
      invariant p0.offset < |p0.cardIds| ==>
                  p0.offset <= p.offset <= |p0.cardIds| && (turns > 0 ==> p0.offset < p.offset)
      invariant p0.offset >= |p0.cardIds| ==> p.offset == p0.offset
      invariant p0.offset <= |p0.cardIds| ==> p.offset == Min(p0.offset + turns, |p0.cardIds|)
      invariant ContentsFrom(contents', contents, p0.cards)
    {
      turns := turns + 1;
      if p.offset >= |p.cardIds| {
        break;
      }
      if p.cardIds[p.offset] in p.filled {
        if trusted { SkipKeeps(hash, p, ApplyBatch(cache, batch), contents'); }
        p := p.(offset := p.offset + 1);
        continue;
      }
      var component := NextComponent(p);
      if trusted {
        TurnKeeps(hash, p, ApplyBatch(cache, batch), contents', component);
        FillIsExact(p.cards, cache, ApplyBatch(cache, batch), p.hashes, component, p.cardIds[p.offset]);
      }
      BatchFillsAll(cache, batch, p.hashes, component);
      RecordedFrom(contents, contents', p.cards, component);
      contents' := Recorded(contents', p.cards, component);
      var batch', filled' := FillMembers(component, p.hashes, batch, p.filled);
      batch := batch';
      p := p.(offset := p.offset + 1, filled := filled');
    }
  }

  method Schedule(hash: Content -> Digest, cards: seq<LinkCard>, ghost before: Cache, generation: nat,
                  hashes: map<Uuid, Digest>, cardIds: seq<Uuid>) returns (scheduled: seq<Pass>)
    requires hashes == NewHashes(hash, cards, before)
    requires cardIds == NotCached(AllLinked(cards, cards), Evicted(hash, cards, before))
    ensures scheduled == Scheduled(hash, cards, before, generation)
  {
    scheduled := if cardIds == [] then [] else [Pass(generation, cards, hashes, cardIds, 0, {})];
  }

  lemma CurrentHasCards(hash: Content -> Digest, cache: Cache, contents: Contents, pending: seq<Pass>,
                        generation: nat, cards: Option<seq<LinkCard>>, i: nat)
    requires Consistent(hash, cache, contents, pending, generation, cards)
    requires i < |pending| && pending[i].generation == generation
    ensures cards == Some(pending[i].cards) && PassInv(hash, pending[i], cache, contents)
    ensures !Current(Remove(pending, i), generation)
  {
    RemovedAre(pending, i);
  }

  class LinkCache {
    const hash: Content -> Digest

    var cache: Cache
    var generation: nat
    var fingerprint: nat
    /** Scheduled callbacks, in any order the browser may run them. */
    var pending: seq<Pass>

    /** Content behind each entry. */
    ghost var contents: Contents
    /** Cards of the last pass that was not skipped, while the feature is on. */
    ghost var cards: Option<seq<LinkCard>>
    /** Whether every change so far was trustworthy. */
    ghost var trusted: bool

    ghost predicate Valid()
      reads this
    {
      && generation < U32
      && (trusted ==> Consistent(hash, cache, contents, pending, generation, cards))
    }

    constructor (hash: Content -> Digest)
      ensures Valid() && trusted && this.hash == hash
      ensures cache == map[] && generation == 0 && fingerprint == 0 && pending == []
      ensures cards == None && contents == map[]
    {
      this.hash := hash;
      cache, generation, fingerprint, pending := map[], 0, 0, [];
      contents, cards, trusted := map[], None, true;
    }

    /** The feature is switched off: cancel the running pass and forget everything, past mistakes included. */
    method Disable()
      requires Valid()
      modifies this
      ensures Valid()
      ensures cache == map[] && fingerprint == 0 && generation == NextGeneration(old(generation))
      ensures pending == old(pending) && cards == None && contents == old(contents)
      ensures trusted <==> !Current(pending, generation)
    {
      generation := NextGeneration(generation);
      cache, fingerprint := map[], 0;
      trusted := !Current(pending, generation);
      cards := None;
    }

    /** The effect that runs when the cards or the setting change. */
    method OnChange(enabled: bool, current: seq<LinkCard>, ghost trustworthy: bool)
      requires Valid()
      requires trustworthy ==> Trustworthy(hash, current, cache, contents, pending, NextGeneration(generation))
      modifies this
      ensures Valid()
      ensures !enabled ==>
                && cache == map[] && fingerprint == 0 && cards == None && unchanged(this`pending, this`contents)
                && generation == NextGeneration(old(generation)) && (trusted <==> !Current(pending, generation))
      ensures enabled && Fingerprint(current) == old(fingerprint) ==> unchanged(this)
      ensures enabled && Fingerprint(current) != old(fingerprint) ==>
                && fingerprint == Fingerprint(current) && cards == Some(current)
                && trusted == (old(trusted) && trustworthy) && unchanged(this`contents)
                && Begun(hash, current, old(cache), old(pending), old(generation), cache, pending, generation)
    {
      if !enabled {
        Disable();
        return;
      }
      var fp := ComputeFingerprint(current);
      if fp != fingerprint {
        if trusted && trustworthy {
          StartConsistent(hash, current, cache, contents, pending, NextGeneration(generation));
        }
        Restart(current, fp, trustworthy);
      }
    }

    method Restart(current: seq<LinkCard>, fp: nat, ghost trustworthy: bool)
      modifies this`cache, this`pending, this`generation, this`fingerprint, this`cards, this`trusted
      ensures fingerprint == fp && cards == Some(current) && trusted == (old(trusted) && trustworthy)
      ensures Begun(hash, current, old(cache), old(pending), old(generation), cache, pending, generation)
    {
      Begin(current);
      fingerprint, cards, trusted := fp, Some(current), trusted && trustworthy;
    }

    /** Cancel the running pass, invalidate, and schedule what is left to compute. */
    method Begin(current: seq<LinkCard>)
      modifies this`cache, this`pending, this`generation
      ensures Begun(hash, current, old(cache), old(pending), old(generation), cache, pending, generation)
    {
      generation := NextGeneration(generation);
      var allLinked := CollectLinked(current);
      var hashes := ContentHashes(hash, current, cache.Keys + Elements(allLinked));
      ghost var before := cache;
      Invalidate(hashes, CardIds(current));
      var scheduled := Schedule(hash, current, before, generation, hashes, NotCached(allLinked, cache));
      pending := pending + scheduled;
    }

    /** Evicts in place: changed entries, then entries that reach one, then deleted cards. */
    method Invalidate(hashes: map<Uuid, Digest>, cardSet: set<Uuid>)
      modifies this`cache
      ensures cache == Invalidated(old(cache), hashes, cardSet)
    {
      var changed := CacheModel.Changed(cache, hashes);
      if changed != {} {
        cache := cache - changed;
        cache := map id | id in cache && Elements(cache[id].reachable) !! changed :: cache[id];
        cache := map id | id in cache && id in cardSet :: cache[id];
      } else {
        cache := map id | id in cache && id in cardSet :: cache[id];
      }
    }

    /**
      An idle callback fires. A cancelled one does nothing; a current one advances, writes whole components only,
      and either reschedules itself or ends.
     */
    method RunCallback(i: nat, budget: nat)
      requires Valid() && i < |pending|
      modifies this`cache, this`pending, this`contents
      ensures Valid()
      ensures old(pending)[i].generation != generation ==>
                cache == old(cache) && contents == old(contents) && pending == Remove(old(pending), i)
      ensures old(pending)[i].generation == generation ==>
                && (trusted ==> OldOrExact(old(pending)[i].cards, old(cache), cache))
                && ContentsFrom(contents, old(contents), old(pending)[i].cards)
                && (pending == Remove(old(pending), i) || Progressed(old(pending), pending, i))
    {
      if pending[i].generation != generation {
        if trusted { CancelledKeeps(hash, cache, contents, pending, generation, cards, i); }
        pending := Remove(pending, i);
        return;
      }
      if trusted { CurrentHasCards(hash, cache, contents, pending, generation, cards, i); }
      var p, batch, contents' := RunTurns(hash, pending[i], cache, contents, trusted, budget);
      if trusted {
        ProgressKeeps(hash, ApplyBatch(cache, batch), contents', pending, generation, i, p);
      }
      contents := contents';
      cache := InsertBatch(cache, batch);
      pending := if p.offset < |p.cardIds| then pending[i := p] else Remove(pending, i);
    }

    /** A pass left to run ends after finitely many callbacks, however small the idle budget, with an exact cache. */
    method RunToEnd(i: nat)
      requires Valid() && i < |pending| && pending[i].generation == generation
      modifies this`cache, this`pending, this`contents
      ensures Valid() && |pending| == |old(pending)| - 1
      ensures trusted ==> cards.Some? && ExactFor(cards.value, cache)
    {
      var size := |pending|;
      while |pending| == size
        invariant Valid()
        invariant |pending| == size ==> i < |pending| && pending[i].generation == generation
        invariant |pending| == size || |pending| == size - 1
        invariant |pending| != size ==> trusted ==> cards.Some? && ExactFor(cards.value, cache)
        decreases |pending|, if |pending| == size && i < size then |pending[i].cardIds| - pending[i].offset else 0
      {
        if trusted { CurrentHasCards(hash, cache, contents, pending, generation, cards, i); }
        RunCallback(i, 0);
      }
    }
  }
}
