/** Whole sessions of the link cache: card changes, switches and idle callbacks in any order. */
module LinkSessions {
  import opened Ids
  import opened Bytes
  import opened LinkGraph
  import opened Expansion
  import opened CacheModel
  import opened LinkCaching

  /** A run of the effect with the setting and the cards it sees, or an idle callback with some time budget. */
  datatype Event =
    | Changed(enabled: bool, cards: seq<LinkCard>)
    | Idle(callback: nat, budget: nat)

  // ---------------------------------------------------------------- what a session may assume

  ghost predicate Listed(events: seq<Event>, cards: seq<LinkCard>) { Changed(true, cards) in events }

  ghost predicate Occurs(events: seq<Event>, c: Content) {
    exists cards {:trigger Listed(events, cards)} :: Listed(events, cards) && HasContent(cards, c)
  }

  /** Every list the feature sees has unique ids, and its references to cards are found in lower case. */
  ghost predicate ProperLists(events: seq<Event>) {
    forall cards {:trigger Listed(events, cards)} ::
      Listed(events, cards) ==> UniqueCards(cards) && ReferencesAreFound(cards)
  }

  /** Digests tell the contents of the session apart, and none is the placeholder. */
  ghost predicate DigestsTell(hash: Content -> Digest, events: seq<Event>) {
    && (forall c :: Occurs(events, c) ==> hash(c) != ZERO_DIGEST)
    && (forall c, d :: Occurs(events, c) && Occurs(events, d) && hash(c) == hash(d) ==> c == d)
  }

  /** How often the effect runs; nothing else advances the generation. */
  function Changes(events: seq<Event>): nat {
    if events == [] then 0 else Changes(events[..|events| - 1]) + if events[|events| - 1].Changed? then 1 else 0
  }

  /** A session with too few changes to wrap the 32-bit generation counter. */
  ghost predicate Proper(hash: Content -> Digest, events: seq<Event>) {
    Changes(events) < U32 && ProperLists(events) && DigestsTell(hash, events)
  }

  // ---------------------------------------------------------------- what a session is about

  /** The remembered fingerprint, and the cards of the last change that was not skipped. */
  datatype Guard = Guard(fingerprint: nat, cards: Option<seq<LinkCard>>)

  /** The fingerprint guard, folded over the events. */
  function Guarded(events: seq<Event>): Guard {
    if events == [] then Guard(0, None)
    else
      var g := Guarded(events[..|events| - 1]);
      match events[|events| - 1]
      case Changed(enabled, cards) =>
        if !enabled then Guard(0, None)
        else if Fingerprint(cards) == g.fingerprint then g
        else Guard(Fingerprint(cards), Some(cards))
      case Idle(_, _) => g
  }

  /** The list of the last change. */
  function LastList(events: seq<Event>): Option<seq<LinkCard>> {
    if events == [] then None
    else
      match events[|events| - 1]
      case Changed(_, cards) => Some(cards)
      case Idle(_, _) => LastList(events[..|events| - 1])
  }

  /** With the feature on, each change edits, adds or removes one card. */
  ghost predicate Stepwise(events: seq<Event>) {
    events != [] ==>
      var before := events[..|events| - 1];
      && Stepwise(before)
      && match events[|events| - 1]
         case Changed(enabled, cards) =>
           enabled && if LastList(before).Some? then OneStep(LastList(before).value, cards) else Fingerprint(cards) != 0
         case Idle(_, _) => true
  }

  /** The guard lets every step through, so it always stands at the last list. */
  lemma {:induction false} StepsPassTheGuard(events: seq<Event>)
    requires Stepwise(events)
    ensures Guarded(events).cards == LastList(events)
    ensures Guarded(events).fingerprint == if LastList(events).Some? then Fingerprint(LastList(events).value) else 0
  {
    if events != [] {
      var before := events[..|events| - 1];
      StepsPassTheGuard(before);
      if events[|events| - 1].Changed? && LastList(before).Some? {
        OneStepIsNoticed(LastList(before).value, events[|events| - 1].cards);
      }
    }
  }

  /** The guard remembers the fingerprint of its cards. */
  lemma {:induction false} GuardMatches(events: seq<Event>)
    ensures Guarded(events).fingerprint ==
            if Guarded(events).cards.Some? then Fingerprint(Guarded(events).cards.value) else 0
  {
    if events != [] { GuardMatches(events[..|events| - 1]); }
  }

  /** The cache is right for these cards; without cards it is empty. */
  ghost predicate Fits(cards: Option<seq<LinkCard>>, cache: Cache) {
    if cards.Some? then ExactFor(cards.value, cache) else cache == map[]
  }

  /** An upper bound on the callbacks all changes together can need. */
  function Load(events: seq<Event>): nat {
    if events == [] then 0
    else
      var last := events[|events| - 1];
      Load(events[..|events| - 1]) + if last.Changed? && last.enabled then |last.cards| + 1 else 0
  }

  /** How many callbacks have run since the last change. */
  function Trailing(events: seq<Event>): nat {
    if events == [] || events[|events| - 1].Changed? then 0 else Trailing(events[..|events| - 1]) + 1
  }

  // ---------------------------------------------------------------- remaining work

  function WorkOf(p: Pass): nat { 1 + if p.offset < |p.cardIds| then |p.cardIds| - p.offset else 0 }

  function Work(pending: seq<Pass>): nat {
    if pending == [] then 0 else Work(pending[..|pending| - 1]) + WorkOf(pending[|pending| - 1])
  }

  lemma {:induction false} WorkAppend(a: seq<Pass>, b: seq<Pass>)
    ensures Work(a + b) == Work(a) + Work(b)
  {
    if b == [] {
      assert a + b == a;
    } else {
      assert (a + b)[..|a + b| - 1] == a + b[..|b| - 1];
      WorkAppend(a, b[..|b| - 1]);
    }
  }

  lemma WorkSnoc(a: seq<Pass>, p: Pass)
    ensures Work(a + [p]) == Work(a) + WorkOf(p)
  {
    assert (a + [p])[..|a|] == a;
  }

  lemma WorkSplit(pending: seq<Pass>, i: nat)
    requires i < |pending|
    ensures Work(pending) == Work(pending[..i]) + WorkOf(pending[i]) + Work(pending[i + 1..])
  {
    var head, rest := pending[..i] + [pending[i]], pending[i + 1..];
    assert pending == head + rest;
    WorkAppend(head, rest);
    WorkSnoc(pending[..i], pending[i]);
  }

  lemma WorkRemoved(pending: seq<Pass>, i: nat)
    requires i < |pending|
    ensures Work(Remove(pending, i)) < Work(pending)
  {
    WorkSplit(pending, i);
    WorkAppend(pending[..i], pending[i + 1..]);
  }

  lemma WorkProgressed(before: seq<Pass>, after: seq<Pass>, i: nat)
    requires Progressed(before, after, i)
    ensures Work(after) < Work(before)
  {
    WorkSplit(before, i);
    WorkSplit(after, i);
    assert after[..i] == before[..i] && after[i + 1..] == before[i + 1..];
  }

  lemma {:induction false} AllLinkedLength(cards: seq<LinkCard>, among: seq<LinkCard>)
    ensures |AllLinked(cards, among)| <= |among|
  {
    if among != [] { AllLinkedLength(cards, among[..|among| - 1]); }
  }

  lemma {:induction false} NotCachedLength(ids: seq<Uuid>, cache: Cache)
    ensures |NotCached(ids, cache)| <= |ids|
  {
    if ids != [] { NotCachedLength(ids[1..], cache); }
  }

  lemma WorkScheduled(hash: Content -> Digest, cards: seq<LinkCard>, cache: Cache, pending: seq<Pass>, generation: nat)
    ensures Work(pending + Scheduled(hash, cards, cache, generation)) <= Work(pending) + |cards| + 1
  {
    var scheduled := Scheduled(hash, cards, cache, generation);
    AllLinkedLength(cards, cards);
    NotCachedLength(AllLinked(cards, cards), Evicted(hash, cards, cache));
    WorkAppend(pending, scheduled);
    if scheduled != [] { assert scheduled[..0] == []; }
  }

  // ---------------------------------------------------------------- what a run keeps

  /** After `k` events: generations have not wrapped, and all that is captured or recorded comes from the events. */
  ghost predicate RunOk(events: seq<Event>, k: nat, contents: Contents, pending: seq<Pass>, generation: nat) {
    && k <= |events| && generation <= Changes(events[..k])
    && (forall i :: 0 <= i < |pending| ==> pending[i].generation <= generation && Listed(events, pending[i].cards))
    && (forall id :: id in contents ==> Occurs(events, contents[id]))
  }

  lemma {:induction false} ChangesBound(events: seq<Event>, k: nat)
    requires k <= |events|
    ensures Changes(events[..k]) <= Changes(events)
  {
    if k < |events| {
      assert events[..|events| - 1][..k] == events[..k];
      ChangesBound(events[..|events| - 1], k);
    } else {
      assert events[..k] == events;
    }
  }

  lemma ChangesStep(events: seq<Event>, k: nat)
    requires k < |events|
    ensures Changes(events[..k + 1]) == Changes(events[..k]) + if events[k].Changed? then 1 else 0
    ensures Changes(events[..k + 1]) <= Changes(events)
  {
    PrefixStep(events, k);
    ChangesBound(events, k + 1);
  }

  lemma CardOccurs(events: seq<Event>, cards: seq<LinkCard>, id: Uuid)
    requires Listed(events, cards) && id in CardMap(cards)
    ensures Occurs(events, CardMap(cards)[id].content)
  {
    var i :| 0 <= i < |cards| && cards[i] == CardMap(cards)[id];
    assert HasContent(cards, cards[i].content);
  }

  /** So every change of a proper session is trustworthy. */
  lemma ChangeIsTrustworthy(hash: Content -> Digest, events: seq<Event>, k: nat, cards: seq<LinkCard>, cache: Cache,
                            contents: Contents, pending: seq<Pass>, generation: nat)
    requires Proper(hash, events) && k < |events| && events[k] == Changed(true, cards)
    requires RunOk(events, k, contents, pending, generation)
    ensures NextGeneration(generation) == generation + 1
    ensures Trustworthy(hash, cards, cache, contents, pending, NextGeneration(generation))
  {
    ChangesStep(events, k);
    assert Listed(events, cards);
    SymmetryExact(cards);
    forall id | id in cache && id in CardMap(cards)
      ensures Tells(hash, RecordedFor(contents, id), CardMap(cards)[id].content)
    {
      CardOccurs(events, cards, id);
    }
  }

  lemma ScheduledRunOk(hash: Content -> Digest, events: seq<Event>, k: nat, cards: seq<LinkCard>, cache: Cache,
                       contents: Contents, pending: seq<Pass>, generation: nat)
    requires k < |events| && events[k] == Changed(true, cards) && RunOk(events, k, contents, pending, generation)
    ensures RunOk(events, k + 1, contents, pending + Scheduled(hash, cards, cache, generation + 1), generation + 1)
  {
    ChangesStep(events, k);
    assert Listed(events, cards);
    var added := Scheduled(hash, cards, cache, generation + 1);
    var all := pending + added;
    forall i | 0 <= i < |all| ensures all[i].generation <= generation + 1 && Listed(events, all[i].cards) {
      if i < |pending| { assert all[i] == pending[i]; } else { assert all[i] == added[i - |pending|]; }
    }
  }

  lemma RemovedRunOk(events: seq<Event>, k: nat, contents: Contents, pending: seq<Pass>, generation: nat, i: nat)
    requires k < |events| && RunOk(events, k, contents, pending, generation) && i < |pending|
    ensures RunOk(events, k + 1, contents, Remove(pending, i), generation)
  {
    ChangesStep(events, k);
    RemovedAre(pending, i);
  }

  lemma RecordedRunOk(events: seq<Event>, k: nat, contents: Contents, contents': Contents, pending: seq<Pass>,
                      generation: nat, i: nat)
    requires RunOk(events, k, contents, pending, generation) && i < |pending|
    requires ContentsFrom(contents', contents, pending[i].cards)
    ensures RunOk(events, k, contents', pending, generation)
  {
    assert Listed(events, pending[i].cards);
  }

  lemma ProgressedRunOk(events: seq<Event>, k: nat, contents: Contents, before: seq<Pass>, after: seq<Pass>,
                        generation: nat, i: nat)
    requires k < |events| && RunOk(events, k, contents, before, generation) && Progressed(before, after, i)
    ensures RunOk(events, k + 1, contents, after, generation)
  {
    ChangesStep(events, k);
  }

  /** Callbacks left to run are bounded by the changes so far, less the callbacks since. */
  ghost predicate Bounded(events: seq<Event>, pending: seq<Pass>) {
    pending == [] || Work(pending) + Trailing(events) <= Load(events)
  }

  lemma PrefixStep(events: seq<Event>, k: nat)
    requires k < |events|
    ensures events[..k + 1][..k] == events[..k] && events[..k + 1][k] == events[k]
  {
  }

  // ---------------------------------------------------------------- one event

  lemma DisabledRunOk(events: seq<Event>, k: nat, contents: Contents, pending: seq<Pass>, generation: nat)
    requires k < |events| && events[k].Changed? && Changes(events) < U32
    requires RunOk(events, k, contents, pending, generation)
    ensures NextGeneration(generation) == generation + 1 && !Current(pending, generation + 1)
    ensures RunOk(events, k + 1, contents, pending, generation + 1)
  {
    ChangesStep(events, k);
  }

  lemma GuardStep(events: seq<Event>, k: nat, cards: seq<LinkCard>)
    requires k < |events| && events[k] == Changed(true, cards)
    ensures Guarded(events[..k + 1]) ==
            if Fingerprint(cards) == Guarded(events[..k]).fingerprint then Guarded(events[..k])
            else Guard(Fingerprint(cards), Some(cards))
    ensures Load(events[..k + 1]) == Load(events[..k]) + |cards| + 1 && Trailing(events[..k + 1]) == 0
  {
    PrefixStep(events, k);
  }

  method SwitchOff(c: LinkCache, events: seq<Event>, k: nat)
    requires Proper(c.hash, events) && k < |events| && events[k].Changed? && !events[k].enabled
    requires c.Valid() && c.trusted && RunOk(events, k, c.contents, c.pending, c.generation)
    requires Guarded(events[..k]) == Guard(c.fingerprint, c.cards) && Bounded(events[..k], c.pending)
    modifies c
    ensures c.Valid() && c.trusted && RunOk(events, k + 1, c.contents, c.pending, c.generation)
    ensures Guarded(events[..k + 1]) == Guard(c.fingerprint, c.cards) && Bounded(events[..k + 1], c.pending)
  {
    PrefixStep(events, k);
    DisabledRunOk(events, k, c.contents, c.pending, c.generation);
    c.OnChange(false, events[k].cards, false);
  }

  /** What a run keeps holds after a pass is scheduled. */
  lemma BeginKeeps(hash: Content -> Digest, events: seq<Event>, k: nat, cards: seq<LinkCard>, cache: Cache,
                   contents: Contents, pending: seq<Pass>, generation: nat)
    requires Proper(hash, events) && k < |events| && events[k] == Changed(true, cards)
    requires RunOk(events, k, contents, pending, generation) && Bounded(events[..k], pending)
    ensures NextGeneration(generation) == generation + 1
    ensures Trustworthy(hash, cards, cache, contents, pending, generation + 1)
    ensures var pending' := pending + Scheduled(hash, cards, cache, generation + 1);
            RunOk(events, k + 1, contents, pending', generation + 1) && Bounded(events[..k + 1], pending')
    ensures RunOk(events, k + 1, contents, pending, generation) && Bounded(events[..k + 1], pending)
  {
    ChangesStep(events, k);
    ChangeIsTrustworthy(hash, events, k, cards, cache, contents, pending, generation);
    ScheduledRunOk(hash, events, k, cards, cache, contents, pending, generation);
    WorkScheduled(hash, cards, cache, pending, generation + 1);
    GuardStep(events, k, cards);
  }

  method SwitchOn(c: LinkCache, events: seq<Event>, k: nat)
    requires Proper(c.hash, events) && k < |events| && events[k].Changed? && events[k].enabled
    requires c.Valid() && c.trusted && RunOk(events, k, c.contents, c.pending, c.generation)
    requires Guarded(events[..k]) == Guard(c.fingerprint, c.cards) && Bounded(events[..k], c.pending)
    modifies c
    ensures c.Valid() && c.trusted && RunOk(events, k + 1, c.contents, c.pending, c.generation)
    ensures Guarded(events[..k + 1]) == Guard(c.fingerprint, c.cards) && Bounded(events[..k + 1], c.pending)
  {
    var current := events[k].cards;
    GuardStep(events, k, current);
    BeginKeeps(c.hash, events, k, current, c.cache, c.contents, c.pending, c.generation);
    c.OnChange(true, current, true);
  }

  method StepIdle(c: LinkCache, events: seq<Event>, k: nat)
    requires k < |events| && events[k].Idle?
    requires c.Valid() && c.trusted && RunOk(events, k, c.contents, c.pending, c.generation)
    requires Guarded(events[..k]) == Guard(c.fingerprint, c.cards) && Bounded(events[..k], c.pending)
    modifies c
    ensures c.Valid() && c.trusted && RunOk(events, k + 1, c.contents, c.pending, c.generation)
    ensures Guarded(events[..k + 1]) == Guard(c.fingerprint, c.cards) && Bounded(events[..k + 1], c.pending)
  {
    PrefixStep(events, k);
    ChangesStep(events, k);
    if c.pending == [] { return; }
    var i := events[k].callback % |c.pending|;
    ghost var contents, pending := c.contents, c.pending;
    WorkRemoved(pending, i);
    c.RunCallback(i, events[k].budget);
    RecordedRunOk(events, k, contents, c.contents, pending, c.generation, i);
    if Progressed(pending, c.pending, i) {
      WorkProgressed(pending, c.pending, i);
      ProgressedRunOk(events, k, c.contents, pending, c.pending, c.generation, i);
    } else {
      RemovedRunOk(events, k, c.contents, pending, c.generation, i);
    }
  }

  // ---------------------------------------------------------------- a session

  /**
    Any session over proper events, from an empty cache. Whenever no current callback is waiting, the cache is exactly
    right for the cards of the last change that the fingerprint guard let through; and once as many callbacks have run
    since the last change as the changes can need, nothing is waiting. When each change edits, adds or removes one card
    the guard lets all through, so that is the last list. At every moment each cached group is connected and closed
    under the links it was recorded with.
   */
  method Session(hash: Content -> Digest, events: seq<Event>) returns (c: LinkCache)
    requires Proper(hash, events)
    ensures fresh(c) && c.hash == hash && c.fingerprint == Guarded(events).fingerprint
    ensures c.Valid() && c.trusted && CacheInv(hash, c.cache, c.contents)
    ensures !Current(c.pending, c.generation) ==> Fits(Guarded(events).cards, c.cache)
    ensures !Current(c.pending, c.generation) && Stepwise(events) ==> Fits(LastList(events), c.cache)
    ensures !Current(c.pending, c.generation) && Guarded(events).cards.Some? ==>
              DigestsFor(hash, Guarded(events).cards.value, c.cache)
    ensures Trailing(events) >= Load(events) ==> c.pending == []
  {
    c := new LinkCache(hash);
    for k := 0 to |events|
      invariant fresh(c) && c.hash == hash && c.Valid() && c.trusted
      invariant RunOk(events, k, c.contents, c.pending, c.generation)
      invariant Guarded(events[..k]) == Guard(c.fingerprint, c.cards) && Bounded(events[..k], c.pending)
    {
      if events[k].Changed? && events[k].enabled {
        SwitchOn(c, events, k);
      } else if events[k].Changed? {
        SwitchOff(c, events, k);
      } else {
        StepIdle(c, events, k);
      }
    }
    assert events[..|events|] == events;
    if Stepwise(events) { StepsPassTheGuard(events); }
    SomeWork(c.pending);
  }

  lemma SomeWork(pending: seq<Pass>)
    ensures pending != [] ==> Work(pending) > 0
  {
  }

  // ---------------------------------------------------------------- when a skipped change is harmless

  ghost predicate Wanted(cards: Option<seq<LinkCard>>, x: Uuid) {
    cards.Some? && ShouldCache(cards.value, x)
  }

  /** The id belongs to a linked card's component in both or in neither, and the components are equal. */
  ghost predicate SameAt(before: Option<seq<LinkCard>>, after: seq<LinkCard>, x: Uuid) {
    && (Wanted(before, x) <==> ShouldCache(after, x))
    && (ShouldCache(after, x) ==> before.Some? && Component(before.value, x) == Component(after, x))
  }

  ghost predicate SameCoverage(before: Option<seq<LinkCard>>, after: seq<LinkCard>) {
    forall x {:trigger SameAt(before, after, x)} :: SameAt(before, after, x)
  }

  ghost predicate FitsAt(cards: Option<seq<LinkCard>>, cache: Cache, x: Uuid) {
    if cards.Some? then ExactAt(cards.value, cache, x) else x !in cache
  }

  lemma RightAt(before: Option<seq<LinkCard>>, after: seq<LinkCard>, cache: Cache, x: Uuid)
    requires FitsAt(before, cache, x)
    ensures ExactAt(after, cache, x) <==> SameAt(before, after, x)
  {
    if x in cache && IsExpansion(after, x, cache[x].reachable) {
      SameExpansion(before.value, after, x, cache[x].reachable);
    }
  }

  /** A cache that is right for one list is right for another exactly when the two cover the same. */
  lemma RightForBoth(before: Option<seq<LinkCard>>, after: seq<LinkCard>, cache: Cache)
    requires Fits(before, cache)
    ensures ExactFor(after, cache) <==> SameCoverage(before, after)
  {
    forall x ensures ExactAt(after, cache, x) <==> SameAt(before, after, x) {
      assert before.Some? ==> ExactAt(before.value, cache, x);
      RightAt(before, after, cache, x);
    }
  }

  lemma StartInside(cards: seq<LinkCard>, x: Uuid)
    ensures x in Component(cards, x)
  {
    ComponentIsClosed(cards, x);
  }

  lemma SameButOne(a: set<Uuid>, b: set<Uuid>, x: Uuid)
    requires x in a && x in b && a - {x} == b - {x}
    ensures a == b
  {
    assert a == (a - {x}) + {x} && b == (b - {x}) + {x};
  }

  lemma SameExpansion(before: seq<LinkCard>, after: seq<LinkCard>, x: Uuid, r: seq<Uuid>)
    requires IsExpansion(before, x, r) && IsExpansion(after, x, r)
    ensures Component(before, x) == Component(after, x)
  {
    StartInside(before, x);
    StartInside(after, x);
    SameButOne(Component(before, x), Component(after, x), x);
  }

  /**
    The guard, exactly. When the session after a change to `after` has settled, its cache is right for `after` if and
    only if the change was not skipped or made no difference to what is to be cached.
   */
  lemma GuardExact(events: seq<Event>, after: seq<LinkCard>, cache: Cache)
    requires Fits(Guarded(events + [Changed(true, after)]).cards, cache)
    ensures ExactFor(after, cache) <==>
            Fingerprint(after) != Guarded(events).fingerprint || SameCoverage(Guarded(events).cards, after)
  {
    var all := events + [Changed(true, after)];
    assert all[..|events|] == events;
    var g := Guarded(all);
    assert g == if Fingerprint(after) == Guarded(events).fingerprint then Guarded(events)
                else Guard(Fingerprint(after), Some(after));
    if g == Guarded(events) { RightForBoth(g.cards, after, cache); }
  }

  ghost predicate AllIdle(events: seq<Event>) {
    forall i :: 0 <= i < |events| ==> events[i].Idle?
  }

  lemma {:induction false} IdlesKeep(events: seq<Event>, idles: seq<Event>)
    requires AllIdle(idles)
    ensures Guarded(events + idles) == Guarded(events) && Load(events + idles) == Load(events)
    ensures Trailing(events + idles) == Trailing(events) + |idles|
  {
    if idles == [] {
      assert events + idles == events;
    } else {
      var n := |idles| - 1;
      assert (events + idles)[..|events| + n] == events + idles[..n];
      IdlesKeep(events, idles[..n]);
    }
  }

  /**
    A session, one more change, and enough callbacks to settle: the cache is right for the new list if and only if the
    change was not skipped or made no difference; so always when it edits, adds or removes one card.
   */
  method Settle(hash: Content -> Digest, events: seq<Event>, after: seq<LinkCard>, idles: seq<Event>)
    returns (c: LinkCache)
    requires Proper(hash, events + [Changed(true, after)] + idles) && AllIdle(idles)
    requires |idles| >= Load(events) + |after| + 1
    ensures ExactFor(after, c.cache) <==>
            Fingerprint(after) != Guarded(events).fingerprint || SameCoverage(Guarded(events).cards, after)
    ensures Guarded(events).cards.Some? && OneStep(Guarded(events).cards.value, after) ==> ExactFor(after, c.cache)
  {
    ghost var changed := events + [Changed(true, after)];
    GuardStep(changed, |events|, after);
    assert changed[..|events|] == events && changed[..|events| + 1] == changed;
    IdlesKeep(changed, idles);
    c := Session(hash, events + [Changed(true, after)] + idles);
    GuardExact(events, after, c.cache);
    GuardMatches(events);
    if Guarded(events).cards.Some? && OneStep(Guarded(events).cards.value, after) {
      OneStepIsNoticed(Guarded(events).cards.value, after);
    }
  }

  function Plain(id: Uuid, text: string, refs: seq<Uuid>): LinkCard {
    LinkCard(id, Content(text, refs, Elements(refs)), 1)
  }

  lemma LoneCard(cards: seq<LinkCard>)
    requires cards == [Plain(1, "", []), Plain(2, "", [])]
    ensures Component(cards, 3) == {3}
  {
    assert cards[0].id == 1 && cards[1].id == 2;
    forall y ensures y !in Neighbours(cards, 3) {
      NeighbourCases(cards, 3, y);
    }
    ComponentIsLeast(cards, 3, {3});
    ComponentIsClosed(cards, 3);
  }

  lemma NewLinker(cards: seq<LinkCard>, text: string)
    requires cards == [Plain(1, "", []), Plain(3, text, [1])]
    ensures IsLinked(cards, 3) && 1 in Component(cards, 3) && 3 in Component(cards, 3)
  {
    assert cards[0].id == 1 && cards[1].id == 3;
    CardMapFinds(cards, 1);
    assert 1 in Forward(cards[1]);
    LinkerIsLinked(cards, 3, 1);
    LinkedIsNeighbour(cards, 3, 1);
    ComponentIsClosed(cards, 3);
  }

  lemma PairCount(a: LinkCard, b: LinkCard)
    ensures CountSum([a, b]) == a.count + b.count
  {
    assert [a, b][..1] == [a] && [a][..0] == [];
    assert CountSum([a]) == a.count;
  }

  /**
    Skipped changes can matter: one card deleted and another added between two runs of the effect keep the
    fingerprint, and the new card's links are not noticed.
   */
  lemma FingerprintCanMiss()
    ensures var before := [Plain(1, "", []), Plain(2, "", [])];
            var after := [Plain(1, "", []), Plain(3, "00000000-0000-0000-0000-000000000001", [1])];
            && Fingerprint(before) == Fingerprint(after)
            && !SameCoverage(Some(before), after)
  {
    var before := [Plain(1, "", []), Plain(2, "", [])];
    var text := "00000000-0000-0000-0000-000000000001";
    var after := [Plain(1, "", []), Plain(3, text, [1])];
    PairCount(before[0], before[1]);
    PairCount(after[0], after[1]);
    NewComponent(before, after, text);
    assert !SameAt(Some(before), after, 3);
  }

  lemma ComponentGrew(before: seq<LinkCard>, after: seq<LinkCard>, x: Uuid, y: Uuid)
    requires Component(before, x) == {x} && y != x
    requires IsLinked(after, x) && y in Component(after, x) && x in Component(after, x)
    ensures !SameAt(Some(before), after, x)
  {
    assert ShouldCache(after, x);
    NotAlone(Component(before, x), Component(after, x), x, y);
  }

  lemma NotAlone(a: set<Uuid>, b: set<Uuid>, x: Uuid, y: Uuid)
    requires a == {x} && y in b && y != x
    ensures a != b
  {
  }

  lemma NewComponent(before: seq<LinkCard>, after: seq<LinkCard>, text: string)
    requires before == [Plain(1, "", []), Plain(2, "", [])] && after == [Plain(1, "", []), Plain(3, text, [1])]
    ensures !SameAt(Some(before), after, 3)
  {
    LoneCard(before);
    NewLinker(after, text);
    ComponentGrew(before, after, 3, 1);
  }
}
