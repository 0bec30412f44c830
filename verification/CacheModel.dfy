/** What a cache of transitive link sets means, and what invalidating and filling it preserve. */
module CacheModel {
  import opened Bytes
  import opened Ids
  import opened LinkGraph

  datatype Entry = Entry(hash: Digest, reachable: seq<Uuid>)

  type Cache = map<Uuid, Entry>

  /** The content a cached card had when its entry was written; ids that named no card have none. */
  type Contents = map<Uuid, Content>

  function Group(cache: Cache, id: Uuid): set<Uuid>
    requires id in cache
  {
    {id} + Elements(cache[id].reachable)
  }

  /** `x` and `y` are linked by the recorded content of one of them. */
  predicate RecordedLink(contents: Contents, x: Uuid, y: Uuid) {
    || (x in contents && y in Links(contents[x].refs, x))
    || (y in contents && x in Links(contents[y].refs, y))
  }

  /** Members' own links stay inside. */
  ghost predicate ClosedGroup(contents: Contents, group: set<Uuid>) {
    forall m, y :: m in group && m in contents && y in Links(contents[m].refs, m) ==> y in group
  }

  /** `s` follows recorded links inside the group. */
  ghost predicate FollowsLinks(contents: Contents, group: set<Uuid>, s: set<Uuid>) {
    forall x, y :: x in s && x in group && y in group && RecordedLink(contents, x, y) ==> y in s
  }

  /** No part of the group can be cut off without cutting a recorded link. */
  ghost predicate ConnectedGroup(contents: Contents, group: set<Uuid>) {
    forall s: set<Uuid> :: s * group != {} && FollowsLinks(contents, group, s) ==> group <= s
  }

  /** Every member of the group is cached with the rest of the group. */
  ghost predicate SharedGroup(cache: Cache, group: set<Uuid>) {
    forall m :: m in group ==> m in cache && Group(cache, m) == group
  }

  ghost predicate GroupOk(cache: Cache, contents: Contents, group: set<Uuid>) {
    SharedGroup(cache, group) && ClosedGroup(contents, group) && ConnectedGroup(contents, group)
  }

  /** The entry reaches something, and the stored hash is that of the recorded content, or the placeholder. */
  ghost predicate EntryOk(hash: Content -> Digest, entry: Entry, contents: Contents, id: Uuid) {
    && entry.reachable != [] && Distinct(entry.reachable) && id !in entry.reachable
    && (entry.hash == ZERO_DIGEST || (id in contents && entry.hash == hash(contents[id])))
  }

  ghost predicate EntryInv(hash: Content -> Digest, cache: Cache, contents: Contents, id: Uuid) {
    id in cache ==> GroupOk(cache, contents, Group(cache, id)) && EntryOk(hash, cache[id], contents, id)
  }

  /** The invariant over every run: entries form groups, each connected and closed under its members' links. */
  ghost predicate CacheInv(hash: Content -> Digest, cache: Cache, contents: Contents) {
    forall id {:trigger EntryInv(hash, cache, contents, id)} :: EntryInv(hash, cache, contents, id)
  }

  /** The recorded contents are the current ones. */
  ghost predicate CacheCurrent(cards: seq<LinkCard>, cache: Cache, contents: Contents) {
    forall id :: id in cache ==>
      && (id in contents <==> id in CardMap(cards))
      && (id in contents ==> contents[id] == CardMap(cards)[id].content)
  }

  // ---------------------------------------------------------------- groups that are left alone

  ghost predicate SameOn(cache: Cache, contents: Contents, cache': Cache, contents': Contents, group: set<Uuid>) {
    forall m :: m in group ==>
      && (m in cache ==> m in cache' && cache'[m] == cache[m])
      && (m in contents <==> m in contents')
      && (m in contents ==> contents'[m] == contents[m])
  }

  lemma GroupKept(cache: Cache, contents: Contents, cache': Cache, contents': Contents, group: set<Uuid>)
    requires GroupOk(cache, contents, group) && SameOn(cache, contents, cache', contents', group)
    ensures GroupOk(cache', contents', group)
  {
    forall s: set<Uuid> | s * group != {} && FollowsLinks(contents', group, s) ensures group <= s {
      forall x, y | x in s && x in group && y in group && RecordedLink(contents, x, y) ensures y in s {
        assert RecordedLink(contents', x, y);
      }
      assert FollowsLinks(contents, group, s);
    }
  }

  // ---------------------------------------------------------------- selective invalidation

  /** Cached ids whose content changed, or whose card is gone. */
  function Changed(cache: Cache, hashes: map<Uuid, Digest>): set<Uuid> {
    set id | id in cache && (id in hashes ==> hashes[id] != cache[id].hash)
  }

  /** Drops changed entries, entries that reach one, and entries of deleted cards. */
  function Invalidated(cache: Cache, hashes: map<Uuid, Digest>, cardIds: set<Uuid>): Cache {
    var changed := Changed(cache, hashes);
    map id | id in cache && id !in changed && Elements(cache[id].reachable) !! changed && id in cardIds :: cache[id]
  }

  lemma SurvivesWhole(cache: Cache, hashes: map<Uuid, Digest>, cardIds: set<Uuid>, id: Uuid)
    requires hashes.Keys <= cardIds && id in Invalidated(cache, hashes, cardIds)
    requires SharedGroup(cache, Group(cache, id))
    ensures forall m :: m in Group(cache, id) ==> m in Invalidated(cache, hashes, cardIds)
  {
    var group, changed := Group(cache, id), Changed(cache, hashes);
    assert group !! changed;
    forall m | m in group ensures m in Invalidated(cache, hashes, cardIds) {
      assert Elements(cache[m].reachable) <= Group(cache, m) == group;
      assert m in hashes;
    }
  }

  /** A group survives whole or not at all, so invalidation keeps the invariant. */
  lemma InvalidateKeeps(hash: Content -> Digest, cache: Cache, contents: Contents,
                        hashes: map<Uuid, Digest>, cardIds: set<Uuid>)
    requires CacheInv(hash, cache, contents) && hashes.Keys <= cardIds
    ensures CacheInv(hash, Invalidated(cache, hashes, cardIds), contents)
  {
    var cache' := Invalidated(cache, hashes, cardIds);
    forall id ensures EntryInv(hash, cache', contents, id) {
      assert EntryInv(hash, cache, contents, id);
      if id in cache' { SurvivorKeeps(hash, cache, contents, hashes, cardIds, id); }
    }
  }

  lemma SurvivorKeeps(hash: Content -> Digest, cache: Cache, contents: Contents,
                      hashes: map<Uuid, Digest>, cardIds: set<Uuid>, id: Uuid)
    requires EntryInv(hash, cache, contents, id) && hashes.Keys <= cardIds
    requires id in Invalidated(cache, hashes, cardIds)
    ensures EntryInv(hash, Invalidated(cache, hashes, cardIds), contents, id)
  {
    var cache' := Invalidated(cache, hashes, cardIds);
    SurvivesWhole(cache, hashes, cardIds, id);
    assert Group(cache', id) == Group(cache, id);
    GroupKept(cache, contents, cache', contents, Group(cache, id));
  }

  /** Digests of the current contents of the given ids. */
  function ContentHashes(hash: Content -> Digest, cards: seq<LinkCard>, needed: set<Uuid>): map<Uuid, Digest> {
    map id | id in CardMap(cards) && id in needed :: hash(CardMap(cards)[id].content)
  }

  /** A digest is not the placeholder, and does not equate two different contents. */
  ghost predicate Tells(hash: Content -> Digest, recorded: Option<Content>, current: Content) {
    && hash(current) != ZERO_DIGEST
    && (recorded.Some? && hash(recorded.value) == hash(current) ==> recorded.value == current)
  }

  ghost function RecordedFor(contents: Contents, id: Uuid): Option<Content> {
    if id in contents then Some(contents[id]) else None
  }

  /** Digests tell every cached card's recorded content from its current one. */
  ghost predicate HashesTell(hash: Content -> Digest, cards: seq<LinkCard>, cache: Cache, contents: Contents) {
    forall id :: id in cache && id in CardMap(cards) ==>
      Tells(hash, RecordedFor(contents, id), CardMap(cards)[id].content)
  }

  /** What survives invalidation is current, and names cards only. */
  lemma SurvivorsAreCurrent(hash: Content -> Digest, cards: seq<LinkCard>, cache: Cache, contents: Contents,
                            needed: set<Uuid>)
    requires CacheInv(hash, cache, contents) && HashesTell(hash, cards, cache, contents)
    ensures var cache' := Invalidated(cache, ContentHashes(hash, cards, needed), CardIds(cards));
            && CacheCurrent(cards, cache', contents)
            && cache'.Keys <= CardIds(cards)
  {
    var hashes := ContentHashes(hash, cards, needed);
    var cache' := Invalidated(cache, hashes, CardIds(cards));
    forall id | id in cache'
      ensures id in contents && id in CardMap(cards) && contents[id] == CardMap(cards)[id].content
    {
      assert id in hashes && hashes[id] == cache[id].hash;
      assert EntryInv(hash, cache, contents, id);
      assert Tells(hash, RecordedFor(contents, id), CardMap(cards)[id].content);
    }
  }

  // ---------------------------------------------------------------- filling a component

  /** The component without `m`, in order. */
  function Others(component: seq<Uuid>, m: Uuid): (others: seq<Uuid>)
    ensures forall x :: x in others <==> x in component && x != m
  {
    if component == [] then []
    else (if component[0] != m then [component[0]] else []) + Others(component[1..], m)
  }

  lemma {:induction false} OthersDistinct(component: seq<Uuid>, m: Uuid)
    requires Distinct(component)
    ensures Distinct(Others(component, m))
  {
    if component != [] {
      var rest := component[1..];
      OthersDistinct(rest, m);
      assert component == [component[0]] + rest;
      assert component[0] !in rest;
      DistinctAppend(if component[0] != m then [component[0]] else [], Others(rest, m));
    }
  }

  function HashOr(hashes: map<Uuid, Digest>, m: Uuid): Digest {
    if m in hashes then hashes[m] else ZERO_DIGEST
  }

  function EntryFor(hashes: map<Uuid, Digest>, component: seq<Uuid>, m: Uuid): Entry {
    Entry(HashOr(hashes, m), Others(component, m))
  }

  /** All members of a component written at once. */
  function Filled(cache: Cache, hashes: map<Uuid, Digest>, component: seq<Uuid>): Cache {
    cache + map m | m in component :: EntryFor(hashes, component, m)
  }

  /** The contents recorded by that write. */
  ghost function Recorded(contents: Contents, cards: seq<LinkCard>, component: seq<Uuid>): Contents {
    var m := CardMap(cards);
    (contents - Elements(component)) + map id | id in m && id in component :: m[id].content
  }

  ghost predicate IsComponent(cards: seq<LinkCard>, component: seq<Uuid>, x: Uuid) {
    Distinct(component) && Elements(component) == Component(cards, x)
  }

  /** In the current cards, recorded links of current entries are links of the component graph. */
  lemma RecordedIsNeighbour(cards: seq<LinkCard>, cache: Cache, contents: Contents, x: Uuid, y: Uuid)
    requires UniqueCards(cards) && SymmetricLinks(cards)
    requires CacheCurrent(cards, cache, contents) && x in cache && y in cache && RecordedLink(contents, x, y)
    ensures y in Neighbours(cards, x)
  {
    if x in contents && y in Links(contents[x].refs, x) {
      assert y in Links(CardMap(cards)[x].content.refs, x);
    } else {
      assert x in Links(CardMap(cards)[y].content.refs, y);
      assert x in Neighbours(cards, y);
    }
  }

  /** A current group that meets a component lies inside it. */
  lemma GroupInsideComponent(cards: seq<LinkCard>, cache: Cache, contents: Contents, group: set<Uuid>, x: Uuid)
    requires UniqueCards(cards) && SymmetricLinks(cards)
    requires CacheCurrent(cards, cache, contents) && GroupOk(cache, contents, group)
    requires group * Component(cards, x) != {}
    ensures group <= Component(cards, x)
  {
    var k := Component(cards, x);
    ComponentIsClosed(cards, x);
    forall y, z | y in k && y in group && z in group && RecordedLink(contents, y, z) ensures z in k {
      RecordedIsNeighbour(cards, cache, contents, y, z);
    }
    assert FollowsLinks(contents, group, k);
  }

  /** Links of the current cards inside a freshly filled component are recorded. */
  lemma NeighbourIsRecorded(cards: seq<LinkCard>, contents: Contents, component: seq<Uuid>, y: Uuid, z: Uuid)
    requires UniqueCards(cards) && z in Neighbours(cards, y) && y in component && z in component
    ensures RecordedLink(Recorded(contents, cards, component), y, z)
  {
    var contents' := Recorded(contents, cards, component);
    BackLinksAre(y, cards, z);
    if !(y in CardMap(cards) && z in Links(CardMap(cards)[y].content.refs, y)) {
      var i :| 0 <= i < |cards| && cards[i].id == z && LinksBack(cards[i], y);
      CardMapFinds(cards, i);
      assert z in contents' && contents'[z] == cards[i].content;
    } else {
      assert y in contents' && contents'[y] == CardMap(cards)[y].content;
    }
  }

  lemma ComponentConnected(cards: seq<LinkCard>, contents: Contents, component: seq<Uuid>, x: Uuid, s: set<Uuid>)
    requires UniqueCards(cards) && SymmetricLinks(cards) && IsComponent(cards, component, x)
    requires s * Component(cards, x) != {}
    requires FollowsLinks(Recorded(contents, cards, component), Component(cards, x), s)
    ensures Component(cards, x) <= s
  {
    var k := Component(cards, x);
    var start :| start in s * k;
    ComponentIsShared(cards, x, start);
    ComponentIsClosed(cards, x);
    forall y, z | y in s * k && z in Neighbours(cards, y) ensures z in s * k {
      assert y in Elements(component) && z in Elements(component);
      NeighbourIsRecorded(cards, contents, component, y, z);
    }
    ComponentIsLeast(cards, start, s * k);
  }

  lemma ComponentClosed(cards: seq<LinkCard>, contents: Contents, component: seq<Uuid>, x: Uuid)
    requires IsComponent(cards, component, x)
    ensures ClosedGroup(Recorded(contents, cards, component), Component(cards, x))
  {
    var contents' := Recorded(contents, cards, component);
    ComponentIsClosed(cards, x);
    forall m, y | m in Component(cards, x) && m in contents' && y in Links(contents'[m].refs, m)
      ensures y in Component(cards, x)
    {
      assert m in Elements(component);
      assert y in Neighbours(cards, m);
    }
  }

  lemma FilledShares(cache: Cache, hashes: map<Uuid, Digest>, component: seq<Uuid>)
    ensures SharedGroup(Filled(cache, hashes, component), Elements(component))
  {
    var cache' := Filled(cache, hashes, component);
    forall m | m in Elements(component) ensures m in cache' && Group(cache', m) == Elements(component) {
      assert cache'[m] == EntryFor(hashes, component, m);
    }
  }

  /** A freshly filled component is a proper group. */
  lemma ComponentIsGroup(cards: seq<LinkCard>, cache: Cache, contents: Contents, hashes: map<Uuid, Digest>,
                         component: seq<Uuid>, x: Uuid)
    requires UniqueCards(cards) && SymmetricLinks(cards) && IsComponent(cards, component, x)
    ensures GroupOk(Filled(cache, hashes, component), Recorded(contents, cards, component), Component(cards, x))
  {
    FilledShares(cache, hashes, component);
    ComponentClosed(cards, contents, component, x);
    forall s: set<Uuid> | s * Component(cards, x) != {}
                          && FollowsLinks(Recorded(contents, cards, component), Component(cards, x), s)
      ensures Component(cards, x) <= s
    {
      ComponentConnected(cards, contents, component, x, s);
    }
  }

  /** Hashes taken from the current contents. */
  ghost predicate HashesCurrent(hash: Content -> Digest, cards: seq<LinkCard>, hashes: map<Uuid, Digest>) {
    forall id :: id in hashes ==> id in CardMap(cards) && hashes[id] == hash(CardMap(cards)[id].content)
  }

  lemma FilledEntryOk(hash: Content -> Digest, cards: seq<LinkCard>, contents: Contents,
                      hashes: map<Uuid, Digest>, component: seq<Uuid>, m: Uuid, other: Uuid)
    requires HashesCurrent(hash, cards, hashes) && Distinct(component) && m in component
    requires other in component && other != m
    ensures EntryOk(hash, EntryFor(hashes, component, m), Recorded(contents, cards, component), m)
  {
    OthersDistinct(component, m);
    assert other in Others(component, m);
  }

  /** A component with more than one member has another one beside any member. */
  lemma OtherMember(cards: seq<LinkCard>, component: seq<Uuid>, x: Uuid, m: Uuid) returns (other: Uuid)
    requires IsComponent(cards, component, x) && Component(cards, x) != {x}
    ensures other in component && other != m
  {
    ComponentIsClosed(cards, x);
    var z :| z in Component(cards, x) && z != x;
    assert x in Elements(component) && z in Elements(component);
    other := if m == x then z else x;
  }

  /** A group outside the component is untouched by the fill. */
  lemma OutsideIsKept(cards: seq<LinkCard>, cache: Cache, contents: Contents, hashes: map<Uuid, Digest>,
                      component: seq<Uuid>, group: set<Uuid>)
    requires GroupOk(cache, contents, group) && group !! Elements(component)
    ensures GroupOk(Filled(cache, hashes, component), Recorded(contents, cards, component), group)
  {
    GroupKept(cache, contents, Filled(cache, hashes, component), Recorded(contents, cards, component), group);
  }

  lemma FilledOutside(cards: seq<LinkCard>, cache: Cache, contents: Contents, hashes: map<Uuid, Digest>,
                      component: seq<Uuid>, x: Uuid, id: Uuid)
    requires UniqueCards(cards) && SymmetricLinks(cards) && IsComponent(cards, component, x)
    requires CacheCurrent(cards, cache, contents) && id in cache && id !in component
    requires GroupOk(cache, contents, Group(cache, id))
    ensures var cache', contents' := Filled(cache, hashes, component), Recorded(contents, cards, component);
            && id in cache' && cache'[id] == cache[id] && Group(cache', id) == Group(cache, id)
            && GroupOk(cache', contents', Group(cache, id))
  {
    var group := Group(cache, id);
    assert id !in Elements(component);
    if group * Component(cards, x) != {} {
      GroupInsideComponent(cards, cache, contents, group, x);
    }
    OutsideIsKept(cards, cache, contents, hashes, component, group);
  }

  /** Filling a whole component keeps the invariant, although it may overwrite several older groups. */
  lemma FillKeeps(hash: Content -> Digest, cards: seq<LinkCard>, cache: Cache, contents: Contents,
                  hashes: map<Uuid, Digest>, component: seq<Uuid>, x: Uuid)
    requires UniqueCards(cards) && SymmetricLinks(cards) && IsComponent(cards, component, x)
    requires HashesCurrent(hash, cards, hashes) && Component(cards, x) != {x}
    requires CacheInv(hash, cache, contents) && CacheCurrent(cards, cache, contents)
    ensures CacheInv(hash, Filled(cache, hashes, component), Recorded(contents, cards, component))
    ensures CacheCurrent(cards, Filled(cache, hashes, component), Recorded(contents, cards, component))
  {
    var cache', contents' := Filled(cache, hashes, component), Recorded(contents, cards, component);
    ComponentIsGroup(cards, cache, contents, hashes, component, x);
    FilledShares(cache, hashes, component);
    forall id ensures EntryInv(hash, cache', contents', id) {
      assert EntryInv(hash, cache, contents, id);
      if id in component {
        assert id in Elements(component);
        var other := OtherMember(cards, component, x, id);
        FilledEntryOk(hash, cards, contents, hashes, component, id, other);
      } else if id in cache {
        FilledOutside(cards, cache, contents, hashes, component, x, id);
      }
    }
  }
}
