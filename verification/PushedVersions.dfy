/** A push of single versions, one item each: what the server makes of it. */
module PushedVersions {
  import opened Ids
  import opened Bytes
  import opened Integers
  import opened Canonical
  import opened Chains
  import opened IndexMaps
  import opened Sync
  import opened SyncLaws
  import opened Pushing
  import opened PushedShifts

  /** One item per version, as the editor sends them. */
  function ItemsOf(versions: seq<Card>): (r: seq<seq<Card>>)
    ensures |r| == |versions|
  {
    seq(|versions|, i requires 0 <= i < |versions| => [versions[i]])
  }

  function MovesOf(versions: seq<Card>): (r: seq<(Uuid, I64)>)
    ensures |r| == |versions|
  {
    seq(|versions|, i requires 0 <= i < |versions| => (versions[i].body.id, versions[i].body.priority))
  }

  function Priorities(cards: map<Uuid, Card>): map<Uuid, I64> { map k | k in cards :: cards[k].body.priority }

  /** A version the server can take but for its priority: it verifies and follows the current one. */
  predicate Extends(blake: Blake, store: Store, v: Card) {
    && VerifyCard(blake, v) && v.body.id !in store.deleted
    && v.body.ancestor == ExpectedAncestor(store.cards, v.body.id)
  }

  lemma TakenExact(cards: map<Uuid, Card>, v: Card)
    ensures PriorityTaken(cards, v) <==> !Free(Priorities(cards), v.body.id, v.body.priority)
  {
    if PriorityTaken(cards, v) {
      var k :| k in cards && k != v.body.id && cards[k].body.priority == v.body.priority;
      assert k in Priorities(cards);
    }
  }

  /** A single version is stored exactly if its priority is free. */
  lemma SingleVersion(blake: Blake, store: Store, v: Card)
    requires Extends(blake, store, v)
    ensures PushVersions(blake, store, [v]) ==
            if Free(Priorities(store.cards), v.body.id, v.body.priority)
            then Stored(store.(cards := store.cards[v.body.id := v]))
            else Failed(DuplicatePriority(v.body.priority))
  {
    TakenExact(store.cards, v);
  }

  lemma PrioritiesUpdate(cards: map<Uuid, Card>, v: Card)
    ensures Priorities(cards[v.body.id := v]) == Priorities(cards)[v.body.id := v.body.priority]
  {
  }

  /** The store after the first `n` versions. */
  ghost function After(store: Store, versions: seq<Card>, n: nat): Store
    requires n <= |versions|
  {
    store.(cards := store.cards + CardsById(versions[..n]))
  }

  lemma AfterNext(store: Store, versions: seq<Card>, n: nat)
    requires n < |versions|
    ensures var now := After(store, versions, n);
            After(store, versions, n + 1) == now.(cards := now.cards[versions[n].body.id := versions[n]])
  {
    var more := CardEntries(versions[..n + 1]);
    assert more[..n] == CardEntries(versions[..n]);
    assert more[n] == Entry(versions[n].body.id, versions[n]);
    PlusUpdate(store.cards, CardsById(versions[..n]), versions[n].body.id, versions[n]);
  }

  ghost predicate AllExtend(blake: Blake, store: Store, versions: seq<Card>) {
    OneCardPerId(versions) && forall i :: 0 <= i < |versions| ==> Extends(blake, store, versions[i])
  }

  /** A version not pushed yet still follows what the store holds for its id. */
  lemma StillExtends(blake: Blake, store: Store, versions: seq<Card>, n: nat)
    requires AllExtend(blake, store, versions) && n < |versions|
    ensures Extends(blake, After(store, versions, n), versions[n])
  {
    var all, entries := CardEntries(versions), CardEntries(versions[..n]);
    var id, m := versions[n].body.id, CardsById(versions[..n]);
    forall i | 0 <= i < |entries| ensures entries[i].key != id {
      assert all[i].key != all[n].key;
    }
    assert entries == all[..n];
    NotListed(entries, id);
  }

  lemma NotListed(entries: seq<Entry<Card>>, id: Uuid)
    requires UniqueKeys(entries) && forall i :: 0 <= i < |entries| ==> entries[i].key != id
    ensures id !in Contents(entries)
  {
    if id in Contents(entries) { ContentsExact(entries, id, Contents(entries)[id]); }
  }

  /** What a batch of single versions comes to: all stored, or a refusal for a priority and nothing else. */
  ghost predicate TakenExactlyIf(r: BatchOutcome, taken: bool, store: Store) {
    if taken then r == Accepted(store) else r.Refused? && r.error.DuplicatePriority?
  }

  /** One item, and what follows it. */
  lemma FirstItem(blake: Blake, store: Store, items: seq<seq<Card>>, n: nat, v: Card, rest: seq<(Uuid, I64)>,
                  end: Store)
    requires n < |items| && items[n] == [v] && Extends(blake, store, v)
    requires var next := store.(cards := store.cards[v.body.id := v]);
             TakenExactlyIf(PushFrom(blake, next, items, n + 1), TakeAll(Priorities(next.cards), rest).Some?, end)
    ensures TakenExactlyIf(PushFrom(blake, store, items, n),
                           TakeAll(Priorities(store.cards), [(v.body.id, v.body.priority)] + rest).Some?, end)
  {
    SingleVersion(blake, store, v);
    PrioritiesUpdate(store.cards, v);
    assert ([(v.body.id, v.body.priority)] + rest)[1..] == rest;
  }

  lemma MovesCons(versions: seq<Card>, n: nat)
    requires n < |versions|
    ensures MovesOf(versions)[n..] ==
            [(versions[n].body.id, versions[n].body.priority)] + MovesOf(versions)[n + 1..]
    ensures ItemsOf(versions)[n] == [versions[n]]
  {
  }

  /** The versions from `n` on are stored exactly if their priorities are free, each at its turn. */
  lemma {:induction false} ItemsTaken(blake: Blake, store: Store, versions: seq<Card>, n: nat)
    requires AllExtend(blake, store, versions) && n <= |versions|
    ensures TakenExactlyIf(PushFrom(blake, After(store, versions, n), ItemsOf(versions), n),
                           TakeAll(Priorities(After(store, versions, n).cards), MovesOf(versions)[n..]).Some?,
                           After(store, versions, |versions|))
    decreases |versions| - n
  {
    if n < |versions| {
      ItemsTaken(blake, store, versions, n + 1);
      StillExtends(blake, store, versions, n);
      AfterNext(store, versions, n);
      MovesCons(versions, n);
      FirstItem(blake, After(store, versions, n), ItemsOf(versions), n, versions[n], MovesOf(versions)[n + 1..],
                After(store, versions, |versions|));
    }
  }

  lemma AfterEnds(store: Store, versions: seq<Card>)
    ensures After(store, versions, 0) == store
    ensures After(store, versions, |versions|) == store.(cards := store.cards + CardsById(versions))
  {
    assert store.cards + map[] == store.cards;
    assert versions[..|versions|] == versions;
  }

  lemma VersionsTaken(blake: Blake, store: Store, versions: seq<Card>)
    requires AllExtend(blake, store, versions)
    ensures TakenExactlyIf(PushFrom(blake, store, ItemsOf(versions), 0),
                           TakeAll(Priorities(store.cards), MovesOf(versions)).Some?,
                           store.(cards := store.cards + CardsById(versions)))
  {
    ItemsTaken(blake, store, versions, 0);
    AfterEnds(store, versions);
    assert MovesOf(versions)[0..] == MovesOf(versions);
  }
}
