/**
 * The server's side of a push (server/src/storage/sqlite/write.rs, server/src/storage/sqlite/mod.rs): the items of a
 * batch are checked and stored one after the other, and the first that fails takes the whole batch back.
 */
module Pushing {
  import opened Ids
  import opened Bytes
  import opened Integers
  import opened Canonical
  import opened Chains

  /** The current cards by id, and the ids that were deleted. */
  datatype Store = Store(cards: map<Uuid, Card>, deleted: set<Uuid>)

  datatype PushError =
    | EmptyChain
    | HashVerificationFailed
    | AlreadyDeleted
    | CardAncestorMismatch(latest: Card)
    | DuplicatePriority(priority: I64)

  datatype ItemOutcome = Stored(store: Store) | Failed(error: PushError)

  datatype BatchOutcome = Accepted(store: Store) | Refused(index: nat, error: PushError)

  predicate PriorityTaken(cards: map<Uuid, Card>, card: Card) {
    exists k :: k in cards && k != card.body.id && cards[k].body.priority == card.body.priority
  }

  /** The hash a new version of `id` must name. */
  function ExpectedAncestor(cards: map<Uuid, Card>, id: Uuid): Digest {
    if id in cards then cards[id].hash else ZERO_DIGEST
  }

  predicate Linked(versions: seq<Card>) {
    forall i :: 0 < i < |versions| ==> versions[i].body.ancestor == versions[i - 1].hash
  }

  /** One item: some versions of a card, of which the last becomes the current one. */
  function PushVersions(blake: Blake, store: Store, versions: seq<Card>): ItemOutcome {
    if versions == [] then Failed(EmptyChain)
    else
      var id, latest := versions[0].body.id, versions[|versions| - 1];
      if exists v :: v in versions && !VerifyCard(blake, v) then Failed(HashVerificationFailed)
      else if id in store.deleted then Failed(AlreadyDeleted)
      else if versions[0].body.ancestor != ExpectedAncestor(store.cards, id) then
        Failed(if id in store.cards then CardAncestorMismatch(store.cards[id]) else HashVerificationFailed)
      else if !Linked(versions) then Failed(HashVerificationFailed)
      else if PriorityTaken(store.cards, latest) then Failed(DuplicatePriority(latest.body.priority))
      else Stored(store.(cards := store.cards[latest.body.id := latest]))
  }

  /** The items from number `n` on. */
  function PushFrom(blake: Blake, store: Store, items: seq<seq<Card>>, n: nat): BatchOutcome
    requires n <= |items|
    decreases |items| - n
  {
    if n == |items| then Accepted(store)
    else
      match PushVersions(blake, store, items[n])
      case Stored(next) => PushFrom(blake, next, items, n + 1)
      case Failed(error) => Refused(n, error)
  }

  /** The store of a server; a batch runs in a transaction on it. */
  class SqliteStorage {
    const blake: Blake
    var store: Store

    constructor (blake: Blake)
      ensures this.blake == blake && store == Store(map[], {})
    {
      this.blake := blake;
      store := Store(map[], {});
    }

    /** Stores all items of the batch, or none. */
    method PushBatch(items: seq<seq<Card>>) returns (refusal: Option<(nat, PushError)>)
      modifies this
      ensures match PushFrom(blake, old(store), items, 0)
              case Accepted(next) => refusal == None && store == next
              case Refused(index, error) => refusal == Some((index, error)) && store == old(store)
    {
      var transaction := store;
      for n := 0 to |items|
        invariant store == old(store)
        invariant PushFrom(blake, transaction, items, n) == PushFrom(blake, store, items, 0)
      {
        match PushVersions(blake, transaction, items[n])
        case Stored(next) => transaction := next;
        case Failed(error) => return Some((n, error));
      }
      store := transaction;
      refusal := None;
    }
  }

  // ---------------------------------------------------------------- what one item comes to

  /** The first version follows the current one of its card, or starts a card that the store does not hold. */
  ghost predicate FollowsCurrent(cards: map<Uuid, Card>, v: Card) {
    if v.body.id in cards then v.body.ancestor == cards[v.body.id].hash else v.body.ancestor == ZERO_DIGEST
  }

  /** Each version names the hash of the one before it. */
  ghost predicate EachNamesLast(versions: seq<Card>) {
    forall i :: 1 <= i < |versions| ==> versions[i].body.ancestor == versions[i - 1].hash
  }

  ghost predicate AllVerify(blake: Blake, versions: seq<Card>) {
    forall i :: 0 <= i < |versions| ==> versions[i].hash == blake(CardBytes(versions[i].body))
  }

  /** No other card holds the priority. */
  ghost predicate PriorityFree(cards: map<Uuid, Card>, v: Card) {
    forall k :: k in cards && cards[k].body.priority == v.body.priority ==> k == v.body.id
  }

  /**
   * Exactly what an item comes to: stored if and only if there are versions, all verify, their card is not deleted,
   * the first follows the current version, each names the one before it and the priority is free; and otherwise the
   * error of the first of these that fails.
   */
  lemma PushVersionsExact(blake: Blake, store: Store, versions: seq<Card>)
    ensures var r := PushVersions(blake, store, versions);
            if versions == [] then r == Failed(EmptyChain)
            else
              var first, latest := versions[0], versions[|versions| - 1];
              if !AllVerify(blake, versions) then r == Failed(HashVerificationFailed)
              else if first.body.id in store.deleted then r == Failed(AlreadyDeleted)
              else if !FollowsCurrent(store.cards, first) then
                r == Failed(if first.body.id in store.cards then CardAncestorMismatch(store.cards[first.body.id])
                            else HashVerificationFailed)
              else if !EachNamesLast(versions) then r == Failed(HashVerificationFailed)
              else if !PriorityFree(store.cards, latest) then r == Failed(DuplicatePriority(latest.body.priority))
              else r == Stored(Store(store.cards[latest.body.id := latest], store.deleted))
  {
    if versions != [] && AllVerify(blake, versions) {
      forall v | v in versions ensures VerifyCard(blake, v) {
        var i :| 0 <= i < |versions| && versions[i] == v;
      }
    }
    if versions != [] && !AllVerify(blake, versions) {
      var i :| 0 <= i < |versions| && versions[i].hash != blake(CardBytes(versions[i].body));
      assert versions[i] in versions && !VerifyCard(blake, versions[i]);
    }
    assert EachNamesLast(versions) <==> Linked(versions);
  }

  // ---------------------------------------------------------------- what a batch comes to

  /** The stores on the way: each item before `n` is stored into what the one before it left. */
  ghost predicate IsTrace(blake: Blake, stores: seq<Store>, items: seq<seq<Card>>, n: nat) {
    && n <= |items| && |stores| == n + 1
    && forall k :: 0 <= k < n ==> PushVersions(blake, stores[k], items[k]) == Stored(stores[k + 1])
  }

  /** All items are stored, or the first that fails is named with its error. */
  ghost predicate IsOutcome(blake: Blake, stores: seq<Store>, items: seq<seq<Card>>, r: BatchOutcome) {
    match r
    case Accepted(store) => IsTrace(blake, stores, items, |items|) && stores[|items|] == store
    case Refused(index, error) =>
      && index < |items| && IsTrace(blake, stores, items, index)
      && PushVersions(blake, stores[index], items[index]) == Failed(error)
  }

  lemma TraceGrows(blake: Blake, stores: seq<Store>, items: seq<seq<Card>>, n: nat, next: Store)
    requires IsTrace(blake, stores, items, n) && n < |items|
    requires PushVersions(blake, stores[n], items[n]) == Stored(next)
    ensures IsTrace(blake, stores + [next], items, n + 1)
  {
    var all := stores + [next];
    forall k | 0 <= k < n + 1 ensures PushVersions(blake, all[k], items[k]) == Stored(all[k + 1]) {
      assert k < n ==> all[k + 1] == stores[k + 1];
    }
  }

  lemma {:induction false} OutcomeOn(blake: Blake, before: seq<Store>, items: seq<seq<Card>>, n: nat)
    returns (stores: seq<Store>)
    requires IsTrace(blake, before, items, n)
    ensures IsOutcome(blake, stores, items, PushFrom(blake, before[n], items, n))
    ensures |stores| > 0 && stores[0] == before[0]
    decreases |items| - n
  {
    stores := before;
    if n < |items| && PushVersions(blake, before[n], items[n]).Stored? {
      var next := PushVersions(blake, before[n], items[n]).store;
      TraceGrows(blake, before, items, n, next);
      stores := OutcomeOn(blake, before + [next], items, n + 1);
    }
  }

  /** A batch goes from item to item, each stored into what the ones before it left, and stops at the first failure. */
  lemma BatchGoesItemByItem(blake: Blake, store: Store, items: seq<seq<Card>>) returns (stores: seq<Store>)
    ensures |stores| > 0 && stores[0] == store
    ensures IsOutcome(blake, stores, items, PushFrom(blake, store, items, 0))
  {
    stores := OutcomeOn(blake, [store], items, 0);
  }

  // ---------------------------------------------------------------- what every batch keeps

  ghost predicate OnePriorityEach(cards: map<Uuid, Card>) {
    forall j, k :: j in cards && k in cards && j != k ==> cards[j].body.priority != cards[k].body.priority
  }

  /** Cards are filed under their ids, their hashes verify, and no two share a priority. */
  ghost predicate Sound(blake: Blake, store: Store) {
    && (forall k :: k in store.cards ==> store.cards[k].body.id == k && VerifyCard(blake, store.cards[k]))
    && OnePriorityEach(store.cards)
  }

  lemma NewPriorityIsItsOwn(cards: map<Uuid, Card>, card: Card)
    requires OnePriorityEach(cards) && !PriorityTaken(cards, card)
    ensures OnePriorityEach(cards[card.body.id := card])
  {
  }

  lemma StoredIsSound(blake: Blake, store: Store, versions: seq<Card>)
    requires Sound(blake, store) && PushVersions(blake, store, versions).Stored?
    ensures Sound(blake, PushVersions(blake, store, versions).store)
  {
    assert versions[|versions| - 1] in versions;
    NewPriorityIsItsOwn(store.cards, versions[|versions| - 1]);
  }

  /**
   * Whatever is pushed, no two cards of the store ever share a priority: a batch is stored whole, each of its items
   * checked, or not at all.
   */
  lemma {:induction false} PushIsSound(blake: Blake, store: Store, items: seq<seq<Card>>, n: nat)
    requires Sound(blake, store) && n <= |items|
    ensures var r := PushFrom(blake, store, items, n);
            r.Accepted? ==> Sound(blake, r.store)
    decreases |items| - n
  {
    if n < |items| && PushVersions(blake, store, items[n]).Stored? {
      StoredIsSound(blake, store, items[n]);
      PushIsSound(blake, PushVersions(blake, store, items[n]).store, items, n + 1);
    }
  }

  // ---------------------------------------------------------------- no version is lost

  /** The hash that a version replacing the current one of `id` descends from. */
  ghost function Head(cards: map<Uuid, Card>, id: Uuid): Digest {
    if id in cards then cards[id].hash else ZERO_DIGEST
  }

  /** Verified versions of one card, each naming the one before it, from `head` to `v`. */
  ghost predicate LeadsTo(blake: Blake, chain: seq<Card>, head: Digest, v: Card) {
    && chain != [] && chain[0].body.ancestor == head && chain[|chain| - 1] == v
    && EachNamesLast(chain) && AllVerify(blake, chain)
    && forall i :: 0 <= i < |chain| ==> chain[i].body.id == v.body.id
  }

  /** The current version of `id` is still the old one, or descends from it. */
  ghost predicate Descends(blake: Blake, before: map<Uuid, Card>, after: map<Uuid, Card>, id: Uuid) {
    && (id in before ==> id in after)
    && (id in after && !(id in before && after[id] == before[id]) ==> IsDescendant(blake, Head(before, id), after[id]))
  }

  ghost predicate IsDescendant(blake: Blake, head: Digest, v: Card) {
    exists chain :: LeadsTo(blake, chain, head, v)
  }

  /** All versions of an item are versions of one card. */
  ghost predicate OneCard(versions: seq<Card>) {
    forall i :: 0 <= i < |versions| ==> versions[i].body.id == versions[0].body.id
  }

  ghost predicate OneCardEach(items: seq<seq<Card>>) {
    forall n :: 0 <= n < |items| ==> OneCard(items[n])
  }

  lemma ItemDescends(blake: Blake, store: Store, versions: seq<Card>, id: Uuid)
    requires PushVersions(blake, store, versions).Stored? && OneCard(versions)
    ensures Descends(blake, store.cards, PushVersions(blake, store, versions).store.cards, id)
  {
    PushVersionsExact(blake, store, versions);
    if id == versions[|versions| - 1].body.id {
      assert LeadsTo(blake, versions, Head(store.cards, id), versions[|versions| - 1]);
    }
  }

  lemma ChainsJoin(blake: Blake, a: seq<Card>, b: seq<Card>, head: Digest, mid: Card, v: Card)
    requires LeadsTo(blake, a, head, mid) && LeadsTo(blake, b, mid.hash, v) && mid.body.id == v.body.id
    ensures LeadsTo(blake, a + b, head, v)
  {
    var chain := a + b;
    forall i | 1 <= i < |chain| ensures chain[i].body.ancestor == chain[i - 1].hash {
      if i < |a| {
        assert chain[i] == a[i] && chain[i - 1] == a[i - 1];
      } else if i == |a| {
        assert chain[i] == b[0] && chain[i - 1] == mid;
      } else {
        assert chain[i] == b[i - |a|] && chain[i - 1] == b[i - |a| - 1];
      }
    }
  }

  lemma DescendsOn(blake: Blake, a: map<Uuid, Card>, b: map<Uuid, Card>, c: map<Uuid, Card>, id: Uuid)
    requires Descends(blake, a, b, id) && Descends(blake, b, c, id)
    requires (id in b ==> b[id].body.id == id) && (id in c ==> c[id].body.id == id)
    ensures Descends(blake, a, c, id)
  {
    if id in b && id in c && !(id in a && b[id] == a[id]) && c[id] != b[id] {
      DescendantsJoin(blake, Head(a, id), b[id], c[id]);
    }
  }

  lemma DescendantsJoin(blake: Blake, head: Digest, mid: Card, v: Card)
    requires IsDescendant(blake, head, mid) && IsDescendant(blake, mid.hash, v) && mid.body.id == v.body.id
    ensures IsDescendant(blake, head, v)
  {
    var first :| LeadsTo(blake, first, head, mid);
    var second :| LeadsTo(blake, second, mid.hash, v);
    ChainsJoin(blake, first, second, head, mid, v);
  }

  /**
   * Whatever a batch of single cards stores, no version is lost: each card's current version is the old one, or
   * descends from it by hash links through versions of that card.
   */
  lemma {:induction false} BatchDescends(blake: Blake, store: Store, items: seq<seq<Card>>, n: nat, id: Uuid)
    requires Sound(blake, store) && OneCardEach(items) && n <= |items|
    ensures var r := PushFrom(blake, store, items, n);
            r.Accepted? ==> Descends(blake, store.cards, r.store.cards, id)
    decreases |items| - n
  {
    if n < |items| && PushVersions(blake, store, items[n]).Stored? {
      var next := PushVersions(blake, store, items[n]).store;
      assert OneCard(items[n]);
      ItemDescends(blake, store, items[n], id);
      StoredIsSound(blake, store, items[n]);
      BatchDescends(blake, next, items, n + 1, id);
      PushIsSound(blake, next, items, n + 1);
      var r := PushFrom(blake, next, items, n + 1);
      if r.Accepted? { DescendsOn(blake, store.cards, next.cards, r.store.cards, id); }
    }
  }

  /** The store after a batch, which a refusal leaves as it was. */
  function AfterBatch(blake: Blake, store: Store, items: seq<seq<Card>>): Store {
    match PushFrom(blake, store, items, 0)
    case Accepted(next) => next
    case Refused(_, _) => store
  }

  function AfterAll(blake: Blake, store: Store, batches: seq<seq<seq<Card>>>): Store {
    if batches == [] then store
    else AfterBatch(blake, AfterAll(blake, store, batches[..|batches| - 1]), batches[|batches| - 1])
  }

  /** Over any run of batches of any clients, accepted or refused: priorities stay apart and no version is lost. */
  lemma {:induction false} RunDescends(blake: Blake, store: Store, batches: seq<seq<seq<Card>>>, id: Uuid)
    requires Sound(blake, store) && forall b :: 0 <= b < |batches| ==> OneCardEach(batches[b])
    ensures Sound(blake, AfterAll(blake, store, batches))
    ensures Descends(blake, store.cards, AfterAll(blake, store, batches).cards, id)
  {
    if batches != [] {
      var init, last := batches[..|batches| - 1], batches[|batches| - 1];
      var mid := AfterAll(blake, store, init);
      RunDescends(blake, store, init, id);
      PushIsSound(blake, mid, last, 0);
      assert OneCardEach(last);
      BatchDescends(blake, mid, last, 0, id);
      if PushFrom(blake, mid, last, 0).Accepted? {
        DescendsOn(blake, store.cards, mid.cards, AfterBatch(blake, mid, last).cards, id);
      }
    }
  }

  /** A version of card 8 that names a new card 7 as its ancestor. */
  function Grafted(blake: Blake, e: CardEdit): Card {
    SealCard(blake, FirstCard(blake, 8, e).body.(count := 2, ancestor := FirstCard(blake, 7, e).hash))
  }

  /**
   * Items have to be of one card: ids inside an item are not compared. A new card 7 followed by a version of card 8
   * that names it is stored, and replaces card 8 by a version that does not descend from it, unless two byte strings
   * collide.
   */
  lemma MixedItemIsStored(blake: Blake, e: CardEdit)
    ensures var held, item := FirstCard(blake, 8, e), [FirstCard(blake, 7, e), Grafted(blake, e)];
            && PushVersions(blake, Store(map[8 := held], {}), item) == Stored(Store(map[8 := Grafted(blake, e)], {}))
            && (Grafted(blake, e).body.ancestor != held.hash
                || Collides(blake, (CardBytes(item[0].body), CardBytes(held.body))))
  {
    var held, first, second := FirstCard(blake, 8, e), FirstCard(blake, 7, e), Grafted(blake, e);
    GraftedFollows(blake, e);
    TakenAs(blake, 8, held, first, second);
    TwoFirstsDiffer(blake, e);
  }

  /** Two versions that follow each other take the place of the one card held. */
  lemma TakenAs(blake: Blake, id: Uuid, held: Card, first: Card, second: Card)
    requires EachNamesLast([first, second]) && AllVerify(blake, [first, second])
    requires first.body.id != id && second.body.id == id && first.body.ancestor == ZERO_DIGEST
    requires PriorityFree(map[id := held], second)
    ensures PushVersions(blake, Store(map[id := held], {}), [first, second]) == Stored(Store(map[id := second], {}))
  {
    PushVersionsExact(blake, Store(map[id := held], {}), [first, second]);
    assert map[id := held][id := second] == map[id := second];
  }

  lemma GraftedFollows(blake: Blake, e: CardEdit)
    ensures var item := [FirstCard(blake, 7, e), Grafted(blake, e)];
            && EachNamesLast(item) && AllVerify(blake, item) && item[0].body.id == 7 && item[1].body.id == 8
            && item[0].body.ancestor == ZERO_DIGEST && PriorityFree(map[8 := FirstCard(blake, 8, e)], item[1])
  {
  }

  lemma TwoFirstsDiffer(blake: Blake, e: CardEdit)
    ensures var a, b := FirstCard(blake, 7, e), FirstCard(blake, 8, e);
            a.hash != b.hash || Collides(blake, (CardBytes(a.body), CardBytes(b.body)))
  {
    CardBytesExact(FirstCard(blake, 7, e).body, FirstCard(blake, 8, e).body);
  }
}
