/** Incremental sync: merging change sets into the local collections (clients/lib/src/sync.rs). */
module Sync {
  import opened Ids
  import opened Bytes
  import opened Chains
  import opened IndexMaps

  /** The parts of a change set the merge reads; of a deleted entity, its id. */
  datatype ChangeSet = ChangeSet(cards: seq<Card>, tags: seq<Tag>, deleted: seq<Uuid>)

  function CardEntries(cards: seq<Card>): (r: seq<Entry<Card>>)
    ensures |r| == |cards|
  {
    seq(|cards|, i requires 0 <= i < |cards| => Entry(cards[i].body.id, cards[i]))
  }

  function TagEntries(tags: seq<Tag>): (r: seq<Entry<Tag>>)
    ensures |r| == |tags|
  {
    seq(|tags|, i requires 0 <= i < |tags| => Entry(tags[i].body.id, tags[i]))
  }

  /** The cards a list holds, by id; of several with one id the last counts. */
  function CardsById(cards: seq<Card>): map<Uuid, Card> { Contents(CardEntries(cards)) }

  function TagsById(tags: seq<Tag>): map<Uuid, Tag> { Contents(TagEntries(tags)) }

  // ---------------------------------------------------------------- what merging means

  /** What a change set says about one kind of entity. */
  datatype Delta<+V> = Delta(upserts: map<Uuid, V>, deleted: set<Uuid>)

  function CardDelta(changes: ChangeSet): Delta<Card> { Delta(CardsById(changes.cards), Elements(changes.deleted)) }

  function TagDelta(changes: ChangeSet): Delta<Tag> { Delta(TagsById(changes.tags), Elements(changes.deleted)) }

  /** Deleted entities go, upserted ones come, and upserting wins. */
  function Merged<V>(local: map<Uuid, V>, d: Delta<V>): map<Uuid, V> { local - d.deleted + d.upserts }

  ghost predicate ByPriority(cards: seq<Card>) {
    forall i, j :: 0 <= i < j < |cards| ==> cards[i].body.priority >= cards[j].body.priority
  }

  // ---------------------------------------------------------------- folding entries into a map

  function InsertAll<V>(entries: seq<Entry<V>>, more: seq<Entry<V>>): seq<Entry<V>> {
    if more == [] then entries
    else
      var last := more[|more| - 1];
      Inserted(InsertAll(entries, more[..|more| - 1]), last.key, last.value)
  }

  function RemoveAll<V>(entries: seq<Entry<V>>, keys: seq<Uuid>): seq<Entry<V>> {
    if keys == [] then entries else SwapRemoved(RemoveAll(entries, keys[..|keys| - 1]), keys[|keys| - 1])
  }

  lemma {:induction false} InsertAllIs<V>(entries: seq<Entry<V>>, more: seq<Entry<V>>)
    requires UniqueKeys(entries)
    ensures UniqueKeys(InsertAll(entries, more))
    ensures Contents(InsertAll(entries, more)) == Contents(entries) + Contents(more)
  {
    if more == [] {
    } else {
      var init, last := more[..|more| - 1], more[|more| - 1];
      InsertAllIs(entries, init);
      InsertedIs(InsertAll(entries, init), last.key, last.value);
      PlusUpdate(Contents(entries), Contents(init), last.key, last.value);
    }
  }

  lemma PlusUpdate<V>(a: map<Uuid, V>, b: map<Uuid, V>, key: Uuid, value: V)
    ensures (a + b)[key := value] == a + b[key := value]
  {
  }

  lemma {:induction false} RemoveAllIs<V>(entries: seq<Entry<V>>, keys: seq<Uuid>)
    requires UniqueKeys(entries)
    ensures UniqueKeys(RemoveAll(entries, keys))
    ensures Contents(RemoveAll(entries, keys)) == Contents(entries) - Elements(keys)
  {
    if keys == [] {
    } else {
      var init, last := keys[..|keys| - 1], keys[|keys| - 1];
      RemoveAllIs(entries, init);
      SwapRemovedIs(RemoveAll(entries, init), last);
      ElementsPop(keys);
      assert Contents(entries) - Elements(init) - {last} == Contents(entries) - Elements(keys);
    }
  }

  /** The entries after one merge: index the current list, remove, then upsert. */
  function MergedEntries<V>(current: seq<Entry<V>>, upserts: seq<Entry<V>>, deleted: seq<Uuid>): seq<Entry<V>> {
    InsertAll(RemoveAll(InsertAll([], current), deleted), upserts)
  }

  lemma MergedEntriesIs<V>(current: seq<Entry<V>>, upserts: seq<Entry<V>>, deleted: seq<Uuid>)
    ensures UniqueKeys(MergedEntries(current, upserts, deleted))
    ensures Contents(MergedEntries(current, upserts, deleted)) ==
            Merged(Contents(current), Delta(Contents(upserts), Elements(deleted)))
  {
    InsertAllIs([], current);
    assert map[] + Contents(current) == Contents(current);
    RemoveAllIs(InsertAll([], current), deleted);
    InsertAllIs(RemoveAll(InsertAll([], current), deleted), upserts);
  }

  /** The loops both change set functions share. */
  method Merge<V>(current: seq<Entry<V>>, upserts: seq<Entry<V>>, deleted: seq<Uuid>) returns (m: IndexMap<V>)
    ensures fresh(m) && m.Valid() && m.entries == MergedEntries(current, upserts, deleted)
  {
    m := new IndexMap();
    for i := 0 to |current|
      invariant m.Valid() && m.entries == InsertAll([], current[..i])
    {
      assert current[..i + 1][..i] == current[..i];
      m.Insert(current[i].key, current[i].value);
    }
    assert current[..|current|] == current;
    ghost var indexed := m.entries;
    for i := 0 to |deleted|
      invariant m.Valid() && m.entries == RemoveAll(indexed, deleted[..i])
    {
      assert deleted[..i + 1][..i] == deleted[..i];
      m.SwapRemove(deleted[i]);
    }
    assert deleted[..|deleted|] == deleted;
    ghost var remaining := m.entries;
    for i := 0 to |upserts|
      invariant m.Valid() && m.entries == InsertAll(remaining, upserts[..i])
    {
      assert upserts[..i + 1][..i] == upserts[..i];
      m.Insert(upserts[i].key, upserts[i].value);
    }
    assert upserts[..|upserts|] == upserts;
  }

  // ---------------------------------------------------------------- sorting by priority

  ghost predicate EntriesByPriority(entries: seq<Entry<Card>>) {
    forall i, j :: 0 <= i < j < |entries| ==> entries[i].value.body.priority >= entries[j].value.body.priority
  }

  /** Where an entry goes among sorted ones. */
  function Place(entries: seq<Entry<Card>>, priority: int): (k: nat)
    ensures k <= |entries|
  {
    if entries == [] || entries[0].value.body.priority <= priority then 0 else 1 + Place(entries[1..], priority)
  }

  lemma {:induction false} PlaceSplits(entries: seq<Entry<Card>>, priority: int)
    requires EntriesByPriority(entries)
    ensures var k := Place(entries, priority);
            && (forall i :: 0 <= i < k ==> entries[i].value.body.priority >= priority)
            && (forall i :: k <= i < |entries| ==> entries[i].value.body.priority <= priority)
  {
    if entries != [] && entries[0].value.body.priority > priority { PlaceSplits(entries[1..], priority); }
  }

  function Placed(entries: seq<Entry<Card>>, e: Entry<Card>): seq<Entry<Card>> {
    var k := Place(entries, e.value.body.priority);
    entries[..k] + [e] + entries[k..]
  }

  lemma PlacedOrder(entries: seq<Entry<Card>>, e: Entry<Card>)
    requires EntriesByPriority(entries)
    ensures EntriesByPriority(Placed(entries, e))
  {
    PlaceSplits(entries, e.value.body.priority);
  }

  lemma PlacedIs(entries: seq<Entry<Card>>, e: Entry<Card>)
    requires EntriesByPriority(entries)
    ensures EntriesByPriority(Placed(entries, e))
    ensures multiset(Placed(entries, e)) == multiset(entries) + multiset{e}
  {
    var k := Place(entries, e.value.body.priority);
    PlacedOrder(entries, e);
    assert entries == entries[..k] + entries[k..];
  }

  /**
   * An unstable sort: a rearrangement in descending priority. The contract leaves the order of equal priorities open,
   * as the library does.
   */
  method SortByPriority(entries: seq<Entry<Card>>) returns (sorted: seq<Entry<Card>>)
    ensures multiset(sorted) == multiset(entries) && EntriesByPriority(sorted)
  {
    sorted := [];
    for i := 0 to |entries|
      invariant multiset(sorted) == multiset(entries[..i]) && EntriesByPriority(sorted)
    {
      PlacedIs(sorted, entries[i]);
      assert entries[..i + 1] == entries[..i] + [entries[i]];
      sorted := Placed(sorted, entries[i]);
    }
    assert entries[..|entries|] == entries;
  }

  // ---------------------------------------------------------------- applying a change set

  function Values<V>(entries: seq<Entry<V>>): (r: seq<V>)
    ensures |r| == |entries|
  {
    seq(|entries|, i requires 0 <= i < |entries| => entries[i].value)
  }

  /** Every entry is filed under the id of its card. */
  ghost predicate CardKeys(entries: seq<Entry<Card>>) {
    forall e :: e in entries ==> e.key == e.value.body.id
  }

  ghost predicate TagKeys(entries: seq<Entry<Tag>>) {
    forall e :: e in entries ==> e.key == e.value.body.id
  }

  ghost predicate OneCardPerId(cards: seq<Card>) { UniqueKeys(CardEntries(cards)) }

  ghost predicate OneTagPerId(tags: seq<Tag>) { UniqueKeys(TagEntries(tags)) }

  /** A property of all entries of a list and of what is inserted survives every step. */
  lemma {:induction false} InsertAllFrom<V>(entries: seq<Entry<V>>, more: seq<Entry<V>>, e: Entry<V>)
    requires e in InsertAll(entries, more)
    ensures e in entries || e in more
  {
    if more != [] {
      var init, last := more[..|more| - 1], more[|more| - 1];
      var before := InsertAll(entries, init);
      if e in before { InsertAllFrom(entries, init, e); } else { assert e == last; }
    }
  }

  lemma {:induction false} RemoveAllFrom<V>(entries: seq<Entry<V>>, keys: seq<Uuid>, e: Entry<V>)
    requires e in RemoveAll(entries, keys)
    ensures e in entries
  {
    if keys != [] { RemoveAllFrom(entries, keys[..|keys| - 1], e); }
  }

  lemma MergedFrom<V>(current: seq<Entry<V>>, upserts: seq<Entry<V>>, deleted: seq<Uuid>, e: Entry<V>)
    requires e in MergedEntries(current, upserts, deleted)
    ensures e in current || e in upserts
  {
    var indexed := InsertAll([], current);
    InsertAllFrom(RemoveAll(indexed, deleted), upserts, e);
    if e in RemoveAll(indexed, deleted) {
      RemoveAllFrom(indexed, deleted, e);
      InsertAllFrom([], current, e);
    }
  }

  lemma CardValuesBack(entries: seq<Entry<Card>>)
    requires CardKeys(entries)
    ensures CardEntries(Values(entries)) == entries
  {
  }

  lemma TagValuesBack(entries: seq<Entry<Tag>>)
    requires TagKeys(entries)
    ensures TagEntries(Values(entries)) == entries
  {
  }

  lemma MergedCardKeys(current: seq<Card>, upserts: seq<Card>, deleted: seq<Uuid>)
    ensures CardKeys(MergedEntries(CardEntries(current), CardEntries(upserts), deleted))
  {
    forall e | e in MergedEntries(CardEntries(current), CardEntries(upserts), deleted)
      ensures e.key == e.value.body.id
    {
      MergedFrom(CardEntries(current), CardEntries(upserts), deleted, e);
    }
  }

  lemma MergedTagKeys(current: seq<Tag>, upserts: seq<Tag>, deleted: seq<Uuid>)
    ensures TagKeys(MergedEntries(TagEntries(current), TagEntries(upserts), deleted))
  {
    forall e | e in MergedEntries(TagEntries(current), TagEntries(upserts), deleted)
      ensures e.key == e.value.body.id
    {
      MergedFrom(TagEntries(current), TagEntries(upserts), deleted, e);
    }
  }

  lemma SortedCardKeys(entries: seq<Entry<Card>>, sorted: seq<Entry<Card>>)
    requires CardKeys(entries) && multiset(sorted) == multiset(entries)
    ensures CardKeys(sorted)
  {
    forall e | e in sorted ensures e.key == e.value.body.id {
      assert e in multiset(sorted);
    }
  }

  /** The merged cards, each id once, highest priority first. */
  method ApplyCardChangeset(current: seq<Card>, changes: ChangeSet) returns (r: seq<Card>)
    ensures CardsById(r) == Merged(CardsById(current), CardDelta(changes))
    ensures OneCardPerId(r) && ByPriority(r)
  {
    var m := Merge(CardEntries(current), CardEntries(changes.cards), changes.deleted);
    MergedEntriesIs(CardEntries(current), CardEntries(changes.cards), changes.deleted);
    MergedCardKeys(current, changes.cards, changes.deleted);
    var sorted := SortByPriority(m.entries);
    Rearranged(m.entries, sorted);
    SortedCardKeys(m.entries, sorted);
    CardValuesBack(sorted);
    r := Values(sorted);
  }

  /** The merged tags, each id once, in the order the map leaves them. */
  method ApplyTagChangeset(current: seq<Tag>, changes: ChangeSet) returns (r: seq<Tag>)
    ensures TagsById(r) == Merged(TagsById(current), TagDelta(changes))
    ensures OneTagPerId(r)
    ensures r == Values(MergedEntries(TagEntries(current), TagEntries(changes.tags), changes.deleted))
  {
    var m := Merge(TagEntries(current), TagEntries(changes.tags), changes.deleted);
    MergedEntriesIs(TagEntries(current), TagEntries(changes.tags), changes.deleted);
    MergedTagKeys(current, changes.tags, changes.deleted);
    TagValuesBack(m.entries);
    r := Values(m.entries);
  }

  // ---------------------------------------------------------------- the offline queue

  /** A queued edit is stale when the local list holds a strictly newer version; a new card never is. */
  predicate Stale(queued: Card, local: seq<Card>) {
    && queued.body.ancestor != ZERO_DIGEST
    && exists i :: 0 <= i < |local| && local[i].body.id == queued.body.id && local[i].body.count > queued.body.count
  }

  function ReconcileOfflineQueue(queue: seq<Card>, local: seq<Card>): seq<Card> {
    if queue == [] then []
    else (if Stale(queue[0], local) then [] else [queue[0]]) + ReconcileOfflineQueue(queue[1..], local)
  }
}
