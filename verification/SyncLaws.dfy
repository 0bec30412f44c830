/** What any number of change sets do to the local collections. */
module SyncLaws {
  import opened Bytes
  import opened Ids
  import opened Chains
  import opened IndexMaps
  import opened Sync

  // ---------------------------------------------------------------- folding change sets

  /** The collection after a run of change sets. */
  function Folded<V>(local: map<Uuid, V>, ds: seq<Delta<V>>): map<Uuid, V> {
    if ds == [] then local else Merged(Folded(local, ds[..|ds| - 1]), ds[|ds| - 1])
  }

  function Lookup<V>(m: map<Uuid, V>, key: Uuid): Option<V> { if key in m then Some(m[key]) else None }

  predicate Mentions<V>(d: Delta<V>, key: Uuid) { key in d.upserts || key in d.deleted }

  /** Change set `i` is the last to mention the key. */
  ghost predicate LastMention<V>(ds: seq<Delta<V>>, key: Uuid, i: nat) {
    i < |ds| && Mentions(ds[i], key) && forall j :: i < j < |ds| ==> !Mentions(ds[j], key)
  }

  ghost predicate Unmentioned<V>(ds: seq<Delta<V>>, key: Uuid) {
    forall j :: 0 <= j < |ds| ==> !Mentions(ds[j], key)
  }

  lemma {:induction false} UnmentionedStays<V>(local: map<Uuid, V>, ds: seq<Delta<V>>, key: Uuid)
    requires Unmentioned(ds, key)
    ensures Lookup(Folded(local, ds), key) == Lookup(local, key)
  {
    if ds != [] {
      UnmentionedStays(local, ds[..|ds| - 1], key);
      assert !Mentions(ds[|ds| - 1], key);
    }
  }

  /** For each id, the last change set that mentions it decides, whatever the start and the ones before. */
  lemma {:induction false} LastMentionWins<V>(local: map<Uuid, V>, ds: seq<Delta<V>>, key: Uuid, i: nat)
    requires LastMention(ds, key, i)
    ensures Lookup(Folded(local, ds), key) == Lookup(ds[i].upserts, key)
  {
    var n := |ds| - 1;
    if i < n {
      assert !Mentions(ds[n], key);
      assert ds[..n][i] == ds[i];
      LastMentionWins(local, ds[..n], key, i);
    }
  }

  lemma {:induction false} SomeLastMention<V>(ds: seq<Delta<V>>, key: Uuid)
    requires !Unmentioned(ds, key)
    ensures exists i :: LastMention(ds, key, i)
  {
    var n := |ds| - 1;
    if Mentions(ds[n], key) {
      assert LastMention(ds, key, n);
    } else {
      SomeLastMention(ds[..n], key);
      var i :| LastMention(ds[..n], key, i);
      assert LastMention(ds, key, i);
    }
  }

  lemma SameLookups<V>(a: map<Uuid, V>, b: map<Uuid, V>)
    requires forall k :: Lookup(a, k) == Lookup(b, k)
    ensures a == b
  {
    forall k ensures k in a <==> k in b { assert Lookup(a, k) == Lookup(b, k); }
    forall k | k in a ensures a[k] == b[k] { assert Lookup(a, k) == Lookup(b, k); }
  }

  /** Applying the tail of a run again changes nothing: a client may replay from any earlier point. */
  lemma ReplayChangesNothing<V>(local: map<Uuid, V>, ds: seq<Delta<V>>, from: nat)
    requires from <= |ds|
    ensures Folded(Folded(local, ds), ds[from..]) == Folded(local, ds)
  {
    var tail, once := ds[from..], Folded(local, ds);
    forall k ensures Lookup(Folded(once, tail), k) == Lookup(once, k) {
      if Unmentioned(tail, k) {
        UnmentionedStays(once, tail, k);
      } else {
        SomeLastMention(tail, k);
        var i :| LastMention(tail, k, i);
        LastMentionWins(once, tail, k, i);
        LaterMention(ds, from, k, i);
        LastMentionWins(local, ds, k, from + i);
      }
    }
    SameLookups(Folded(once, tail), once);
  }

  lemma LaterMention<V>(ds: seq<Delta<V>>, from: nat, key: Uuid, i: nat)
    requires from <= |ds| && LastMention(ds[from..], key, i)
    ensures LastMention(ds, key, from + i) && ds[from..][i] == ds[from + i]
  {
    forall j | from + i < j < |ds| ensures !Mentions(ds[j], key) {
      assert ds[from..][j - from] == ds[j];
    }
  }

  // ---------------------------------------------------------------- skipping intermediate sets

  /** Two change sets as one. */
  function Combined<V>(a: Delta<V>, b: Delta<V>): Delta<V> {
    Delta(a.upserts - b.deleted + b.upserts, a.deleted + b.deleted)
  }

  lemma CombinedMerges<V>(local: map<Uuid, V>, a: Delta<V>, b: Delta<V>)
    ensures Merged(local, Combined(a, b)) == Merged(Merged(local, a), b)
  {
  }

  function CombinedAll<V>(ds: seq<Delta<V>>): Delta<V> {
    if ds == [] then Delta(map[], {}) else Combined(CombinedAll(ds[..|ds| - 1]), ds[|ds| - 1])
  }

  /** A whole run equals one combined set, from every start. */
  lemma {:induction false} CombinedRun<V>(local: map<Uuid, V>, ds: seq<Delta<V>>)
    ensures Merged(local, CombinedAll(ds)) == Folded(local, ds)
  {
    if ds != [] {
      CombinedRun(local, ds[..|ds| - 1]);
      CombinedMerges(local, CombinedAll(ds[..|ds| - 1]), ds[|ds| - 1]);
    } else {
      assert local - {} + map[] == local;
    }
  }

  // ---------------------------------------------------------------- snapshots

  /** What a server has to send to lead from one snapshot to another. */
  ghost predicate Faithful<V>(d: Delta<V>, before: map<Uuid, V>, after: map<Uuid, V>) {
    && (forall k :: k in d.upserts ==> k in after && after[k] == d.upserts[k])
    && (forall k :: k in after && Lookup(before, k) != Some(after[k]) ==> k in d.upserts)
    && (forall k :: k in before && k !in after ==> k in d.deleted)
    && (forall k :: k in d.deleted && k in after ==> k in d.upserts)
  }

  /** Exactly the faithful sets lead from one snapshot to the other. */
  lemma FaithfulExact<V>(d: Delta<V>, before: map<Uuid, V>, after: map<Uuid, V>)
    ensures Merged(before, d) == after <==> Faithful(d, before, after)
  {
    if Faithful(d, before, after) {
      forall k ensures Lookup(Merged(before, d), k) == Lookup(after, k) {
        if k in after && k !in d.upserts { assert Lookup(before, k) == Some(after[k]); }
      }
      SameLookups(Merged(before, d), after);
    }
  }

  ghost predicate FaithfulRun<V>(snapshots: seq<map<Uuid, V>>, ds: seq<Delta<V>>) {
    |snapshots| == |ds| + 1 && forall i :: 0 <= i < |ds| ==> Faithful(ds[i], snapshots[i], snapshots[i + 1])
  }

  /** Faithful deltas between successive snapshots lead to the last one; so does any faithful shortcut. */
  lemma {:induction false} RunReachesSnapshot<V>(snapshots: seq<map<Uuid, V>>, ds: seq<Delta<V>>, shortcut: Delta<V>)
    requires FaithfulRun(snapshots, ds)
    ensures Folded(snapshots[0], ds) == snapshots[|ds|]
    ensures Faithful(CombinedAll(ds), snapshots[0], snapshots[|ds|])
    ensures Faithful(shortcut, snapshots[0], snapshots[|ds|]) ==>
            Merged(snapshots[0], shortcut) == Folded(snapshots[0], ds)
  {
    var n := |ds|;
    if n > 0 {
      assert FaithfulRun(snapshots[..n], ds[..n - 1]) by {
        forall i | 0 <= i < n - 1 ensures Faithful(ds[..n - 1][i], snapshots[..n][i], snapshots[..n][i + 1]) {
          assert Faithful(ds[i], snapshots[i], snapshots[i + 1]);
        }
      }
      RunReachesSnapshot(snapshots[..n], ds[..n - 1], shortcut);
      assert Faithful(ds[n - 1], snapshots[n - 1], snapshots[n - 1 + 1]);
      FaithfulExact(ds[n - 1], snapshots[n - 1], snapshots[n]);
    }
    CombinedRun(snapshots[0], ds);
    FaithfulExact(CombinedAll(ds), snapshots[0], snapshots[n]);
    FaithfulExact(shortcut, snapshots[0], snapshots[n]);
  }

  // ---------------------------------------------------------------- runs of the code

  function CardDeltas(sets: seq<ChangeSet>): (r: seq<Delta<Card>>)
    ensures |r| == |sets|
  {
    seq(|sets|, i requires 0 <= i < |sets| => CardDelta(sets[i]))
  }

  /** A client that applies change sets as they come. */
  method SyncCards(current: seq<Card>, sets: seq<ChangeSet>) returns (r: seq<Card>)
    requires OneCardPerId(current) && ByPriority(current)
    ensures OneCardPerId(r) && ByPriority(r)
    ensures CardsById(r) == Folded(CardsById(current), CardDeltas(sets))
  {
    r := current;
    for i := 0 to |sets|
      invariant OneCardPerId(r) && ByPriority(r)
      invariant CardsById(r) == Folded(CardsById(current), CardDeltas(sets[..i]))
    {
      var next := sets[..i + 1];
      assert CardDeltas(next)[..i] == CardDeltas(sets[..i]);
      r := ApplyCardChangeset(r, sets[i]);
    }
    assert sets[..|sets|] == sets;
  }

  // ---------------------------------------------------------------- the list is determined

  ghost predicate DistinctPriorities(cards: seq<Card>) {
    forall i, j :: 0 <= i < j < |cards| ==> cards[i].body.priority != cards[j].body.priority
  }

  lemma CardIsIn(cards: seq<Card>, card: Card)
    requires OneCardPerId(cards)
    ensures card in cards <==> Lookup(CardsById(cards), card.body.id) == Some(card)
  {
    var entries := CardEntries(cards);
    ContentsExact(entries, card.body.id, card);
    if card in cards {
      var i :| 0 <= i < |cards| && cards[i] == card;
      assert entries[i] == Entry(card.body.id, card);
    }
    if Says(entries, card.body.id, card) {
      var i :| 0 <= i < |entries| && entries[i] == Entry(card.body.id, card);
      assert cards[i] == card;
    }
  }

  /** What a list says about an id is a card with that id. */
  lemma ByIdKey(cards: seq<Card>, id: Uuid)
    requires OneCardPerId(cards) && id in CardsById(cards)
    ensures CardsById(cards)[id].body.id == id
  {
    var v := CardsById(cards)[id];
    ContentsExact(CardEntries(cards), id, v);
    var i :| 0 <= i < |cards| && CardEntries(cards)[i] == Entry(id, v);
  }

  lemma MembersApart(a: seq<Card>, b: seq<Card>, i: nat, j: nat)
    requires OneCardPerId(a) && DistinctPriorities(b) && i < j < |a| && a[i] in b && a[j] in b
    ensures a[i].body.priority != a[j].body.priority
  {
    assert CardEntries(a)[i].key != CardEntries(a)[j].key;
    var k :| 0 <= k < |b| && b[k] == a[i];
    var l :| 0 <= l < |b| && b[l] == a[j];
    if k < l {
      assert b[k].body.priority != b[l].body.priority;
    } else {
      assert b[l].body.priority != b[k].body.priority;
    }
  }

  /** When priorities are distinct, contents and order leave only one list. */
  lemma ListIsDetermined(a: seq<Card>, b: seq<Card>)
    requires OneCardPerId(a) && OneCardPerId(b) && CardsById(a) == CardsById(b)
    requires ByPriority(a) && ByPriority(b) && DistinctPriorities(b)
    ensures a == b
  {
    forall c ensures c in a <==> c in b {
      CardIsIn(a, c);
      CardIsIn(b, c);
    }
    forall i, j | 0 <= i < j < |a| ensures a[i].body.priority > a[j].body.priority {
      assert a[i] in a && a[j] in a;
      MembersApart(a, b, i, j);
    }
    SameMembers(a, b);
  }

  ghost predicate Falling(cards: seq<Card>) {
    forall i, j :: 0 <= i < j < |cards| ==> cards[i].body.priority > cards[j].body.priority
  }

  lemma {:induction false} SameMembers(a: seq<Card>, b: seq<Card>)
    requires Falling(a) && Falling(b) && forall c :: c in a <==> c in b
    ensures a == b
  {
    if a == [] {
      if b != [] { CardHeadIsIn(b); }
    } else {
      assert a[0] in a && a[0] in b;
      assert b[0] in b && b[0] in a;
      assert a[0] == b[0];
      forall c ensures c in a[1..] <==> c in b[1..] {
        InTail(a, c);
        InTail(b, c);
      }
      SameMembers(a[1..], b[1..]);
    }
  }

  lemma CardHeadIsIn(cards: seq<Card>)
    requires cards != []
    ensures cards[0] in cards
  {
  }

  lemma InTail(cards: seq<Card>, c: Card)
    requires Falling(cards) && cards != []
    ensures c in cards[1..] <==> c in cards && c != cards[0]
  {
    assert cards == [cards[0]] + cards[1..];
  }

  // ---------------------------------------------------------------- what one change set leaves

  /** The last entry for the key has the value. */
  ghost predicate LastSays<V>(entries: seq<Entry<V>>, key: Uuid, value: V) {
    exists i: nat :: IsLastFor(entries, i) && entries[i] == Entry(key, value)
  }

  ghost predicate Files<V>(entries: seq<Entry<V>>, key: Uuid) {
    exists i :: 0 <= i < |entries| && entries[i].key == key
  }

  lemma LastSaysIs<V>(entries: seq<Entry<V>>, key: Uuid, value: V)
    ensures Lookup(Contents(entries), key) == Some(value) <==> LastSays(entries, key, value)
    ensures key in Contents(entries) <==> Files(entries, key)
  {
    ContentsLast(entries, key);
    if key in Contents(entries) {
      var i: nat :| IsLastFor(entries, i) && entries[i].key == key;
      assert entries[i] == Entry(key, Contents(entries)[key]);
    }
    if Files(entries, key) { LastOfKey(entries, key); }
  }

  lemma {:induction false} LastOfKey<V>(entries: seq<Entry<V>>, key: Uuid)
    requires Files(entries, key)
    ensures exists i: nat :: IsLastFor(entries, i) && entries[i].key == key
  {
    var n := |entries| - 1;
    if entries[n].key == key {
      assert IsLastFor(entries, n);
    } else {
      var k :| 0 <= k < |entries| && entries[k].key == key;
      assert entries[..n][k].key == key;
      LastOfKey(entries[..n], key);
      var i: nat :| IsLastFor(entries[..n], i) && entries[..n][i].key == key;
      LastForStep(entries, i);
    }
  }

  /** The last upsert for the key, or else the current entry if there is no upsert and the key is not deleted. */
  lemma MergedSays<V>(current: seq<Entry<V>>, upserts: seq<Entry<V>>, deleted: seq<Uuid>, key: Uuid, value: V)
    ensures Lookup(Merged(Contents(current), Delta(Contents(upserts), Elements(deleted))), key) == Some(value) <==>
            || LastSays(upserts, key, value)
            || (LastSays(current, key, value) && !Files(upserts, key) && key !in deleted)
  {
    LastSaysIs(current, key, value);
    LastSaysIs(upserts, key, value);
  }

  /** The last of the cards with its id. */
  ghost predicate LastCard(cards: seq<Card>, c: Card) {
    exists i :: 0 <= i < |cards| && cards[i] == c && forall j :: i < j < |cards| ==> cards[j].body.id != c.body.id
  }

  lemma LastCardSays(cards: seq<Card>, c: Card)
    ensures LastCard(cards, c) <==> LastSays(CardEntries(cards), c.body.id, c)
  {
    var entries := CardEntries(cards);
    if LastCard(cards, c) {
      var i :| 0 <= i < |cards| && cards[i] == c && forall j :: i < j < |cards| ==> cards[j].body.id != c.body.id;
      assert IsLastFor(entries, i);
    }
    if LastSays(entries, c.body.id, c) {
      var i: nat :| IsLastFor(entries, i) && entries[i] == Entry(c.body.id, c);
      forall j | i < j < |cards| ensures cards[j].body.id != c.body.id { assert entries[j].key != entries[i].key; }
    }
  }

  /** A card set names the id. */
  ghost predicate HasCard(cards: seq<Card>, id: Uuid) { exists i :: 0 <= i < |cards| && cards[i].body.id == id }

  lemma HasCardFiles(cards: seq<Card>, id: Uuid)
    ensures HasCard(cards, id) <==> Files(CardEntries(cards), id)
  {
    if HasCard(cards, id) {
      var i :| 0 <= i < |cards| && cards[i].body.id == id;
      assert CardEntries(cards)[i].key == id;
    }
    if Files(CardEntries(cards), id) {
      var i :| 0 <= i < |CardEntries(cards)| && CardEntries(cards)[i].key == id;
      assert cards[i].body.id == id;
    }
  }

  /**
    What a merge leaves, card by card: exactly the cards of the change set, and those current ones that it neither
    replaces nor deletes; of several with one id, the last.
   */
  lemma MergedCardsAre(current: seq<Card>, changes: ChangeSet, r: seq<Card>, c: Card)
    requires OneCardPerId(r) && CardsById(r) == Merged(CardsById(current), CardDelta(changes))
    ensures c in r <==>
            || LastCard(changes.cards, c)
            || (LastCard(current, c) && !HasCard(changes.cards, c.body.id) && c.body.id !in changes.deleted)
  {
    CardIsIn(r, c);
    MergedSays(CardEntries(current), CardEntries(changes.cards), changes.deleted, c.body.id, c);
    LastCardSays(current, c);
    LastCardSays(changes.cards, c);
    HasCardFiles(changes.cards, c.body.id);
  }

  ghost predicate LastTag(tags: seq<Tag>, t: Tag) {
    exists i :: 0 <= i < |tags| && tags[i] == t && forall j :: i < j < |tags| ==> tags[j].body.id != t.body.id
  }

  lemma LastTagSays(tags: seq<Tag>, t: Tag)
    ensures LastTag(tags, t) <==> LastSays(TagEntries(tags), t.body.id, t)
  {
    var entries := TagEntries(tags);
    if LastTag(tags, t) {
      var i :| 0 <= i < |tags| && tags[i] == t && forall j :: i < j < |tags| ==> tags[j].body.id != t.body.id;
      assert IsLastFor(entries, i);
    }
    if LastSays(entries, t.body.id, t) {
      var i: nat :| IsLastFor(entries, i) && entries[i] == Entry(t.body.id, t);
      forall j | i < j < |tags| ensures tags[j].body.id != t.body.id { assert entries[j].key != entries[i].key; }
    }
  }

  ghost predicate HasTag(tags: seq<Tag>, id: Uuid) { exists i :: 0 <= i < |tags| && tags[i].body.id == id }

  lemma HasTagFiles(tags: seq<Tag>, id: Uuid)
    ensures HasTag(tags, id) <==> Files(TagEntries(tags), id)
  {
    if HasTag(tags, id) {
      var i :| 0 <= i < |tags| && tags[i].body.id == id;
      assert TagEntries(tags)[i].key == id;
    }
    if Files(TagEntries(tags), id) {
      var i :| 0 <= i < |TagEntries(tags)| && TagEntries(tags)[i].key == id;
      assert tags[i].body.id == id;
    }
  }

  lemma TagIsIn(tags: seq<Tag>, t: Tag)
    requires OneTagPerId(tags)
    ensures t in tags <==> Lookup(TagsById(tags), t.body.id) == Some(t)
  {
    var entries := TagEntries(tags);
    ContentsExact(entries, t.body.id, t);
    if t in tags {
      var i :| 0 <= i < |tags| && tags[i] == t;
      assert entries[i] == Entry(t.body.id, t);
    }
  }

  /** The same for tags. */
  lemma MergedTagsAre(current: seq<Tag>, changes: ChangeSet, r: seq<Tag>, t: Tag)
    requires OneTagPerId(r) && TagsById(r) == Merged(TagsById(current), TagDelta(changes))
    ensures t in r <==>
            || LastTag(changes.tags, t)
            || (LastTag(current, t) && !HasTag(changes.tags, t.body.id) && t.body.id !in changes.deleted)
  {
    TagIsIn(r, t);
    MergedSays(TagEntries(current), TagEntries(changes.tags), changes.deleted, t.body.id, t);
    LastTagSays(current, t);
    LastTagSays(changes.tags, t);
    HasTagFiles(changes.tags, t.body.id);
  }

  // ---------------------------------------------------------------- the offline queue

  /** Reconciling goes card by card, so what is kept stays in queue order. */
  lemma {:induction false} ReconcileInOrder(a: seq<Card>, b: seq<Card>, local: seq<Card>)
    ensures ReconcileOfflineQueue(a + b, local) == ReconcileOfflineQueue(a, local) + ReconcileOfflineQueue(b, local)
  {
    if a == [] {
      assert a + b == b;
    } else {
      assert (a + b)[1..] == a[1..] + b;
      ReconcileInOrder(a[1..], b, local);
    }
  }

  ghost predicate UpToDate(queue: seq<Card>, local: seq<Card>) {
    forall i :: 0 <= i < |queue| ==> !Stale(queue[i], local)
  }

  lemma {:induction false} UpToDateStays(queue: seq<Card>, local: seq<Card>)
    requires UpToDate(queue, local)
    ensures ReconcileOfflineQueue(queue, local) == queue
  {
    if queue != [] {
      assert queue == [queue[0]] + queue[1..];
      UpToDateStays(queue[1..], local);
    }
  }

  lemma {:induction false} ReconcileCounts(queue: seq<Card>, local: seq<Card>, c: Card)
    ensures multiset(ReconcileOfflineQueue(queue, local))[c] == if Stale(c, local) then 0 else multiset(queue)[c]
  {
    if queue != [] {
      assert queue == [queue[0]] + queue[1..];
      ReconcileCounts(queue[1..], local, c);
    }
  }

  lemma {:induction false} ReconciledIsUpToDate(queue: seq<Card>, local: seq<Card>)
    ensures UpToDate(ReconcileOfflineQueue(queue, local), local)
  {
    if queue != [] { ReconciledIsUpToDate(queue[1..], local); }
  }

  lemma StaleIs(c: Card, local: seq<Card>)
    ensures Stale(c, local) <==>
            && c.body.ancestor != ZERO_DIGEST
            && exists l :: l in local && l.body.id == c.body.id && l.body.count > c.body.count
  {
    if l :| l in local && l.body.id == c.body.id && l.body.count > c.body.count {
      var i :| 0 <= i < |local| && local[i] == l;
    }
  }

  /** What is kept of a queue: new cards, and edits of which no local version is strictly newer. */
  lemma ReconcileKeeps(queue: seq<Card>, local: seq<Card>, c: Card)
    requires c in queue
    ensures c in ReconcileOfflineQueue(queue, local) <==>
            || c.body.ancestor == ZERO_DIGEST
            || forall l :: l in local && l.body.id == c.body.id ==> l.body.count <= c.body.count
  {
    StaleIs(c, local);
    ReconcileCounts(queue, local, c);
    assert c in multiset(queue);
    assert c in ReconcileOfflineQueue(queue, local) <==> c in multiset(ReconcileOfflineQueue(queue, local));
  }

  /**
    The reconciled queue is the queue without its stale cards: what is stale is gone, everything else is there as often
    as before, and a queue with nothing stale, such as a reconciled one, is left as it is.
   */
  lemma ReconcileIsExact(queue: seq<Card>, local: seq<Card>)
    ensures forall c :: multiset(ReconcileOfflineQueue(queue, local))[c] ==
                        if Stale(c, local) then 0 else multiset(queue)[c]
    ensures UpToDate(ReconcileOfflineQueue(queue, local), local)
    ensures ReconcileOfflineQueue(queue, local) == queue <==> UpToDate(queue, local)
  {
    forall c {
      ReconcileCounts(queue, local, c);
    }
    ReconciledIsUpToDate(queue, local);
    if UpToDate(queue, local) { UpToDateStays(queue, local); }
  }
}
