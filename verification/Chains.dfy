/** Versioned cards and tags: each version names its ancestor by hash. */
module Chains {
  import opened Ids
  import opened Bytes
  import opened Integers
  import opened Canonical

  type Blake = seq<Byte> -> Digest

  datatype Card = Card(body: CardBody, hash: Digest)

  datatype Tag = Tag(body: TagBody, hash: Digest)

  datatype Result<+T> = Ok(value: T) | HashVerificationError

  // ---------------------------------------------------------------- versions

  function ExpectedCardHash(blake: Blake, body: CardBody): Digest { blake(CardBytes(body)) }

  function ExpectedTagHash(blake: Blake, body: TagBody): Digest { blake(TagBytes(body)) }

  predicate VerifyCard(blake: Blake, card: Card) { card.hash == ExpectedCardHash(blake, card.body) }

  predicate VerifyTag(blake: Blake, tag: Tag) { tag.hash == ExpectedTagHash(blake, tag.body) }

  /** What a card edit may set. */
  datatype CardEdit = CardEdit(content: Text, priority: I64, tags: IdList, blazed: bool, at: I64, dueDate: Option<I64>)

  datatype TagEdit = TagEdit(title: Text, color: Option<Rgb>, implies: IdList, at: I64)

  function SealCard(blake: Blake, body: CardBody): Card { Card(body, ExpectedCardHash(blake, body)) }

  function SealTag(blake: Blake, body: TagBody): Tag { Tag(body, ExpectedTagHash(blake, body)) }

  function FirstCard(blake: Blake, id: Uuid, e: CardEdit): Card {
    SealCard(blake, CardBody(id, e.content, e.priority, Sort(e.tags), e.blazed, e.at, e.at, e.dueDate, 1, ZERO_DIGEST))
  }

  /** The source stops with a panic when the version count is exhausted. */
  function NextCard(blake: Blake, prev: Card, e: CardEdit): Card
    requires prev.body.count < I64_MAX
  {
    SealCard(blake, NextBody(prev, e))
  }

  function NextBody(prev: Card, e: CardEdit): CardBody
    requires prev.body.count < I64_MAX
  {
    CardBody(prev.body.id, e.content, e.priority, Sort(e.tags), e.blazed, prev.body.createdAt, e.at, e.dueDate,
             prev.body.count + 1, prev.hash)
  }

  /** Drops repeats from a sorted list (`Vec::dedup`). */
  function Dedup(s: seq<Uuid>): (r: seq<Uuid>)
    ensures |r| <= |s|
  {
    if |s| < 2 then s
    else if s[0] == s[1] then Dedup(s[1..])
    else [s[0]] + Dedup(s[1..])
  }

  function NormalizeImplies(implies: seq<Uuid>): (r: seq<Uuid>)
    ensures |r| <= |implies|
  {
    Dedup(Sort(implies))
  }

  function FirstTag(blake: Blake, id: Uuid, e: TagEdit): Tag {
    SealTag(blake, TagBody(id, e.title, e.at, e.at, e.color, 1, ZERO_DIGEST, NormalizeImplies(e.implies)))
  }

  function NextTag(blake: Blake, prev: Tag, e: TagEdit): Tag
    requires prev.body.count < I64_MAX
  {
    SealTag(blake, TagBody(prev.body.id, e.title, prev.body.createdAt, e.at, e.color, prev.body.count + 1, prev.hash,
                           NormalizeImplies(e.implies)))
  }

  function CardFromParts(blake: Blake, body: CardBody, hash: Digest): Result<Card> {
    if VerifyCard(blake, Card(body, hash)) then Ok(Card(body, hash)) else HashVerificationError
  }

  function TagFromParts(blake: Blake, body: TagBody, hash: Digest): Result<Tag> {
    var tag := Tag(body.(implies := NormalizeImplies(body.implies)), hash);
    if VerifyTag(blake, tag) then Ok(tag) else HashVerificationError
  }

  // ---------------------------------------------------------------- normalising implies lists

  lemma StrictCons(x: Uuid, s: seq<Uuid>)
    requires StrictlyAscending(s) && (s != [] ==> x < s[0])
    ensures StrictlyAscending([x] + s)
  {
    forall j | 0 <= j < |s| ensures x < s[j] {
      assert s[0] <= s[j];
    }
  }

  lemma AscendingTail(s: seq<Uuid>)
    requires Ascending(s) && s != []
    ensures Ascending(s[1..])
  {
    forall i, j | 0 <= i < j < |s[1..]| ensures s[1..][i] <= s[1..][j] {
      assert s[i + 1] <= s[j + 1];
    }
  }

  lemma {:induction false} DedupIs(s: seq<Uuid>)
    requires Ascending(s)
    ensures StrictlyAscending(Dedup(s))
    ensures Elements(Dedup(s)) == Elements(s)
    ensures s != [] ==> Dedup(s) != [] && Dedup(s)[0] == s[0]
  {
    if |s| >= 2 {
      var rest := s[1..];
      AscendingTail(s);
      DedupIs(rest);
      assert s == [s[0]] + rest;
      ElementsAppend([s[0]], rest);
      if s[0] == s[1] {
        assert rest[0] in Elements(rest);
      } else {
        ElementsAppend([s[0]], Dedup(rest));
        StrictCons(s[0], Dedup(rest));
      }
    }
  }

  /** Normalising keeps the set and forgets order and repeats: it depends on the set alone, and is idempotent. */
  lemma NormalizeIs(implies: seq<Uuid>)
    ensures StrictlyAscending(NormalizeImplies(implies))
    ensures NormalizeImplies(implies) == InOrder(Elements(implies))
    ensures NormalizeImplies(NormalizeImplies(implies)) == NormalizeImplies(implies)
  {
    SortOrders(implies);
    DedupIs(Sort(implies));
    var n := NormalizeImplies(implies);
    forall x ensures x in n <==> x in InOrder(Elements(implies)) {
      assert x in n <==> x in Elements(n);
      assert x in Sort(implies) <==> x in Elements(Sort(implies));
    }
    InOrderIsUnique(n, InOrder(Elements(implies)));
    SortOrders(n);
    DedupIs(Sort(n));
    var nn := NormalizeImplies(n);
    forall x ensures x in nn <==> x in n {
      assert x in nn <==> x in Elements(nn);
      assert x in Sort(n) <==> x in Elements(Sort(n));
    }
    InOrderIsUnique(nn, n);
  }

  lemma DedupStep(s: seq<Uuid>, i: nat)
    requires i < |s|
    ensures Dedup(s[i..]) == (if i + 1 == |s| || s[i] != s[i + 1] then [s[i]] else []) + Dedup(s[i + 1..])
  {
    assert s[i..][1..] == s[i + 1..];
  }

  lemma Regroup(a: seq<Uuid>, b: seq<Uuid>, c: seq<Uuid>)
    ensures a + (b + c) == a + b + c
  {
  }

  /** `sort` and then `dedup`, which keeps the first of each run of equal neighbours. */
  method NormalizeInPlace(implies: seq<Uuid>) returns (r: seq<Uuid>)
    ensures r == NormalizeImplies(implies)
  {
    r := DedupInPlace(Sort(implies));
  }

  method DedupInPlace(sorted: seq<Uuid>) returns (r: seq<Uuid>)
    ensures r == Dedup(sorted)
  {
    r := [];
    var i := 0;
    while i < |sorted|
      invariant i <= |sorted|
      invariant r + Dedup(sorted[i..]) == Dedup(sorted)
    {
      DedupStep(sorted, i);
      var kept := if i + 1 == |sorted| || sorted[i] != sorted[i + 1] then [sorted[i]] else [];
      Regroup(r, kept, Dedup(sorted[i + 1..]));
      r := r + kept;
      i := i + 1;
    }
  }

  // ---------------------------------------------------------------- building versions

  /** `expected_hash` of a card. */
  method HashCard(blake: Blake, body: CardBody) returns (digest: Digest)
    ensures digest == ExpectedCardHash(blake, body)
  {
    digest := CanonicalCardHash(blake, body);
  }

  method HashTag(blake: Blake, body: TagBody) returns (digest: Digest)
    ensures digest == ExpectedTagHash(blake, body)
  {
    digest := CanonicalTagHash(blake, body);
  }

  /** Sorts the tags, fills in the fields with a placeholder hash, and then overwrites the hash. */
  method BuildFirstCard(blake: Blake, id: Uuid, e: CardEdit) returns (card: Card)
    ensures card == FirstCard(blake, id, e)
  {
    var tags := Sort(e.tags);
    card := Card(CardBody(id, e.content, e.priority, tags, e.blazed, e.at, e.at, e.dueDate, 1, ZERO_DIGEST),
                 ZERO_DIGEST);
    var digest := HashCard(blake, card.body);
    card := card.(hash := digest);
  }

  method BuildNextCard(blake: Blake, prev: Card, e: CardEdit) returns (card: Card)
    requires prev.body.count < I64_MAX
    ensures card == NextCard(blake, prev, e)
  {
    var tags := Sort(e.tags);
    card := Card(CardBody(prev.body.id, e.content, e.priority, tags, e.blazed, prev.body.createdAt, e.at, e.dueDate,
                          prev.body.count + 1, prev.hash), ZERO_DIGEST);
    assert card.body == NextBody(prev, e);
    var digest := HashCard(blake, card.body);
    card := card.(hash := digest);
  }

  method BuildFirstTag(blake: Blake, id: Uuid, e: TagEdit) returns (tag: Tag)
    ensures tag == FirstTag(blake, id, e)
  {
    var implies := NormalizeInPlace(e.implies);
    tag := Tag(TagBody(id, e.title, e.at, e.at, e.color, 1, ZERO_DIGEST, implies), ZERO_DIGEST);
    var digest := HashTag(blake, tag.body);
    tag := tag.(hash := digest);
  }

  method BuildNextTag(blake: Blake, prev: Tag, e: TagEdit) returns (tag: Tag)
    requires prev.body.count < I64_MAX
    ensures tag == NextTag(blake, prev, e)
  {
    var implies := NormalizeInPlace(e.implies);
    tag := Tag(TagBody(prev.body.id, e.title, prev.body.createdAt, e.at, e.color, prev.body.count + 1, prev.hash,
                       implies), ZERO_DIGEST);
    var digest := HashTag(blake, tag.body);
    tag := tag.(hash := digest);
  }

  // ---------------------------------------------------------------- histories

  /** A card's versions, first to last, as the constructors build them. */
  function CardHistory(blake: Blake, id: Uuid, first: CardEdit, edits: seq<CardEdit>): (h: seq<Card>)
    requires |edits| < I64_MAX
    ensures |h| == |edits| + 1 && h[|edits|].body.count == |h|
  {
    if edits == [] then [FirstCard(blake, id, first)]
    else
      var n := |edits| - 1;
      var before := CardHistory(blake, id, first, edits[..n]);
      before + [NextCard(blake, before[n], edits[n])]
  }

  /** Version `i` of a chain, seen from outside: verified, normalised, counted, and linked to the one before. */
  ghost predicate CardVersion(blake: Blake, h: seq<Card>, i: nat)
    requires i < |h|
  {
    var body := h[i].body;
    && VerifyCard(blake, h[i]) && Ascending(body.tags) && body.count == i + 1
    && (if i == 0 then body.ancestor == ZERO_DIGEST && body.modifiedAt == body.createdAt
        else body.ancestor == h[i - 1].hash && body.id == h[0].body.id && body.createdAt == h[0].body.createdAt)
  }

  ghost predicate CardChain(blake: Blake, h: seq<Card>) {
    h != [] && forall i: nat {:trigger CardVersion(blake, h, i)} :: i < |h| ==> CardVersion(blake, h, i)
  }

  lemma CardVersionKept(blake: Blake, h: seq<Card>, next: Card, i: nat)
    requires i < |h| && CardVersion(blake, h, i)
    ensures CardVersion(blake, h + [next], i)
  {
    assert (h + [next])[i] == h[i] && (h + [next])[0] == h[0];
  }

  lemma NewCardVersion(blake: Blake, h: seq<Card>, e: CardEdit)
    requires h != [] && CardVersion(blake, h, |h| - 1) && |h| < I64_MAX
    ensures CardVersion(blake, h + [NextCard(blake, h[|h| - 1], e)], |h|)
  {
    SortOrders(e.tags);
  }

  lemma CardChainExtends(blake: Blake, h: seq<Card>, next: Card)
    requires CardChain(blake, h) && CardVersion(blake, h + [next], |h|)
    ensures CardChain(blake, h + [next])
  {
    forall i: nat | i < |h + [next]| ensures CardVersion(blake, h + [next], i) {
      if i < |h| {
        assert CardVersion(blake, h, i);
        CardVersionKept(blake, h, next, i);
      }
    }
  }

  lemma CardChainGrows(blake: Blake, h: seq<Card>, e: CardEdit)
    requires CardChain(blake, h) && h[|h| - 1].body.count == |h| < I64_MAX
    ensures CardChain(blake, h + [NextCard(blake, h[|h| - 1], e)])
  {
    assert CardVersion(blake, h, |h| - 1);
    NewCardVersion(blake, h, e);
    CardChainExtends(blake, h, NextCard(blake, h[|h| - 1], e));
  }

  /** Every history the constructors build is a chain. */
  lemma {:induction false} CardHistoryIsChain(blake: Blake, id: Uuid, first: CardEdit, edits: seq<CardEdit>)
    requires |edits| < I64_MAX
    ensures CardChain(blake, CardHistory(blake, id, first, edits))
  {
    if edits == [] {
      SortOrders(first.tags);
      assert CardVersion(blake, [FirstCard(blake, id, first)], 0);
    } else {
      var n := |edits| - 1;
      CardHistoryIsChain(blake, id, first, edits[..n]);
      CardChainGrows(blake, CardHistory(blake, id, first, edits[..n]), edits[n]);
    }
  }

  /** The version says what the edit said, at the time it said it, with the tags in order. */
  ghost predicate CarriesCardEdit(c: CardBody, e: CardEdit) {
    && c.content == e.content && c.priority == e.priority && c.blazed == e.blazed && c.dueDate == e.dueDate
    && c.modifiedAt == e.at && multiset(c.tags) == multiset(e.tags) && Ascending(c.tags)
  }

  lemma FirstCardCarries(blake: Blake, id: Uuid, e: CardEdit)
    ensures var c := FirstCard(blake, id, e).body;
            CarriesCardEdit(c, e) && c.id == id && c.createdAt == e.at
  {
    SortOrders(e.tags);
  }

  lemma NextCardCarries(blake: Blake, prev: Card, e: CardEdit)
    requires prev.body.count < I64_MAX
    ensures var c := NextCard(blake, prev, e).body;
            CarriesCardEdit(c, e) && c.id == prev.body.id && c.createdAt == prev.body.createdAt
  {
    SortOrders(e.tags);
  }

  /** The body holds what a history should: the edit, the card's id, and the creation time. */
  ghost predicate IsCardEdited(c: CardBody, e: CardEdit, id: Uuid, at: I64) {
    CarriesCardEdit(c, e) && c.id == id && c.createdAt == at
  }

  lemma CardHistoryStep(blake: Blake, id: Uuid, first: CardEdit, edits: seq<CardEdit>, i: nat)
    requires i < |edits| < I64_MAX
    ensures CardHistory(blake, id, first, edits)[i] == CardHistory(blake, id, first, edits[..|edits| - 1])[i]
  {
  }

  lemma {:induction false} CardHistoryPrefix(blake: Blake, id: Uuid, first: CardEdit, edits: seq<CardEdit>, i: nat)
    requires i <= |edits| < I64_MAX
    ensures CardHistory(blake, id, first, edits)[i] == CardHistory(blake, id, first, edits[..i])[i]
  {
    if i < |edits| {
      var init := edits[..|edits| - 1];
      assert init[..i] == edits[..i];
      CardHistoryStep(blake, id, first, edits, i);
      CardHistoryPrefix(blake, id, first, init, i);
    } else {
      assert edits[..i] == edits;
    }
  }

  lemma {:induction false} LastCardCarries(blake: Blake, id: Uuid, first: CardEdit, edits: seq<CardEdit>)
    requires |edits| < I64_MAX
    ensures IsCardEdited(CardHistory(blake, id, first, edits)[|edits|].body,
                         if edits == [] then first else edits[|edits| - 1], id, first.at)
  {
    if edits == [] {
      FirstCardCarries(blake, id, first);
    } else {
      var n := |edits| - 1;
      var before := CardHistory(blake, id, first, edits[..n]);
      LastCardCarries(blake, id, first, edits[..n]);
      NextCardCarries(blake, before[n], edits[n]);
      assert CardHistory(blake, id, first, edits)[n + 1] == NextCard(blake, before[n], edits[n]);
    }
  }

  /**
    What a history holds: one version for the first edit and one for each later one, in their order, each carrying
    its edit, all with the card's id and the creation time of the first.
   */
  lemma CardHistoryCarries(blake: Blake, id: Uuid, first: CardEdit, edits: seq<CardEdit>, i: nat)
    requires i <= |edits| < I64_MAX
    ensures |CardHistory(blake, id, first, edits)| == |edits| + 1
    ensures IsCardEdited(CardHistory(blake, id, first, edits)[i].body, if i == 0 then first else edits[i - 1], id,
                         first.at)
  {
    CardHistoryPrefix(blake, id, first, edits, i);
    LastCardCarries(blake, id, first, edits[..i]);
  }

  /** A tag's versions, first to last, as the constructors build them. */
  function TagHistory(blake: Blake, id: Uuid, first: TagEdit, edits: seq<TagEdit>): (h: seq<Tag>)
    requires |edits| < I64_MAX
    ensures |h| == |edits| + 1 && h[|edits|].body.count == |h|
  {
    if edits == [] then [FirstTag(blake, id, first)]
    else
      var n := |edits| - 1;
      var before := TagHistory(blake, id, first, edits[..n]);
      before + [NextTag(blake, before[n], edits[n])]
  }

  /** Version `i` of a chain, seen from outside: verified, normalised, counted, and linked to the one before. */
  ghost predicate TagVersion(blake: Blake, h: seq<Tag>, i: nat)
    requires i < |h|
  {
    var body := h[i].body;
    && VerifyTag(blake, h[i]) && StrictlyAscending(body.implies) && body.count == i + 1
    && (if i == 0 then body.ancestor == ZERO_DIGEST && body.modifiedAt == body.createdAt
        else body.ancestor == h[i - 1].hash && body.id == h[0].body.id && body.createdAt == h[0].body.createdAt)
  }

  ghost predicate TagChain(blake: Blake, h: seq<Tag>) {
    h != [] && forall i: nat {:trigger TagVersion(blake, h, i)} :: i < |h| ==> TagVersion(blake, h, i)
  }

  lemma TagVersionKept(blake: Blake, h: seq<Tag>, next: Tag, i: nat)
    requires i < |h| && TagVersion(blake, h, i)
    ensures TagVersion(blake, h + [next], i)
  {
    assert (h + [next])[i] == h[i] && (h + [next])[0] == h[0];
  }

  lemma NewTagVersion(blake: Blake, h: seq<Tag>, e: TagEdit)
    requires h != [] && TagVersion(blake, h, |h| - 1) && |h| < I64_MAX
    ensures TagVersion(blake, h + [NextTag(blake, h[|h| - 1], e)], |h|)
  {
    NormalizeIs(e.implies);
  }

  lemma TagChainExtends(blake: Blake, h: seq<Tag>, next: Tag)
    requires TagChain(blake, h) && TagVersion(blake, h + [next], |h|)
    ensures TagChain(blake, h + [next])
  {
    forall i: nat | i < |h + [next]| ensures TagVersion(blake, h + [next], i) {
      if i < |h| {
        assert TagVersion(blake, h, i);
        TagVersionKept(blake, h, next, i);
      }
    }
  }

  lemma TagChainGrows(blake: Blake, h: seq<Tag>, e: TagEdit)
    requires TagChain(blake, h) && h[|h| - 1].body.count == |h| < I64_MAX
    ensures TagChain(blake, h + [NextTag(blake, h[|h| - 1], e)])
  {
    assert TagVersion(blake, h, |h| - 1);
    NewTagVersion(blake, h, e);
    TagChainExtends(blake, h, NextTag(blake, h[|h| - 1], e));
  }

  /** Every history the constructors build is a chain. */
  lemma {:induction false} TagHistoryIsChain(blake: Blake, id: Uuid, first: TagEdit, edits: seq<TagEdit>)
    requires |edits| < I64_MAX
    ensures TagChain(blake, TagHistory(blake, id, first, edits))
  {
    if edits == [] {
      NormalizeIs(first.implies);
      assert TagVersion(blake, [FirstTag(blake, id, first)], 0);
    } else {
      var n := |edits| - 1;
      TagHistoryIsChain(blake, id, first, edits[..n]);
      TagChainGrows(blake, TagHistory(blake, id, first, edits[..n]), edits[n]);
    }
  }

  /** The version says what the edit said, with each implied tag once. */
  ghost predicate CarriesTagEdit(t: TagBody, e: TagEdit) {
    && t.title == e.title && t.color == e.color && t.modifiedAt == e.at
    && Elements(t.implies) == Elements(e.implies) && StrictlyAscending(t.implies)
  }

  lemma NormalizedSet(implies: seq<Uuid>)
    ensures Elements(NormalizeImplies(implies)) == Elements(implies)
    ensures StrictlyAscending(NormalizeImplies(implies))
  {
    SortOrders(implies);
    DedupIs(Sort(implies));
    assert Elements(Sort(implies)) == Elements(implies);
  }

  lemma FirstTagCarries(blake: Blake, id: Uuid, e: TagEdit)
    ensures var t := FirstTag(blake, id, e).body;
            CarriesTagEdit(t, e) && t.id == id && t.createdAt == e.at
  {
    NormalizedSet(e.implies);
  }

  lemma NextTagCarries(blake: Blake, prev: Tag, e: TagEdit)
    requires prev.body.count < I64_MAX
    ensures var t := NextTag(blake, prev, e).body;
            CarriesTagEdit(t, e) && t.id == prev.body.id && t.createdAt == prev.body.createdAt
  {
    NormalizedSet(e.implies);
  }

  ghost predicate IsTagEdited(t: TagBody, e: TagEdit, id: Uuid, at: I64) {
    CarriesTagEdit(t, e) && t.id == id && t.createdAt == at
  }

  lemma TagHistoryStep(blake: Blake, id: Uuid, first: TagEdit, edits: seq<TagEdit>, i: nat)
    requires i < |edits| < I64_MAX
    ensures TagHistory(blake, id, first, edits)[i] == TagHistory(blake, id, first, edits[..|edits| - 1])[i]
  {
  }

  lemma {:induction false} TagHistoryPrefix(blake: Blake, id: Uuid, first: TagEdit, edits: seq<TagEdit>, i: nat)
    requires i <= |edits| < I64_MAX
    ensures TagHistory(blake, id, first, edits)[i] == TagHistory(blake, id, first, edits[..i])[i]
  {
    if i < |edits| {
      var init := edits[..|edits| - 1];
      assert init[..i] == edits[..i];
      TagHistoryStep(blake, id, first, edits, i);
      TagHistoryPrefix(blake, id, first, init, i);
    } else {
      assert edits[..i] == edits;
    }
  }

  lemma {:induction false} LastTagCarries(blake: Blake, id: Uuid, first: TagEdit, edits: seq<TagEdit>)
    requires |edits| < I64_MAX
    ensures IsTagEdited(TagHistory(blake, id, first, edits)[|edits|].body,
                         if edits == [] then first else edits[|edits| - 1], id, first.at)
  {
    if edits == [] {
      FirstTagCarries(blake, id, first);
    } else {
      var n := |edits| - 1;
      var before := TagHistory(blake, id, first, edits[..n]);
      LastTagCarries(blake, id, first, edits[..n]);
      NextTagCarries(blake, before[n], edits[n]);
      assert TagHistory(blake, id, first, edits)[n + 1] == NextTag(blake, before[n], edits[n]);
    }
  }

  /** The same for tags. */
  lemma TagHistoryCarries(blake: Blake, id: Uuid, first: TagEdit, edits: seq<TagEdit>, i: nat)
    requires i <= |edits| < I64_MAX
    ensures |TagHistory(blake, id, first, edits)| == |edits| + 1
    ensures IsTagEdited(TagHistory(blake, id, first, edits)[i].body, if i == 0 then first else edits[i - 1], id,
                         first.at)
  {
    TagHistoryPrefix(blake, id, first, edits, i);
    LastTagCarries(blake, id, first, edits[..i]);
  }

  // ---------------------------------------------------------------- the head hash pins the history

  /** Two different byte strings with one digest. */
  predicate Collides(blake: Blake, pair: (seq<Byte>, seq<Byte>)) {
    pair.0 != pair.1 && blake(pair.0) == blake(pair.1)
  }

  lemma SameCardBody(a: CardBody, b: CardBody)
    requires CardBytes(a) == CardBytes(b) && Ascending(a.tags) && Ascending(b.tags)
    ensures a == b
  {
    CardBytesExact(a, b);
    SortedIsUnique(a.tags, b.tags);
  }

  lemma StrictIsAscending(s: seq<Uuid>)
    requires StrictlyAscending(s)
    ensures Ascending(s)
  {
  }

  lemma SameTagBody(a: TagBody, b: TagBody)
    requires TagBytes(a) == TagBytes(b) && StrictlyAscending(a.implies) && StrictlyAscending(b.implies)
    ensures a == b
  {
    TagBytesExact(a, b);
    StrictIsAscending(a.implies);
    StrictIsAscending(b.implies);
    SortedIsUnique(a.implies, b.implies);
  }

  /** `pair` is a stream of each of the two histories. */
  ghost predicate CardStreams(a: seq<Card>, b: seq<Card>, pair: (seq<Byte>, seq<Byte>)) {
    exists i: nat, j: nat :: i < |a| && j < |b| && IsCardPair(a[i], b[j], pair)
  }

  ghost predicate IsCardPair(x: Card, y: Card, pair: (seq<Byte>, seq<Byte>)) {
    pair == (CardBytes(x.body), CardBytes(y.body))
  }

  /** One step back: equal hashes mean equal versions with equal ancestors, or two streams collide. */
  lemma CardVersionsAgree(blake: Blake, a: seq<Card>, b: seq<Card>, m: nat, n: nat)
    requires CardChain(blake, a) && CardChain(blake, b) && m < |a| && n < |b| && a[m].hash == b[n].hash
    ensures var pair := (CardBytes(a[m].body), CardBytes(b[n].body));
            || (a[m] == b[n] && m == n && (m > 0 ==> a[m - 1].hash == b[n - 1].hash))
            || (Collides(blake, pair) && CardStreams(a, b, pair))
  {
    assert CardVersion(blake, a, m) && CardVersion(blake, b, n);
    var pair := (CardBytes(a[m].body), CardBytes(b[n].body));
    assert IsCardPair(a[m], b[n], pair);
    if pair.0 == pair.1 { SameCardBody(a[m].body, b[n].body); }
  }

  ghost predicate SameUpTo<V>(a: seq<V>, b: seq<V>, m: nat) {
    m < |a| && m < |b| && forall i :: 0 <= i <= m ==> a[i] == b[i]
  }

  lemma SameExtend<V>(a: seq<V>, b: seq<V>, m: nat)
    requires m < |a| && m < |b| && a[m] == b[m] && (m > 0 ==> SameUpTo(a, b, m - 1))
    ensures SameUpTo(a, b, m)
  {
  }

  lemma SameAre<V>(a: seq<V>, b: seq<V>)
    requires |a| == |b| > 0 && SameUpTo(a, b, |a| - 1)
    ensures a == b
  {
  }

  /**
    Two card chains whose versions `m` and `n` have the same hash are the same up to there, version by version, or
    two of their own byte streams collide.
   */
  lemma CardHeadPinsHistory(blake: Blake, a: seq<Card>, b: seq<Card>, m: nat, n: nat)
    returns (pair: (seq<Byte>, seq<Byte>))
    requires CardChain(blake, a) && CardChain(blake, b) && m < |a| && n < |b| && a[m].hash == b[n].hash
    ensures (m == n && SameUpTo(a, b, m)) || (Collides(blake, pair) && CardStreams(a, b, pair))
    decreases m
  {
    pair := (CardBytes(a[m].body), CardBytes(b[n].body));
    CardVersionsAgree(blake, a, b, m, n);
    if Collides(blake, pair) && CardStreams(a, b, pair) {
      return;
    }
    if m == 0 {
      SameExtend(a, b, 0);
    } else {
      pair := CardHeadPinsHistory(blake, a, b, m - 1, n - 1);
      if SameUpTo(a, b, m - 1) { SameExtend(a, b, m); }
    }
  }

  /** The same for whole histories built by the constructors: equal length and equal versions throughout. */
  lemma CardHistoriesAgree(blake: Blake, id1: Uuid, first1: CardEdit, edits1: seq<CardEdit>,
                           id2: Uuid, first2: CardEdit, edits2: seq<CardEdit>, a: seq<Card>, b: seq<Card>)
    returns (pair: (seq<Byte>, seq<Byte>))
    requires |edits1| < I64_MAX && |edits2| < I64_MAX
    requires a == CardHistory(blake, id1, first1, edits1) && b == CardHistory(blake, id2, first2, edits2)
    requires a[|edits1|].hash == b[|edits2|].hash
    ensures a == b || (Collides(blake, pair) && CardStreams(a, b, pair))
  {
    CardHistoryIsChain(blake, id1, first1, edits1);
    CardHistoryIsChain(blake, id2, first2, edits2);
    pair := CardHeadPinsHistory(blake, a, b, |edits1|, |edits2|);
    if SameUpTo(a, b, |edits1|) && |a| == |b| { SameAre(a, b); }
  }

  /** `pair` is a stream of each of the two histories. */
  ghost predicate TagStreams(a: seq<Tag>, b: seq<Tag>, pair: (seq<Byte>, seq<Byte>)) {
    exists i: nat, j: nat :: i < |a| && j < |b| && IsTagPair(a[i], b[j], pair)
  }

  ghost predicate IsTagPair(x: Tag, y: Tag, pair: (seq<Byte>, seq<Byte>)) {
    pair == (TagBytes(x.body), TagBytes(y.body))
  }

  /** One step back: equal hashes mean equal versions with equal ancestors, or two streams collide. */
  lemma TagVersionsAgree(blake: Blake, a: seq<Tag>, b: seq<Tag>, m: nat, n: nat)
    requires TagChain(blake, a) && TagChain(blake, b) && m < |a| && n < |b| && a[m].hash == b[n].hash
    ensures var pair := (TagBytes(a[m].body), TagBytes(b[n].body));
            || (a[m] == b[n] && m == n && (m > 0 ==> a[m - 1].hash == b[n - 1].hash))
            || (Collides(blake, pair) && TagStreams(a, b, pair))
  {
    assert TagVersion(blake, a, m) && TagVersion(blake, b, n);
    var pair := (TagBytes(a[m].body), TagBytes(b[n].body));
    assert IsTagPair(a[m], b[n], pair);
    if pair.0 == pair.1 { SameTagBody(a[m].body, b[n].body); }
  }

  /**
    Two tag chains whose versions `m` and `n` have the same hash are the same up to there, version by version, or
    two of their own byte streams collide.
   */
  lemma TagHeadPinsHistory(blake: Blake, a: seq<Tag>, b: seq<Tag>, m: nat, n: nat)
    returns (pair: (seq<Byte>, seq<Byte>))
    requires TagChain(blake, a) && TagChain(blake, b) && m < |a| && n < |b| && a[m].hash == b[n].hash
    ensures (m == n && SameUpTo(a, b, m)) || (Collides(blake, pair) && TagStreams(a, b, pair))
    decreases m
  {
    pair := (TagBytes(a[m].body), TagBytes(b[n].body));
    TagVersionsAgree(blake, a, b, m, n);
    if Collides(blake, pair) && TagStreams(a, b, pair) {
      return;
    }
    if m == 0 {
      SameExtend(a, b, 0);
    } else {
      pair := TagHeadPinsHistory(blake, a, b, m - 1, n - 1);
      if SameUpTo(a, b, m - 1) { SameExtend(a, b, m); }
    }
  }

  /** The same for whole histories built by the constructors: equal length and equal versions throughout. */
  lemma TagHistoriesAgree(blake: Blake, id1: Uuid, first1: TagEdit, edits1: seq<TagEdit>,
                           id2: Uuid, first2: TagEdit, edits2: seq<TagEdit>, a: seq<Tag>, b: seq<Tag>)
    returns (pair: (seq<Byte>, seq<Byte>))
    requires |edits1| < I64_MAX && |edits2| < I64_MAX
    requires a == TagHistory(blake, id1, first1, edits1) && b == TagHistory(blake, id2, first2, edits2)
    requires a[|edits1|].hash == b[|edits2|].hash
    ensures a == b || (Collides(blake, pair) && TagStreams(a, b, pair))
  {
    TagHistoryIsChain(blake, id1, first1, edits1);
    TagHistoryIsChain(blake, id2, first2, edits2);
    pair := TagHeadPinsHistory(blake, a, b, |edits1|, |edits2|);
    if SameUpTo(a, b, |edits1|) && |a| == |b| { SameAre(a, b); }
  }

  // ---------------------------------------------------------------- storage

  /** Loading stored fields succeeds on every version a chain holds and gives that version back. */
  lemma StoredCardsLoad(blake: Blake, h: seq<Card>, i: nat)
    requires CardChain(blake, h) && i < |h|
    ensures CardFromParts(blake, h[i].body, h[i].hash) == Ok(h[i])
  {
    assert CardVersion(blake, h, i);
  }

  lemma StoredTagsLoad(blake: Blake, h: seq<Tag>, i: nat)
    requires TagChain(blake, h) && i < |h|
    ensures TagFromParts(blake, h[i].body, h[i].hash) == Ok(h[i])
  {
    var implies := h[i].body.implies;
    assert TagVersion(blake, h, i);
    NormalizeIs(implies);
    InOrderIsUnique(implies, InOrder(Elements(implies)));
  }

  /** Stored fields that load under a version's hash are that version's fields up to tag order, or streams collide. */
  lemma TamperingIsFound(blake: Blake, card: Card, body: CardBody)
    requires VerifyCard(blake, card) && CardFromParts(blake, body, card.hash).Ok?
    ensures (body.(tags := card.body.tags) == card.body && multiset(body.tags) == multiset(card.body.tags))
            || Collides(blake, (CardBytes(body), CardBytes(card.body)))
  {
    CardBytesExact(body, card.body);
  }

  /** The same for tags, whose implies list is normalised on the way in: a loaded tag is the version itself. */
  lemma TagTamperingIsFound(blake: Blake, tag: Tag, body: TagBody)
    requires VerifyTag(blake, tag) && StrictlyAscending(tag.body.implies)
    requires TagFromParts(blake, body, tag.hash).Ok?
    ensures TagFromParts(blake, body, tag.hash).value == tag
            || Collides(blake, (TagBytes(TagFromParts(blake, body, tag.hash).value.body), TagBytes(tag.body)))
  {
    var loaded := TagFromParts(blake, body, tag.hash).value;
    NormalizeIs(body.implies);
    if TagBytes(loaded.body) == TagBytes(tag.body) { SameTagBody(loaded.body, tag.body); }
  }

  /** A card and a tag with one hash are a collision. */
  lemma CardAndTagHashesApart(blake: Blake, card: Card, tag: Tag)
    requires VerifyCard(blake, card) && VerifyTag(blake, tag) && card.hash == tag.hash
    ensures Collides(blake, (CardBytes(card.body), TagBytes(tag.body)))
  {
    CardsAreNotTags(card.body, tag.body);
  }
}
