/** The canonical byte formats of cards and tags, and their decoders. */
module Canonical {
  import opened Ids
  import opened Bytes
  import opened Integers

  const TWO_64: int := 0x1_0000_0000_0000_0000

  /** `NonNegativeI64`. */
  type Count = c: int | 0 <= c <= I64_MAX

  /** UTF-8 text; no Rust string is longer than this. */
  type Text = s: seq<Byte> | |s| <= I64_MAX

  type IdList = s: seq<Uuid> | |s| <= I64_MAX

  datatype Rgb = Rgb(r: Byte, g: Byte, b: Byte)

  /** Every hashed field of a card; timestamps in milliseconds. */
  datatype CardBody = CardBody(id: Uuid, content: Text, priority: I64, tags: IdList, blazed: bool,
                               createdAt: I64, modifiedAt: I64, dueDate: Option<I64>, count: Count, ancestor: Digest)

  /** Every hashed field of a tag. */
  datatype TagBody = TagBody(id: Uuid, title: Text, createdAt: I64, modifiedAt: I64, color: Option<Rgb>,
                             count: Count, ancestor: Digest, implies: IdList)

  // ---------------------------------------------------------------- field encodings

  function Unsigned(i: I64): nat { if i < 0 then i + TWO_64 else i }

  function Signed(n: nat): int { if n > I64_MAX then n - TWO_64 else n }

  function Int64(i: I64): seq<Byte> { BigEndian(8, Unsigned(i)) }

  function Size(n: nat): seq<Byte> { BigEndian(8, n) }

  function IdBytes(id: Uuid): seq<Byte> { BigEndian(16, id) }

  function IdsBytes(ids: seq<Uuid>): seq<Byte> {
    if ids == [] then [] else IdBytes(ids[0]) + IdsBytes(ids[1..])
  }

  function FlagByte(b: bool): Byte { if b then 1 else 0 }

  function DueBytes(due: Option<I64>): seq<Byte> {
    match due
    case None => [0]
    case Some(ms) => [1] + Int64(ms)
  }

  function ColorBytes(color: Option<Rgb>): seq<Byte> {
    match color
    case None => [0]
    case Some(c) => [1, c.r, c.g, c.b]
  }

  /** Identifier, length-prefixed text. */
  function HeadBytes(id: Uuid, text: Text, rest: seq<Byte>): seq<Byte> {
    IdBytes(id) + (Size(|text|) + (text + rest))
  }

  /** Count and sorted ids. */
  function ListBytes(ids: seq<Uuid>, rest: seq<Byte>): seq<Byte> {
    Size(|ids|) + (IdsBytes(Sort(ids)) + rest)
  }

  function CardTail(c: CardBody): seq<Byte> {
    [FlagByte(c.blazed)] + (Int64(c.createdAt) + (Int64(c.modifiedAt) + (DueBytes(c.dueDate)
      + (Int64(c.count) + c.ancestor))))
  }

  /** The byte stream `canonical_card_hash` feeds to BLAKE3. */
  function CardBytes(c: CardBody): seq<Byte> {
    HeadBytes(c.id, c.content, Int64(c.priority) + ListBytes(c.tags, CardTail(c)))
  }

  /** Written only when the list is not empty. */
  function ImpliesBytes(implies: seq<Uuid>): seq<Byte> {
    if implies == [] then [] else ListBytes(implies, [])
  }

  function TagTail(t: TagBody): seq<Byte> {
    Int64(t.createdAt) + (Int64(t.modifiedAt) + (ColorBytes(t.color)
      + (Int64(t.count) + (t.ancestor + ImpliesBytes(t.implies)))))
  }

  /** The byte stream `canonical_tag_hash` feeds to BLAKE3. */
  function TagBytes(t: TagBody): seq<Byte> { HeadBytes(t.id, t.title, TagTail(t)) }

  // ---------------------------------------------------------------- decoders

  function ReadInt64(bytes: seq<Byte>): Option<(int, seq<Byte>)> {
    var (n, rest) :- TakeInt(bytes, 8);
    Some((Signed(n), rest))
  }

  function ReadIds(bytes: seq<Byte>, n: nat): Option<(seq<int>, seq<Byte>)> {
    if n == 0 then Some(([], bytes))
    else
      var (id, more) :- TakeInt(bytes, 16);
      var (ids, rest) :- ReadIds(more, n - 1);
      Some(([id] + ids, rest))
  }

  function ReadList(bytes: seq<Byte>): Option<(seq<int>, seq<Byte>)> {
    var (n, rest) :- TakeInt(bytes, 8);
    ReadIds(rest, n)
  }

  function ReadHead(bytes: seq<Byte>): Option<(int, seq<Byte>, seq<Byte>)> {
    var (id, b1) :- TakeInt(bytes, 16);
    var (n, b2) :- TakeInt(b1, 8);
    var (text, rest) :- Take(b2, n);
    Some((id, text, rest))
  }

  function ReadDue(bytes: seq<Byte>): Option<(Option<int>, seq<Byte>)> {
    var (flag, b1) :- Take(bytes, 1);
    if flag[0] == 0 then Some((None, b1))
    else
      var (ms, rest) :- ReadInt64(b1);
      Some((Some(ms), rest))
  }

  function ReadColor(bytes: seq<Byte>): Option<(Option<Rgb>, seq<Byte>)> {
    var (flag, b1) :- Take(bytes, 1);
    if flag[0] == 0 then Some((None, b1))
    else
      var (c, rest) :- Take(b1, 3);
      Some((Some(Rgb(c[0], c[1], c[2])), rest))
  }

  /** What a card's stream says: its fields, the tags as a sorted list. */
  datatype CardFields = CardFields(id: int, content: seq<Byte>, priority: int, tags: seq<int>, blazed: bool,
                                   createdAt: int, modifiedAt: int, dueDate: Option<int>, count: int,
                                    ancestor: seq<Byte>)

  datatype TagFields = TagFields(id: int, title: seq<Byte>, createdAt: int, modifiedAt: int, color: Option<Rgb>,
                                 count: int, ancestor: seq<Byte>, implies: seq<int>)

  function FieldsOfCard(c: CardBody): CardFields {
    CardFields(c.id, c.content, c.priority, Sort(c.tags), c.blazed, c.createdAt, c.modifiedAt, c.dueDate,
               c.count, c.ancestor)
  }

  function FieldsOfTag(t: TagBody): TagFields {
    TagFields(t.id, t.title, t.createdAt, t.modifiedAt, t.color, t.count, t.ancestor, Sort(t.implies))
  }

  function ReadCardTail(bytes: seq<Byte>): Option<(bool, int, int, Option<int>, int, seq<Byte>)> {
    var (flag, b1) :- Take(bytes, 1);
    var (created, b2) :- ReadInt64(b1);
    var (modified, b3) :- ReadInt64(b2);
    var (due, b4) :- ReadDue(b3);
    var (count, b5) :- ReadInt64(b4);
    var (ancestor, b6) :- Take(b5, 32);
    if b6 == [] then Some((flag[0] == 1, created, modified, due, count, ancestor)) else None
  }

  function DecodeCard(bytes: seq<Byte>): Option<CardFields> {
    var (id, content, b1) :- ReadHead(bytes);
    var (priority, b2) :- ReadInt64(b1);
    var (tags, b3) :- ReadList(b2);
    var (blazed, created, modified, due, count, ancestor) :- ReadCardTail(b3);
    Some(CardFields(id, content, priority, tags, blazed, created, modified, due, count, ancestor))
  }

  /** A stream that ends after the ancestor hash has an empty implies list. */
  function ReadImplies(bytes: seq<Byte>): Option<seq<int>> {
    if bytes == [] then Some([])
    else
      var (ids, rest) :- ReadList(bytes);
      if rest == [] then Some(ids) else None
  }

  function DecodeTag(bytes: seq<Byte>): Option<TagFields> {
    var (id, title, b1) :- ReadHead(bytes);
    var (created, b2) :- ReadInt64(b1);
    var (modified, b3) :- ReadInt64(b2);
    var (color, b4) :- ReadColor(b3);
    var (count, b5) :- ReadInt64(b4);
    var (ancestor, b6) :- Take(b5, 32);
    var implies :- ReadImplies(b6);
    Some(TagFields(id, title, created, modified, color, count, ancestor, implies))
  }

  // ---------------------------------------------------------------- reading back what was written

  lemma Int64Back(i: I64, rest: seq<Byte>)
    ensures ReadInt64(Int64(i) + rest) == Some((i as int, rest))
  {
    PowersOf256();
    TakeIntBack(8, Unsigned(i), rest);
  }

  lemma HeadBack(id: Uuid, text: Text, rest: seq<Byte>)
    ensures ReadHead(HeadBytes(id, text, rest)) == Some((id as int, text, rest))
  {
    PowersOf256();
    TakeIntBack(16, id, Size(|text|) + (text + rest));
    TakeIntBack(8, |text|, text + rest);
    TakeBack(text, rest);
  }

  lemma {:induction false} IdsBack(ids: seq<Uuid>, rest: seq<Byte>)
    ensures ReadIds(IdsBytes(ids) + rest, |ids|) == Some((ids, rest))
  {
    if ids == [] {
      assert IdsBytes(ids) + rest == rest;
    } else {
      var more := IdsBytes(ids[1..]) + rest;
      assert IdsBytes(ids) + rest == IdBytes(ids[0]) + more;
      PowersOf256();
      TakeIntBack(16, ids[0], more);
      IdsBack(ids[1..], rest);
      assert [ids[0]] + ids[1..] == ids;
    }
  }

  lemma ListBack(ids: IdList, rest: seq<Byte>)
    ensures ReadList(ListBytes(ids, rest)) == Some((Sort(ids), rest))
  {
    PowersOf256();
    TakeIntBack(8, |ids|, IdsBytes(Sort(ids)) + rest);
    IdsBack(Sort(ids), rest);
  }

  lemma DueBack(due: Option<I64>, rest: seq<Byte>)
    ensures ReadDue(DueBytes(due) + rest) == Some((due, rest))
  {
    match due
    case None => TakeBack([0], rest);
    case Some(ms) =>
      TakeBack([1], Int64(ms) + rest);
      assert DueBytes(due) + rest == [1] + (Int64(ms) + rest);
      Int64Back(ms, rest);
  }

  lemma ColorBack(color: Option<Rgb>, rest: seq<Byte>)
    ensures ReadColor(ColorBytes(color) + rest) == Some((color, rest))
  {
    match color
    case None => TakeBack([0], rest);
    case Some(c) =>
      TakeBack([1], [c.r, c.g, c.b] + rest);
      assert ColorBytes(color) + rest == [1] + ([c.r, c.g, c.b] + rest);
      TakeBack([c.r, c.g, c.b], rest);
  }

  lemma CardTailBack(c: CardBody)
    ensures ReadCardTail(CardTail(c)) ==
            Some((c.blazed, c.createdAt as int, c.modifiedAt as int, c.dueDate, c.count as int, c.ancestor))
  {
    var b5 := Int64(c.count) + c.ancestor;
    var b4 := DueBytes(c.dueDate) + b5;
    var b3 := Int64(c.modifiedAt) + b4;
    TakeBack([FlagByte(c.blazed)], Int64(c.createdAt) + b3);
    Int64Back(c.createdAt, b3);
    Int64Back(c.modifiedAt, b4);
    DueBack(c.dueDate, b5);
    Int64Back(c.count, c.ancestor);
    TakeBack(c.ancestor, []);
    assert c.ancestor + [] == c.ancestor;
  }

  /** A card's stream gives back every field, the tags in sorted order. */
  lemma CardRoundTrip(c: CardBody)
    ensures DecodeCard(CardBytes(c)) == Some(FieldsOfCard(c))
  {
    var b2 := ListBytes(c.tags, CardTail(c));
    HeadBack(c.id, c.content, Int64(c.priority) + b2);
    Int64Back(c.priority, b2);
    ListBack(c.tags, CardTail(c));
    CardTailBack(c);
  }

  lemma ImpliesBack(implies: IdList)
    ensures ReadImplies(ImpliesBytes(implies)) == Some(Sort(implies))
  {
    if implies != [] {
      ListBack(implies, []);
      assert |ListBytes(implies, [])| >= 8;
    }
  }

  /** A tag's stream gives back every field, whether or not the implies block is present. */
  lemma TagRoundTrip(t: TagBody)
    ensures DecodeTag(TagBytes(t)) == Some(FieldsOfTag(t))
  {
    var b6 := ImpliesBytes(t.implies);
    var b5 := t.ancestor + b6;
    var b4 := Int64(t.count) + b5;
    var b3 := ColorBytes(t.color) + b4;
    var b2 := Int64(t.modifiedAt) + b3;
    HeadBack(t.id, t.title, TagTail(t));
    Int64Back(t.createdAt, b2);
    Int64Back(t.modifiedAt, b3);
    ColorBack(t.color, b4);
    Int64Back(t.count, b5);
    TakeBack(t.ancestor, b6);
    ImpliesBack(t.implies);
  }

  // ---------------------------------------------------------------- canonical form

  /** Two cards have the same stream exactly when they agree on every field up to the order of their tags. */
  lemma CardBytesExact(a: CardBody, b: CardBody)
    ensures CardBytes(a) == CardBytes(b) <==>
            a.(tags := b.tags) == b && multiset(a.tags) == multiset(b.tags)
  {
    CardRoundTrip(a);
    CardRoundTrip(b);
    if CardBytes(a) == CardBytes(b) {
      assert FieldsOfCard(a) == FieldsOfCard(b);
      assert multiset(Sort(a.tags)) == multiset(Sort(b.tags));
    }
    if multiset(a.tags) == multiset(b.tags) {
      SameSort(a.tags, b.tags);
    }
  }

  lemma TagBytesExact(a: TagBody, b: TagBody)
    ensures TagBytes(a) == TagBytes(b) <==>
            a.(implies := b.implies) == b && multiset(a.implies) == multiset(b.implies)
  {
    TagRoundTrip(a);
    TagRoundTrip(b);
    if TagBytes(a) == TagBytes(b) {
      assert FieldsOfTag(a) == FieldsOfTag(b);
      assert multiset(Sort(a.implies)) == multiset(Sort(b.implies));
    }
    if multiset(a.implies) == multiset(b.implies) {
      SameSort(a.implies, b.implies);
    }
  }

  lemma SameSort(s: seq<Uuid>, t: seq<Uuid>)
    requires multiset(s) == multiset(t)
    ensures Sort(s) == Sort(t) && |s| == |t|
  {
    SortOrders(s);
    SortOrders(t);
    SortedIsUnique(Sort(s), Sort(t));
  }

  // ---------------------------------------------------------------- where each byte is

  /** From `at` on stands `n` in `k` bytes, the most significant first. */
  ghost predicate IntAt(bytes: seq<Byte>, at: nat, k: nat, n: nat) {
    at + k <= |bytes| &&
    var field := bytes[at..at + k];
    forall i :: 0 <= i < k ==> field[i] == (n / Pow256(k - 1 - i)) % 256
  }

  /** A signed number in 8 bytes, in two's complement. */
  ghost predicate SignedAt(bytes: seq<Byte>, at: nat, i: I64) {
    IntAt(bytes, at, 8, if i < 0 then i + 0x1_0000_0000_0000_0000 else i)
  }

  ghost predicate SliceAt(bytes: seq<Byte>, at: nat, part: seq<Byte>) {
    at + |part| <= |bytes| && bytes[at..at + |part|] == part
  }

  /** The bytes from `at` on, up to the end. */
  ghost predicate TailAt(bytes: seq<Byte>, at: nat, tail: seq<Byte>) {
    at <= |bytes| && bytes[at..] == tail
  }

  lemma TailSplits(bytes: seq<Byte>, at: nat, part: seq<Byte>, rest: seq<Byte>)
    requires TailAt(bytes, at, part + rest)
    ensures SliceAt(bytes, at, part) && TailAt(bytes, at + |part|, rest)
  {
    assert |bytes[at..]| == |part| + |rest|;
    assert bytes[at..][..|part|] == part && bytes[at..][|part|..] == rest;
  }

  lemma IntSplits(bytes: seq<Byte>, at: nat, k: nat, n: nat, rest: seq<Byte>)
    requires TailAt(bytes, at, BigEndian(k, n) + rest)
    ensures IntAt(bytes, at, k, n) && TailAt(bytes, at + k, rest)
  {
    TailSplits(bytes, at, BigEndian(k, n), rest);
    var field := bytes[at..at + k];
    forall i | 0 <= i < k ensures field[i] == (n / Pow256(k - 1 - i)) % 256 {
      BigEndianDigit(k, n, i);
    }
  }

  ghost predicate IdAt(bytes: seq<Byte>, at: nat, ids: seq<Uuid>, j: nat)
    requires j < |ids|
  {
    IntAt(bytes, at + 16 * j, 16, ids[j])
  }

  /** The ids one after the other, 16 bytes each. */
  ghost predicate IdsAt(bytes: seq<Byte>, at: nat, ids: seq<Uuid>) {
    forall j: nat {:trigger IdAt(bytes, at, ids, j)} :: j < |ids| ==> IdAt(bytes, at, ids, j)
  }

  lemma IdsAtCons(bytes: seq<Byte>, at: nat, ids: seq<Uuid>)
    requires ids != [] && IntAt(bytes, at, 16, ids[0]) && IdsAt(bytes, at + 16, ids[1..])
    ensures IdsAt(bytes, at, ids)
  {
    forall j: nat | j < |ids| ensures IdAt(bytes, at, ids, j) {
      if j > 0 {
        assert IdAt(bytes, at + 16, ids[1..], j - 1);
        assert at + 16 + 16 * (j - 1) == at + 16 * j;
      }
    }
  }

  lemma {:induction false} IdsSplit(bytes: seq<Byte>, at: nat, ids: seq<Uuid>, rest: seq<Byte>)
    requires TailAt(bytes, at, IdsBytes(ids) + rest)
    ensures IdsAt(bytes, at, ids) && TailAt(bytes, at + 16 * |ids|, rest)
    decreases |ids|
  {
    if ids == [] {
      assert IdsBytes(ids) + rest == rest;
    } else {
      var more := IdsBytes(ids[1..]) + rest;
      assert IdsBytes(ids) + rest == IdBytes(ids[0]) + more;
      IntSplits(bytes, at, 16, ids[0], more);
      IdsSplit(bytes, at + 16, ids[1..], rest);
      IdsAtCons(bytes, at, ids);
    }
  }

  ghost predicate HeadAt(bytes: seq<Byte>, id: Uuid, text: Text) {
    IntAt(bytes, 0, 16, id) && IntAt(bytes, 16, 8, |text|) && SliceAt(bytes, 24, text)
  }

  lemma HeadSplits(bytes: seq<Byte>, id: Uuid, text: Text, rest: seq<Byte>)
    requires bytes == HeadBytes(id, text, rest)
    ensures HeadAt(bytes, id, text) && TailAt(bytes, 24 + |text|, rest)
  {
    IntSplits(bytes, 0, 16, id, Size(|text|) + (text + rest));
    IntSplits(bytes, 16, 8, |text|, text + rest);
    TailSplits(bytes, 24, text, rest);
  }

  /** Count and sorted ids. */
  ghost predicate ListAt(bytes: seq<Byte>, at: nat, ids: seq<Uuid>) {
    IntAt(bytes, at, 8, |ids|) && IdsAt(bytes, at + 8, Sort(ids))
  }

  lemma ListSplits(bytes: seq<Byte>, at: nat, ids: seq<Uuid>, rest: seq<Byte>)
    requires TailAt(bytes, at, ListBytes(ids, rest))
    ensures ListAt(bytes, at, ids) && TailAt(bytes, at + 8 + 16 * |ids|, rest)
  {
    IntSplits(bytes, at, 8, |ids|, IdsBytes(Sort(ids)) + rest);
    IdsSplit(bytes, at + 8, Sort(ids), rest);
  }

  /** A presence byte, and the due date if there is one. */
  ghost predicate DueAt(bytes: seq<Byte>, at: nat, due: Option<I64>) {
    at < |bytes| && if due.None? then bytes[at] == 0 else bytes[at] == 1 && SignedAt(bytes, at + 1, due.value)
  }

  function DueSize(due: Option<I64>): nat { if due.None? then 1 else 9 }

  lemma DueSplits(bytes: seq<Byte>, at: nat, due: Option<I64>, rest: seq<Byte>)
    requires TailAt(bytes, at, DueBytes(due) + rest)
    ensures DueAt(bytes, at, due) && TailAt(bytes, at + DueSize(due), rest)
  {
    match due
    case None => TailSplits(bytes, at, [0], rest);
    case Some(ms) =>
      assert DueBytes(due) + rest == [1] + (Int64(ms) + rest);
      TailSplits(bytes, at, [1], Int64(ms) + rest);
      IntSplits(bytes, at + 1, 8, Unsigned(ms), rest);
  }

  /** Flag, the two times, due date, version count and ancestor, and nothing after them. */
  ghost predicate CardTailAt(bytes: seq<Byte>, at: nat, c: CardBody) {
    && SliceAt(bytes, at, [if c.blazed then 1 else 0])
    && SignedAt(bytes, at + 1, c.createdAt) && SignedAt(bytes, at + 9, c.modifiedAt)
    && DueAt(bytes, at + 17, c.dueDate)
    && SignedAt(bytes, at + 17 + DueSize(c.dueDate), c.count)
    && SliceAt(bytes, at + 25 + DueSize(c.dueDate), c.ancestor)
    && |bytes| == at + 57 + DueSize(c.dueDate)
  }

  lemma CardTailSplits(bytes: seq<Byte>, at: nat, c: CardBody)
    requires TailAt(bytes, at, CardTail(c))
    ensures CardTailAt(bytes, at, c)
  {
    var b6 := Int64(c.count) + c.ancestor;
    var b5 := DueBytes(c.dueDate) + b6;
    var b4 := Int64(c.modifiedAt) + b5;
    TailSplits(bytes, at, [FlagByte(c.blazed)], Int64(c.createdAt) + b4);
    IntSplits(bytes, at + 1, 8, Unsigned(c.createdAt), b4);
    IntSplits(bytes, at + 9, 8, Unsigned(c.modifiedAt), b5);
    DueSplits(bytes, at + 17, c.dueDate, b6);
    assert c.ancestor + [] == c.ancestor;
    CountAndAncestor(bytes, at + 17 + DueSize(c.dueDate), c.count, c.ancestor, []);
  }

  lemma CountAndAncestor(bytes: seq<Byte>, at: nat, count: Count, ancestor: Digest, rest: seq<Byte>)
    requires TailAt(bytes, at, Int64(count) + (ancestor + rest))
    ensures SignedAt(bytes, at, count) && SliceAt(bytes, at + 8, ancestor) && TailAt(bytes, at + 40, rest)
  {
    IntSplits(bytes, at, 8, Unsigned(count), ancestor + rest);
    TailSplits(bytes, at + 8, ancestor, rest);
  }

  lemma CardHeadSplits(bytes: seq<Byte>, c: CardBody, tail: seq<Byte>)
    requires bytes == HeadBytes(c.id, c.content, Int64(c.priority) + ListBytes(c.tags, tail))
    ensures HeadAt(bytes, c.id, c.content)
    ensures SignedAt(bytes, 24 + |c.content|, c.priority)
    ensures ListAt(bytes, 32 + |c.content|, c.tags)
    ensures TailAt(bytes, 40 + |c.content| + 16 * |c.tags|, tail)
  {
    var n, list := |c.content|, ListBytes(c.tags, tail);
    HeadSplits(bytes, c.id, c.content, Int64(c.priority) + list);
    IntSplits(bytes, 24 + n, 8, Unsigned(c.priority), list);
    ListSplits(bytes, 32 + n, c.tags, tail);
  }

  lemma CardSplits(bytes: seq<Byte>, c: CardBody)
    requires bytes == CardBytes(c)
    ensures HeadAt(bytes, c.id, c.content)
    ensures SignedAt(bytes, 24 + |c.content|, c.priority)
    ensures ListAt(bytes, 32 + |c.content|, c.tags)
    ensures CardTailAt(bytes, 40 + |c.content| + 16 * |c.tags|, c)
  {
    var tail := CardTail(c);
    CardHeadSplits(bytes, c, tail);
    CardTailSplits(bytes, 40 + |c.content| + 16 * |c.tags|, c);
  }

  /**
    The card format, byte by byte: id, text with its length, priority, sorted tags with their number, flag, times, due
    date, count and ancestor follow each other at these places, every number with its most significant byte first.
   */
  lemma CardLayout(c: CardBody)
    ensures HeadAt(CardBytes(c), c.id, c.content)
    ensures SignedAt(CardBytes(c), 24 + |c.content|, c.priority)
    ensures ListAt(CardBytes(c), 32 + |c.content|, c.tags)
    ensures CardTailAt(CardBytes(c), 40 + |c.content| + 16 * |c.tags|, c)
  {
    CardSplits(CardBytes(c), c);
  }

  /** A presence byte, and the colour's three bytes if there is one. */
  ghost predicate ColorAt(bytes: seq<Byte>, at: nat, color: Option<Rgb>) {
    SliceAt(bytes, at, if color.None? then [0] else [1, color.value.r, color.value.g, color.value.b])
  }

  function ColorSize(color: Option<Rgb>): nat { if color.None? then 1 else 4 }

  /** The implied tags, or nothing at all, and nothing after them. */
  ghost predicate ImpliesAt(bytes: seq<Byte>, at: nat, implies: seq<Uuid>) {
    if implies == [] then |bytes| == at else ListAt(bytes, at, implies) && |bytes| == at + 8 + 16 * |implies|
  }

  lemma ImpliesSplits(bytes: seq<Byte>, at: nat, implies: seq<Uuid>)
    requires TailAt(bytes, at, ImpliesBytes(implies))
    ensures ImpliesAt(bytes, at, implies)
  {
    if implies != [] { ListSplits(bytes, at, implies, []); }
  }

  /** The two times, colour, version count and ancestor, then the implied tags. */
  ghost predicate TagTailAt(bytes: seq<Byte>, at: nat, t: TagBody) {
    && SignedAt(bytes, at, t.createdAt) && SignedAt(bytes, at + 8, t.modifiedAt)
    && ColorAt(bytes, at + 16, t.color)
    && SignedAt(bytes, at + 16 + ColorSize(t.color), t.count)
    && SliceAt(bytes, at + 24 + ColorSize(t.color), t.ancestor)
    && ImpliesAt(bytes, at + 56 + ColorSize(t.color), t.implies)
  }

  lemma TagTailSplits(bytes: seq<Byte>, at: nat, t: TagBody)
    requires TailAt(bytes, at, TagTail(t))
    ensures TagTailAt(bytes, at, t)
  {
    var b6 := ImpliesBytes(t.implies);
    var b4 := Int64(t.count) + (t.ancestor + b6);
    var b3 := ColorBytes(t.color) + b4;
    IntSplits(bytes, at, 8, Unsigned(t.createdAt), Int64(t.modifiedAt) + b3);
    IntSplits(bytes, at + 8, 8, Unsigned(t.modifiedAt), b3);
    TailSplits(bytes, at + 16, ColorBytes(t.color), b4);
    CountAndAncestor(bytes, at + 16 + ColorSize(t.color), t.count, t.ancestor, b6);
    ImpliesSplits(bytes, at + 56 + ColorSize(t.color), t.implies);
  }

  /** The same for tags. */
  lemma TagLayout(t: TagBody)
    ensures HeadAt(TagBytes(t), t.id, t.title) && TagTailAt(TagBytes(t), 24 + |t.title|, t)
  {
    HeadSplits(TagBytes(t), t.id, t.title, TagTail(t));
    TagTailSplits(TagBytes(t), 24 + |t.title|, t);
  }

  // ---------------------------------------------------------------- cards and tags never share bytes

  lemma {:induction false} IdsLength(ids: seq<Uuid>)
    ensures |IdsBytes(ids)| == 16 * |ids|
  {
    if ids != [] { IdsLength(ids[1..]); }
  }

  lemma DropsSixteens(n: nat, k: nat)
    ensures (16 * n + k) % 16 == k % 16
  {
  }

  lemma ListLength(ids: seq<Uuid>, rest: seq<Byte>)
    ensures |ListBytes(ids, rest)| == 16 * |ids| + 8 + |rest|
  {
    IdsLength(Sort(ids));
  }

  lemma CardTailSize(c: CardBody)
    ensures |CardTail(c)| == if c.dueDate.None? then 58 else 66
  {
  }

  lemma CardSize(c: CardBody)
    ensures |Int64(c.priority) + ListBytes(c.tags, CardTail(c))| ==
            16 * |c.tags| + if c.dueDate.None? then 74 else 82
  {
    CardTailSize(c);
    ListLength(c.tags, CardTail(c));
  }

  lemma CardTailLength(c: CardBody)
    ensures |Int64(c.priority) + ListBytes(c.tags, CardTail(c))| % 16 in {2, 10}
  {
    CardSize(c);
    DropsSixteens(|c.tags|, if c.dueDate.None? then 74 else 82);
  }

  lemma ImpliesLength(implies: seq<Uuid>)
    ensures |ImpliesBytes(implies)| == 16 * |implies| + if implies == [] then 0 else 8
  {
    ListLength(implies, []);
  }

  lemma TagFieldsLength(t: TagBody)
    ensures |TagTail(t)| == 56 + |ColorBytes(t.color)| + |ImpliesBytes(t.implies)|
  {
  }

  lemma ColorLength(color: Option<Rgb>)
    ensures |ColorBytes(color)| == if color.None? then 1 else 4
  {
  }

  lemma TagSize(t: TagBody)
    ensures |TagTail(t)| == 16 * |t.implies| + (if t.color.None? then 57 else 60) + if t.implies == [] then 0 else 8
  {
    TagFieldsLength(t);
    ColorLength(t.color);
    ImpliesLength(t.implies);
  }

  lemma TagRemainder(length: nat, n: nat, k: nat)
    requires length == 16 * n + k && k in {57, 60, 65, 68}
    ensures length % 16 in {1, 4, 9, 12}
  {
    DropsSixteens(n, k);
  }

  lemma TagTailLength(t: TagBody)
    ensures |TagTail(t)| % 16 in {1, 4, 9, 12}
  {
    TagSize(t);
    TagRemainder(|TagTail(t)|, |t.implies|, (if t.color.None? then 57 else 60) + if t.implies == [] then 0 else 8);
  }

  lemma SameHeads(a: Uuid, s: Text, x: seq<Byte>, b: Uuid, t: Text, y: seq<Byte>)
    requires HeadBytes(a, s, x) == HeadBytes(b, t, y)
    ensures x == y
  {
    HeadBack(a, s, x);
    HeadBack(b, t, y);
  }

  /** No card has the bytes of a tag. */
  lemma CardsAreNotTags(c: CardBody, t: TagBody)
    ensures CardBytes(c) != TagBytes(t)
  {
    if CardBytes(c) == TagBytes(t) {
      CardTailLength(c);
      TagTailLength(t);
      SameHeads(c.id, c.content, Int64(c.priority) + ListBytes(c.tags, CardTail(c)), t.id, t.title, TagTail(t));
    }
  }

  // ---------------------------------------------------------------- the streaming hasher

  /** `blake3::Hasher`: bytes fed so far, digested at the end. */
  class Hasher {
    const blake: seq<Byte> -> Digest
    var fed: seq<Byte>

    constructor (blake: seq<Byte> -> Digest)
      ensures fed == [] && this.blake == blake
    {
      this.blake, fed := blake, [];
    }

    /** Feeds `bytes`; `rest` is what is still to be fed of `all`. */
    method Update(bytes: seq<Byte>, ghost rest: seq<Byte>, ghost all: seq<Byte>)
      requires fed + (bytes + rest) == all
      modifies this
      ensures fed == old(fed) + bytes
      ensures fed + rest == all
    {
      assert fed + (bytes + rest) == (fed + bytes) + rest;
      fed := fed + bytes;
    }

    method Finalize() returns (digest: Digest)
      ensures digest == blake(fed)
    {
      digest := blake(fed);
    }
  }

  /** Feeds the ids one by one. */
  method FeedIds(hasher: Hasher, ids: seq<Uuid>, ghost rest: seq<Byte>, ghost all: seq<Byte>)
    requires hasher.fed + (IdsBytes(ids) + rest) == all
    modifies hasher
    ensures hasher.fed + rest == all
  {
    assert ids[0..] == ids;
    for i := 0 to |ids|
      invariant hasher.fed + (IdsBytes(ids[i..]) + rest) == all
    {
      ghost var more := IdsBytes(ids[i + 1..]) + rest;
      assert ids[i..] == [ids[i]] + ids[i + 1..];
      assert IdsBytes(ids[i..]) + rest == IdBytes(ids[i]) + more;
      hasher.Update(IdBytes(ids[i]), more, all);
    }
    assert IdsBytes(ids[|ids|..]) + rest == rest;
  }

  /** Feeds the flag and the optional due date. */
  method FeedDue(hasher: Hasher, due: Option<I64>, ghost rest: seq<Byte>, ghost all: seq<Byte>)
    requires hasher.fed + (DueBytes(due) + rest) == all
    modifies hasher
    ensures hasher.fed + rest == all
  {
    match due {
      case None =>
        hasher.Update([0], rest, all);
      case Some(ms) =>
        assert DueBytes(due) + rest == [1] + (Int64(ms) + rest);
        hasher.Update([1], Int64(ms) + rest, all);
        hasher.Update(Int64(ms), rest, all);
    }
  }

  /** `canonical_card_hash`: the fields in their fixed order, the tags from a sorted copy. */
  method CanonicalCardHash(blake: seq<Byte> -> Digest, c: CardBody) returns (digest: Digest)
    ensures digest == blake(CardBytes(c))
  {
    var hasher := new Hasher(blake);
    ghost var all := CardBytes(c);
    ghost var b6 := Int64(c.count) + c.ancestor;
    ghost var b5 := DueBytes(c.dueDate) + b6;
    ghost var b4 := Int64(c.modifiedAt) + b5;
    ghost var b3 := Int64(c.createdAt) + b4;
    ghost var tail := CardTail(c);
    ghost var b2 := ListBytes(c.tags, tail);
    ghost var b1 := Int64(c.priority) + b2;
    hasher.Update(IdBytes(c.id), Size(|c.content|) + (c.content + b1), all);
    hasher.Update(Size(|c.content|), c.content + b1, all);
    hasher.Update(c.content, b1, all);
    hasher.Update(Int64(c.priority), b2, all);
    var sortedTags := Sort(c.tags);
    hasher.Update(Size(|sortedTags|), IdsBytes(sortedTags) + tail, all);
    FeedIds(hasher, sortedTags, tail, all);
    hasher.Update([FlagByte(c.blazed)], b3, all);
    hasher.Update(Int64(c.createdAt), b4, all);
    hasher.Update(Int64(c.modifiedAt), b5, all);
    FeedDue(hasher, c.dueDate, b6, all);
    hasher.Update(Int64(c.count), c.ancestor, all);
    assert c.ancestor == c.ancestor + [];
    hasher.Update(c.ancestor, [], all);
    assert hasher.fed + [] == hasher.fed;
    digest := hasher.Finalize();
  }

  /** `canonical_tag_hash`: the implies block is appended only when there is one. */
  method CanonicalTagHash(blake: seq<Byte> -> Digest, t: TagBody) returns (digest: Digest)
    ensures digest == blake(TagBytes(t))
  {
    var hasher := new Hasher(blake);
    ghost var all := TagBytes(t);
    ghost var b6 := ImpliesBytes(t.implies);
    ghost var b5 := t.ancestor + b6;
    ghost var b4 := Int64(t.count) + b5;
    ghost var b3 := ColorBytes(t.color) + b4;
    ghost var b2 := Int64(t.modifiedAt) + b3;
    ghost var b1 := TagTail(t);
    hasher.Update(IdBytes(t.id), Size(|t.title|) + (t.title + b1), all);
    hasher.Update(Size(|t.title|), t.title + b1, all);
    hasher.Update(t.title, b1, all);
    hasher.Update(Int64(t.createdAt), b2, all);
    hasher.Update(Int64(t.modifiedAt), b3, all);
    match t.color {
      case None =>
        hasher.Update([0], b4, all);
      case Some(c) =>
        assert ColorBytes(t.color) + b4 == [1] + ([c.r, c.g, c.b] + b4);
        hasher.Update([1], [c.r, c.g, c.b] + b4, all);
        hasher.Update([c.r, c.g, c.b], b4, all);
    }
    hasher.Update(Int64(t.count), b5, all);
    hasher.Update(t.ancestor, b6, all);
    if t.implies != [] {
      var sorted := Sort(t.implies);
      hasher.Update(Size(|sorted|), IdsBytes(sorted) + [], all);
      FeedIds(hasher, sorted, [], all);
    }
    assert hasher.fed + [] == hasher.fed;
    digest := hasher.Finalize();
  }
}
