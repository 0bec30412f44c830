/** Seeded card histories (clients/dev-seeder/src/seed/seed.rs): tag sets stay closed, priorities stay apart. */
module SeedCards {
  import opened Ids
  import opened Integers
  import opened Canonical
  import opened Chains
  import opened Walks
  import opened TagGraphs
  import opened SeedTags
  import opened SeedPriorities

  // ---------------------------------------------------------------- picking without repeats

  ghost predicate DistinctBelow(s: seq<nat>, n: nat) {
    (forall i :: 0 <= i < |s| ==> s[i] < n) && forall i, j :: 0 <= i < j < |s| ==> s[i] != s[j]
  }

  lemma SwapKeepsDistinct(s: seq<nat>, n: nat, i: nat, j: nat)
    requires DistinctBelow(s, n) && i < |s| && j < |s|
    ensures DistinctBelow(s[i := s[j]][j := s[i]], n)
  {
  }

  lemma PrefixKeepsDistinct(s: seq<nat>, n: nat, k: nat)
    requires DistinctBelow(s, n) && k <= |s|
    ensures DistinctBelow(s[..k], n)
  {
  }

  /** The first `n` steps of a Fisher-Yates shuffle of the indices below `len`. */
  method PartialShuffle(rng: Rng, len: nat, n: nat) returns (picked: seq<nat>)
    requires n <= len
    modifies rng
    ensures rng.drawn >= old(rng.drawn)
    ensures |picked| == n && DistinctBelow(picked, len)
  {
    var indices := new nat[len](i => i);
    assert DistinctBelow(indices[..], len);
    for i := 0 to n
      invariant DistinctBelow(indices[..], len) && rng.drawn >= old(rng.drawn)
    {
      var draw := rng.Next();
      var j := i + draw % (len - i);
      SwapKeepsDistinct(indices[..], len, i, j);
      ghost var before := indices[..];
      indices[i], indices[j] := indices[j], indices[i];
      assert indices[..] == before[i := before[j]][j := before[i]];
    }
    PrefixKeepsDistinct(indices[..], len, n);
    picked := indices[..n];
  }

  function At(ids: seq<Uuid>, indices: seq<nat>): (r: seq<Uuid>)
    requires forall i :: 0 <= i < |indices| ==> indices[i] < |ids|
    ensures |r| == |indices|
  {
    seq(|indices|, i requires 0 <= i < |indices| => ids[indices[i]])
  }

  lemma AtIsDistinct(ids: seq<Uuid>, indices: seq<nat>)
    requires DistinctBelow(indices, |ids|)
    ensures Elements(At(ids, indices)) <= Elements(ids)
    ensures Distinct(ids) ==> Distinct(At(ids, indices))
  {
    forall i, j | 0 <= i < j < |indices| && Distinct(ids) ensures ids[indices[i]] != ids[indices[j]] {
      assert indices[i] != indices[j];
    }
  }

  /** Up to `n` of the tags, at different places of the list. */
  method PickTags(rng: Rng, tagIds: seq<Uuid>, n: nat) returns (tags: seq<Uuid>)
    modifies rng
    ensures rng.drawn >= old(rng.drawn)
    ensures |tags| == if n <= |tagIds| then n else |tagIds|
    ensures Elements(tags) <= Elements(tagIds)
    ensures Distinct(tagIds) ==> Distinct(tags)
  {
    var indices := PartialShuffle(rng, |tagIds|, Min(n, |tagIds|));
    AtIsDistinct(tagIds, indices);
    tags := At(tagIds, indices);
  }

  // ---------------------------------------------------------------- closed tag sets

  /** Every tag id a seeded card can carry. */
  ghost function Universe(g: Graph, tagIds: seq<Uuid>): set<Uuid> { Nodes(g) + Elements(tagIds) }

  /** A tag list the seeder hands to a card: closed, and from the universe, which is small enough to be a list. */
  ghost predicate GoodTags(g: Graph, tagIds: seq<Uuid>, tags: seq<Uuid>) {
    ClosedUnder(g, tags) && Elements(tags) <= Universe(g, tagIds) && |tags| <= I64_MAX
  }

  lemma ClosureIsGood(g: Graph, tagIds: seq<Uuid>, tags: seq<Uuid>)
    requires Elements(tags) <= Universe(g, tagIds) && |Universe(g, tagIds)| <= I64_MAX
    ensures GoodTags(g, tagIds, InOrder(Closure(g, Elements(tags))))
  {
    var closed := Closure(g, Elements(tags));
    var r := InOrder(closed);
    ClosureIsLeast(g, Elements(tags));
    assert Elements(r) == closed;
    assert Closed(g, Universe(g, tagIds));
    DistinctSize(r);
    SubsetSize(closed, Universe(g, tagIds));
  }

  /** The closure as a sorted list; dropping repeats from it changes nothing. */
  method ClosedTags(graph: TagGraph, tags: seq<Uuid>) returns (closed: seq<Uuid>)
    ensures closed == InOrder(Closure(graph.edges, Elements(tags)))
  {
    var visited := graph.ClosureOf(tags);
    var sorted := Collect(visited);
    NormalizeIs(sorted);
    assert Elements(sorted) == visited;
    closed := Dedup(Sort(sorted));
  }

  /** How many tags a new card picks: none, one or two, three to five, or at least half. */
  function FirstCount(available: nat, roll: nat, draw: nat): (n: nat)
    requires available > 0
    ensures n <= available
  {
    if roll % 100 < 20 then 0
    else if roll % 100 < 60 then 1 + draw % Min(2, available)
    else if roll % 100 < 90 then Min(3, available) + draw % (Min(5, available) - Min(3, available) + 1)
    else (available + 1) / 2 + draw % (available - (available + 1) / 2 + 1)
  }

  /** Whatever is drawn besides, the roll leads to a number of tags in this range. */
  ghost predicate TagsBetween(available: nat, roll: nat, lo: nat, hi: nat)
    requires available > 0
  {
    forall draw: nat :: lo <= FirstCount(available, roll, draw) <= hi
  }

  /**
    Of a hundred rolls 20 give no tags, the next 40 one or two, the next 30 three to five, and the last 10 at least
    half of those available.
   */
  lemma FirstCountShares(available: nat, roll: nat)
    requires available >= 12
    ensures TagsBetween(available, roll, 0, 0) <==> roll % 100 < 20
    ensures TagsBetween(available, roll, 1, 2) <==> 20 <= roll % 100 < 20 + 40
    ensures TagsBetween(available, roll, 3, 5) <==> 20 + 40 <= roll % 100 < 20 + 40 + 30
    ensures TagsBetween(available, roll, (available + 1) / 2, available) <==> 20 + 40 + 30 <= roll % 100
  {
    var n := FirstCount(available, roll, 0);
    assert n == if roll % 100 < 20 then 0 else if roll % 100 < 60 then 1 else if roll % 100 < 90 then 3
                else (available + 1) / 2;
  }

  /** Each of those numbers of tags is drawn, up to all that are available. */
  lemma AnyFirstCount(available: nat, roll: nat, n: nat)
    requires available >= 12
    ensures (20 <= roll % 100 < 60 && 1 <= n <= 2) || (60 <= roll % 100 < 90 && 3 <= n <= 5) ||
            (90 <= roll % 100 && (available + 1) / 2 <= n <= available) ==>
              exists draw: nat :: FirstCount(available, roll, draw) == n
  {
    if 20 <= roll % 100 < 60 && 1 <= n <= 2 { assert FirstCount(available, roll, n - 1) == n; }
    if 60 <= roll % 100 < 90 && 3 <= n <= 5 { assert FirstCount(available, roll, n - 3) == n; }
    if 90 <= roll % 100 && (available + 1) / 2 <= n <= available {
      var draw: nat := n - (available + 1) / 2;
      SmallRemainder(draw, available - (available + 1) / 2 + 1);
      assert FirstCount(available, roll, draw) == n;
    }
  }

  lemma SmallRemainder(a: nat, n: nat)
    requires a < n
    ensures a % n == a
  {
  }

  /** The list is the closure, in order, of `n` tags picked at different places of the tag list. */
  ghost predicate ClosureOfPicks(g: Graph, tagIds: seq<Uuid>, n: nat, tags: seq<Uuid>) {
    exists picked :: ArePicks(tagIds, n, picked) && tags == InOrder(Closure(g, Elements(picked)))
  }

  ghost predicate ArePicks(tagIds: seq<Uuid>, n: nat, picked: seq<Uuid>) {
    |picked| == n && Elements(picked) <= Elements(tagIds) && (Distinct(tagIds) ==> Distinct(picked))
  }

  /** The tags of a new card: what was picked, closed under the graph. */
  method FirstTags(rng: Rng, tagIds: seq<Uuid>, graph: TagGraph) returns (tags: seq<Uuid>)
    requires |Universe(graph.edges, tagIds)| <= I64_MAX
    modifies rng
    ensures GoodTags(graph.edges, tagIds, tags)
    ensures tagIds == [] ==> tags == []
    ensures tagIds != [] ==>
              var roll, draw := rng.stream(old(rng.drawn)), rng.stream(old(rng.drawn) + 1);
              ClosureOfPicks(graph.edges, tagIds, FirstCount(|tagIds|, roll, draw), tags)
  {
    if tagIds == [] {
      assert Elements([]) == {};
      return [];
    }
    var available := |tagIds|;
    var roll := rng.Next();
    var numTags := 0;
    if roll % 100 >= 20 {
      var draw := rng.Next();
      numTags := FirstCount(available, roll, draw);
    }
    var picked := PickTags(rng, tagIds, numTags);
    ClosureIsGood(graph.edges, tagIds, picked);
    tags := ClosedTags(graph, picked);
    assert ArePicks(tagIds, numTags, picked);
  }

  // ---------------------------------------------------------------- editing tags

  lemma RemoveShrinks(tags: seq<Uuid>, i: nat)
    requires i < |tags|
    ensures Elements(tags[..i] + tags[i + 1..]) <= Elements(tags)
  {
  }

  /** What the draws make of the tags: one removed, one added if it is new, or one to four picked anew. */
  ghost predicate TagChange(kind: nat, draw: nat, tags: seq<Uuid>, tagIds: seq<Uuid>, changed: seq<Uuid>)
    requires tagIds != []
  {
    if kind % 3 == 0 && tags != [] then changed == tags[..draw % |tags|] + tags[draw % |tags| + 1..]
    else if kind % 3 == 1 then
      var tag := tagIds[draw % |tagIds|];
      changed == if tag in tags then tags else tags + [tag]
    else ArePicks(tagIds, 1 + draw % Min(|tagIds|, 4), changed)
  }

  method ChangeTags(rng: Rng, tags: seq<Uuid>, tagIds: seq<Uuid>) returns (changed: seq<Uuid>)
    requires tagIds != []
    modifies rng
    ensures rng.drawn >= old(rng.drawn)
    ensures TagChange(rng.stream(old(rng.drawn)), rng.stream(old(rng.drawn) + 1), tags, tagIds, changed)
    ensures Elements(changed) <= Elements(tags) + Elements(tagIds)
  {
    changed := tags;
    var kind := rng.Next();
    var draw := rng.Next();
    if kind % 3 == 0 && tags != [] {
      RemoveShrinks(tags, draw % |tags|);
      changed := tags[..draw % |tags|] + tags[draw % |tags| + 1..];
    } else if kind % 3 == 1 {
      var tag := tagIds[draw % |tagIds|];
      if tag !in tags {
        ElementsAppend(tags, [tag]);
        changed := tags + [tag];
      }
    } else {
      changed := PickTags(rng, tagIds, 1 + draw % Min(|tagIds|, 4));
    }
  }

  /** Changes the tags of a card and closes the result. */
  method EditTags(rng: Rng, tags: seq<Uuid>, tagIds: seq<Uuid>, graph: TagGraph) returns (out: seq<Uuid>)
    requires GoodTags(graph.edges, tagIds, tags) && |Universe(graph.edges, tagIds)| <= I64_MAX
    modifies rng
    ensures rng.drawn >= old(rng.drawn)
    ensures GoodTags(graph.edges, tagIds, out)
    ensures tagIds == [] ==> out == tags
    ensures tagIds != [] ==>
              ClosureOfChange(graph.edges, rng.stream(old(rng.drawn)), rng.stream(old(rng.drawn) + 1), tags, tagIds,
                              out)
  {
    if tagIds == [] { return tags; }
    ghost var kind, draw := rng.stream(rng.drawn), rng.stream(rng.drawn + 1);
    var changed := ChangeTags(rng, tags, tagIds);
    ClosureIsGood(graph.edges, tagIds, changed);
    out := ClosedTags(graph, changed);
    assert TagChange(kind, draw, tags, tagIds, changed);
  }

  /** The list is the closure, in order, of the changed tags. */
  ghost predicate ClosureOfChange(g: Graph, kind: nat, draw: nat, tags: seq<Uuid>, tagIds: seq<Uuid>, out: seq<Uuid>)
    requires tagIds != []
  {
    exists changed :: TagChange(kind, draw, tags, tagIds, changed) && out == InOrder(Closure(g, Elements(changed)))
  }

  // ---------------------------------------------------------------- card histories

  datatype Field = ContentField | PriorityField | TagsField | BlazedField | DueDateField

  const ALL_FIELDS: seq<Field> := [ContentField, PriorityField, TagsField, BlazedField, DueDateField]

  /** Texts, due dates and edit times, which this model leaves open. */
  datatype Supply = Supply(text: nat -> Text, due: nat -> Option<I64>, time: nat -> I64)

  ghost predicate GoodEdit(g: Graph, tagIds: seq<Uuid>, e: CardEdit) {
    GoodTags(g, tagIds, e.tags)
  }

  /** The live card's priority is counted once beside those of the other cards. */
  ghost predicate Holds(priorities: UsedPriorities, others: set<I64>, current: I64)
    reads priorities
  {
    priorities.used == others + {current} && current !in others
  }

  /** An edit of one field leaves the others alone. */
  ghost predicate Touches(field: Field, e: CardEdit, out: CardEdit) {
    match field
    case ContentField => out == e.(content := out.content)
    case PriorityField => out == e.(priority := out.priority)
    case TagsField => out == e.(tags := out.tags)
    case BlazedField => out == e.(blazed := !e.blazed)
    case DueDateField => out == e.(dueDate := out.dueDate)
  }

  /** A priority edit that overflows: the nearby value is the maximum, and another card has it. */
  predicate Overflows(others: set<I64>, draw: nat, current: I64) {
    Nearby(draw, current) == I64_MAX && I64_MAX in others
  }

  /** One field of an edit. Fails exactly for a priority edit that overflows. */
  method EditField(rng: Rng, supply: Supply, field: Field, e: CardEdit, tagIds: seq<Uuid>, graph: TagGraph,
                   priorities: UsedPriorities, ghost others: set<I64>) returns (out: Option<CardEdit>)
    requires GoodEdit(graph.edges, tagIds, e) && |Universe(graph.edges, tagIds)| <= I64_MAX
    requires Holds(priorities, others, e.priority) && RoomBelowMax(others)
    modifies rng, priorities
    ensures rng.drawn >= old(rng.drawn) + if field == PriorityField then 1 else 0
    ensures out == None <==>
            field == PriorityField && Overflows(others, rng.stream(old(rng.drawn)), e.priority)
    ensures out.Some? ==> GoodEdit(graph.edges, tagIds, out.value) && Holds(priorities, others, out.value.priority)
    ensures out.Some? ==> Touches(field, e, out.value)
    ensures out.Some? && field == PriorityField ==>
              ResolvesTo(others, Nearby(rng.stream(old(rng.drawn)), e.priority), out.value.priority)
  {
    match field
    case ContentField =>
      var n := rng.Next();
      out := Some(e.(content := supply.text(n)));
    case PriorityField =>
      var draw := rng.Next();
      assert others + {e.priority} - {e.priority} == others;
      var p := priorities.Shift(draw, e.priority);
      if p == None { return None; }
      ResolvedIsFree(others, Nearby(draw, e.priority), p.value);
      out := Some(e.(priority := p.value));
    case TagsField =>
      var tags := EditTags(rng, e.tags, tagIds, graph);
      out := Some(e.(tags := tags));
    case BlazedField =>
      out := Some(e.(blazed := !e.blazed));
    case DueDateField =>
      var draw := 1;
      if e.dueDate.Some? { draw := rng.Next(); }
      if draw % 3 == 0 {
        out := Some(e.(dueDate := None));
      } else {
        var n := rng.Next();
        out := Some(e.(dueDate := if supply.due(n).Some? then supply.due(n) else e.dueDate));
      }
  }

  /** How many fields one edit changes: mostly one, sometimes two or three. */
  function FieldCount(roll: nat): nat { if roll % 100 < 80 then 1 else if roll % 100 < 97 then 2 else 3 }

  /** Of a hundred rolls 80 change one field, the next 17 two and the last 3 three. */
  lemma FieldCountShares(roll: nat)
    ensures FieldCount(roll) == 1 <==> roll % 100 < 80
    ensures FieldCount(roll) == 2 <==> 80 <= roll % 100 < 80 + 17
    ensures FieldCount(roll) == 3 <==> 80 + 17 <= roll % 100
  {
  }

  /** The fields one edit changes, all different. */
  method PickFields(rng: Rng) returns (fields: seq<Field>)
    modifies rng
    ensures rng.drawn >= old(rng.drawn)
    ensures |fields| == FieldCount(rng.stream(old(rng.drawn)))
    ensures AllDifferent(fields)
  {
    var roll := rng.Next();
    var n := FieldCount(roll);
    var indices := PartialShuffle(rng, |ALL_FIELDS|, n);
    assert forall i, j :: 0 <= i < j < 5 ==> ALL_FIELDS[i] != ALL_FIELDS[j];
    fields := seq(n, i requires 0 <= i < n => ALL_FIELDS[indices[i]]);
    forall i, j | 0 <= i < j < |fields| ensures fields[i] != fields[j] {
      assert indices[i] != indices[j];
    }
  }

  /** The edit that results from changing these fields, one after the other. */
  ghost predicate EditedBy(fields: seq<Field>, e: CardEdit, out: CardEdit) {
    if fields == [] then out == e
    else exists mid :: EditedBy(fields[..|fields| - 1], e, mid) && TouchesLast(fields, mid, out)
  }

  ghost predicate TouchesLast(fields: seq<Field>, e: CardEdit, out: CardEdit)
    requires fields != []
  {
    Touches(fields[|fields| - 1], e, out)
  }

  lemma EditedStep(fields: seq<Field>, i: nat, first: CardEdit, e: CardEdit, next: CardEdit)
    requires i < |fields| && EditedBy(fields[..i], first, e) && Touches(fields[i], e, next)
    ensures EditedBy(fields[..i + 1], first, next)
  {
    assert fields[..i + 1][..i] == fields[..i] && TouchesLast(fields[..i + 1], e, next);
  }

  ghost predicate AllDifferent(fields: seq<Field>) {
    forall i, j :: 0 <= i < j < |fields| ==> fields[i] != fields[j]
  }

  ghost predicate EditedInFields(n: nat, e: CardEdit, out: CardEdit) {
    exists fields :: AllDifferent(fields) && |fields| == n && EditedBy(fields, e, out)
  }

  function EditOf(card: Card, at: I64): CardEdit {
    CardEdit(card.body.content, card.body.priority, card.body.tags, card.body.blazed, at, card.body.dueDate)
  }

  // ---------------------------------------------------------------- how a priority moves

  /** A priority edit: its draw, and the priority it starts from. */
  datatype Move = Move(draw: nat, from: I64)

  /** The edits lead from `first` to `last`, each to what its nearby value resolves to, and none overflows. */
  ghost predicate Leads(others: set<I64>, moves: seq<Move>, first: I64, last: I64) {
    if moves == [] then last == first
    else
      var m := moves[|moves| - 1];
      && Leads(others, moves[..|moves| - 1], first, m.from)
      && !Overflows(others, m.draw, m.from) && ResolvesTo(others, Nearby(m.draw, m.from), last)
  }

  /** The last of the edits overflows, the opposite of what `Leads` says of it; none before it does. */
  ghost predicate Stuck(others: set<I64>, moves: seq<Move>, first: I64) {
    moves != [] &&
    var m := moves[|moves| - 1];
    Leads(others, moves[..|moves| - 1], first, m.from) && Overflows(others, m.draw, m.from)
  }

  ghost predicate IsDrawn(stream: nat -> nat, from: nat, to: nat, draw: nat) {
    exists at :: from <= at < to && stream(at) == draw
  }

  /** All draws of the edits come from this stretch of the stream. */
  ghost predicate AllDrawn(stream: nat -> nat, from: nat, to: nat, moves: seq<Move>) {
    forall i {:trigger moves[i]} :: 0 <= i < |moves| ==> IsDrawn(stream, from, to, moves[i].draw)
  }

  /** What became of a card's priority: it moved on, or its last edit overflowed. */
  ghost predicate Outcome(others: set<I64>, moves: seq<Move>, first: I64, last: Option<I64>) {
    if last == None then Stuck(others, moves, first) else Leads(others, moves, first, last.value)
  }

  lemma LeadsOn(others: set<I64>, moves: seq<Move>, first: I64, m: Move, last: Option<I64>)
    requires Leads(others, moves, first, m.from)
    requires last == None <==> Overflows(others, m.draw, m.from)
    requires last.Some? ==> ResolvesTo(others, Nearby(m.draw, m.from), last.value)
    ensures Outcome(others, moves + [m], first, last)
  {
    assert (moves + [m])[..|moves|] == moves;
  }

  lemma {:induction false} LeadsJoin(others: set<I64>, a: seq<Move>, b: seq<Move>, first: I64, mid: I64, last: I64)
    requires Leads(others, a, first, mid) && Leads(others, b, mid, last)
    ensures Leads(others, a + b, first, last)
    decreases |b|
  {
    if b == [] {
      assert a + b == a;
    } else {
      var n := |b| - 1;
      LeadsJoin(others, a, b[..n], first, mid, b[n].from);
      assert (a + b)[..|a + b| - 1] == a + b[..n] && (a + b)[|a + b| - 1] == b[n];
    }
  }

  lemma OutcomeJoin(others: set<I64>, a: seq<Move>, b: seq<Move>, first: I64, mid: I64, last: Option<I64>)
    requires Leads(others, a, first, mid) && Outcome(others, b, mid, last)
    ensures Outcome(others, a + b, first, last)
  {
    if last.Some? {
      LeadsJoin(others, a, b, first, mid, last.value);
    } else {
      var n := |b| - 1;
      LeadsJoin(others, a, b[..n], first, mid, b[n].from);
      assert (a + b)[..|a + b| - 1] == a + b[..n];
    }
  }

  lemma DrawnJoin(stream: nat -> nat, from: nat, mid: nat, to: nat, a: seq<Move>, b: seq<Move>)
    requires from <= mid <= to && AllDrawn(stream, from, mid, a) && AllDrawn(stream, mid, to, b)
    ensures AllDrawn(stream, from, to, a + b)
  {
    var all := a + b;
    forall i | 0 <= i < |all| ensures IsDrawn(stream, from, to, all[i].draw) {
      if i < |a| {
        DrawnWidens(stream, from, mid, from, to, a[i].draw);
      } else {
        DrawnWidens(stream, mid, to, from, to, b[i - |a|].draw);
      }
    }
  }

  lemma DrawnWidens(stream: nat -> nat, from: nat, to: nat, from': nat, to': nat, draw: nat)
    requires from' <= from <= to <= to' && IsDrawn(stream, from, to, draw)
    ensures IsDrawn(stream, from', to', draw)
  {
    var at :| from <= at < to && stream(at) == draw;
    assert from' <= at < to' && stream(at) == draw;
  }

  lemma OneDrawn(stream: nat -> nat, at: nat, to: nat, current: I64)
    requires at < to
    ensures AllDrawn(stream, at, to, [Move(stream(at), current)])
  {
    assert at <= at < to && stream(at) == stream(at);
  }

  // ---------------------------------------------------------------- one edit

  /** The moves of one field edit: one for a priority, none for another field. */
  function MovesOf(field: Field, draw: nat, current: I64): seq<Move> {
    if field == PriorityField then [Move(draw, current)] else []
  }

  function PriorityOf(e: Option<CardEdit>): Option<I64> { if e == None then None else Some(e.value.priority) }

  lemma FieldDrawn(stream: nat -> nat, from: nat, at: nat, to: nat, moves: seq<Move>, field: Field, current: I64)
    requires from <= at && AllDrawn(stream, from, at, moves) && to >= at + if field == PriorityField then 1 else 0
    ensures AllDrawn(stream, from, to, moves + MovesOf(field, stream(at), current))
  {
    if field == PriorityField { OneDrawn(stream, at, to, current); }
    DrawnJoin(stream, from, at, to, moves, MovesOf(field, stream(at), current));
  }

  lemma FieldMoves(others: set<I64>, moves: seq<Move>, first: I64, field: Field, draw: nat, e: CardEdit,
                   out: Option<CardEdit>)
    requires Leads(others, moves, first, e.priority)
    requires out == None <==> field == PriorityField && Overflows(others, draw, e.priority)
    requires out.Some? ==> Touches(field, e, out.value)
    requires out.Some? && field == PriorityField ==> ResolvesTo(others, Nearby(draw, e.priority), out.value.priority)
    ensures Outcome(others, moves + MovesOf(field, draw, e.priority), first, PriorityOf(out))
  {
    if field == PriorityField {
      LeadsOn(others, moves, first, Move(draw, e.priority), PriorityOf(out));
    } else {
      assert moves + [] == moves;
    }
  }

  /** What holds of an edit after its first fields: the tags are good, the priority is apart, and the draws led here. */
  ghost predicate Underway(rng: Rng, from: nat, fields: seq<Field>, first: CardEdit, e: CardEdit, tagIds: seq<Uuid>,
                           g: Graph, priorities: UsedPriorities, others: set<I64>, moves: seq<Move>)
    reads rng, priorities
  {
    && GoodEdit(g, tagIds, e) && Holds(priorities, others, e.priority)
    && EditedBy(fields, first, e)
    && Leads(others, moves, first.priority, e.priority)
    && rng.drawn >= from && AllDrawn(rng.stream, from, rng.drawn, moves)
  }

  /** One more field of an edit. */
  method NextField(rng: Rng, supply: Supply, fields: seq<Field>, i: nat, ghost from: nat, ghost first: CardEdit,
                   e: CardEdit, tagIds: seq<Uuid>, graph: TagGraph, priorities: UsedPriorities,
                   ghost others: set<I64>, ghost moves: seq<Move>)
    returns (next: Option<CardEdit>, ghost moves': seq<Move>)
    requires i < |fields| && |Universe(graph.edges, tagIds)| <= I64_MAX && RoomBelowMax(others)
    requires Underway(rng, from, fields[..i], first, e, tagIds, graph.edges, priorities, others, moves)
    modifies rng, priorities
    ensures Outcome(others, moves', first.priority, PriorityOf(next))
    ensures rng.drawn >= from && AllDrawn(rng.stream, from, rng.drawn, moves')
    ensures next.Some? ==>
              Underway(rng, from, fields[..i + 1], first, next.value, tagIds, graph.edges, priorities, others, moves')
  {
    ghost var at := rng.drawn;
    next := EditField(rng, supply, fields[i], e, tagIds, graph, priorities, others);
    FieldMoves(others, moves, first.priority, fields[i], rng.stream(at), e, next);
    FieldDrawn(rng.stream, from, at, rng.drawn, moves, fields[i], e.priority);
    moves' := moves + MovesOf(fields[i], rng.stream(at), e.priority);
    if next.Some? { EditedStep(fields, i, first, e, next.value); }
  }

  /** The edit that leads to the next version. */
  method NextEdit(rng: Rng, supply: Supply, prev: Card, at: I64, tagIds: seq<Uuid>, graph: TagGraph,
                  priorities: UsedPriorities, ghost others: set<I64>)
    returns (out: Option<CardEdit>, ghost moves: seq<Move>)
    requires GoodTags(graph.edges, tagIds, prev.body.tags) && |Universe(graph.edges, tagIds)| <= I64_MAX
    requires Holds(priorities, others, prev.body.priority) && RoomBelowMax(others)
    modifies rng, priorities
    ensures Outcome(others, moves, prev.body.priority, PriorityOf(out))
    ensures rng.drawn >= old(rng.drawn) && AllDrawn(rng.stream, old(rng.drawn), rng.drawn, moves)
    ensures out.Some? ==> GoodEdit(graph.edges, tagIds, out.value) && Holds(priorities, others, out.value.priority)
    ensures out.Some? ==> EditedInFields(FieldCount(rng.stream(old(rng.drawn))), EditOf(prev, at), out.value)
  {
    ghost var from, first := rng.drawn, EditOf(prev, at);
    var e := EditOf(prev, at);
    var fields := PickFields(rng);
    moves := [];
    for i := 0 to |fields|
      invariant Underway(rng, from, fields[..i], first, e, tagIds, graph.edges, priorities, others, moves)
    {
      var next;
      next, moves := NextField(rng, supply, fields, i, from, first, e, tagIds, graph, priorities, others, moves);
      if next == None { return None, moves; }
      e := next.value;
    }
    assert fields[..|fields|] == fields;
    out := Some(e);
  }

  ghost predicate AllClosed(g: Graph, chain: seq<Card>) {
    forall i :: 0 <= i < |chain| ==> ClosedUnder(g, chain[i].body.tags)
  }

  lemma SortKeepsGood(g: Graph, tagIds: seq<Uuid>, tags: seq<Uuid>)
    requires GoodTags(g, tagIds, tags)
    ensures GoodTags(g, tagIds, Sort(tags))
  {
    SortOrders(tags);
    assert Elements(Sort(tags)) == Elements(tags);
  }

  function Newest(chain: seq<Card>): Card
    requires chain != []
  {
    chain[|chain| - 1]
  }

  /** A history of closed versions whose newest one can be edited further. */
  ghost predicate GoodHistory(blake: Blake, g: Graph, tagIds: seq<Uuid>, h: seq<Card>) {
    && CardChain(blake, h) && AllClosed(g, h)
    && Newest(h).body.count == |h| && GoodTags(g, tagIds, Newest(h).body.tags)
  }

  lemma StartOfHistory(blake: Blake, g: Graph, tagIds: seq<Uuid>, first: Card)
    requires CardChain(blake, [first]) && GoodTags(g, tagIds, first.body.tags)
    ensures GoodHistory(blake, g, tagIds, [first])
  {
    assert CardVersion(blake, [first], 0);
  }

  lemma HistoryGrows(blake: Blake, g: Graph, tagIds: seq<Uuid>, h: seq<Card>, e: CardEdit)
    requires GoodHistory(blake, g, tagIds, h) && GoodEdit(g, tagIds, e) && |h| < I64_MAX
    ensures GoodHistory(blake, g, tagIds, h + [NextCard(blake, Newest(h), e)])
  {
    CardChainGrows(blake, h, e);
    SortKeepsGood(g, tagIds, e.tags);
  }

  /** How many edits a card gets: none, one or two, or three to seven. */
  function EditCount(roll: nat, draw: nat): nat {
    if roll % 100 < 10 then 0 else if roll % 100 < 37 then 1 + draw % 2 else 3 + draw % 5
  }

  ghost predicate EditsBetween(roll: nat, lo: nat, hi: nat) { forall draw: nat :: lo <= EditCount(roll, draw) <= hi }

  /**
    Of a hundred rolls 10 leave a card without history, the next 27 give one or two edits, and the last 63 three to
    seven, each number for some draw.
   */
  lemma EditCountShares(roll: nat, n: nat)
    ensures EditsBetween(roll, 0, 0) <==> roll % 100 < 10
    ensures EditsBetween(roll, 1, 2) <==> 10 <= roll % 100 < 10 + 27
    ensures EditsBetween(roll, 3, 7) <==> 10 + 27 <= roll % 100
    ensures (EditsBetween(roll, 1, 2) && 1 <= n <= 2) || (EditsBetween(roll, 3, 7) && 3 <= n <= 7) ==>
              exists draw: nat :: EditCount(roll, draw) == n
  {
    assert EditCount(roll, 0) == if roll % 100 < 10 then 0 else if roll % 100 < 37 then 1 else 3;
    if EditsBetween(roll, 1, 2) && 1 <= n <= 2 { assert EditCount(roll, n - 1) == n; }
    if EditsBetween(roll, 3, 7) && 3 <= n <= 7 { assert EditCount(roll, n - 3) == n; }
  }

  /** What holds of a history under way: it is good so far, its priority is apart, and the draws led here. */
  ghost predicate Growing(blake: Blake, rng: Rng, from: nat, h: seq<Card>, first: Card, tagIds: seq<Uuid>, g: Graph,
                          priorities: UsedPriorities, others: set<I64>, moves: seq<Move>)
    reads rng, priorities
  {
    && GoodHistory(blake, g, tagIds, h) && Holds(priorities, others, Newest(h).body.priority)
    && Leads(others, moves, first.body.priority, Newest(h).body.priority)
    && rng.drawn >= from && AllDrawn(rng.stream, from, rng.drawn, moves)
  }

  /** One more version of a card. */
  method NextVersion(blake: Blake, rng: Rng, supply: Supply, h: seq<Card>, at: I64, tagIds: seq<Uuid>, graph: TagGraph,
                     priorities: UsedPriorities, ghost from: nat, ghost first: Card, ghost others: set<I64>,
                     ghost moves: seq<Move>)
    returns (next: Option<Card>, ghost moves': seq<Move>)
    requires Growing(blake, rng, from, h, first, tagIds, graph.edges, priorities, others, moves)
    requires |Universe(graph.edges, tagIds)| <= I64_MAX && RoomBelowMax(others) && |h| < I64_MAX
    modifies rng, priorities
    ensures rng.drawn >= from && AllDrawn(rng.stream, from, rng.drawn, moves')
    ensures next == None ==> Stuck(others, moves', first.body.priority)
    ensures next.Some? ==>
              Growing(blake, rng, from, h + [next.value], first, tagIds, graph.edges, priorities, others, moves')
  {
    ghost var before := rng.drawn;
    var e;
    ghost var more;
    e, more := NextEdit(rng, supply, Newest(h), at, tagIds, graph, priorities, others);
    OutcomeJoin(others, moves, more, first.body.priority, Newest(h).body.priority, PriorityOf(e));
    DrawnJoin(rng.stream, from, before, rng.drawn, moves, more);
    moves' := moves + more;
    if e == None { return None, moves'; }
    HistoryGrows(blake, graph.edges, tagIds, h, e.value);
    next := Some(NextCard(blake, Newest(h), e.value));
  }

  function FinalPriority(chain: Option<seq<Card>>): Option<I64>
    requires chain.Some? ==> chain.value != []
  {
    if chain == None then None else Some(Newest(chain.value).body.priority)
  }

  /**
   * A card's history, whatever is drawn: as many versions as the draws ask for, a proper hash chain in which every
   * version's tags are closed under the implications. It leaves the priorities of the other cards alone and its own
   * apart from them. It fails exactly when one of its priority edits overflows, which is then the last of `moves`.
   */
  method GenerateCardHistory(blake: Blake, rng: Rng, supply: Supply, first: Card, tagIds: seq<Uuid>, graph: TagGraph,
                             priorities: UsedPriorities, ghost others: set<I64>)
    returns (chain: Option<seq<Card>>, ghost moves: seq<Move>)
    requires CardChain(blake, [first]) && GoodTags(graph.edges, tagIds, first.body.tags)
    requires |Universe(graph.edges, tagIds)| <= I64_MAX
    requires Holds(priorities, others, first.body.priority) && RoomBelowMax(others)
    modifies rng, priorities
    ensures chain.Some? ==>
            && |chain.value| == 1 + EditCount(rng.stream(old(rng.drawn)), rng.stream(old(rng.drawn) + 1))
            && chain.value[0] == first
            && CardChain(blake, chain.value) && AllClosed(graph.edges, chain.value)
            && Holds(priorities, others, Newest(chain.value).body.priority)
    ensures Outcome(others, moves, first.body.priority, FinalPriority(chain))
    ensures rng.drawn >= old(rng.drawn) && AllDrawn(rng.stream, old(rng.drawn), rng.drawn, moves)
  {
    ghost var from := rng.drawn;
    StartOfHistory(blake, graph.edges, tagIds, first);
    moves := [];
    var roll := rng.Next();
    if roll % 100 < 10 { return Some([first]), []; }
    var draw := rng.Next();
    var numEdits := EditCount(roll, draw);
    var h := [first];
    for k := 0 to numEdits
      invariant |h| == k + 1 && h[0] == first
      invariant Growing(blake, rng, from, h, first, tagIds, graph.edges, priorities, others, moves)
    {
      var next;
      next, moves :=
        NextVersion(blake, rng, supply, h, supply.time(k), tagIds, graph, priorities, from, first, others, moves);
      if next == None { return None, moves; }
      h := h + [next.value];
    }
    chain := Some(h);
  }
}
