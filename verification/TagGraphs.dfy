/** The tag implication graph: closure, what a card is missing, and cards affected by a change. */
module TagGraphs {
  import opened Ids
  import opened Walks

  /** What a card holding `tags` must add, in id order. */
  ghost function Missing(g: Graph, tags: seq<Uuid>): seq<Uuid> {
    InOrder(Closure(g, Elements(tags)) - Elements(tags))
  }

  ghost predicate ClosedUnder(g: Graph, tags: seq<Uuid>) {
    Closed(g, Elements(tags))
  }

  lemma MissingIsEmpty(g: Graph, tags: seq<Uuid>)
    ensures Missing(g, tags) == [] <==> ClosedUnder(g, tags)
  {
    var have := Elements(tags);
    ClosureIsLeast(g, have);
    if ClosedUnder(g, tags) {
      assert Closure(g, have) - have == {};
    }
    if Missing(g, tags) == [] {
      forall x | x in Closure(g, have) ensures x in have {
        assert x !in Missing(g, tags);
      }
      assert Closure(g, have) == have;
    }
  }

  /** The missing tags are sorted, new, enough to close the card, and contained in every addition that closes it. */
  lemma MissingIsSmallest(g: Graph, tags: seq<Uuid>)
    ensures StrictlyAscending(Missing(g, tags))
    ensures forall x :: x in Missing(g, tags) ==> x !in tags
    ensures ClosedUnder(g, tags + Missing(g, tags))
    ensures forall extra :: ClosedUnder(g, tags + extra) ==> Elements(Missing(g, tags)) <= Elements(extra)
    ensures Missing(g, tags) == [] <==> ClosedUnder(g, tags)
  {
    var have, m := Elements(tags), Missing(g, tags);
    ClosureIsLeast(g, have);
    MissingIsEmpty(g, tags);
    assert Elements(tags + m) == Closure(g, have);
    forall extra | ClosedUnder(g, tags + extra) ensures Elements(m) <= Elements(extra) {
      assert Closure(g, have) <= Elements(tags + extra);
    }
  }

  datatype TaggedCard = TaggedCard(id: Uuid, tags: seq<Uuid>)

  ghost function Affected(g: Graph, cards: seq<TaggedCard>): seq<(Uuid, seq<Uuid>)> {
    if cards == [] then []
    else
      var rest := Affected(g, cards[..|cards| - 1]);
      var card := cards[|cards| - 1];
      if Missing(g, card.tags) == [] then rest else rest + [(card.id, Missing(g, card.tags))]
  }

  /** Each card with what it was missing added. */
  ghost function Complied(g: Graph, cards: seq<TaggedCard>): seq<TaggedCard> {
    seq(|cards|, i requires 0 <= i < |cards| =>
      TaggedCard(cards[i].id, cards[i].tags + Missing(g, cards[i].tags)))
  }

  ghost predicate ReportsCard(g: Graph, card: TaggedCard, entry: (Uuid, seq<Uuid>)) {
    entry == (card.id, Missing(g, card.tags)) && entry.1 != []
  }

  ghost predicate Reports(g: Graph, cards: seq<TaggedCard>, entry: (Uuid, seq<Uuid>)) {
    exists i :: 0 <= i < |cards| && ReportsCard(g, cards[i], entry)
  }

  lemma ReportsLast(g: Graph, cards: seq<TaggedCard>, card: TaggedCard, entry: (Uuid, seq<Uuid>))
    ensures Reports(g, cards + [card], entry) <==> Reports(g, cards, entry) || ReportsCard(g, card, entry)
  {
    var all := cards + [card];
    if Reports(g, cards, entry) {
      var i :| 0 <= i < |cards| && ReportsCard(g, cards[i], entry);
      assert ReportsCard(g, all[i], entry);
    }
    if ReportsCard(g, card, entry) { assert ReportsCard(g, all[|cards|], entry); }
  }

  /** A card is reported exactly when it misses something, with exactly what it misses. */
  lemma {:induction false} AffectedIsExact(g: Graph, cards: seq<TaggedCard>, entry: (Uuid, seq<Uuid>))
    ensures entry in Affected(g, cards) <==> Reports(g, cards, entry)
  {
    if cards != [] {
      var n := |cards| - 1;
      AffectedIsExact(g, cards[..n], entry);
      assert cards == cards[..n] + [cards[n]];
      ReportsLast(g, cards[..n], cards[n], entry);
    }
  }

  lemma NothingMissing(g: Graph, cards: seq<TaggedCard>)
    requires forall i :: 0 <= i < |cards| ==> ClosedUnder(g, cards[i].tags)
    ensures Affected(g, cards) == []
  {
    if Affected(g, cards) != [] {
      var entry := Affected(g, cards)[0];
      AffectedIsExact(g, cards, entry);
      var i :| 0 <= i < |cards| && ReportsCard(g, cards[i], entry);
      MissingIsEmpty(g, cards[i].tags);
    }
  }

  /** Adding what is reported brings every card into compliance: a second call reports nothing. */
  lemma ComplianceIsStable(g: Graph, cards: seq<TaggedCard>)
    ensures Affected(g, Complied(g, cards)) == []
  {
    var done := Complied(g, cards);
    forall i | 0 <= i < |done| ensures ClosedUnder(g, done[i].tags) {
      MissingIsSmallest(g, cards[i].tags);
    }
    NothingMissing(g, done);
  }

  /** The mutable graph object. */
  class TagGraph {
    var edges: Graph

    constructor ()
      ensures edges == map[]
    {
      edges := map[];
    }

    method Upsert(id: Uuid, implies: seq<Uuid>)
      modifies this
      ensures edges == old(edges)[id := implies]
    {
      edges := edges[id := implies];
    }

    method Remove(id: Uuid)
      modifies this
      ensures edges == old(edges) - {id}
    {
      edges := edges - {id};
    }

    /** `closure_of`: a worklist that pops from the end and skips what it has seen. */
    method ClosureOf(roots: seq<Uuid>) returns (visited: set<Uuid>)
      ensures visited == Closure(edges, Elements(roots))
    {
      ghost var closure := Closure(edges, Elements(roots));
      ClosureIsClosed(edges, Elements(roots));
      visited := {};
      var stack := roots;
      while stack != []
        invariant Worklist(edges, Elements(roots), closure, visited, Elements(stack))
        decreases closure - visited, |stack|
      {
        var id := stack[|stack| - 1];
        var rest := stack[..|stack| - 1];
        ElementsPop(stack);
        if id in visited {
          Skip(edges, Elements(roots), closure, visited, Elements(rest), id);
          stack := rest;
        } else {
          Expand(edges, Elements(roots), closure, visited, Elements(rest), id);
          visited := visited + {id};
          stack := PushUnvisited(rest, Succ(edges, id), visited);
        }
      }
      Drained(edges, Elements(roots), visited);
    }

    /** `missing_for_card`. */
    method MissingForCard(currentTags: seq<Uuid>) returns (missing: seq<Uuid>)
      ensures missing == Missing(edges, currentTags)
    {
      var closure := ClosureOf(currentTags);
      var have := Elements(currentTags);
      missing := Collect(closure - have);
    }

    /** `affected_cards_for_change`. */
    method AffectedCards(cards: seq<TaggedCard>) returns (affected: seq<(Uuid, seq<Uuid>)>)
      ensures affected == Affected(edges, cards)
    {
      affected := [];
      for i := 0 to |cards|
        invariant affected == Affected(edges, cards[..i])
      {
        var missing := MissingForCard(cards[i].tags);
        assert cards[..i + 1][..i] == cards[..i];
        if missing != [] {
          affected := affected + [(cards[i].id, missing)];
        }
      }
      assert cards[..|cards|] == cards;
    }
  }

  /** Pushes the parents that have not been visited yet. */
  method PushUnvisited(stack: seq<Uuid>, parents: seq<Uuid>, visited: set<Uuid>) returns (out: seq<Uuid>)
    ensures Elements(out) == Elements(stack) + (Elements(parents) - visited)
  {
    out := stack;
    for i := 0 to |parents|
      invariant Elements(out) == Elements(stack) + (Elements(parents[..i]) - visited)
    {
      assert parents[..i + 1] == parents[..i] + [parents[i]];
      ElementsAppend(parents[..i], [parents[i]]);
      if parents[i] !in visited {
        ElementsAppend(out, [parents[i]]);
        out := out + [parents[i]];
      }
    }
    assert parents[..|parents|] == parents;
  }

  /** What the worklist loop keeps: nothing outside the closure, and every successor of a visited id is known. */
  ghost predicate Worklist(g: Graph, roots: set<Uuid>, closure: set<Uuid>, visited: set<Uuid>, pending: set<Uuid>) {
    && roots <= visited + pending <= closure
    && forall x :: x in visited ==> Elements(Succ(g, x)) <= visited + pending
  }

  lemma Drained(g: Graph, roots: set<Uuid>, visited: set<Uuid>)
    requires Worklist(g, roots, Closure(g, roots), visited, {})
    ensures visited == Closure(g, roots)
  {
    assert visited + {} == visited;
    assert Closed(g, visited);
    ClosureWithin(g, roots, visited);
  }

  lemma Skip(g: Graph, roots: set<Uuid>, closure: set<Uuid>, visited: set<Uuid>, rest: set<Uuid>, id: Uuid)
    requires Worklist(g, roots, closure, visited, rest + {id}) && id in visited
    ensures Worklist(g, roots, closure, visited, rest)
  {
    assert visited + (rest + {id}) == visited + rest;
  }

  /** Visiting `id` and queueing its unvisited parents keeps the worklist. */
  lemma Expand(g: Graph, roots: set<Uuid>, closure: set<Uuid>, visited: set<Uuid>, rest: set<Uuid>, id: Uuid)
    requires Worklist(g, roots, closure, visited, rest + {id}) && Closed(g, closure)
    ensures var visited' := visited + {id};
            Worklist(g, roots, closure, visited', rest + (Elements(Succ(g, id)) - visited'))
  {
    var visited' := visited + {id};
    assert visited + (rest + {id}) <= visited' + (rest + (Elements(Succ(g, id)) - visited'));
  }
}
