/** Seeding a whole board of cards (clients/dev-seeder/src/seed/seed.rs), which thread one set of used priorities. */
module SeedBoards {
  import opened Ids
  import opened Integers
  import opened Chains
  import opened Walks
  import opened TagGraphs
  import opened SeedTags
  import opened SeedPriorities
  import opened SeedCards

  const RANGE: int := I64_MAX - I64_MIN

  /** Card `i` of `n` asks for its even share of the range, from the top. */
  function RawPriority(i: nat, n: nat): (p: I64)
    requires i < n < RANGE
    ensures p < I64_MAX
  {
    ShareFits(i, n);
    I64_MAX - RANGE / (n + 1) * (i + 1)
  }

  lemma ShareFits(i: nat, n: nat)
    requires i < n < RANGE
    ensures 0 < RANGE / (n + 1) * (i + 1) <= RANGE
  {
    var step := RANGE / (n + 1);
    assert step >= 1;
    MulGrows(step, i + 1, n + 1);
  }

  lemma MulGrows(a: nat, b: nat, c: nat)
    requires 1 <= a && 1 <= b <= c
    ensures 0 < a * b <= a * c
  {
  }

  /** The shares are even, from the top: as wide a step as fits, the same between neighbours and at both ends. */
  lemma SharesAreEven(i: nat, n: nat)
    requires i < n < RANGE
    ensures exists step: int {:trigger (n + 1) * step} ::
              && 1 <= step && (n + 1) * step <= I64_MAX - I64_MIN < (n + 1) * (step + 1)
              && I64_MAX - RawPriority(0, n) == step
              && (i + 1 < n ==> RawPriority(i, n) - RawPriority(i + 1, n) == step)
              && RawPriority(n - 1, n) - I64_MIN >= step
  {
    var step := RANGE / (n + 1);
    assert RANGE == (n + 1) * step + RANGE % (n + 1);
    assert (n + 1) * (step + 1) == (n + 1) * step + (n + 1);
    assert step * (i + 2) == step * (i + 1) + step;
    assert (n + 1) * step == step * n + step;
  }

  /** The first version of card `i` has the priority its share resolves to beside the cards before it. */
  ghost predicate ClaimsShare(chains: seq<seq<Card>>, finals: seq<I64>, n: nat, i: nat) {
    && i < |chains| && i < |finals| && i < n < RANGE && chains[i] != []
    && ResolvesTo(UsedBy(finals[..i]), RawPriority(i, n), chains[i][0].body.priority)
  }

  ghost predicate AllClaimShares(chains: seq<seq<Card>>, finals: seq<I64>, n: nat) {
    forall i: nat {:trigger ClaimsShare(chains, finals, n, i)} :: i < |chains| ==> ClaimsShare(chains, finals, n, i)
  }

  lemma OneMoreShare(chains: seq<seq<Card>>, finals: seq<I64>, n: nat, chain: seq<Card>, priority: I64)
    requires AllClaimShares(chains, finals, n) && |chains| == |finals| < n < RANGE && chain != []
    requires ResolvesTo(UsedBy(finals), RawPriority(|chains|, n), chain[0].body.priority)
    ensures AllClaimShares(chains + [chain], finals + [priority], n)
  {
    var chains', finals' := chains + [chain], finals + [priority];
    forall i: nat | i < |chains'| ensures ClaimsShare(chains', finals', n, i) {
      assert finals'[..i] == finals[..i];
      if i < |chains| {
        assert ClaimsShare(chains, finals, n, i);
      } else {
        assert finals[..i] == finals;
      }
    }
  }

  /** A card as seeding leaves it: a chain of closed versions for the id, ending at the priority. */
  ghost predicate Seeded(blake: Blake, g: Graph, chain: seq<Card>, id: Uuid, priority: I64) {
    && chain != [] && chain[0].body.id == id && |chain| <= 8
    && CardChain(blake, chain) && AllClosed(g, chain) && Newest(chain).body.priority == priority
  }

  ghost predicate AllSeeded(blake: Blake, g: Graph, chains: seq<seq<Card>>, ids: seq<Uuid>, finals: seq<I64>) {
    |chains| == |finals| <= |ids| &&
    forall i: nat {:trigger Seeded(blake, g, chains[i], ids[i], finals[i])} ::
      i < |chains| ==> Seeded(blake, g, chains[i], ids[i], finals[i])
  }

  lemma OneMoreSeeded(blake: Blake, g: Graph, chains: seq<seq<Card>>, ids: seq<Uuid>, finals: seq<I64>,
                      chain: seq<Card>, priority: I64)
    requires AllSeeded(blake, g, chains, ids, finals) && |chains| < |ids|
    requires Seeded(blake, g, chain, ids[|chains|], priority)
    ensures AllSeeded(blake, g, chains + [chain], ids, finals + [priority])
  {
    var chains', finals' := chains + [chain], finals + [priority];
    forall i: nat | i < |chains'| ensures Seeded(blake, g, chains'[i], ids[i], finals'[i]) {
      if i < |chains| { assert Seeded(blake, g, chains[i], ids[i], finals[i]); }
    }
  }

  lemma FirstIsChain(blake: Blake, id: Uuid, e: CardEdit)
    ensures CardChain(blake, [FirstCard(blake, id, e)])
  {
    CardHistoryIsChain(blake, id, e, []);
    assert CardHistory(blake, id, e, []) == [FirstCard(blake, id, e)];
  }

  method FirstVersion(blake: Blake, rng: Rng, supply: Supply, id: Uuid, text: nat, priority: I64, tagIds: seq<Uuid>,
                      graph: TagGraph) returns (first: Card)
    requires |Universe(graph.edges, tagIds)| <= I64_MAX
    modifies rng
    ensures CardChain(blake, [first]) && GoodTags(graph.edges, tagIds, first.body.tags)
    ensures first.body.id == id && first.body.priority == priority
  {
    var tags := FirstTags(rng, tagIds, graph);
    var blazed := rng.Next();
    var at := rng.Next();
    var due := rng.Next();
    var e := CardEdit(supply.text(text), priority, tags, blazed % 100 < 40, supply.time(at), supply.due(due));
    FirstIsChain(blake, id, e);
    SortKeepsGood(graph.edges, tagIds, tags);
    first := FirstCard(blake, id, e);
  }

  /**
   * One card: a priority, closed tags, a first version, and a history of edits. It fails exactly when one of the
   * priority edits overflows.
   */
  method GenerateCard(blake: Blake, rng: Rng, supply: Supply, id: Uuid, raw: I64, tagIds: seq<Uuid>, graph: TagGraph,
                      priorities: UsedPriorities)
    returns (chain: Option<seq<Card>>, ghost claimed: I64, ghost moves: seq<Move>)
    requires raw < I64_MAX && |Universe(graph.edges, tagIds)| <= I64_MAX && RoomBelowMax(priorities.used)
    modifies rng, priorities
    ensures ResolvesTo(old(priorities.used), raw, claimed)
    ensures chain.Some? ==> chain.value != [] && chain.value[0].body.priority == claimed
    ensures Outcome(old(priorities.used), moves, claimed, FinalPriority(chain))
    ensures chain.Some? ==>
              && Seeded(blake, graph.edges, chain.value, id, Newest(chain.value).body.priority)
              && Holds(priorities, old(priorities.used), Newest(chain.value).body.priority)
  {
    ghost var others := priorities.used;
    var text := rng.Next();
    var p := priorities.Claim(raw);
    ResolvedIsFree(others, raw, p.value);
    claimed := p.value;
    var first := FirstVersion(blake, rng, supply, id, text, p.value, tagIds, graph);
    chain, moves := GenerateCardHistory(blake, rng, supply, first, tagIds, graph, priorities, others);
  }

  /**
   * Every card of the board, whatever is drawn: each is a proper chain whose versions all have closed tags, starting
   * at what its even share of the range resolves to, and the final priorities are pairwise distinct and exactly the
   * used ones. It stops early only where a finished card has the maximum.
   */
  method GenerateCards(blake: Blake, rng: Rng, supply: Supply, ids: seq<Uuid>, tagIds: seq<Uuid>, graph: TagGraph,
                       priorities: UsedPriorities)
    returns (chains: seq<seq<Card>>, ghost finals: seq<I64>)
    requires |ids| < RANGE && priorities.used == {} && |Universe(graph.edges, tagIds)| <= I64_MAX
    modifies rng, priorities
    ensures AllSeeded(blake, graph.edges, chains, ids, finals) && Apart(finals)
    ensures AllClaimShares(chains, finals, |ids|)
    ensures |chains| == |ids| ==> priorities.used == UsedBy(finals)
    ensures |chains| < |ids| ==> I64_MAX in finals
  {
    chains, finals := [], [];
    while |chains| < |ids|
      invariant AllSeeded(blake, graph.edges, chains, ids, finals) && Apart(finals)
      invariant priorities.used == UsedBy(finals) && AllClaimShares(chains, finals, |ids|)
    {
      RoomForOneMore(finals, UsedBy(finals));
      var i := |chains|;
      var chain;
      ghost var claimed, moves;
      chain, claimed, moves :=
        GenerateCard(blake, rng, supply, ids[i], RawPriority(i, |ids|), tagIds, graph, priorities);
      if chain == None { return; }
      ghost var priority := Newest(chain.value).body.priority;
      OneMoreShare(chains, finals, |ids|, chain.value, priority);
      OneMoreSeeded(blake, graph.edges, chains, ids, finals, chain.value, priority);
      AppendStaysApart(finals, priority);
      chains, finals := chains + [chain.value], finals + [priority];
    }
  }
}
