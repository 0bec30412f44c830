/** Seeded tag implications (clients/dev-seeder/src/seed/seed.rs): parents are only ever picked among earlier tags. */
module SeedTags {
  import opened Ids
  import opened Integers
  import opened Canonical
  import opened Chains
  import opened Walks
  import opened TagGraphs
  import opened CycleDetection

  /** The random number generator: any stream of numbers, read in order. */
  class Rng {
    const stream: nat -> nat
    var drawn: nat

    constructor (stream: nat -> nat)
      ensures this.stream == stream && drawn == 0
    {
      this.stream := stream;
      drawn := 0;
    }

    method Next() returns (n: nat)
      modifies this
      ensures n == stream(old(drawn)) && drawn == old(drawn) + 1
    {
      n := stream(drawn);
      drawn := drawn + 1;
    }
  }

  const SECOND: int := 1000

  function Live(chain: seq<Tag>): Tag
    requires chain != []
  {
    chain[|chain| - 1]
  }

  // ---------------------------------------------------------------- the graph of the live tags

  /** `from_tags`: one entry per tag, a later tag with the same id replacing an earlier one. */
  function GraphOfTags(tags: seq<Tag>): Graph {
    if tags == [] then map[]
    else
      var last := tags[|tags| - 1];
      GraphOfTags(tags[..|tags| - 1])[last.body.id := last.body.implies]
  }

  function LiveTags(chains: seq<seq<Tag>>): (r: seq<Tag>)
    requires forall i :: 0 <= i < |chains| ==> chains[i] != []
    ensures |r| == |chains|
  {
    seq(|chains|, i requires 0 <= i < |chains| => Live(chains[i]))
  }

  method GraphFromChains(chains: seq<seq<Tag>>) returns (g: TagGraph)
    requires forall i :: 0 <= i < |chains| ==> chains[i] != []
    ensures fresh(g) && g.edges == GraphOfTags(LiveTags(chains))
  {
    g := new TagGraph();
    var live := LiveTags(chains);
    for i := 0 to |live|
      invariant g.edges == GraphOfTags(live[..i])
    {
      assert live[..i + 1][..i] == live[..i];
      g.Upsert(live[i].body.id, live[i].body.implies);
    }
    assert live[..|live|] == live;
  }

  // ---------------------------------------------------------------- acyclic by construction

  /** The tag at a place implies only tags at earlier places. */
  ghost predicate ImpliesEarlier(ids: seq<Uuid>, i: nat, tag: Tag)
    requires i < |ids|
  {
    tag.body.id == ids[i] && forall p :: p in tag.body.implies ==> p in ids[..i]
  }

  ghost predicate AllImplyEarlier(ids: seq<Uuid>, tags: seq<Tag>) {
    |ids| == |tags| &&
    forall i: nat {:trigger ImpliesEarlier(ids, i, tags[i])} :: i < |tags| ==> ImpliesEarlier(ids, i, tags[i])
  }

  lemma EarlierInit(ids: seq<Uuid>, tags: seq<Tag>)
    requires AllImplyEarlier(ids, tags) && tags != []
    ensures AllImplyEarlier(ids[..|tags| - 1], tags[..|tags| - 1])
  {
    var n := |tags| - 1;
    forall k: nat | k < n ensures ImpliesEarlier(ids[..n], k, tags[..n][k]) {
      assert ImpliesEarlier(ids, k, tags[k]);
      assert ids[..n][..k] == ids[..k];
    }
  }

  lemma {:induction false} GraphEdge(ids: seq<Uuid>, tags: seq<Tag>, x: Uuid, y: Uuid) returns (i: nat)
    requires AllImplyEarlier(ids, tags) && y in Succ(GraphOfTags(tags), x)
    ensures i < |ids| && ids[i] == x && y in ids[..i]
  {
    var n := |tags| - 1;
    assert ImpliesEarlier(ids, n, tags[n]);
    if x == tags[n].body.id {
      i := n;
    } else {
      EarlierInit(ids, tags);
      i := GraphEdge(ids[..n], tags[..n], x, y);
      assert ids[..n][..i] == ids[..i];
    }
  }

  /** When every tag implies only earlier ones, the graph has no cycle. */
  lemma EarlierOnlyIsAcyclic(ids: seq<Uuid>, tags: seq<Tag>)
    requires Distinct(ids) && AllImplyEarlier(ids, tags)
    ensures Acyclic(GraphOfTags(tags))
  {
    var g := GraphOfTags(tags);
    forall i, y | 0 <= i < |ids| && y in Succ(g, ids[i]) ensures y in ids[..i] {
      var k := GraphEdge(ids, tags, ids[i], y);
    }
    forall x | x in g ensures x in ids {
      KeyHasPlace(ids, tags, x);
    }
    FinishedIsAcyclic(g, ids);
  }

  lemma {:induction false} KeyHasPlace(ids: seq<Uuid>, tags: seq<Tag>, x: Uuid)
    requires AllImplyEarlier(ids, tags) && x in GraphOfTags(tags)
    ensures x in ids
  {
    var n := |tags| - 1;
    assert ImpliesEarlier(ids, n, tags[n]);
    if x != tags[n].body.id {
      EarlierInit(ids, tags);
      KeyHasPlace(ids[..n], tags[..n], x);
    }
  }

  // ---------------------------------------------------------------- giving tags parents

  /** The parents that `count` draws pick among the first `i` ids, without repeats. */
  function Picks(stream: nat -> nat, at: nat, ids: seq<Uuid>, i: nat, count: nat): (picked: seq<Uuid>)
    requires 0 < i <= |ids|
    ensures |picked| <= count && (count > 0 ==> picked != [])
  {
    if count == 0 then []
    else
      var picked := Picks(stream, at, ids, i, count - 1);
      var parent := ids[stream(at + count - 1) % i];
      if parent in picked then picked else picked + [parent]
  }

  lemma {:induction false} PicksAre(stream: nat -> nat, at: nat, ids: seq<Uuid>, i: nat, count: nat)
    requires 0 < i <= |ids|
    ensures Distinct(Picks(stream, at, ids, i, count))
    ensures Elements(Picks(stream, at, ids, i, count)) <= Elements(ids[..i])
  {
    if count > 0 {
      var picked := Picks(stream, at, ids, i, count - 1);
      var parent := ids[stream(at + count - 1) % i];
      PicksAre(stream, at, ids, i, count - 1);
      assert ids[..i][stream(at + count - 1) % i] == parent;
      if parent !in picked {
        DistinctAppend(picked, [parent]);
        ElementsAppend(picked, [parent]);
      }
    }
  }

  method PickParents(rng: Rng, ids: seq<Uuid>, i: nat, count: nat) returns (picked: seq<Uuid>)
    requires 0 < i <= |ids|
    modifies rng
    ensures picked == Picks(rng.stream, old(rng.drawn), ids, i, count) && rng.drawn == old(rng.drawn) + count
  {
    picked := [];
    for k := 0 to count
      invariant picked == Picks(rng.stream, old(rng.drawn), ids, i, k) && rng.drawn == old(rng.drawn) + k
    {
      var n := rng.Next();
      var parent := ids[n % i];
      if parent !in picked {
        picked := picked + [parent];
      }
    }
  }

  /** A chain as it was, or with one more version that takes one or two parents among earlier tags. */
  ghost predicate Augmented(blake: Blake, ids: seq<Uuid>, i: nat, now: I64, before: seq<Tag>, after: seq<Tag>)
    requires i < |ids|
  {
    after == before ||
    (before != [] && exists picked: IdList :: NewParents(blake, ids, i, now, before, after, picked))
  }

  ghost predicate NewParents(blake: Blake, ids: seq<Uuid>, i: nat, now: I64, before: seq<Tag>, after: seq<Tag>,
                             picked: IdList)
    requires i < |ids| && before != []
  {
    var prev := Live(before);
    && 1 <= |picked| <= 2 && Distinct(picked) && Elements(picked) <= Elements(ids[..i])
    && prev.body.count < I64_MAX
    && after == before + [NextTag(blake, prev, TagEdit(prev.body.title, prev.body.color, picked,
                                                       Min(prev.body.modifiedAt + 1000, now)))]
  }

  /** One second after the version, but not after `now`. */
  function Later(prev: Tag, now: I64): (at: I64)
    ensures at <= now
  {
    var at := Min(prev.body.modifiedAt + SECOND, now);
    at
  }

  lemma AugmentedImpliesEarlier(blake: Blake, ids: seq<Uuid>, i: nat, now: I64, before: seq<Tag>, after: seq<Tag>)
    requires i < |ids| && before != [] && ImpliesEarlier(ids, i, Live(before))
    requires Augmented(blake, ids, i, now, before, after)
    ensures after != [] && ImpliesEarlier(ids, i, Live(after))
  {
    if after != before {
      var picked: IdList :| NewParents(blake, ids, i, now, before, after, picked);
      NormalizeIs(picked);
      forall p | p in Live(after).body.implies ensures p in ids[..i] {
        assert p in InOrder(Elements(picked));
        assert p in Elements(ids[..i]);
      }
    }
  }

  /** A chain that can still be extended, with the id of its place. */
  ghost predicate Extendable(ids: seq<Uuid>, i: nat, chain: seq<Tag>)
    requires i < |ids|
  {
    chain != [] && chain[0].body.id == ids[i] && Live(chain).body.count < I64_MAX
  }

  ghost predicate AllExtendable(ids: seq<Uuid>, chains: seq<seq<Tag>>) {
    |ids| == |chains| &&
    forall i: nat {:trigger Extendable(ids, i, chains[i])} :: i < |ids| ==> Extendable(ids, i, chains[i])
  }

  /** The first chains have been visited. */
  ghost predicate AugmentedUpTo(blake: Blake, ids: seq<Uuid>, now: I64, before: seq<seq<Tag>>, done: seq<seq<Tag>>) {
    |done| <= |ids| == |before| &&
    forall i: nat {:trigger Augmented(blake, ids, i, now, before[i], done[i])} ::
      i < |done| ==> Augmented(blake, ids, i, now, before[i], done[i])
  }

  ghost predicate AllAugmented(blake: Blake, ids: seq<Uuid>, now: I64, before: seq<seq<Tag>>, after: seq<seq<Tag>>) {
    |after| == |before| && AugmentedUpTo(blake, ids, now, before, after)
  }

  lemma SetInArray(before: seq<seq<Tag>>, done: seq<seq<Tag>>, out: seq<Tag>)
    requires |done| < |before|
    ensures (done + before[|done|..])[|done| := out] == (done + [out]) + before[|done| + 1..]
  {
  }

  function WithParents(blake: Blake, chain: seq<Tag>, picked: IdList, now: I64): seq<Tag>
    requires chain != [] && Live(chain).body.count < I64_MAX
  {
    var prev := Live(chain);
    chain + [NextTag(blake, prev, TagEdit(prev.body.title, prev.body.color, picked, Later(prev, now)))]
  }

  /** A chain after its turn: extended by one version if parents were drawn for it. */
  function Given(blake: Blake, chain: seq<Tag>, parents: Option<IdList>, now: I64): seq<Tag>
    requires chain != [] && Live(chain).body.count < I64_MAX
  {
    if parents.Some? then WithParents(blake, chain, parents.value, now) else chain
  }

  /** The parents drawn for place `i`, if any, and how far the draws are read: about a quarter of the tags get some. */
  function Drawn(stream: nat -> nat, at: nat, ids: seq<Uuid>, i: nat): (Option<IdList>, nat)
    requires 0 < i < |ids|
  {
    if stream(at) % 100 >= 25 then (None, at + 1)
    else
      var count := 1 + stream(at + 1) % Min(2, i);
      (Some(Picks(stream, at + 2, ids, i, count)), at + 2 + count)
  }

  /** The parents drawn for the first `n` places; nothing is drawn for the first one. */
  function Plan(stream: nat -> nat, at: nat, ids: seq<Uuid>, n: nat): (r: (seq<Option<IdList>>, nat))
    requires n <= |ids|
    ensures |r.0| == n
  {
    if n == 0 then ([], at)
    else if n == 1 then ([None], at)
    else
      var (parents, next) := Plan(stream, at, ids, n - 1);
      var (drawn, after) := Drawn(stream, next, ids, n - 1);
      (parents + [drawn], after)
  }

  /** The first chains have had their turns. */
  ghost predicate GivenUpTo(blake: Blake, before: seq<seq<Tag>>, parents: seq<Option<IdList>>, now: I64,
                            done: seq<seq<Tag>>) {
    |done| == |parents| <= |before| &&
    forall i: nat {:trigger Gives(blake, before[i], parents[i], now, done[i])} ::
      i < |done| ==> Gives(blake, before[i], parents[i], now, done[i])
  }

  ghost predicate Gives(blake: Blake, before: seq<Tag>, parents: Option<IdList>, now: I64, after: seq<Tag>) {
    before != [] && Live(before).body.count < I64_MAX && after == Given(blake, before, parents, now)
  }

  lemma StillGiven(blake: Blake, before: seq<seq<Tag>>, parents: seq<Option<IdList>>, now: I64, done: seq<seq<Tag>>,
                   drawn: Option<IdList>, out: seq<Tag>, i: nat)
    requires GivenUpTo(blake, before, parents, now, done) && i < |done|
    ensures Gives(blake, before[i], (parents + [drawn])[i], now, (done + [out])[i])
  {
    assert (parents + [drawn])[i] == parents[i] && (done + [out])[i] == done[i];
    assert Gives(blake, before[i], parents[i], now, done[i]);
  }

  lemma LastIsNew<T>(s: seq<T>, x: T)
    ensures (s + [x])[|s|] == x
  {
  }

  lemma GivenByPlace(blake: Blake, before: seq<seq<Tag>>, parents: seq<Option<IdList>>, now: I64, done: seq<seq<Tag>>)
    requires |done| == |parents| <= |before|
    requires forall i: nat {:trigger done[i]} :: i < |done| ==> Gives(blake, before[i], parents[i], now, done[i])
    ensures GivenUpTo(blake, before, parents, now, done)
  {
  }

  lemma OneMoreGiven(blake: Blake, before: seq<seq<Tag>>, parents: seq<Option<IdList>>, now: I64, done: seq<seq<Tag>>,
                     drawn: Option<IdList>, out: seq<Tag>)
    requires GivenUpTo(blake, before, parents, now, done) && |done| < |before|
    requires Gives(blake, before[|done|], drawn, now, out)
    ensures GivenUpTo(blake, before, parents + [drawn], now, done + [out])
  {
    forall i: nat | i <= |done| ensures Gives(blake, before[i], (parents + [drawn])[i], now, (done + [out])[i]) {
      if i < |done| {
        StillGiven(blake, before, parents, now, done, drawn, out, i);
      } else {
        LastIsNew(parents, drawn);
        LastIsNew(done, out);
      }
    }
    GivenByPlace(blake, before, parents + [drawn], now, done + [out]);
  }

  /** What seeding leaves, for a stream of draws. */
  ghost predicate IsSeeded(blake: Blake, stream: nat -> nat, at: nat, ids: seq<Uuid>, now: I64, before: seq<seq<Tag>>,
                           after: seq<seq<Tag>>) {
    |ids| == |before| && GivenUpTo(blake, before, Plan(stream, at, ids, |ids|).0, now, after)
  }

  /** Of a hundred rolls 25 give parents. */
  lemma DrawnForQuarter(stream: nat -> nat, at: nat, ids: seq<Uuid>, i: nat)
    requires 0 < i < |ids|
    ensures Drawn(stream, at, ids, i).0.Some? <==> stream(at) % 100 < 25
  {
  }

  /** Draws that give place `i` the tags at `a` and `b` as parents. */
  function TwoDraws(a: nat, b: nat): nat -> nat {
    k => if k == 0 then 0 else if k == 1 then 1 else if k == 2 then a else b
  }

  lemma TwoPicks(ids: seq<Uuid>, i: nat, a: nat, b: nat)
    requires a < i < |ids| && b < i && ids[a] != ids[b]
    ensures Picks(TwoDraws(a, b), 2, ids, i, 2) == [ids[a], ids[b]]
  {
    var stream := TwoDraws(a, b);
    assert stream(2) % i == a && stream(3) % i == b;
    assert Picks(stream, 2, ids, i, 0) == [];
    assert Picks(stream, 2, ids, i, 1) == [ids[a]];
  }

  /** Any two different earlier tags, in either order, are the parents for some draws; for one, see `TheDraw`. */
  lemma AnyTwoParents(ids: seq<Uuid>, i: nat, a: nat, b: nat)
    requires a < i < |ids| && b < i && ids[a] != ids[b]
    ensures Drawn(TwoDraws(a, b), 0, ids, i) == (Some([ids[a], ids[b]]), 4)
  {
    assert a != b && i >= 2;
    var stream := TwoDraws(a, b);
    assert stream(0) == 0 && stream(1) == 1;
    TwoPicks(ids, i, a, b);
  }

  /** Drawn parents are one or two different tags at earlier places. */
  ghost predicate ProperParents(ids: seq<Uuid>, i: nat, parents: Option<IdList>)
    requires i < |ids|
  {
    parents.Some? ==>
      1 <= |parents.value| <= 2 && Distinct(parents.value) && Elements(parents.value) <= Elements(ids[..i])
  }

  lemma DrawnIsProper(stream: nat -> nat, at: nat, ids: seq<Uuid>, i: nat)
    requires 0 < i < |ids|
    ensures ProperParents(ids, i, Drawn(stream, at, ids, i).0)
  {
    if stream(at) % 100 < 25 { PicksAre(stream, at + 2, ids, i, 1 + stream(at + 1) % Min(2, i)); }
  }

  lemma {:induction false} PlanIsProper(stream: nat -> nat, at: nat, ids: seq<Uuid>, n: nat, i: nat)
    requires i < n <= |ids|
    ensures ProperParents(ids, i, Plan(stream, at, ids, n).0[i])
  {
    if n > 1 {
      if i < n - 1 {
        PlanIsProper(stream, at, ids, n - 1, i);
      } else {
        DrawnIsProper(stream, Plan(stream, at, ids, n - 1).1, ids, n - 1);
      }
    }
  }

  lemma GivenAugments(blake: Blake, ids: seq<Uuid>, i: nat, now: I64, before: seq<Tag>, parents: Option<IdList>,
                      after: seq<Tag>)
    requires i < |ids| && ProperParents(ids, i, parents) && Gives(blake, before, parents, now, after)
    ensures Augmented(blake, ids, i, now, before, after)
  {
    if parents.Some? { assert NewParents(blake, ids, i, now, before, after, parents.value); }
  }

  lemma SeededAugments(blake: Blake, stream: nat -> nat, at: nat, ids: seq<Uuid>, now: I64, before: seq<seq<Tag>>,
                       after: seq<seq<Tag>>)
    requires IsSeeded(blake, stream, at, ids, now, before, after)
    ensures AllAugmented(blake, ids, now, before, after)
  {
    forall i: nat | i < |after| ensures Augmented(blake, ids, i, now, before[i], after[i]) {
      PlanIsProper(stream, at, ids, |ids|, i);
      assert Gives(blake, before[i], Plan(stream, at, ids, |ids|).0[i], now, after[i]);
      GivenAugments(blake, ids, i, now, before[i], Plan(stream, at, ids, |ids|).0[i], after[i]);
    }
  }

  /** A quarter of the tags get one or two parents. */
  method DrawParents(rng: Rng, ids: seq<Uuid>, i: nat) returns (parents: Option<IdList>)
    requires 0 < i < |ids|
    modifies rng
    ensures (parents, rng.drawn) == Drawn(rng.stream, old(rng.drawn), ids, i)
  {
    var roll := rng.Next();
    if roll % 100 >= 25 { return None; }
    var draw := rng.Next();
    var picked := PickParents(rng, ids, i, 1 + draw % Min(2, i));
    parents := Some(picked);
  }

  method AddVersion(blake: Blake, chain: seq<Tag>, picked: IdList, now: I64) returns (out: seq<Tag>)
    requires chain != [] && Live(chain).body.count < I64_MAX
    ensures Gives(blake, chain, Some(picked), now, out)
  {
    var prev := Live(chain);
    var next := NextTag(blake, prev, TagEdit(prev.body.title, prev.body.color, picked, Later(prev, now)));
    out := chain + [next];
  }

  /** One turn of the loop. */
  method AugmentChain(blake: Blake, rng: Rng, ids: seq<Uuid>, i: nat, chain: seq<Tag>, now: I64)
    returns (out: seq<Tag>, ghost parents: Option<IdList>)
    requires 0 < i < |ids| && chain != [] && Live(chain).body.count < I64_MAX
    modifies rng
    ensures (parents, rng.drawn) == Drawn(rng.stream, old(rng.drawn), ids, i)
    ensures Gives(blake, chain, parents, now, out)
  {
    var drawn := DrawParents(rng, ids, i);
    parents := drawn;
    if drawn == None { return chain, parents; }
    out := AddVersion(blake, chain, drawn.value, now);
  }

  method FirstIds(chains: array<seq<Tag>>, ghost ids: seq<Uuid>) returns (tagIds: seq<Uuid>)
    requires AllExtendable(ids, chains[..])
    ensures tagIds == ids
  {
    tagIds := [];
    for i := 0 to chains.Length
      invariant tagIds == ids[..i]
    {
      assert Extendable(ids, i, chains[..][i]);
      tagIds := tagIds + [chains[i][0].body.id];
    }
  }

  /** Visits every chain after the first. */
  method ApplySeededImplications(blake: Blake, rng: Rng, chains: array<seq<Tag>>, now: I64, ghost ids: seq<Uuid>)
    requires AllExtendable(ids, chains[..])
    modifies rng, chains
    ensures IsSeeded(blake, rng.stream, old(rng.drawn), ids, now, old(chains[..]), chains[..])
  {
    ghost var before := chains[..];
    var tagIds := FirstIds(chains, ids);
    if chains.Length == 0 { return; }
    ghost var done := [before[0]];
    assert Extendable(ids, 0, before[0]);
    assert Gives(blake, before[0], [None][0], now, done[0]);
    var i := 1;
    while i < chains.Length
      invariant |done| == i <= chains.Length && chains[..] == done + before[i..]
      invariant rng.drawn == Plan(rng.stream, old(rng.drawn), ids, i).1
      invariant GivenUpTo(blake, before, Plan(rng.stream, old(rng.drawn), ids, i).0, now, done)
    {
      assert Extendable(ids, i, before[i]);
      assert chains[i] == chains[..][i] == before[i];
      ghost var plan := Plan(rng.stream, old(rng.drawn), ids, i);
      var out, parents := AugmentChain(blake, rng, tagIds, i, chains[i], now);
      OneMoreGiven(blake, before, plan.0, now, done, parents, out);
      SetInArray(before, done, out);
      chains[i] := out;
      done := done + [out];
      i := i + 1;
    }
  }

  /**
   * However the draws fall, the live tags of distinct chains form an acyclic graph, as long as they did before; in
   * particular when no tag implied anything.
   */
  lemma SeededGraphIsAcyclic(blake: Blake, ids: seq<Uuid>, now: I64, before: seq<seq<Tag>>, after: seq<seq<Tag>>)
    requires Distinct(ids) && AllAugmented(blake, ids, now, before, after)
    requires forall i :: 0 <= i < |before| ==> before[i] != []
    requires AllImplyEarlier(ids, LiveTags(before))
    ensures forall i :: 0 <= i < |after| ==> after[i] != []
    ensures AllImplyEarlier(ids, LiveTags(after)) && Acyclic(GraphOfTags(LiveTags(after)))
  {
    forall i: nat | i < |after| ensures after[i] != [] && ImpliesEarlier(ids, i, Live(after[i])) {
      assert ImpliesEarlier(ids, i, LiveTags(before)[i]);
      assert Augmented(blake, ids, i, now, before[i], after[i]);
      AugmentedImpliesEarlier(blake, ids, i, now, before[i], after[i]);
    }
    EarlierOnlyIsAcyclic(ids, LiveTags(after));
  }

  // ---------------------------------------------------------------- why the ids have to be distinct

  /** Draws that give chain `j` one parent, the tag at place `i`, and leave the other chains alone. */
  function OnlyAt(j: nat, i: nat): nat -> nat {
    k => if k + 1 == j || k == j then 0 else if k == j + 1 then i else 99
  }

  ghost predicate Quiet(stream: nat -> nat, at: nat, n: nat) {
    forall k: nat :: at <= k < at + n ==> stream(k) == 99
  }

  /** Draws that are 99 but for the turn of place `j` give parents to that place only. */
  ghost predicate OnlyGivesAt(stream: nat -> nat, ids: seq<Uuid>, j: nat, drawn: Option<IdList>, n: nat)
    requires n <= |ids|
  {
    var (parents, next) := Plan(stream, 0, ids, n);
    && next == (if n <= j then n - 1 else n + 1)
    && forall k :: 0 <= k < n ==> parents[k] == if k == j then drawn else None
  }

  lemma QuietDraw(stream: nat -> nat, at: nat, ids: seq<Uuid>, i: nat)
    requires 0 < i < |ids| && stream(at) == 99
    ensures Drawn(stream, at, ids, i) == (None, at + 1)
  {
  }

  /** The turn of the next place, with what it draws. */
  lemma NextTurn(stream: nat -> nat, ids: seq<Uuid>, j: nat, drawn: Option<IdList>, n: nat)
    requires 0 < j < |ids| && 0 < n < |ids| && OnlyGivesAt(stream, ids, j, drawn, n)
    requires var next := Plan(stream, 0, ids, n).1;
             Drawn(stream, next, ids, n) == if n == j then (drawn, j + 2) else (None, next + 1)
    ensures OnlyGivesAt(stream, ids, j, drawn, n + 1)
  {
    var before, after := Plan(stream, 0, ids, n).0, Plan(stream, 0, ids, n + 1).0;
    assert after == before + [if n == j then drawn else None];
  }

  lemma {:induction false} OneTurn(stream: nat -> nat, ids: seq<Uuid>, j: nat, drawn: Option<IdList>, n: nat)
    requires 0 < j < |ids| && 0 < n <= |ids|
    requires Quiet(stream, 0, j - 1) && Quiet(stream, j + 2, |ids|) && Drawn(stream, j - 1, ids, j) == (drawn, j + 2)
    ensures OnlyGivesAt(stream, ids, j, drawn, n)
  {
    if n > 1 {
      var m := n - 1;
      OneTurn(stream, ids, j, drawn, m);
      if m != j { QuietDraw(stream, if m < j then m - 1 else m + 1, ids, m); }
      NextTurn(stream, ids, j, drawn, m);
    }
  }

  lemma TheDraw(j: nat, i: nat, ids: seq<Uuid>)
    requires i < j < |ids|
    ensures Drawn(OnlyAt(j, i), j - 1, ids, j) == (Some([ids[i]]), j + 2)
  {
    var s := OnlyAt(j, i);
    assert s(j - 1) == 0 && s(j) == 0 && s(j + 1) == i;
    assert i % j == i;
    assert Picks(s, j + 1, ids, j, 0) == [];
    assert Picks(s, j + 1, ids, j, 1) == [ids[i]];
  }

  lemma OnlyAtIsQuiet(j: nat, i: nat, n: nat)
    requires 0 < j
    ensures Quiet(OnlyAt(j, i), 0, j - 1) && Quiet(OnlyAt(j, i), j + 2, n)
  {
  }

  lemma OnlyOneDraw(j: nat, i: nat, ids: seq<Uuid>)
    requires i < j < |ids|
    ensures OnlyGivesAt(OnlyAt(j, i), ids, j, Some([ids[i]]), |ids|)
  {
    OnlyAtIsQuiet(j, i, |ids|);
    TheDraw(j, i, ids);
    OneTurn(OnlyAt(j, i), ids, j, Some([ids[i]]), |ids|);
  }

  /** The last tag with an id decides its entry. */
  lemma {:induction false} LastPlace(tags: seq<Tag>, j: nat)
    requires j < |tags| && forall k :: j < k < |tags| ==> tags[k].body.id != tags[j].body.id
    ensures tags[j].body.id in GraphOfTags(tags) && GraphOfTags(tags)[tags[j].body.id] == tags[j].body.implies
  {
    var n := |tags| - 1;
    if j < n { LastPlace(tags[..n], j); }
  }

  /** Whenever an id occurs twice, some draws make its tag imply itself. */
  lemma SharedIdCycles(blake: Blake, ids: seq<Uuid>, now: I64, chains: seq<seq<Tag>>, i: nat, j: nat)
    returns (after: seq<seq<Tag>>)
    requires AllExtendable(ids, chains) && (forall k :: 0 <= k < |chains| ==> chains[k] != [])
    requires AllImplyEarlier(ids, LiveTags(chains))
    requires i < j < |ids| && ids[i] == ids[j] && forall k :: j < k < |ids| ==> ids[k] != ids[j]
    ensures IsSeeded(blake, OnlyAt(j, i), 0, ids, now, chains, after)
    ensures (forall k :: 0 <= k < |after| ==> after[k] != []) && !Acyclic(GraphOfTags(LiveTags(after)))
  {
    assert Extendable(ids, j, chains[j]);
    var out := WithParents(blake, chains[j], [ids[i]], now);
    after := chains[j := out];
    OnlyOneDraw(j, i, ids);
    forall k: nat | k < |after|
      ensures Gives(blake, chains[k], Plan(OnlyAt(j, i), 0, ids, |ids|).0[k], now, after[k])
    {
      assert Extendable(ids, k, chains[k]);
    }
    SelfImplied(blake, ids, now, chains, i, j);
    assert IsCycle(GraphOfTags(LiveTags(after)), [ids[j], ids[j]]);
  }

  lemma SelfImplied(blake: Blake, ids: seq<Uuid>, now: I64, chains: seq<seq<Tag>>, i: nat, j: nat)
    requires (forall k :: 0 <= k < |chains| ==> chains[k] != []) && AllImplyEarlier(ids, LiveTags(chains))
    requires i < j < |ids| && ids[i] == ids[j] && forall k :: j < k < |ids| ==> ids[k] != ids[j]
    requires Live(chains[j]).body.count < I64_MAX
    ensures var after := chains[j := WithParents(blake, chains[j], [ids[i]], now)];
            Succ(GraphOfTags(LiveTags(after)), ids[j]) == [ids[j]]
  {
    var after := chains[j := WithParents(blake, chains[j], [ids[i]], now)];
    var tags := LiveTags(after);
    forall k: nat | k < |ids| ensures tags[k].body.id == ids[k] {
      assert ImpliesEarlier(ids, k, LiveTags(chains)[k]);
    }
    NormalizeOne(ids[i]);
    LastPlace(tags, j);
  }

  lemma NormalizeOne(id: Uuid)
    ensures NormalizeImplies([id]) == [id]
  {
    assert Sort([id]) == Insert(id, Sort([]));
  }

  lemma LastRepeat(ids: seq<Uuid>) returns (i: nat, j: nat)
    requires !Distinct(ids)
    ensures i < j < |ids| && ids[i] == ids[j] && forall k :: j < k < |ids| ==> ids[k] != ids[j]
  {
    i, j :| 0 <= i < j < |ids| && ids[i] == ids[j];
    while exists k :: j < k < |ids| && ids[k] == ids[j]
      invariant i < j < |ids| && ids[i] == ids[j]
      decreases |ids| - j
    {
      var k :| j < k < |ids| && ids[k] == ids[j];
      j := k;
    }
  }

  ghost predicate NoCycle(after: seq<seq<Tag>>) {
    (forall k :: 0 <= k < |after| ==> after[k] != []) && Acyclic(GraphOfTags(LiveTags(after)))
  }

  /** Seeding leaves an acyclic graph for every stream of draws exactly when the tag ids are distinct. */
  lemma SeedingIsAcyclicExactly(blake: Blake, ids: seq<Uuid>, now: I64, chains: seq<seq<Tag>>)
    requires AllExtendable(ids, chains) && (forall k :: 0 <= k < |chains| ==> chains[k] != [])
    requires AllImplyEarlier(ids, LiveTags(chains))
    ensures Distinct(ids) <==>
            forall stream: nat -> nat, after :: IsSeeded(blake, stream, 0, ids, now, chains, after) ==> NoCycle(after)
  {
    if Distinct(ids) {
      forall stream: nat -> nat, after | IsSeeded(blake, stream, 0, ids, now, chains, after) ensures NoCycle(after) {
        SeededAugments(blake, stream, 0, ids, now, chains, after);
        SeededGraphIsAcyclic(blake, ids, now, chains, after);
      }
    } else {
      var i, j := LastRepeat(ids);
      var after := SharedIdCycles(blake, ids, now, chains, i, j);
      assert IsSeeded(blake, OnlyAt(j, i), 0, ids, now, chains, after) && !NoCycle(after);
    }
  }

  /** Seeding and then asking for a cycle: there is none, whatever was drawn. */
  method SeededCycle(blake: Blake, rng: Rng, chains: array<seq<Tag>>, now: I64, ghost ids: seq<Uuid>)
    returns (cycle: Option<seq<Uuid>>)
    requires Distinct(ids) && AllExtendable(ids, chains[..])
    requires forall i :: 0 <= i < chains.Length ==> chains[i] != []
    requires AllImplyEarlier(ids, LiveTags(chains[..]))
    modifies rng, chains
    ensures cycle == None
  {
    ghost var before := chains[..];
    ghost var at := rng.drawn;
    ApplySeededImplications(blake, rng, chains, now, ids);
    SeededAugments(blake, rng.stream, at, ids, now, before, chains[..]);
    SeededGraphIsAcyclic(blake, ids, now, before, chains[..]);
    var graph := GraphFromChains(chains[..]);
    cycle := DetectCycle(graph.edges);
  }
}
