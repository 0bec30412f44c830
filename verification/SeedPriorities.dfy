/** Claiming a free priority for seeded cards (clients/dev-seeder/src/seed/seed.rs). */
module SeedPriorities {
  import opened Ids
  import opened Integers

  const SHIFT_RANGE: int := 1_000_000
  const SHIFT_OFFSET: int := 500_000

  // ---------------------------------------------------------------- gaps

  /** Two neighbours among the used priorities and the two ends of the range. */
  ghost predicate IsGap(used: set<I64>, a: int, b: int) {
    && I64_MIN <= a < b <= I64_MAX
    && (a == I64_MIN || a in used)
    && (b == I64_MAX || b in used)
    && forall x :: x in used ==> x <= a || b <= x
  }

  /** A widest gap, and the first of these. */
  ghost predicate IsWidestGap(used: set<I64>, a: int, b: int) {
    && IsGap(used, a, b)
    && forall c, d :: IsGap(used, c, d) ==> d - c <= b - a && (d - c == b - a ==> a <= c)
  }

  ghost predicate IsWidestMiddle(used: set<I64>, r: int) {
    exists a, b :: IsWidestGap(used, a, b) && r == a + (b - a) / 2
  }

  /** A value below the maximum that nobody uses. */
  ghost predicate RoomBelowMax(used: set<I64>) {
    exists x: I64 :: x < I64_MAX && x !in used
  }

  ghost predicate IsLowest(m: I64, s: set<I64>) {
    m in s && forall x :: x in s ==> m <= x
  }

  ghost predicate IsHighest(m: I64, s: set<I64>) {
    m in s && forall x :: x in s ==> x <= m
  }

  lemma {:induction false} HasLowestAndHighest(s: set<I64>)
    requires s != {}
    ensures (exists m :: IsLowest(m, s)) && (exists m :: IsHighest(m, s))
  {
    var m :| m in s;
    var rest := s - {m};
    if rest == {} {
      assert s == {m};
      assert IsLowest(m, s) && IsHighest(m, s);
    } else {
      HasLowestAndHighest(rest);
      var lo :| IsLowest(lo, rest);
      var hi :| IsHighest(hi, rest);
      assert s == rest + {m};
      if lo <= m { assert IsLowest(lo, s); } else { assert IsLowest(m, s); }
      if m <= hi { assert IsHighest(hi, s); } else { assert IsHighest(m, s); }
    }
  }

  // ---------------------------------------------------------------- the largest gap

  /** The widest gap among those that end at `prev` or before starts at `a`; with width zero there is none. */
  ghost predicate BestUpTo(used: set<I64>, prev: I64, a: int, width: int) {
    && width >= 0
    && (width > 0 ==> IsGap(used, a, a + width) && a + width <= prev)
    && forall c, d :: IsGap(used, c, d) && d <= prev ==> d - c <= width && (d - c == width ==> a <= c)
  }

  /** The used priorities at or below `prev` have been passed. */
  ghost predicate Passed(used: set<I64>, rest: set<I64>, prev: I64) {
    && rest <= used
    && (prev == I64_MIN || prev in used)
    && forall x :: x in used ==> if x in rest then prev <= x else x <= prev
  }

  lemma GapsEndingAt(used: set<I64>, rest: set<I64>, prev: I64, p: I64, c: int, d: int)
    requires Passed(used, rest, prev) && IsGap(used, c, d) && d <= p
    requires IsLowest(p, rest) || (rest == {} && p == I64_MAX)
    ensures d <= prev || (c == prev && d == p)
  {
  }

  lemma NextIsGap(used: set<I64>, rest: set<I64>, prev: I64, p: I64)
    requires Passed(used, rest, prev) && prev < p
    requires IsLowest(p, rest) || (rest == {} && p == I64_MAX)
    ensures IsGap(used, prev, p)
  {
  }

  lemma BestExtends(used: set<I64>, rest: set<I64>, prev: I64, p: I64, a: int, width: int)
    requires Passed(used, rest, prev) && BestUpTo(used, prev, a, width)
    requires IsLowest(p, rest) || (rest == {} && p == I64_MAX)
    ensures prev <= p
    ensures if p - prev > width then BestUpTo(used, p, prev, p - prev) else BestUpTo(used, p, a, width)
  {
    if prev < p { NextIsGap(used, rest, prev, p); }
    forall c, d | IsGap(used, c, d) && d <= p ensures d <= prev || (c == prev && d == p) {
      GapsEndingAt(used, rest, prev, p, c, d);
    }
  }

  lemma StepPasses(used: set<I64>, rest: set<I64>, prev: I64, p: I64)
    requires Passed(used, rest, prev) && IsLowest(p, rest)
    ensures Passed(used, rest - {p}, p)
  {
  }

  /** Every gap ends at the maximum or before, so the best one up to there is a widest one. */
  lemma BestIsWidest(used: set<I64>, a: int, width: int)
    requires BestUpTo(used, I64_MAX, a, width)
    ensures width > 0 && IsWidestGap(used, a, a + width)
  {
    var above := used - {I64_MIN};
    var least := if above == {} then I64_MAX else LowestOf(above);
    forall x | x in used ensures x <= I64_MIN || least <= x {
      assert x == I64_MIN || x in above;
    }
    assert IsGap(used, I64_MIN, least);
  }

  ghost function LowestOf(s: set<I64>): (m: I64)
    requires s != {}
    ensures IsLowest(m, s)
  {
    HasLowestAndHighest(s);
    var m :| IsLowest(m, s);
    m
  }

  /** The scan of `find_largest_gap_midpoint`, from the least used priority up. */
  method FindLargestGapMidpoint(used: set<I64>) returns (midpoint: I64)
    ensures IsWidestMiddle(used, midpoint)
  {
    midpoint := I64_MAX / 2;
    var bestGap: int := 0;
    var prev: I64 := I64_MIN;
    ghost var start: int := I64_MIN;
    var rest := used;
    while rest != {}
      invariant Passed(used, rest, prev) && BestUpTo(used, prev, start, bestGap)
      invariant bestGap > 0 ==> midpoint == start + bestGap / 2
      decreases rest
    {
      HasLowestAndHighest(rest);
      var p: I64 :| p in rest && forall x :: x in rest ==> p <= x;
      BestExtends(used, rest, prev, p, start, bestGap);
      StepPasses(used, rest, prev, p);
      var gap := p - prev;
      if gap > bestGap {
        bestGap := gap;
        midpoint := prev + gap / 2;
        start := prev;
      }
      prev := p;
      rest := rest - {p};
    }
    BestExtends(used, {}, prev, I64_MAX, start, bestGap);
    var gap := I64_MAX - prev;
    if gap > bestGap {
      midpoint := prev + gap / 2;
      start, bestGap := prev, gap;
    }
    BestIsWidest(used, start, bestGap);
  }

  // ---------------------------------------------------------------- when the fallback finds room

  lemma MiddleIsFree(used: set<I64>, a: int, b: int)
    requires IsGap(used, a, b) && b - a > 1
    ensures a < a + (b - a) / 2 < b && a + (b - a) / 2 !in used
  {
  }

  function AboveOf(used: set<I64>, x: I64): (r: set<I64>)
    ensures forall y :: y in r <==> y in used && y > x
  {
    set y: I64 | y in used && y > x
  }

  function BelowOf(used: set<I64>, x: I64): (r: set<I64>)
    ensures forall y :: y in r <==> y in used && y < x
  {
    set y: I64 | y in used && y < x
  }

  /** An unused value above some used one lies inside a gap of width two or more. */
  lemma UnusedIsInGap(used: set<I64>, x: I64) returns (a: int, b: int)
    requires x !in used && x < I64_MAX
    ensures IsGap(used, a, b) && a <= x < b && (x == a ==> a == I64_MIN)
  {
    var below, above := BelowOf(used, x), AboveOf(used, x);
    if below == {} {
      a := I64_MIN;
    } else {
      HasLowestAndHighest(below);
      var m: I64 :| IsHighest(m, below);
      a := m;
    }
    if above == {} { b := I64_MAX; } else { b := LowestOf(above); }
    forall y: I64 | y in used ensures y <= a || b <= y {
      assert y in below || y in above;
    }
  }

  /** The middle of the widest gap is free exactly when some value below the maximum is. */
  lemma WidestMiddleIsFree(used: set<I64>, r: int)
    requires IsWidestMiddle(used, r)
    ensures I64_MIN <= r < I64_MAX
    ensures r !in used <==> RoomBelowMax(used)
  {
    var a, b :| IsWidestGap(used, a, b) && r == a + (b - a) / 2;
    if b - a > 1 {
      MiddleIsFree(used, a, b);
    } else if RoomBelowMax(used) {
      var x: I64 :| x < I64_MAX && x !in used;
      var c, d := UnusedIsInGap(used, x);
      assert d - c <= b - a;
      assert c == x == I64_MIN && d == I64_MIN + 1;
      assert a <= c;
    }
  }

  // ---------------------------------------------------------------- resolving one priority

  /** The next used priority above, or the maximum. */
  method NextAbove(used: set<I64>, priority: I64) returns (upper: I64)
    requires priority in used && priority < I64_MAX
    ensures IsGap(used, priority, upper)
  {
    var above := AboveOf(used, priority);
    if above == {} {
      upper := I64_MAX;
    } else {
      HasLowestAndHighest(above);
      upper :| upper in above && forall x :: x in above ==> upper <= x;
    }
  }

  /** The next used priority below, or the minimum. */
  method NextBelow(used: set<I64>, priority: I64) returns (lower: I64)
    requires priority in used
    ensures if priority == I64_MIN then lower == I64_MIN else IsGap(used, lower, priority)
  {
    var below := BelowOf(used, priority);
    if below == {} {
      lower := I64_MIN;
    } else {
      HasLowestAndHighest(below);
      lower :| lower in below && forall x :: x in below ==> x <= lower;
    }
  }

  /** The middle of the wider of the two gaps beside the priority; the one above wins a tie. */
  ghost predicate IsNeighbourMiddle(used: set<I64>, priority: I64, lower: int, upper: int, r: int) {
    && IsGap(used, priority, upper)
    && (if priority == I64_MIN then lower == I64_MIN else IsGap(used, lower, priority))
    && if upper - priority >= priority - lower
       then upper - priority > 1 && r == priority + (upper - priority) / 2
       else priority - lower > 1 && r == lower + (priority - lower) / 2
  }

  ghost predicate NoRoomBeside(used: set<I64>, priority: I64) {
    && (priority < I64_MAX ==> IsGap(used, priority, priority + 1))
    && (priority > I64_MIN ==> IsGap(used, priority - 1, priority))
  }

  /**
   * Where a priority goes: a free one stays. A used one below the maximum moves to the middle of the wider gap beside
   * it, or, when both are exhausted, of the widest gap there is; and what it moves to is free exactly when some value
   * below the maximum is.
   */
  ghost predicate ResolvesTo(used: set<I64>, priority: I64, p: I64) {
    if priority !in used then p == priority
    else
      && priority < I64_MAX && p < I64_MAX
      && (p !in used <==> RoomBelowMax(used))
      && ((exists l, u :: IsNeighbourMiddle(used, priority, l, u, p)) ||
          (NoRoomBeside(used, priority) && IsWidestMiddle(used, p)))
  }

  lemma ResolvedIsFree(used: set<I64>, priority: I64, p: I64)
    requires ResolvesTo(used, priority, p) && RoomBelowMax(used)
    ensures p !in used
  {
  }

  /** Overflows exactly for a used maximum. The third branch of the source can never run. */
  method ResolvePriority(priority: I64, used: set<I64>) returns (r: Option<I64>)
    ensures r == None <==> priority == I64_MAX && I64_MAX in used
    ensures r.Some? ==> ResolvesTo(used, priority, r.value)
  {
    if priority !in used { return Some(priority); }
    if priority == I64_MAX { return None; }
    var upper := NextAbove(used, priority);
    var lower := NextBelow(used, priority);
    var gapAbove, gapBelow := upper - priority, priority - lower;
    if gapAbove >= gapBelow && gapAbove > 1 {
      MiddleIsFree(used, priority, upper);
      r := Some(priority + gapAbove / 2);
      assert IsNeighbourMiddle(used, priority, lower, upper, r.value);
    } else if gapBelow > 1 {
      MiddleIsFree(used, lower, priority);
      r := Some(lower + gapBelow / 2);
      assert IsNeighbourMiddle(used, priority, lower, upper, r.value);
    } else if gapAbove > 1 {
      assert false;
    } else {
      var midpoint := FindLargestGapMidpoint(used);
      WidestMiddleIsFree(used, midpoint);
      r := Some(midpoint);
    }
  }

  // ---------------------------------------------------------------- pigeonhole

  ghost function Range(lo: I64, n: nat): set<I64>
    requires lo + n <= I64_MAX
  {
    if n == 0 then {} else Range(lo, n - 1) + {lo + n - 1}
  }

  lemma {:induction false} RangeSize(lo: I64, n: nat)
    requires lo + n <= I64_MAX
    ensures |Range(lo, n)| == n && forall x: I64 :: x in Range(lo, n) <==> lo <= x < lo + n
  {
    if n > 0 { RangeSize(lo, n - 1); }
  }

  /** Fewer than 2^64 - 1 used priorities cannot fill every value below the maximum; that many can. */
  lemma RoomByCounting(used: set<I64>)
    ensures |used| < 0x1_0000_0000_0000_0000 - 1 ==> RoomBelowMax(used)
    ensures var full := Range(I64_MIN, I64_MAX - I64_MIN);
            |full| == 0x1_0000_0000_0000_0000 - 1 && !RoomBelowMax(full)
  {
    var full := Range(I64_MIN, I64_MAX - I64_MIN);
    RangeSize(I64_MIN, I64_MAX - I64_MIN);
    if !RoomBelowMax(used) {
      assert full <= used;
      SubsetSize(full, used);
    }
  }

  // ---------------------------------------------------------------- runs

  function SaturatingAdd(a: I64, b: int): I64 {
    if a + b > I64_MAX then I64_MAX else if a + b < I64_MIN then I64_MIN else a + b
  }

  /** What a shift asks for. */
  function Nearby(draw: nat, current: I64): I64 { SaturatingAdd(current, draw % SHIFT_RANGE - SHIFT_OFFSET) }

  /** A shift stays within half a million of the current priority, cut to the range, and any such value is drawn. */
  lemma NearbyIsNear(draw: nat, current: I64, target: I64)
    ensures current - 500_000 <= Nearby(draw, current) <= current + 499_999
    ensures current - 500_000 <= target <= current + 499_999 ==>
              exists d: nat {:trigger Nearby(d, current)} :: d < 1_000_000 && Nearby(d, current) == target
  {
    if current - 500_000 <= target <= current + 499_999 {
      var d: nat := target - current + 500_000;
      assert d % 1_000_000 == d;
      assert Nearby(d, current) == target;
    }
  }

  /** The set of used priorities the seeder threads through. */
  class UsedPriorities {
    var used: set<I64>

    constructor ()
      ensures used == {}
    {
      used := {};
    }

    /** Fails, without a claim, exactly when the maximum is asked for and taken. */
    method Claim(raw: I64) returns (p: Option<I64>)
      modifies this
      ensures p == None <==> raw == I64_MAX && I64_MAX in old(used)
      ensures p == None ==> used == old(used)
      ensures p.Some? ==> ResolvesTo(old(used), raw, p.value) && used == old(used) + {p.value}
    {
      p := ResolvePriority(raw, used);
      if p.Some? { used := used + {p.value}; }
    }

    /** Frees the old priority and claims one nearby; fails exactly when that is the maximum and another card has it. */
    method Shift(draw: nat, current: I64) returns (p: Option<I64>)
      modifies this
      ensures p == None <==> Nearby(draw, current) == I64_MAX && I64_MAX in old(used) - {current}
      ensures p == None ==> used == old(used) - {current}
      ensures p.Some? ==> ResolvesTo(old(used) - {current}, Nearby(draw, current), p.value)
      ensures p.Some? ==> used == old(used) - {current} + {p.value}
    {
      var shift := draw % SHIFT_RANGE - SHIFT_OFFSET;
      var raw := SaturatingAdd(current, shift);
      used := used - {current};
      p := Claim(raw);
    }
  }

  /** A step of a seeding run: a new card, or an edit that moves a card. */
  datatype SeedStep = NewCard(raw: I64) | MoveCard(index: nat, draw: nat)

  ghost predicate Apart(live: seq<I64>) {
    forall i, j :: 0 <= i < j < |live| ==> live[i] != live[j]
  }

  function UsedBy(live: seq<I64>): set<I64> { set p | p in live }

  function NewCards(steps: seq<SeedStep>): nat {
    if steps == [] then 0
    else NewCards(steps[..|steps| - 1]) + if steps[|steps| - 1].NewCard? then 1 else 0
  }

  lemma NewCardsGrow(steps: seq<SeedStep>, n: nat)
    requires n < |steps|
    ensures NewCards(steps[..n + 1]) == NewCards(steps[..n]) + if steps[n].NewCard? then 1 else 0
  {
    assert steps[..n + 1][..n] == steps[..n];
  }

  /** The priority a step asks for, and the priorities it may not take. */
  ghost predicate Overflows(live: seq<I64>, step: SeedStep) {
    match step
    case NewCard(raw) => raw == I64_MAX && I64_MAX in UsedBy(live)
    case MoveCard(i, draw) => i < |live| && Nearby(draw, live[i]) == I64_MAX && I64_MAX in UsedBy(live) - {live[i]}
  }

  /** What a step that does not overflow does to the live priorities. */
  ghost predicate Stepped(before: seq<I64>, step: SeedStep, after: seq<I64>) {
    match step
    case NewCard(raw) =>
      |after| == |before| + 1 && after == before + [after[|before|]] && ResolvesTo(UsedBy(before), raw, after[|before|])
    case MoveCard(i, draw) =>
      if i < |before|
      then |after| == |before| && after == before[i := after[i]] &&
           ResolvesTo(UsedBy(before) - {before[i]}, Nearby(draw, before[i]), after[i])
      else after == before
  }

  lemma {:induction false} UsedSize(live: seq<I64>)
    ensures |UsedBy(live)| <= |live|
  {
    if live == [] {
      assert UsedBy(live) == {};
    } else {
      var n := |live| - 1;
      UsedSize(live[..n]);
      assert live == live[..n] + [live[n]];
      assert UsedBy(live) == UsedBy(live[..n]) + {live[n]};
    }
  }

  lemma RoomForOneMore(live: seq<I64>, used: set<I64>)
    requires |live| < 0x1_0000_0000_0000_0000 - 1 && used <= UsedBy(live)
    ensures RoomBelowMax(used)
  {
    UsedSize(live);
    SubsetSize(used, UsedBy(live));
    RoomByCounting(used);
  }

  lemma AppendStaysApart(live: seq<I64>, p: I64)
    requires Apart(live) && p !in UsedBy(live)
    ensures Apart(live + [p]) && UsedBy(live + [p]) == UsedBy(live) + {p}
  {
  }

  lemma ReplaceStaysApart(live: seq<I64>, i: nat, p: I64)
    requires Apart(live) && i < |live| && p !in UsedBy(live) - {live[i]}
    ensures Apart(live[i := p]) && UsedBy(live[i := p]) == UsedBy(live) - {live[i]} + {p}
  {
    var next := live[i := p];
    forall q ensures q in UsedBy(next) <==> q in UsedBy(live) - {live[i]} + {p} {
      if q in next {
        var k :| 0 <= k < |next| && next[k] == q;
        assert k != i ==> live[k] == q && live[k] in live;
      }
      if q in UsedBy(live) - {live[i]} {
        var k :| 0 <= k < |live| && live[k] == q;
        assert next[k] == q;
      }
      if q == p { assert next[i] == p; }
    }
    forall k | 0 <= k < |live| && k != i ensures live[k] != p {
      assert live[k] in UsedBy(live);
    }
  }

  /** One step of the run; without a result it overflows. */
  method TakeStep(priorities: UsedPriorities, live: seq<I64>, step: SeedStep) returns (next: Option<seq<I64>>)
    requires Apart(live) && priorities.used == UsedBy(live) && |live| < 0x1_0000_0000_0000_0000 - 1
    modifies priorities
    ensures next == None <==> Overflows(live, step)
    ensures next.Some? ==>
              && Stepped(live, step, next.value) && Apart(next.value) && priorities.used == UsedBy(next.value)
              && |next.value| == |live| + if step.NewCard? then 1 else 0
  {
    match step
    case NewCard(raw) =>
      var p := priorities.Claim(raw);
      if p == None { return None; }
      RoomForOneMore(live, UsedBy(live));
      ResolvedIsFree(UsedBy(live), raw, p.value);
      AppendStaysApart(live, p.value);
      next := Some(live + [p.value]);
    case MoveCard(index, draw) =>
      if index >= |live| { return Some(live); }
      var p := priorities.Shift(draw, live[index]);
      if p == None { return None; }
      ghost var others := UsedBy(live) - {live[index]};
      RoomForOneMore(live, others);
      ResolvedIsFree(others, Nearby(draw, live[index]), p.value);
      ReplaceStaysApart(live, index, p.value);
      next := Some(live[index := p.value]);
  }

  /** The live priorities before and after each of the first `done` steps, always apart. */
  ghost predicate IsTrace(steps: seq<SeedStep>, lives: seq<seq<I64>>, done: nat) {
    && done <= |steps| && |lives| == done + 1 && lives[0] == []
    && (forall k {:trigger steps[k]} :: 0 <= k < done ==> Stepped(lives[k], steps[k], lives[k + 1]))
    && (forall k :: 0 <= k <= done ==> Apart(lives[k]))
  }

  lemma TraceGrows(steps: seq<SeedStep>, lives: seq<seq<I64>>, done: nat, next: seq<I64>)
    requires IsTrace(steps, lives, done) && done < |steps| && Stepped(lives[done], steps[done], next) && Apart(next)
    ensures IsTrace(steps, lives + [next], done + 1)
  {
    var lives' := lives + [next];
    forall k | 0 <= k < done + 1 ensures Stepped(lives'[k], steps[k], lives'[k + 1]) {
      if k < done { assert Stepped(lives[k], steps[k], lives[k + 1]); }
    }
  }

  /**
   * Any run of fewer than 2^64 - 1 steps: each step resolves its priority against the other live cards, no two live
   * cards ever share one, and the run stops early exactly at a step that asks for the maximum while another live card
   * has it.
   */
  method SeedRun(steps: seq<SeedStep>) returns (live: seq<I64>, done: nat, ghost lives: seq<seq<I64>>)
    requires |steps| < 0x1_0000_0000_0000_0000 - 1
    ensures IsTrace(steps, lives, done) && lives[done] == live
    ensures |live| == NewCards(steps[..done])
    ensures done < |steps| ==> Overflows(live, steps[done])
  {
    var priorities := new UsedPriorities();
    live, done, lives := [], 0, [[]];
    while done < |steps|
      invariant IsTrace(steps, lives, done) && lives[done] == live && Apart(live)
      invariant |live| == NewCards(steps[..done]) <= done
      invariant priorities.used == UsedBy(live)
    {
      var next := TakeStep(priorities, live, steps[done]);
      if next == None { return; }
      NewCardsGrow(steps, done);
      TraceGrows(steps, lives, done, next.value);
      live := next.value;
      lives := lives + [live];
      done := done + 1;
    }
  }
}
