/** Identifiers and the orders the source keeps them in. */
module Ids {

  /** A UUID, read as its 16 bytes in big-endian order, so `<` is the byte-wise order the source sorts by. */
  type Uuid = u: int | 0 <= u < 0x1_0000_0000_0000_0000_0000_0000_0000_0000

  datatype Option<+T> = None | Some(value: T) {
    predicate IsFailure() { None? }

    function PropagateFailure<U>(): Option<U>
      requires None?
    {
      None
    }

    function Extract(): T
      requires Some?
    {
      value
    }
  }

  function Elements(s: seq<Uuid>): set<Uuid> { set x | x in s }

  lemma ElementsAppend(s: seq<Uuid>, t: seq<Uuid>)
    ensures Elements(s + t) == Elements(s) + Elements(t)
  {
  }

  lemma ElementsPop(s: seq<Uuid>)
    requires s != []
    ensures Elements(s) == Elements(s[..|s| - 1]) + {s[|s| - 1]}
  {
    assert s == s[..|s| - 1] + [s[|s| - 1]];
  }

  lemma HeadIsIn(s: seq<Uuid>)
    requires s != []
    ensures s[0] in s
  {
  }

  ghost predicate Distinct(s: seq<Uuid>) {
    forall i, j :: 0 <= i < j < |s| ==> s[i] != s[j]
  }

  lemma DistinctAppend(s: seq<Uuid>, t: seq<Uuid>)
    requires Distinct(s) && Distinct(t) && forall x :: x in t ==> x !in s
    ensures Distinct(s + t)
  {
    forall i, j | 0 <= i < j < |s + t| ensures (s + t)[i] != (s + t)[j] {
      assert j >= |s| ==> (s + t)[j] in t;
      assert i < |s| ==> (s + t)[i] in s;
    }
  }

  lemma {:induction false} DistinctSize(s: seq<Uuid>)
    requires Distinct(s)
    ensures |Elements(s)| == |s|
  {
    if s != [] {
      var n := |s| - 1;
      DistinctSize(s[..n]);
      ElementsPop(s);
      assert s[n] !in Elements(s[..n]);
    }
  }

  lemma SubsetSize<T>(a: set<T>, b: set<T>)
    requires a <= b
    ensures |a| <= |b|
  {
    assert b == a + (b - a);
  }

  ghost predicate Ascending(s: seq<Uuid>) {
    forall i, j :: 0 <= i < j < |s| ==> s[i] <= s[j]
  }

  ghost predicate StrictlyAscending(s: seq<Uuid>) {
    forall i, j :: 0 <= i < j < |s| ==> s[i] < s[j]
  }

  // ---------------------------------------------------------------- sorting a list (`Vec::sort`)

  function Insert(x: Uuid, s: seq<Uuid>): (r: seq<Uuid>)
    ensures multiset(r) == multiset{x} + multiset(s)
    ensures |r| == |s| + 1
  {
    if s == [] || x <= s[0] then [x] + s
    else
      assert s == [s[0]] + s[1..];
      [s[0]] + Insert(x, s[1..])
  }

  function Sort(s: seq<Uuid>): (r: seq<Uuid>)
    ensures multiset(r) == multiset(s)
    ensures |r| == |s|
  {
    if s == [] then []
    else
      assert s == [s[0]] + s[1..];
      Insert(s[0], Sort(s[1..]))
  }

  lemma AscendingCons(x: Uuid, s: seq<Uuid>)
    requires Ascending(s) && forall y :: y in s ==> x <= y
    ensures Ascending([x] + s)
  {
    forall j | 0 <= j < |s| ensures x <= s[j] {
      assert s[j] in s;
    }
  }

  lemma {:induction false} InsertKeepsOrder(x: Uuid, s: seq<Uuid>)
    requires Ascending(s)
    ensures Ascending(Insert(x, s))
  {
    if s != [] && s[0] < x {
      InsertKeepsOrder(x, s[1..]);
      forall y | y in Insert(x, s[1..]) ensures s[0] <= y {
        assert y in multiset{x} + multiset(s[1..]);
      }
      AscendingCons(s[0], Insert(x, s[1..]));
    } else {
      AscendingCons(x, s);
    }
  }

  lemma SortOrders(s: seq<Uuid>)
    ensures Ascending(Sort(s))
    ensures forall x :: x in Sort(s) <==> x in s
  {
    if s != [] {
      SortOrders(s[1..]);
      InsertKeepsOrder(s[0], Sort(s[1..]));
    }
    forall x ensures x in Sort(s) <==> x in s {
      assert x in multiset(Sort(s)) <==> x in multiset(s);
    }
  }

  lemma AscendingHead(s: seq<Uuid>, t: seq<Uuid>)
    requires s != [] && t != [] && Ascending(s) && Ascending(t) && multiset(s) == multiset(t)
    ensures s[0] == t[0]
  {
    assert s[0] in multiset(t) && t[0] in multiset(s);
  }

  /** A sorted arrangement is determined by the elements: sorting forgets the original order and nothing else. */
  lemma {:induction false} SortedIsUnique(s: seq<Uuid>, t: seq<Uuid>)
    requires Ascending(s) && Ascending(t) && multiset(s) == multiset(t)
    ensures s == t
  {
    assert |s| == |multiset(s)| == |multiset(t)| == |t|;
    if s != [] {
      AscendingHead(s, t);
      assert s == [s[0]] + s[1..] && t == [t[0]] + t[1..];
      assert multiset(s[1..]) == multiset(s) - multiset{s[0]} == multiset(t) - multiset{t[0]} == multiset(t[1..]);
      SortedIsUnique(s[1..], t[1..]);
    }
  }

  // ---------------------------------------------------------------- iterating a set in order (`BTreeSet`)

  ghost predicate IsLeast(m: Uuid, s: set<Uuid>) {
    m in s && forall x :: x in s ==> m <= x
  }

  lemma {:induction false} HasLeast(s: set<Uuid>)
    requires s != {}
    ensures exists m :: IsLeast(m, s)
  {
    var m :| m in s;
    var rest := s - {m};
    assert s == rest + {m};
    if rest == {} {
      assert IsLeast(m, s);
    } else {
      HasLeast(rest);
      var k :| IsLeast(k, rest);
      if k <= m { assert IsLeast(k, s); } else { assert IsLeast(m, s); }
    }
  }

  /** The elements of a set from the least up, the order a `BTreeSet` or `BTreeMap` iterates in. */
  ghost function InOrder(s: set<Uuid>): (r: seq<Uuid>)
    ensures StrictlyAscending(r)
    ensures forall x :: x in r <==> x in s
  {
    if s == {} then []
    else
      HasLeast(s);
      var m :| IsLeast(m, s);
      [m] + InOrder(s - {m})
  }

  lemma InOrderIsUnique(r: seq<Uuid>, t: seq<Uuid>)
    requires StrictlyAscending(r) && StrictlyAscending(t)
    requires forall x :: x in r <==> x in t
    ensures r == t
  {
    if r == [] {
      if t != [] { HeadIsIn(t); }
    } else {
      assert r[0] in t && t != [];
      assert t[0] in r;
      assert r[0] == t[0];
      forall x ensures x in r[1..] <==> x in t[1..] {
        assert x in r[1..] <==> x in r && x != r[0] by { assert r == [r[0]] + r[1..]; }
        assert x in t[1..] <==> x in t && x != t[0] by { assert t == [t[0]] + t[1..]; }
      }
      InOrderIsUnique(r[1..], t[1..]);
    }
  }

  /** Collects a set into a list, least first. */
  method Collect(s: set<Uuid>) returns (r: seq<Uuid>)
    ensures r == InOrder(s)
  {
    var rest := s;
    var sorted: seq<Uuid> := [];
    while rest != {}
      invariant rest <= s
      invariant Ascending(sorted) && Distinct(sorted)
      invariant forall x :: x in sorted <==> x in s && x !in rest
      decreases rest
    {
      var x :| x in rest;
      InsertKeepsOrder(x, sorted);
      InsertKeepsDistinct(x, sorted);
      sorted := Insert(x, sorted);
      rest := rest - {x};
    }
    InOrderIsUnique(sorted, InOrder(s));
    r := sorted;
  }

  lemma {:induction false} InsertKeepsDistinct(x: Uuid, s: seq<Uuid>)
    requires Distinct(s) && x !in s
    ensures Distinct(Insert(x, s))
    ensures forall y :: y in Insert(x, s) <==> y == x || y in s
  {
    forall y ensures y in Insert(x, s) <==> y == x || y in s {
      assert y in multiset(Insert(x, s)) <==> y in multiset{x} + multiset(s);
    }
    if s != [] && s[0] < x {
      InsertKeepsDistinct(x, s[1..]);
      var rest := Insert(x, s[1..]);
      assert s[0] !in rest;
    }
  }
}
