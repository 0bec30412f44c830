/** The insertion-ordered map (`indexmap::IndexMap`) that sync merges into, keyed by id. */
module IndexMaps {
  import opened Ids

  datatype Entry<+V> = Entry(key: Uuid, value: V)

  ghost predicate UniqueKeys<V>(entries: seq<Entry<V>>) {
    forall i, j :: 0 <= i < j < |entries| ==> entries[i].key != entries[j].key
  }

  /** What the entries say about each key; of several entries for one key the last counts. */
  function Contents<V>(entries: seq<Entry<V>>): map<Uuid, V> {
    if entries == [] then map[]
    else
      var last := entries[|entries| - 1];
      Contents(entries[..|entries| - 1])[last.key := last.value]
  }

  /** Position of the first entry with the key, or the length. */
  function Find<V>(entries: seq<Entry<V>>, key: Uuid): (i: nat)
    ensures i <= |entries|
  {
    if entries == [] || entries[0].key == key then 0 else 1 + Find(entries[1..], key)
  }

  /** A known key keeps its place and gets the new value; a new one goes to the end. */
  function Inserted<V>(entries: seq<Entry<V>>, key: Uuid, value: V): seq<Entry<V>> {
    var i := Find(entries, key);
    if i < |entries| then entries[i := Entry(key, value)] else entries + [Entry(key, value)]
  }

  /** The last entry takes the place of the removed one. */
  function SwapRemoved<V>(entries: seq<Entry<V>>, key: Uuid): seq<Entry<V>> {
    var i := Find(entries, key);
    if i == |entries| then entries
    else if i == |entries| - 1 then entries[..i]
    else entries[..|entries| - 1][i := entries[|entries| - 1]]
  }

  lemma {:induction false} FindIsFirst<V>(entries: seq<Entry<V>>, key: Uuid)
    ensures var i := Find(entries, key);
            (i < |entries| ==> entries[i].key == key) && forall k :: 0 <= k < i ==> entries[k].key != key
  {
    if entries != [] && entries[0].key != key { FindIsFirst(entries[1..], key); }
  }

  /** Entry `i` is the last one for its key. */
  ghost predicate IsLastFor<V>(entries: seq<Entry<V>>, i: nat) {
    i < |entries| && forall j :: i < j < |entries| ==> entries[j].key != entries[i].key
  }

  /** The contents are exactly the last entries for their keys. */
  lemma {:induction false} ContentsLast<V>(entries: seq<Entry<V>>, key: Uuid)
    ensures key in Contents(entries) <==> exists i: nat :: IsLastFor(entries, i) && entries[i].key == key
    ensures forall i: nat :: IsLastFor(entries, i) && entries[i].key == key ==>
              key in Contents(entries) && Contents(entries)[key] == entries[i].value
  {
    if entries != [] {
      var n := |entries| - 1;
      ContentsLast(entries[..n], key);
      forall i: nat | i < n
        ensures IsLastFor(entries, i) <==> IsLastFor(entries[..n], i) && entries[i].key != entries[n].key
      {
        LastForStep(entries, i);
      }
      assert IsLastFor(entries, n);
      forall i: nat | IsLastFor(entries, i) && entries[i].key == key && i < n
        ensures IsLastFor(entries[..n], i) && entries[..n][i].key == key {}
      if entries[n].key != key && key in Contents(entries) {
        var i: nat :| IsLastFor(entries[..n], i) && entries[..n][i].key == key;
        assert IsLastFor(entries, i) && entries[i].key == key;
      }
    }
  }

  lemma LastForStep<V>(entries: seq<Entry<V>>, i: nat)
    requires i < |entries| - 1
    ensures IsLastFor(entries, i) <==>
            IsLastFor(entries[..|entries| - 1], i) && entries[i].key != entries[|entries| - 1].key
  {
    var n := |entries| - 1;
    if IsLastFor(entries[..n], i) && entries[i].key != entries[n].key {
      forall j | i < j < |entries| ensures entries[j].key != entries[i].key {
        assert j < n ==> entries[..n][j] == entries[j];
      }
    }
  }

  // ---------------------------------------------------------------- contents of lists with unique keys

  ghost predicate Says<V>(entries: seq<Entry<V>>, key: Uuid, value: V) {
    exists i :: 0 <= i < |entries| && entries[i] == Entry(key, value)
  }

  /** With unique keys, the contents are exactly the entries. */
  lemma {:induction false} ContentsExact<V>(entries: seq<Entry<V>>, key: Uuid, value: V)
    requires UniqueKeys(entries)
    ensures (key in Contents(entries) && Contents(entries)[key] == value) <==> Says(entries, key, value)
  {
    if entries != [] {
      var n := |entries| - 1;
      var init, last := entries[..n], entries[n];
      ContentsExact(init, key, value);
      if last.key == key {
        if Says(entries, key, value) {
          var i :| 0 <= i < |entries| && entries[i] == Entry(key, value);
          assert i == n;
        } else {
          assert entries[n] != Entry(key, value);
        }
      } else {
        if Says(init, key, value) {
          var i :| 0 <= i < |init| && init[i] == Entry(key, value);
          assert entries[i] == Entry(key, value);
        }
        if Says(entries, key, value) {
          var i :| 0 <= i < |entries| && entries[i] == Entry(key, value);
          assert init[i] == Entry(key, value);
        }
      }
    }
  }

  /** A list of unique keys whose entries are those of a map has that map as its contents. */
  lemma ContentsAre<V>(entries: seq<Entry<V>>, m: map<Uuid, V>)
    requires UniqueKeys(entries)
    requires forall k, v :: Says(entries, k, v) <==> k in m && m[k] == v
    ensures Contents(entries) == m
  {
    forall k ensures k in Contents(entries) <==> k in m {
      if k in Contents(entries) { ContentsExact(entries, k, Contents(entries)[k]); }
      if k in m { ContentsExact(entries, k, m[k]); }
    }
    forall k | k in m ensures Contents(entries)[k] == m[k] {
      ContentsExact(entries, k, m[k]);
    }
  }

  /** Rearranging a list of unique keys changes nothing. */
  lemma Rearranged<V>(a: seq<Entry<V>>, b: seq<Entry<V>>)
    requires UniqueKeys(a) && multiset(a) == multiset(b)
    ensures UniqueKeys(b) && Contents(b) == Contents(a)
  {
    forall i, j | 0 <= i < j < |b| ensures b[i].key != b[j].key {
      if b[i].key == b[j].key {
        SameKeySameEntry(a, b, i, j);
        AtMostOnce(a, b[i]);
        TwiceInList(b, i, j);
      }
    }
    forall k, v ensures Says(b, k, v) <==> k in Contents(a) && Contents(a)[k] == v {
      ContentsExact(a, k, v);
      SaysByMultiset(a, k, v);
      SaysByMultiset(b, k, v);
    }
    ContentsAre(b, Contents(a));
  }

  lemma SaysByMultiset<V>(entries: seq<Entry<V>>, key: Uuid, value: V)
    ensures Says(entries, key, value) <==> Entry(key, value) in multiset(entries)
  {
    if Entry(key, value) in multiset(entries) { assert Entry(key, value) in entries; }
  }

  lemma AtMostOnce<V>(a: seq<Entry<V>>, e: Entry<V>)
    requires UniqueKeys(a)
    ensures multiset(a)[e] <= 1
  {
    if e in a {
      var i :| 0 <= i < |a| && a[i] == e;
      assert a == a[..i] + [e] + a[i + 1..];
      assert e !in a[..i] && e !in a[i + 1..];
    }
  }

  lemma SameKeySameEntry<V>(a: seq<Entry<V>>, b: seq<Entry<V>>, i: nat, j: nat)
    requires i < j < |b| && b[i].key == b[j].key
    requires UniqueKeys(a) && multiset(a) == multiset(b)
    ensures b[i] == b[j]
  {
    assert b[i] in multiset(b) && b[j] in multiset(b);
    assert b[i] in a && b[j] in a;
  }

  lemma TwiceInList<V>(b: seq<Entry<V>>, i: nat, j: nat)
    requires i < j < |b| && b[i] == b[j]
    ensures multiset(b)[b[i]] >= 2
  {
    assert b == b[..i] + [b[i]] + b[i + 1..j] + [b[j]] + b[j + 1..];
  }

  // ---------------------------------------------------------------- inserting and removing

  lemma InsertedKeys<V>(entries: seq<Entry<V>>, key: Uuid, value: V)
    requires UniqueKeys(entries)
    ensures UniqueKeys(Inserted(entries, key, value))
  {
    FindIsFirst(entries, key);
  }

  lemma InsertedSays<V>(entries: seq<Entry<V>>, key: Uuid, value: V, k: Uuid, v: V)
    requires UniqueKeys(entries)
    ensures Says(Inserted(entries, key, value), k, v) <==> if k == key then v == value else Says(entries, k, v)
  {
    var r, i := Inserted(entries, key, value), Find(entries, key);
    FindIsFirst(entries, key);
    assert r[i] == Entry(key, value);
    if Says(r, k, v) {
      var j :| 0 <= j < |r| && r[j] == Entry(k, v);
      if j != i { assert entries[j] == Entry(k, v); }
    }
    if k != key && Says(entries, k, v) {
      var j :| 0 <= j < |entries| && entries[j] == Entry(k, v);
      assert r[j] == Entry(k, v);
    }
  }

  /** Where things are: a known key keeps its place and so do all others, a new one is last. */
  ghost predicate KeepsPlaces<V>(entries: seq<Entry<V>>, key: Uuid, value: V, r: seq<Entry<V>>) {
    if exists i :: 0 <= i < |entries| && entries[i].key == key
    then |r| == |entries| && forall i :: 0 <= i < |entries| ==>
           r[i] == if entries[i].key == key then Entry(key, value) else entries[i]
    else r == entries + [Entry(key, value)]
  }

  lemma InsertedKeepsPlaces<V>(entries: seq<Entry<V>>, key: Uuid, value: V)
    requires UniqueKeys(entries)
    ensures KeepsPlaces(entries, key, value, Inserted(entries, key, value))
  {
    FindIsFirst(entries, key);
  }

  /** The removed entry's place goes to the last one, and all others keep theirs. */
  lemma SwapRemovedPlaces<V>(entries: seq<Entry<V>>, i: nat)
    requires UniqueKeys(entries) && i < |entries|
    ensures var r, n := SwapRemoved(entries, entries[i].key), |entries| - 1;
            |r| == n && forall k :: 0 <= k < n ==> r[k] == if k == i then entries[n] else entries[k]
  {
    FindIsFirst(entries, entries[i].key);
    assert Find(entries, entries[i].key) == i;
  }

  lemma InsertedIs<V>(entries: seq<Entry<V>>, key: Uuid, value: V)
    requires UniqueKeys(entries)
    ensures UniqueKeys(Inserted(entries, key, value))
    ensures Contents(Inserted(entries, key, value)) == Contents(entries)[key := value]
  {
    InsertedKeys(entries, key, value);
    forall k, v ensures Says(Inserted(entries, key, value), k, v) <==>
                        var m := Contents(entries)[key := value]; k in m && m[k] == v
    {
      InsertedSays(entries, key, value, k, v);
      ContentsExact(entries, k, v);
    }
    ContentsAre(Inserted(entries, key, value), Contents(entries)[key := value]);
  }

  lemma SwapRemovedKeys<V>(entries: seq<Entry<V>>, key: Uuid)
    requires UniqueKeys(entries)
    ensures UniqueKeys(SwapRemoved(entries, key))
  {
    FindIsFirst(entries, key);
  }

  lemma SwapRemovedSays<V>(entries: seq<Entry<V>>, key: Uuid, k: Uuid, v: V)
    requires UniqueKeys(entries)
    ensures Says(SwapRemoved(entries, key), k, v) <==> k != key && Says(entries, k, v)
  {
    var r, i, n := SwapRemoved(entries, key), Find(entries, key), |entries|;
    FindIsFirst(entries, key);
    if Says(r, k, v) {
      var j :| 0 <= j < |r| && r[j] == Entry(k, v);
      assert entries[if j == i then n - 1 else j] == Entry(k, v);
    }
    if k != key && Says(entries, k, v) {
      var j :| 0 <= j < |entries| && entries[j] == Entry(k, v);
      assert r[if i < n && j == n - 1 then i else j] == Entry(k, v);
    }
  }

  lemma SwapRemovedIs<V>(entries: seq<Entry<V>>, key: Uuid)
    requires UniqueKeys(entries)
    ensures UniqueKeys(SwapRemoved(entries, key))
    ensures Contents(SwapRemoved(entries, key)) == Contents(entries) - {key}
  {
    SwapRemovedKeys(entries, key);
    forall k, v ensures Says(SwapRemoved(entries, key), k, v) <==>
                        var m := Contents(entries) - {key}; k in m && m[k] == v
    {
      SwapRemovedSays(entries, key, k, v);
      ContentsExact(entries, k, v);
    }
    ContentsAre(SwapRemoved(entries, key), Contents(entries) - {key});
  }

  // ---------------------------------------------------------------- the map

  class IndexMap<V> {
    var entries: seq<Entry<V>>

    ghost predicate Valid()
      reads this
    {
      UniqueKeys(entries)
    }

    constructor ()
      ensures Valid() && entries == []
    {
      entries := [];
    }

    method Insert(key: Uuid, value: V)
      requires Valid()
      modifies this
      ensures Valid() && entries == Inserted(old(entries), key, value)
      ensures Contents(entries) == old(Contents(entries))[key := value]
    {
      InsertedIs(entries, key, value);
      entries := Inserted(entries, key, value);
    }

    method SwapRemove(key: Uuid)
      requires Valid()
      modifies this
      ensures Valid() && entries == SwapRemoved(old(entries), key)
      ensures Contents(entries) == old(Contents(entries)) - {key}
    {
      SwapRemovedIs(entries, key);
      entries := SwapRemoved(entries, key);
    }
  }
}
