/** ORDER BY, LIMIT and OFFSET over rows that carry a sort key. */
module Ordering {

  /** Lexicographic order on strings, character by character (a proper prefix comes first). */
  predicate StrLess(a: string, b: string)
    decreases |a|
  {
    if a == [] then b != []
    else if b == [] then false
    else if a[0] != b[0] then a[0] < b[0]
    else StrLess(a[1..], b[1..])
  }

  lemma {:induction false} StrLessIrreflexive(a: string)
    ensures !StrLess(a, a)
    decreases |a|
  {
    if a != [] {
      StrLessIrreflexive(a[1..]);
    }
  }

  lemma {:induction false} StrLessTransitive(a: string, b: string, c: string)
    requires StrLess(a, b) && StrLess(b, c)
    ensures StrLess(a, c)
    decreases |a|
  {
    if a != [] && b != [] && c != [] && a[0] == b[0] && b[0] == c[0] {
      StrLessTransitive(a[1..], b[1..], c[1..]);
    }
  }

  lemma {:induction false} StrLessTotal(a: string, b: string)
    ensures a == b || StrLess(a, b) || StrLess(b, a)
    decreases |a|
  {
    if a != [] && b != [] && a[0] == b[0] {
      StrLessTotal(a[1..], b[1..]);
      if a[1..] == b[1..] {
        assert a == [a[0]] + a[1..] && b == [b[0]] + b[1..];
      }
    }
  }

  /**
   * A row's position in an ORDER BY list: the chosen column (already negated
   * for DESC), a string column, then up to two integer tie-breakers, all
   * compared ascending and lexicographically.
   */
  datatype Key = Key(primary: int, name: string, tie1: int, tie2: int)

  /** The value of a sort column as ASC or DESC sees it. */
  function Directed(v: int, desc: bool): int
  {
    if desc then -v else v
  }

  predicate KeyLess(a: Key, b: Key)
  {
    if a.primary != b.primary then a.primary < b.primary
    else if a.name != b.name then StrLess(a.name, b.name)
    else if a.tie1 != b.tie1 then a.tie1 < b.tie1
    else a.tie2 < b.tie2
  }

  predicate KeyLeq(a: Key, b: Key)
  {
    a == b || KeyLess(a, b)
  }

  lemma KeyLessIrreflexive(a: Key)
    ensures !KeyLess(a, a)
  {
    StrLessIrreflexive(a.name);
  }

  lemma KeyLeqAntisymmetric(a: Key, b: Key)
    requires KeyLeq(a, b) && KeyLeq(b, a)
    ensures a == b
  {
    if a != b {
      if a.primary == b.primary && a.name != b.name {
        StrLessIrreflexive(a.name);
        StrLessTransitive(a.name, b.name, a.name);
      }
    }
  }

  lemma KeyLeqTransitive(a: Key, b: Key, c: Key)
    requires KeyLeq(a, b) && KeyLeq(b, c)
    ensures KeyLeq(a, c)
  {
    if a != b && b != c && a.primary == b.primary == c.primary {
      if a.name != b.name && b.name != c.name {
        StrLessTransitive(a.name, b.name, c.name);
        if a.name == c.name {
          StrLessIrreflexive(a.name);
          StrLessTransitive(a.name, b.name, a.name);
        }
      }
    }
  }

  lemma KeyLeqTotal(a: Key, b: Key)
    ensures KeyLeq(a, b) || KeyLeq(b, a)
  {
    StrLessTotal(a.name, b.name);
  }

  /** A row paired with its sort key. */
  datatype Ranked<T> = Ranked(key: Key, row: T)

  predicate Sorted<T>(s: seq<Ranked<T>>)
  {
    forall i, j :: 0 <= i < j < |s| ==> KeyLeq(s[i].key, s[j].key)
  }

  /** No two positions carry the same key: the ORDER BY list ends in a unique key. */
  predicate DistinctKeys<T>(s: seq<Ranked<T>>)
  {
    forall i, j :: 0 <= i < j < |s| ==> s[i].key != s[j].key
  }

  function Insert<T(==)>(x: Ranked<T>, s: seq<Ranked<T>>): (r: seq<Ranked<T>>)
    requires Sorted(s)
    ensures Sorted(r)
    ensures multiset(r) == multiset(s) + multiset{x}
    ensures |r| == |s| + 1
  {
    if s == [] then [x]
    else if KeyLeq(x.key, s[0].key) then
      LeqAllOfSorted(x, s);
      [x] + s
    else
      KeyLeqTotal(x.key, s[0].key);
      var rest := Insert(x, s[1..]);
      assert s == [s[0]] + s[1..];
      LeqAllOfSorted(s[0], rest);
      [s[0]] + rest
  }

  /** Putting `x` in front of a sorted sequence keeps it sorted when `x` is below its head. */
  lemma LeqAllOfSorted<T>(x: Ranked<T>, s: seq<Ranked<T>>)
    requires Sorted(s)
    requires s != [] ==> KeyLeq(x.key, s[0].key) || forall y | y in s :: KeyLeq(x.key, y.key)
    ensures Sorted([x] + s)
  {
    var r := [x] + s;
    forall i, j | 0 <= i < j < |r| ensures KeyLeq(r[i].key, r[j].key) {
      if i == 0 {
        assert r[j] == s[j - 1];
        if !(forall y | y in s :: KeyLeq(x.key, y.key)) {
          if j - 1 > 0 {
            KeyLeqTransitive(x.key, s[0].key, s[j - 1].key);
          }
        } else {
          assert s[j - 1] in s;
        }
      } else {
        assert r[i] == s[i - 1] && r[j] == s[j - 1];
      }
    }
  }

  /** ORDER BY: the rows in ascending key order. */
  function Sort<T(==)>(s: seq<Ranked<T>>): (r: seq<Ranked<T>>)
    ensures Sorted(r)
    ensures multiset(r) == multiset(s)
    ensures |r| == |s|
  {
    if s == [] then []
    else
      assert s == [s[0]] + s[1..];
      Insert(s[0], Sort(s[1..]))
  }

  /**
   * With a unique key, the sorted order is determined by the rows alone:
   * any two sorted arrangements of the same rows are identical.
   */
  lemma {:induction false} SortedUnique<T>(a: seq<Ranked<T>>, b: seq<Ranked<T>>)
    requires Sorted(a) && Sorted(b)
    requires multiset(a) == multiset(b)
    requires DistinctKeys(a)
    ensures a == b
    decreases |a|
  {
    assert |a| == |multiset(a)| == |multiset(b)| == |b|;
    if a != [] {
      SortedHeadsEqual(a, b);
      MultisetOfTail(a);
      MultisetOfTail(b);
      SortedUnique(a[1..], b[1..]);
      assert a == [a[0]] + a[1..] && b == [b[0]] + b[1..];
    }
  }

  lemma SortedHeadsEqual<T>(a: seq<Ranked<T>>, b: seq<Ranked<T>>)
    requires Sorted(a) && Sorted(b) && a != [] && b != []
    requires multiset(a) == multiset(b)
    requires DistinctKeys(a)
    ensures a[0] == b[0]
  {
    assert a[0] in multiset(b);
    assert b[0] in multiset(a);
    var k :| 0 <= k < |b| && b[k] == a[0];
    var m :| 0 <= m < |a| && a[m] == b[0];
    assert KeyLeq(b[0].key, b[k].key);
    assert KeyLeq(a[0].key, a[m].key);
    KeyLeqAntisymmetric(a[0].key, b[0].key);
  }

  lemma MultisetOfTail<T>(s: seq<T>)
    requires s != []
    ensures multiset(s[1..]) == multiset(s) - multiset{s[0]}
  {
    assert s == [s[0]] + s[1..];
  }

  /** Distinct keys survive any rearrangement of the rows. */
  lemma DistinctKeysPermutation<T>(a: seq<Ranked<T>>, b: seq<Ranked<T>>)
    requires DistinctKeys(a)
    requires multiset(a) == multiset(b)
    ensures DistinctKeys(b)
  {
    forall i, j | 0 <= i < j < |b| ensures b[i].key != b[j].key {
      if b[i].key == b[j].key {
        assert b[i] in multiset(a) && b[j] in multiset(a);
        var i' :| 0 <= i' < |a| && a[i'] == b[i];
        var j' :| 0 <= j' < |a| && a[j'] == b[j];
        assert i' == j';
        assert b[i] == b[j];
        MultiplicityAtLeastTwo(b, i, j);
        Multiplicity(a, i');
      }
    }
  }

  lemma MultiplicityAtLeastTwo<T>(s: seq<T>, i: nat, j: nat)
    requires i < j < |s| && s[i] == s[j]
    ensures multiset(s)[s[i]] >= 2
  {
    assert s == s[..i] + [s[i]] + s[i + 1..j] + [s[j]] + s[j + 1..];
  }

  /** A row at a position whose key no other position shares occurs once. */
  lemma Multiplicity<T>(a: seq<Ranked<T>>, i: nat)
    requires DistinctKeys(a) && i < |a|
    ensures multiset(a)[a[i]] == 1
  {
    assert a == a[..i] + [a[i]] + a[i + 1..];
    assert forall k :: 0 <= k < |a| && k != i ==> a[k] != a[i];
    assert a[i] !in a[..i];
    assert a[i] !in a[i + 1..];
  }

  /** LIMIT `limit` OFFSET `offset`: the rows at positions [offset, offset + limit). */
  function Page<T>(s: seq<T>, offset: nat, limit: nat): (r: seq<T>)
    ensures |r| <= limit
    ensures |r| == if offset >= |s| then 0 else Min(limit, |s| - offset)
    ensures forall i :: 0 <= i < |r| ==> r[i] == s[offset + i]
  {
    if offset >= |s| then []
    else s[offset..offset + Min(limit, |s| - offset)]
  }

  function Min(a: nat, b: nat): nat
  {
    if a <= b then a else b
  }
}
