/** Sequences of rows as database tables: WHERE is Filter, COUNT(*) is Count. */
module Relational {

  import opened Wrappers

  /** The rows of `s` that satisfy `p`, in table order. */
  function Filter<T>(s: seq<T>, p: T -> bool): (r: seq<T>)
    ensures |r| <= |s|
    ensures forall x | x in r :: x in s && p(x)
    ensures forall x | x in s && p(x) :: x in r
  {
    if s == [] then []
    else if p(s[0]) then [s[0]] + Filter(s[1..], p)
    else Filter(s[1..], p)
  }

  /** The number of rows of `s` that satisfy `p`. */
  function Count<T>(s: seq<T>, p: T -> bool): nat
  {
    |Filter(s, p)|
  }

  /** Two positions of `s` never carry the same key: a UNIQUE constraint. */
  predicate DistinctBy<T, K(==)>(s: seq<T>, key: T -> K)
  {
    forall i, j :: 0 <= i < j < |s| ==> key(s[i]) != key(s[j])
  }

  /** The keys of `s` strictly increase along the table: an auto-incremented column. */
  predicate Increasing<T>(s: seq<T>, key: T -> int)
  {
    forall i, j :: 0 <= i < j < |s| ==> key(s[i]) < key(s[j])
  }

  lemma {:induction false} FilterOfAppend<T>(a: seq<T>, b: seq<T>, p: T -> bool)
    ensures Filter(a + b, p) == Filter(a, p) + Filter(b, p)
  {
    if a == [] {
      assert a + b == b;
    } else {
      assert (a + b)[1..] == a[1..] + b;
      FilterOfAppend(a[1..], b, p);
    }
  }

  lemma {:induction false} FilterAll<T>(s: seq<T>, p: T -> bool)
    requires forall x :: x in s ==> p(x)
    ensures Filter(s, p) == s
  {
    if s != [] {
      FilterAll(s[1..], p);
    }
  }

  lemma {:induction false} FilterNone<T>(s: seq<T>, p: T -> bool)
    requires forall x :: x in s ==> !p(x)
    ensures Filter(s, p) == []
  {
    if s != [] {
      FilterNone(s[1..], p);
    }
  }

  /** Filtering twice is filtering once by the conjunction. */
  lemma {:induction false} FilterFilter<T>(s: seq<T>, p: T -> bool, q: T -> bool, pq: T -> bool)
    requires forall x :: x in s ==> pq(x) == (p(x) && q(x))
    ensures Filter(Filter(s, p), q) == Filter(s, pq)
  {
    if s != [] {
      FilterFilter(s[1..], p, q, pq);
    }
  }

  /** Two predicates that agree on the rows of `s` select the same rows. */
  lemma {:induction false} FilterExt<T>(s: seq<T>, p: T -> bool, q: T -> bool)
    requires forall x :: x in s ==> p(x) == q(x)
    ensures Filter(s, p) == Filter(s, q)
  {
    if s != [] {
      FilterExt(s[1..], p, q);
    }
  }

  /** Splitting the rows by a second predicate splits the count. */
  lemma {:induction false} CountSplit<T>(s: seq<T>, p: T -> bool, q: T -> bool, pq: T -> bool, pnq: T -> bool)
    requires forall x :: x in s ==> pq(x) == (p(x) && q(x))
    requires forall x :: x in s ==> pnq(x) == (p(x) && !q(x))
    ensures Count(s, p) == Count(s, pq) + Count(s, pnq)
  {
    if s != [] {
      CountSplit(s[1..], p, q, pq, pnq);
    }
  }

  lemma ConsIncreasing<T>(x: T, rest: seq<T>, key: T -> int)
    requires Increasing(rest, key)
    requires forall k | 0 <= k < |rest| :: key(x) < key(rest[k])
    ensures Increasing([x] + rest, key)
  {
    forall i, j | 0 <= i < j < |[x] + rest| ensures key(([x] + rest)[i]) < key(([x] + rest)[j]) {
      assert ([x] + rest)[j] == rest[j - 1];
      if i > 0 {
        assert ([x] + rest)[i] == rest[i - 1];
      }
    }
  }

  lemma ConsDistinct<T, K>(x: T, rest: seq<T>, key: T -> K)
    requires DistinctBy(rest, key)
    requires forall k | 0 <= k < |rest| :: key(x) != key(rest[k])
    ensures DistinctBy([x] + rest, key)
  {
    forall i, j | 0 <= i < j < |[x] + rest| ensures key(([x] + rest)[i]) != key(([x] + rest)[j]) {
      assert ([x] + rest)[j] == rest[j - 1];
      if i > 0 {
        assert ([x] + rest)[i] == rest[i - 1];
      }
    }
  }

  lemma {:induction false} FilterKeepsIncreasing<T>(s: seq<T>, p: T -> bool, key: T -> int)
    requires Increasing(s, key)
    ensures Increasing(Filter(s, p), key)
  {
    if s != [] {
      var tail := s[1..];
      assert Increasing(tail, key);
      FilterKeepsIncreasing(tail, p, key);
      if p(s[0]) {
        var rest := Filter(tail, p);
        forall k | 0 <= k < |rest| ensures key(s[0]) < key(rest[k]) {
          assert rest[k] in tail;
          var m :| 0 <= m < |tail| && tail[m] == rest[k];
          assert s[m + 1] == rest[k];
        }
        ConsIncreasing(s[0], rest, key);
      }
    }
  }

  lemma {:induction false} FilterKeepsDistinct<T, K>(s: seq<T>, p: T -> bool, key: T -> K)
    requires DistinctBy(s, key)
    ensures DistinctBy(Filter(s, p), key)
  {
    if s != [] {
      var tail := s[1..];
      assert DistinctBy(tail, key);
      FilterKeepsDistinct(tail, p, key);
      if p(s[0]) {
        var rest := Filter(tail, p);
        forall k | 0 <= k < |rest| ensures key(s[0]) != key(rest[k]) {
          assert rest[k] in tail;
          var m :| 0 <= m < |tail| && tail[m] == rest[k];
          assert s[m + 1] == rest[k];
        }
        ConsDistinct(s[0], rest, key);
      }
    }
  }

  /** A table stays UNIQUE after appending rows whose keys are new and distinct. */
  lemma AppendKeepsDistinct<T, K>(a: seq<T>, b: seq<T>, key: T -> K)
    requires DistinctBy(a, key) && DistinctBy(b, key)
    requires forall x, y :: x in a && y in b ==> key(x) != key(y)
    ensures DistinctBy(a + b, key)
  {
    forall i, j | 0 <= i < j < |a + b| ensures key((a + b)[i]) != key((a + b)[j]) {
      if j < |a| {
      } else if i >= |a| {
        assert (a + b)[i] == b[i - |a|] && (a + b)[j] == b[j - |a|];
      } else {
        assert (a + b)[i] == a[i] && (a + b)[j] == b[j - |a|];
      }
    }
  }

  /** Appending rows whose keys exceed every existing key keeps the column increasing. */
  lemma AppendKeepsIncreasing<T>(a: seq<T>, b: seq<T>, key: T -> int)
    requires Increasing(a, key) && Increasing(b, key)
    requires forall x, y :: x in a && y in b ==> key(x) < key(y)
    ensures Increasing(a + b, key)
  {
    forall i, j | 0 <= i < j < |a + b| ensures key((a + b)[i]) < key((a + b)[j]) {
      if j < |a| {
      } else if i >= |a| {
        assert (a + b)[i] == b[i - |a|] && (a + b)[j] == b[j - |a|];
      } else {
        assert (a + b)[i] == a[i] && (a + b)[j] == b[j - |a|];
      }
    }
  }

  /** The first row of `s` that satisfies `p`: a lookup by a condition on the row. */
  function Find<T>(s: seq<T>, p: T -> bool): (r: Option<T>)
    ensures r.Some? ==> r.value in s && p(r.value)
    ensures r.None? ==> forall x | x in s :: !p(x)
  {
    if s == [] then None
    else if p(s[0]) then Some(s[0])
    else Find(s[1..], p)
  }

  /** A lookup whose condition at most one row meets returns that row. */
  lemma {:induction false} FindOnly<T>(s: seq<T>, p: T -> bool, x: T)
    requires x in s && p(x)
    requires forall y | y in s && p(y) :: y == x
    ensures Find(s, p) == Some(x)
  {
    if s[0] != x {
      assert x in s[1..];
      FindOnly(s[1..], p, x);
    }
  }

  /** In an increasing column, equal keys mean equal rows. */
  lemma IncreasingKeyDetermines<T>(s: seq<T>, key: T -> int, x: T, y: T)
    requires Increasing(s, key) && x in s && y in s && key(x) == key(y)
    ensures x == y
  {
    var i :| 0 <= i < |s| && s[i] == x;
    var j :| 0 <= j < |s| && s[j] == y;
    assert key(s[i]) == key(s[j]);
    assert i == j;
  }

  /** Under a UNIQUE constraint, equal keys mean equal rows. */
  lemma DistinctKeyDetermines<T, K>(s: seq<T>, key: T -> K, x: T, y: T)
    requires DistinctBy(s, key) && x in s && y in s && key(x) == key(y)
    ensures x == y
  {
    var i :| 0 <= i < |s| && s[i] == x;
    var j :| 0 <= j < |s| && s[j] == y;
    assert key(s[i]) == key(s[j]);
    assert i == j;
  }

  /** Appending a row whose key is new keeps the table UNIQUE. */
  lemma DistinctSnoc<T, K>(s: seq<T>, x: T, key: T -> K)
    requires DistinctBy(s, key)
    requires forall j | 0 <= j < |s| :: key(s[j]) != key(x)
    ensures DistinctBy(s + [x], key)
  {
    forall i, j | 0 <= i < j < |s + [x]| ensures key((s + [x])[i]) != key((s + [x])[j]) {
      if j == |s| {
        assert (s + [x])[i] == s[i] && (s + [x])[j] == x;
      } else {
        assert (s + [x])[i] == s[i] && (s + [x])[j] == s[j];
      }
    }
  }

  /** SELECT of an expression: `f` applied to every row, in table order. */
  function Map<T, U>(s: seq<T>, f: T -> U): (r: seq<U>)
    ensures |r| == |s|
    ensures forall i | 0 <= i < |s| :: r[i] == f(s[i])
  {
    if s == [] then [] else [f(s[0])] + Map(s[1..], f)
  }

  /** Every row contributes its image, and every image comes from a row. */
  lemma MapMembers<T, U>(s: seq<T>, f: T -> U)
    ensures forall x | x in s :: f(x) in Map(s, f)
    ensures forall y | y in Map(s, f) :: exists x | x in s :: y == f(x)
  {
    var r := Map(s, f);
    forall x | x in s ensures f(x) in r {
      var i :| 0 <= i < |s| && s[i] == x;
      assert r[i] == f(x);
    }
    forall y | y in r ensures exists x | x in s :: y == f(x) {
      var i :| 0 <= i < |r| && r[i] == y;
      assert s[i] in s;
    }
  }

  /** Selecting from a slice of the rows is slicing the selection. */
  lemma MapSlice<T, U>(s: seq<T>, f: T -> U, i: nat, j: nat)
    requires i <= j <= |s|
    ensures Map(s[i..j], f) == Map(s, f)[i..j]
  {
    var a := Map(s[i..j], f);
    var b := Map(s, f)[i..j];
    assert |a| == |b|;
    forall k | 0 <= k < |a| ensures a[k] == b[k] {
      assert s[i..j][k] == s[i + k];
    }
  }

  /**
   * An inner join seen from its left table: `f` finds the joined row of each
   * row, and rows without a partner are dropped. Order is kept.
   */
  function Collect<T, U>(s: seq<T>, f: T -> Option<U>): (r: seq<U>)
    ensures |r| <= |s|
    ensures forall t | t in s && f(t).Some? :: f(t).value in r
    ensures forall u | u in r :: exists t | t in s :: f(t) == Some(u)
  {
    if s == [] then []
    else
      var rest := Collect(s[1..], f);
      assert forall t | t in s[1..] && f(t).Some? :: f(t).value in rest;
      match f(s[0])
      case None => rest
      case Some(u) => [u] + rest
  }

  /** When every row has a partner, the join keeps every row in place. */
  lemma {:induction false} CollectAll<T, U>(s: seq<T>, f: T -> Option<U>)
    requires forall t | t in s :: f(t).Some?
    ensures |Collect(s, f)| == |s|
    ensures forall i | 0 <= i < |s| :: Some(Collect(s, f)[i]) == f(s[i])
  {
    if s != [] {
      CollectAll(s[1..], f);
      assert forall i | 1 <= i < |s| :: s[i] == s[1..][i - 1];
    }
  }

  /** A join that carries the key of its left row along keeps an increasing key increasing. */
  lemma {:induction false} CollectKeepsIncreasing<T, U>(s: seq<T>, f: T -> Option<U>, k1: T -> int, k2: U -> int)
    requires Increasing(s, k1)
    requires forall t | t in s && f(t).Some? :: k2(f(t).value) == k1(t)
    ensures Increasing(Collect(s, f), k2)
  {
    if s != [] {
      var rest := s[1..];
      assert Increasing(rest, k1);
      CollectKeepsIncreasing(rest, f, k1, k2);
      if f(s[0]).Some? {
        var c := Collect(rest, f);
        forall k | 0 <= k < |c| ensures k2(f(s[0]).value) < k2(c[k]) {
          var t :| t in rest && f(t) == Some(c[k]);
          var j :| 0 <= j < |rest| && rest[j] == t;
          assert s[j + 1] == t;
        }
        ConsIncreasing(f(s[0]).value, c, k2);
      }
    }
  }

  /** A join that carries the key of its left row along keeps a UNIQUE key unique. */
  lemma {:induction false} CollectKeepsDistinct<T, U, K>(s: seq<T>, f: T -> Option<U>, k1: T -> K, k2: U -> K)
    requires DistinctBy(s, k1)
    requires forall t | t in s && f(t).Some? :: k2(f(t).value) == k1(t)
    ensures DistinctBy(Collect(s, f), k2)
  {
    if s != [] {
      var rest := s[1..];
      assert DistinctBy(rest, k1);
      CollectKeepsDistinct(rest, f, k1, k2);
      if f(s[0]).Some? {
        var c := Collect(rest, f);
        forall k | 0 <= k < |c| ensures k2(f(s[0]).value) != k2(c[k]) {
          var t :| t in rest && f(t) == Some(c[k]);
          var j :| 0 <= j < |rest| && rest[j] == t;
          assert s[j + 1] == t;
        }
        ConsDistinct(f(s[0]).value, c, k2);
      }
    }
  }
}
