/**
 * The shape every listing endpoint shares: SELECT count(*) over the matching
 * rows next to ORDER BY ... LIMIT ... OFFSET over the same rows.
 */
module Paging {
  import opened Relational
  import opened Ordering

  /** One page of items, the offset it starts at and the number of matching rows. */
  datatype Paginated<T> = Paginated(items: seq<T>, offset: nat, totalNumItems: nat)

  /** The rows of a ranked sequence, without their keys. */
  function Rows<T>(s: seq<Ranked<T>>): seq<T>
  {
    Map(s, (x: Ranked<T>) => x.row)
  }

  /** The page of `ranked` in key order that starts at `offset` and holds at most `limit` rows. */
  function Paginate<T(==)>(ranked: seq<Ranked<T>>, offset: nat, limit: nat): (r: Paginated<T>)
    ensures r.totalNumItems == |ranked|
    ensures r.offset == offset
    ensures |r.items| <= limit
    ensures |r.items| == if offset >= |ranked| then 0 else Min(limit, |ranked| - offset)
    ensures r.items == Page(Rows(Sort(ranked)), offset, limit)
  {
    var sorted := Sort(ranked);
    if offset < |ranked| then
      RowsOfPage(sorted, offset, limit);
      Paginated(Rows(Page(sorted, offset, limit)), offset, |ranked|)
    else
      Paginated(Rows(Page(sorted, offset, limit)), offset, |ranked|)
  }

  /**
   * When the sort key is unique the ORDER BY is a total order: every sorted
   * arrangement of the rows yields the same page.
   */
  lemma PageIsDetermined<T>(ranked: seq<Ranked<T>>, arranged: seq<Ranked<T>>, offset: nat, limit: nat)
    requires DistinctKeys(ranked)
    requires Sorted(arranged) && multiset(arranged) == multiset(ranked)
    ensures Paginate(ranked, offset, limit).items == Rows(Page(arranged, offset, limit))
  {
    DistinctKeysPermutation(ranked, Sort(ranked));
    SortedUnique(Sort(ranked), arranged);
  }

  /** Every item on a page is the row of one of the ranked rows, and sits there under that row's key. */
  lemma PageRowsAreRanked<T>(ranked: seq<Ranked<T>>, offset: nat, limit: nat)
    ensures forall x | x in Paginate(ranked, offset, limit).items :: exists y | y in ranked :: y.row == x
  {
    var sorted := Sort(ranked);
    var all := Rows(sorted);
    MapMembers(sorted, (y: Ranked<T>) => y.row);
    forall x | x in Paginate(ranked, offset, limit).items ensures exists y | y in ranked :: y.row == x {
      assert x in all;
      var y :| y in sorted && x == y.row;
      assert y in multiset(sorted);
    }
  }

  /** A page as large as the listing, from the start, holds exactly the rows of the ranked rows. */
  lemma PageOfEverything<T>(ranked: seq<Ranked<T>>, limit: nat)
    requires limit >= |ranked|
    ensures forall x | x in Paginate(ranked, 0, limit).items :: exists y | y in ranked :: y.row == x
    ensures forall y | y in ranked :: y.row in Paginate(ranked, 0, limit).items
  {
    var sorted := Sort(ranked);
    var all := Rows(sorted);
    assert all[0..|all|] == all;
    assert Paginate(ranked, 0, limit).items == all;
    MapMembers(sorted, (y: Ranked<T>) => y.row);
    forall x | x in all ensures exists y | y in ranked :: y.row == x {
      var y :| y in sorted && x == y.row;
      assert y in multiset(sorted);
      assert y in ranked;
    }
    forall y | y in ranked ensures y.row in all {
      assert y in multiset(ranked);
      assert y in sorted;
    }
  }

  /**
   * A listing of the rows of `s` that satisfy `p`, on a page as large as the
   * listing from the start, holds exactly the rows of those rows.
   */
  lemma ListsExactlySelected<T, U>(s: seq<T>, p: T -> bool, rank: T -> Ranked<U>, limit: nat)
    requires limit >= Count(s, p)
    ensures forall x | x in Paginate(Map(Filter(s, p), rank), 0, limit).items :: exists t | t in s && p(t) :: rank(t).row == x
    ensures forall t | t in s && p(t) :: rank(t).row in Paginate(Map(Filter(s, p), rank), 0, limit).items
  {
    var selected := Filter(s, p);
    var ranked := Map(selected, rank);
    var items := Paginate(ranked, 0, limit).items;
    PageOfEverything(ranked, limit);
    MapMembers(selected, rank);
    forall x | x in items ensures exists t | t in s && p(t) :: rank(t).row == x {
      var y :| y in ranked && y.row == x;
      var t :| t in selected && y == rank(t);
    }
    forall t | t in s && p(t) ensures rank(t).row in items {
      assert t in selected;
      assert rank(t) in ranked;
    }
  }

  /** Items on a page stand in key order, for a key computed from the row. */
  lemma PageInKeyOrder<T>(ranked: seq<Ranked<T>>, offset: nat, limit: nat, keyOf: T -> Key)
    requires forall y | y in ranked :: y.key == keyOf(y.row)
    ensures forall i, j | 0 <= i < j < |Paginate(ranked, offset, limit).items| ::
              KeyLeq(keyOf(Paginate(ranked, offset, limit).items[i]), keyOf(Paginate(ranked, offset, limit).items[j]))
  {
    var sorted := Sort(ranked);
    var all := Rows(sorted);
    var items := Paginate(ranked, offset, limit).items;
    assert items == Page(all, offset, limit);
    forall i, j | 0 <= i < j < |items| ensures KeyLeq(keyOf(items[i]), keyOf(items[j])) {
      var a, b := sorted[offset + i], sorted[offset + j];
      assert items[i] == all[offset + i] == a.row;
      assert items[j] == all[offset + j] == b.row;
      assert a in multiset(ranked) && b in multiset(ranked);
      assert KeyLeq(a.key, b.key);
    }
  }

  /** Rows that already stand in key order are returned in that order. */
  lemma SortKeepsSorted<T>(ranked: seq<Ranked<T>>)
    requires Sorted(ranked) && DistinctKeys(ranked)
    ensures Sort(ranked) == ranked
  {
    DistinctKeysPermutation(ranked, Sort(ranked));
    SortedUnique(Sort(ranked), ranked);
  }

  /** Keys that differ only in the first tie-breaker, which increases along the rows, are already in order. */
  lemma TieOrderSorted<T>(ranked: seq<Ranked<T>>)
    requires forall i | 0 <= i < |ranked| :: ranked[i].key.primary == 0 && ranked[i].key.name == [] && ranked[i].key.tie2 == 0
    requires forall i, j | 0 <= i < j < |ranked| :: ranked[i].key.tie1 < ranked[j].key.tie1
    ensures Sorted(ranked) && DistinctKeys(ranked)
  {
  }

  /** Ranking rows whose first tie-breaker is an increasing column gives distinct keys. */
  lemma RankByIncreasing<T, U>(s: seq<T>, k: T -> int, rank: T -> Ranked<U>)
    requires Increasing(s, k)
    requires forall x | x in s :: rank(x).key.tie1 == k(x)
    ensures DistinctKeys(Map(s, rank))
  {
    var m := Map(s, rank);
    forall i, j | 0 <= i < j < |m| ensures m[i].key != m[j].key {
      assert m[i] == rank(s[i]) && m[j] == rank(s[j]);
      assert k(s[i]) < k(s[j]);
    }
  }

  /** Ranking rows whose two tie-breakers form a unique key gives distinct keys. */
  lemma RankByUnique<T, U>(s: seq<T>, k: T -> (int, int), rank: T -> Ranked<U>)
    requires DistinctBy(s, k)
    requires forall x | x in s :: (rank(x).key.tie1, rank(x).key.tie2) == k(x)
    ensures DistinctKeys(Map(s, rank))
  {
    var m := Map(s, rank);
    forall i, j | 0 <= i < j < |m| ensures m[i].key != m[j].key {
      assert m[i] == rank(s[i]) && m[j] == rank(s[j]);
      assert k(s[i]) != k(s[j]);
    }
  }

  /** Taking a page and then dropping the keys is dropping the keys and then taking the slice. */
  lemma RowsOfPage<T>(s: seq<Ranked<T>>, offset: nat, limit: nat)
    requires offset < |s|
    ensures Rows(Page(s, offset, limit)) == Page(Rows(s), offset, limit)
  {
    MapSlice(s, (x: Ranked<T>) => x.row, offset, offset + Min(limit, |s| - offset));
  }

  /** The pages of `rows` from `offset` on, one page of `limit` rows after the other. */
  function PagesFrom<T>(rows: seq<T>, offset: nat, limit: nat): seq<T>
    requires limit > 0
    decreases |rows| - offset
  {
    if offset >= |rows| then []
    else Page(rows, offset, limit) + PagesFrom(rows, offset + limit, limit)
  }

  /** Reading page after page from `offset` on yields the rows from `offset` on, each once and in order. */
  lemma {:induction false} PagesCover<T>(rows: seq<T>, offset: nat, limit: nat)
    requires limit > 0 && offset <= |rows|
    ensures PagesFrom(rows, offset, limit) == rows[offset..]
    decreases |rows| - offset
  {
    if offset < |rows| {
      if offset + limit <= |rows| {
        assert Page(rows, offset, limit) == rows[offset..offset + limit];
        PagesCover(rows, offset + limit, limit);
        assert rows[offset..] == rows[offset..offset + limit] + rows[offset + limit..];
      } else {
        assert Page(rows, offset, limit) == rows[offset..];
      }
    }
  }

  /**
   * Paging through a listing with any page size visits every matching row
   * exactly once and in key order, so the page sizes add up to the total.
   */
  lemma PagingVisitsEveryRow<T>(ranked: seq<Ranked<T>>, limit: nat)
    requires limit > 0
    ensures PagesFrom(Rows(Sort(ranked)), 0, limit) == Rows(Sort(ranked))
    ensures |PagesFrom(Rows(Sort(ranked)), 0, limit)| == Paginate(ranked, 0, limit).totalNumItems
  {
    var all := Rows(Sort(ranked));
    PagesCover(all, 0, limit);
    assert all[0..] == all;
  }
}
