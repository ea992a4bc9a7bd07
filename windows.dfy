/** The sales a report reads: the caller's sales, in store order, whose
    saleDate lies in a period's window, and facts about nested windows. */
module Windows {
  import opened Common
  import opened Sums
  import opened Schemas
  import opened Grouping
  import opened Periods
  import Sales

  /** `find({ where: { userId } })` followed by
      `filter(sale => sale.saleDate >= start && sale.saleDate <= end)`. */
  function InWindow(sales: seq<Sale>, userId: string, r: Range): (w: seq<Sale>)
    ensures forall s :: s in w <==> s in sales && s.userId == userId && r.start <= s.saleDate.time <= r.end
    ensures |w| <= |sales|
  {
    Sales.Matching(sales, userId, Some(r.start), Some(r.end))
  }

  /** Widening a window (an earlier or equal start, a later or equal end)
      never loses a sale: the count cannot drop, nor can the revenue while
      totals are not negative. */
  lemma {:induction false} WiderWindow(sales: seq<Sale>, userId: string, a: Range, b: Range)
    requires b.start <= a.start && a.end <= b.end
    ensures |InWindow(sales, userId, a)| <= |InWindow(sales, userId, b)|
    ensures (forall s | s in sales :: s.total >= 0.0) ==>
      SumMap(InWindow(sales, userId, a), TotalOf) <= SumMap(InWindow(sales, userId, b), TotalOf)
  {
    if sales != [] {
      var init, x := sales[..|sales| - 1], sales[|sales| - 1];
      assert sales == init + [x];
      WiderWindow(init, userId, a, b);
      var wa, wb := InWindow(init, userId, a), InWindow(init, userId, b);
      var ea := if x.userId == userId && a.start <= x.saleDate.time <= a.end then [x] else [];
      var eb := if x.userId == userId && b.start <= x.saleDate.time <= b.end then [x] else [];
      assert InWindow(sales, userId, a) == wa + ea;
      assert InWindow(sales, userId, b) == wb + eb;
      SumMapAppend(wa, ea, TotalOf);
      SumMapAppend(wb, eb, TotalOf);
      assert [x][..0] == [];
    }
  }

  /** Appending keeps sale ids distinct exactly when the new id is new. */
  lemma IdsDistinctSnoc(s: seq<Sale>, x: Sale)
    ensures Sales.IdsDistinct(s + [x]) <==> Sales.IdsDistinct(s) && forall y | y in s :: y.id != x.id
  {
    var t := s + [x];
    if Sales.IdsDistinct(t) {
      forall y | y in s
        ensures y.id != x.id
      {
        var i :| 0 <= i < |s| && s[i] == y;
        assert t[i] == y && t[|s|] == x;
      }
      forall a, b | 0 <= a < b < |s|
        ensures s[a].id != s[b].id
      {
        assert t[a] == s[a] && t[b] == s[b];
      }
    }
    if Sales.IdsDistinct(s) && forall y | y in s :: y.id != x.id {
      forall a, b | 0 <= a < b < |t|
        ensures t[a].id != t[b].id
      {
        if b == |s| {
          assert t[a] in s;
        }
      }
    }
  }

  /** Filtering keeps sale ids distinct. */
  lemma {:induction false} WindowIdsDistinct(sales: seq<Sale>, userId: string, r: Range)
    requires Sales.IdsDistinct(sales)
    ensures Sales.IdsDistinct(InWindow(sales, userId, r))
  {
    if sales != [] {
      var init, x := sales[..|sales| - 1], sales[|sales| - 1];
      assert sales == init + [x];
      IdsDistinctSnoc(init, x);
      WindowIdsDistinct(init, userId, r);
      IdsDistinctSnoc(InWindow(init, userId, r), x);
    }
  }

  lemma {:induction false} GroupIdsDistinct<K>(s: seq<Sale>, key: Sale -> K, k: K)
    requires Sales.IdsDistinct(s)
    ensures Sales.IdsDistinct(Group(s, key, k))
  {
    if s != [] {
      var init, x := s[..|s| - 1], s[|s| - 1];
      assert s == init + [x];
      IdsDistinctSnoc(init, x);
      GroupIdsDistinct(init, key, k);
      IdsDistinctSnoc(Group(init, key, k), x);
    }
  }
}
