/** getTopProducts: the in-window sales grouped per product (left-joined to
    the products table for sku, category and cost), ranked by revenue, cut
    to the limit, then turned into rows with a profit figure. */
module TopProducts {
  import opened Common
  import opened Sums
  import opened Sorting
  import opened Schemas
  import opened Grouping
  import opened Periods
  import opened Windows

  /** The GROUP BY columns: the sale's product id and name and the joined
      product's sku, category and cost, which are all null when the join
      finds no product. */
  datatype TopKey = TopKey(productId: string, productName: string, sku: Option<string>,
                           category: Option<string>, cost: Option<real>)

  /** `leftJoin('sale.product', 'product')`: the join is on the product id
      alone, whoever owns the product. */
  function JoinKey(table: map<string, Product>): Sale -> TopKey
  {
    (s: Sale) =>
      if s.productId in table then
        var p := table[s.productId];
        TopKey(s.productId, s.productName, Some(p.sku), Some(p.category), Some(p.cost))
      else TopKey(s.productId, s.productName, None, None, None)
  }

  /** What the query groups by in effect: the product id and the name the
      sale recorded. */
  function NameKey(s: Sale): (string, string)
  {
    (s.productId, s.productName)
  }

  /** One raw row: the key with `SUM(sale.quantity)`, `SUM(sale.total)` and
      `COUNT(*)` over its group. */
  datatype RawRow = RawRow(key: TopKey, totalQuantity: real, revenue: real, salesCount: nat)

  function RawOf(k: TopKey, g: seq<Sale>): RawRow
  {
    RawRow(k, SumMap(g, QuantityOf), SumMap(g, TotalOf), |g|)
  }

  /** The grouped rows before ORDER BY, one per key in first-seen order. */
  function RawRows(w: seq<Sale>, table: map<string, Product>): seq<RawRow>
  {
    var key := JoinKey(table);
    var keys := KeysSeen(w, key);
    seq(|keys|, j requires 0 <= j < |keys| => RawOf(keys[j], Group(w, key, keys[j])))
  }

  function Revenue(r: RawRow): real
  {
    r.revenue
  }

  /** `ORDER BY revenue DESC` then `LIMIT`; a limit of 0 is omitted from the
      query, so it keeps every row. */
  function Ranked(raw: seq<RawRow>, limit: nat): (r: seq<RawRow>)
    ensures SortedDesc(r, Revenue)
    ensures |r| == if 0 < limit < |raw| then limit else |raw|
    ensures multiset(r) <= multiset(raw)
  {
    var sorted := SortDesc(raw, Revenue);
    if limit == 0 then sorted
    else
      var r := Take(sorted, limit);
      assert sorted == r + sorted[|r|..];
      assert multiset(sorted) == multiset(r) + multiset(sorted[|r|..]);
      r
  }

  /** The rows cut off by the limit earn no more than any row kept. */
  lemma RankedIsTop(raw: seq<RawRow>, limit: nat)
    ensures var r := Ranked(raw, limit);
      forall x, y | x in r && y in multiset(raw) - multiset(r) :: x.revenue >= y.revenue
  {
    var sorted := SortDesc(raw, Revenue);
    var r := Ranked(raw, limit);
    assert r == sorted[..|r|];
    CutMultiset(sorted, |r|);
    PrefixOutranks(sorted, |r|);
  }

  /** In a sorted sequence every row before a cut outranks every row after it. */
  lemma PrefixOutranks(sorted: seq<RawRow>, n: nat)
    requires SortedDesc(sorted, Revenue) && n <= |sorted|
    ensures forall x, y | x in sorted[..n] && y in multiset(sorted[n..]) :: x.revenue >= y.revenue
  {
    forall x, y | x in sorted[..n] && y in multiset(sorted[n..])
      ensures x.revenue >= y.revenue
    {
      var i :| 0 <= i < n && sorted[i] == x;
      var j :| n <= j < |sorted| && sorted[j] == y;
      assert Revenue(sorted[i]) >= Revenue(sorted[j]);
    }
  }

  /** One result row. */
  datatype TopProduct = TopProduct(productId: string, productName: string, sku: Option<string>,
                                   category: Option<string>, totalQuantity: real, revenue: real,
                                   profit: real, salesCount: nat, stockTurnover: real)

  /** `Number(product.cost)`: a missing product's null cost reads as 0. */
  function CostOf(k: TopKey): real
  {
    if k.cost.Some? then k.cost.value else 0.0
  }

  /** The `map` over the raw rows. */
  function ToTopProduct(r: RawRow): TopProduct
  {
    var cost := CostOf(r.key) * r.totalQuantity;
    TopProduct(r.key.productId, r.key.productName, r.key.sku, r.key.category,
               r.totalQuantity, r.revenue, r.revenue - cost, r.salesCount, 0.0)
  }

  function TopProductsOf(sales: seq<Sale>, table: map<string, Product>, userId: string, p: Period,
                         now: Calendar.DateTime, limit: nat): seq<TopProduct>
  {
    var ranked := Ranked(RawRows(InWindow(sales, userId, DateRange(now, p)), table), limit);
    seq(|ranked|, i requires 0 <= i < |ranked| => ToTopProduct(ranked[i]))
  }

  function TopRevenue(t: TopProduct): real
  {
    t.revenue
  }

  function TopCount(t: TopProduct): real
  {
    t.salesCount as real
  }

  /** At most limit rows (any number for a limit of 0), never more than the
      window's distinct products, in non-increasing order of revenue. */
  lemma TopProductsOrder(sales: seq<Sale>, table: map<string, Product>, userId: string, p: Period,
                         now: Calendar.DateTime, limit: nat)
    ensures var r := TopProductsOf(sales, table, userId, p, now, limit);
      && (limit > 0 ==> |r| <= limit)
      && |r| <= |InWindow(sales, userId, DateRange(now, p))|
      && forall i, j | 0 <= i < j < |r| :: r[i].revenue >= r[j].revenue
  {
    var w := InWindow(sales, userId, DateRange(now, p));
    var ranked := Ranked(RawRows(w, table), limit);
    var r := TopProductsOf(sales, table, userId, p, now, limit);
    forall i, j | 0 <= i < j < |r|
      ensures r[i].revenue >= r[j].revenue
    {
      assert Revenue(ranked[i]) >= Revenue(ranked[j]);
    }
  }

  /** A raw row is its key's group, and that group is exactly the window's
      sales of one product id under one recorded name; the joined columns
      are the product's when the table has it, and null otherwise. */
  lemma RawRowIsProductSales(w: seq<Sale>, table: map<string, Product>, rr: RawRow)
    requires rr in RawRows(w, table)
    ensures var g := Group(w, NameKey, (rr.key.productId, rr.key.productName));
      && rr.revenue == SumMap(g, TotalOf) && rr.totalQuantity == SumMap(g, QuantityOf)
      && rr.salesCount == |g| >= 1
    ensures var k := rr.key;
      && (k.productId in table ==>
            var q := table[k.productId];
            k.sku == Some(q.sku) && k.category == Some(q.category) && k.cost == Some(q.cost))
      && (k.productId !in table ==> k.sku.None? && k.category.None? && k.cost.None?)
  {
    var key := JoinKey(table);
    var keys := KeysSeen(w, key);
    var raw := RawRows(w, table);
    var j :| 0 <= j < |raw| && raw[j] == rr;
    var k := keys[j];
    GroupNonEmpty(w, key, k);
    var g := Group(w, key, k);
    var x := g[0];
    assert x in g;
    assert k == key(x);
    forall s | s in w
      ensures key(s) == k <==> NameKey(s) == (k.productId, k.productName)
    {
    }
    GroupSameRecords(w, key, k, NameKey, (k.productId, k.productName));
  }

  /** What a result row says about the window: revenue, quantity and count
      are the sums over one product's in-window sales under one recorded
      name; sku, category and the cost behind the profit come from the
      product when the join finds it, and are null, null and 0 when it does
      not; stockTurnover is always 0. */
  predicate Describes(w: seq<Sale>, table: map<string, Product>, t: TopProduct)
  {
    var g := Group(w, NameKey, (t.productId, t.productName));
    && t.revenue == SumMap(g, TotalOf) && t.totalQuantity == SumMap(g, QuantityOf)
    && t.salesCount == |g| >= 1
    && t.stockTurnover == 0.0
    && (t.productId in table ==>
          var q := table[t.productId];
          t.sku == Some(q.sku) && t.category == Some(q.category)
          && t.profit == t.revenue - q.cost * t.totalQuantity)
    && (t.productId !in table ==> t.sku.None? && t.category.None? && t.profit == t.revenue)
  }

  lemma RowFromRaw(w: seq<Sale>, table: map<string, Product>, rr: RawRow)
    requires rr in RawRows(w, table)
    ensures Describes(w, table, ToTopProduct(rr))
  {
    RawRowIsProductSales(w, table, rr);
  }

  /** Every result row describes one product's in-window sales. */
  lemma TopProductRow(sales: seq<Sale>, table: map<string, Product>, userId: string, p: Period,
                      now: Calendar.DateTime, limit: nat, i: int)
    requires 0 <= i < |TopProductsOf(sales, table, userId, p, now, limit)|
    ensures Describes(InWindow(sales, userId, DateRange(now, p)), table, TopProductsOf(sales, table, userId, p, now, limit)[i])
  {
    var w := InWindow(sales, userId, DateRange(now, p));
    var raw := RawRows(w, table);
    var ranked := Ranked(raw, limit);
    var rr := ranked[i];
    assert rr in multiset(raw);
    RowFromRaw(w, table, rr);
  }

  /** When the limit cuts nothing, the rows account for the whole window:
      their revenues add up to its revenue and their counts to its sales. */
  lemma TopProductsConserve(sales: seq<Sale>, table: map<string, Product>, userId: string, p: Period,
                            now: Calendar.DateTime, limit: nat)
    requires var w := InWindow(sales, userId, DateRange(now, p));
      limit == 0 || |KeysSeen(w, JoinKey(table))| <= limit
    ensures var w := InWindow(sales, userId, DateRange(now, p));
      var r := TopProductsOf(sales, table, userId, p, now, limit);
      SumMap(r, TopRevenue) == SumMap(w, TotalOf) && SumMap(r, TopCount) == |w| as real
  {
    var w := InWindow(sales, userId, DateRange(now, p));
    var key := JoinKey(table);
    var keys := KeysSeen(w, key);
    var raw := RawRows(w, table);
    var ranked := Ranked(raw, limit);
    var r := TopProductsOf(sales, table, userId, p, now, limit);
    assert multiset(ranked) == multiset(raw) by {
      assert |multiset(ranked)| == |multiset(raw)|;
      MultisetSubEq(multiset(ranked), multiset(raw));
    }
    SumMapPointwise(r, ranked, TopRevenue, Revenue);
    SumMapPerm(ranked, raw, Revenue);
    RowsConserve(w, key, keys, raw, Revenue, TotalOf);
    forall j | 0 <= j < |raw|
      ensures RawCount(raw[j]) == GroupSum(w, key, One)(keys[j])
    {
      SumOfOnes(Group(w, key, keys[j]));
    }
    SumMapPointwise(r, ranked, TopCount, RawCount);
    SumMapPerm(ranked, raw, RawCount);
    RowsConserve(w, key, keys, raw, RawCount, One);
    SumOfOnes(w);
  }

  function RawCount(r: RawRow): real
  {
    r.salesCount as real
  }

  lemma MultisetSubEq<T>(a: multiset<T>, b: multiset<T>)
    requires a <= b && |a| == |b|
    ensures a == b
  {
    var d := b - a;
    assert b == a + d;
    assert |d| == 0;
  }
}
