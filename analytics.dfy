/** getSalesAnalytics: the in-window sales grouped into one bucket per
    period label, each with its revenue, quantity, order count, average order
    value and number of distinct customers. */
module Analytics {
  import opened Common
  import opened Text
  import opened Sums
  import opened Schemas
  import opened Grouping
  import opened Periods
  import opened Windows
  import Sales

  const AnonymousPrefix: string := "anonymous_"

  /** A sale names its customer when the customer text is present and not
      empty (JavaScript truthiness). */
  predicate Named(s: Sale)
  {
    s.customer.Some? && s.customer.value != ""
  }

  /** What the bucket's customer set receives for a sale: the name, or
      `anonymous_<sale id>` so that every anonymous sale counts once. */
  function CustomerToken(s: Sale): string
  {
    if Named(s) then s.customer.value else AnonymousPrefix + s.id
  }

  function Tokens(g: seq<Sale>): (r: set<string>)
    ensures |r| <= |g|
    ensures g != [] ==> 1 <= |r|
  {
    if g == [] then {}
    else
      var init := Tokens(g[..|g| - 1]);
      var t := CustomerToken(g[|g| - 1]);
      assert t in init ==> init + {t} == init;
      init + {t}
  }

  function NamedCustomers(g: seq<Sale>): set<string>
  {
    if g == [] then {}
    else
      var x := g[|g| - 1];
      NamedCustomers(g[..|g| - 1]) + (if Named(x) then {x.customer.value} else {})
  }

  function AnonymousCount(g: seq<Sale>): nat
  {
    if g == [] then 0
    else AnonymousCount(g[..|g| - 1]) + (if Named(g[|g| - 1]) then 0 else 1)
  }

  function AnonymousTokens(g: seq<Sale>): set<string>
  {
    if g == [] then {}
    else
      var x := g[|g| - 1];
      AnonymousTokens(g[..|g| - 1]) + (if Named(x) then {} else {AnonymousPrefix + x.id})
  }

  /** Every anonymous token is the prefix followed by the id of an anonymous sale. */
  lemma {:induction false} AnonymousTokensFrom(g: seq<Sale>, t: string)
    requires t in AnonymousTokens(g)
    ensures exists s | s in g :: t == AnonymousPrefix + s.id
  {
    var init, x := g[..|g| - 1], g[|g| - 1];
    assert g == init + [x];
    if t in AnonymousTokens(init) {
      AnonymousTokensFrom(init, t);
      var s :| s in init && t == AnonymousPrefix + s.id;
      assert s in g;
    }
  }

  /** With distinct sale ids every anonymous sale adds its own token. */
  lemma {:induction false} AnonymousTokensCount(g: seq<Sale>)
    requires Sales.IdsDistinct(g)
    ensures |AnonymousTokens(g)| == AnonymousCount(g)
    ensures forall t | t in AnonymousTokens(g) :: IsPrefix(AnonymousPrefix, t)
  {
    if g != [] {
      var init, x := g[..|g| - 1], g[|g| - 1];
      assert g == init + [x];
      IdsDistinctSnoc(init, x);
      AnonymousTokensCount(init);
      var t := AnonymousPrefix + x.id;
      assert (AnonymousPrefix + x.id)[..|AnonymousPrefix|] == AnonymousPrefix;
      if !Named(x) && t in AnonymousTokens(init) {
        AnonymousTokensFrom(init, t);
      }
    }
  }

  lemma {:induction false} TokensSplit(g: seq<Sale>)
    ensures Tokens(g) == NamedCustomers(g) + AnonymousTokens(g)
  {
    if g != [] {
      TokensSplit(g[..|g| - 1]);
    }
  }

  /** uniqueCustomers counts each distinct customer name once and each
      anonymous sale once, provided sale ids are distinct and no customer is
      literally called `anonymous_…`. */
  lemma UniqueCustomersCount(g: seq<Sale>)
    requires Sales.IdsDistinct(g)
    requires forall s | s in g && Named(s) :: !IsPrefix(AnonymousPrefix, s.customer.value)
    ensures |Tokens(g)| == |NamedCustomers(g)| + AnonymousCount(g)
  {
    TokensSplit(g);
    AnonymousTokensCount(g);
    NamedNotPrefixed(g);
    assert NamedCustomers(g) * AnonymousTokens(g) == {};
  }

  lemma {:induction false} NamedNotPrefixed(g: seq<Sale>)
    requires forall s | s in g && Named(s) :: !IsPrefix(AnonymousPrefix, s.customer.value)
    ensures forall c | c in NamedCustomers(g) :: !IsPrefix(AnonymousPrefix, c)
  {
    if g != [] {
      var init := g[..|g| - 1];
      assert g == init + [g[|g| - 1]];
      NamedNotPrefixed(init);
    }
  }

  /** One dictionary entry while the loop runs. */
  datatype Acc = Acc(totalSales: real, totalQuantity: real, salesCount: nat, customers: set<string>)

  /** The entry the loop has built for a group of sales. */
  function AccOf(g: seq<Sale>): Acc
  {
    Acc(SumMap(g, TotalOf), SumMap(g, QuantityOf), |g|, Tokens(g))
  }

  /** One row of the result. */
  datatype Bucket = Bucket(date: BucketKey, totalSales: real, totalQuantity: real, salesCount: nat,
                           avgOrderValue: real, uniqueCustomers: nat)

  /** The `map` after `Object.values`: the average is revenue per order, and
      0 for an entry without orders. */
  function Finish(k: BucketKey, a: Acc): (b: Bucket)
    ensures b.date == k && b.totalSales == a.totalSales && b.totalQuantity == a.totalQuantity
    ensures b.salesCount == a.salesCount && b.uniqueCustomers == |a.customers|
    ensures b.salesCount > 0 ==> b.avgOrderValue * (b.salesCount as real) == b.totalSales
    ensures b.salesCount == 0 ==> b.avgOrderValue == 0.0
  {
    Bucket(k, a.totalSales, a.totalQuantity, a.salesCount,
           if a.salesCount > 0 then a.totalSales / (a.salesCount as real) else 0.0,
           |a.customers|)
  }

  function PeriodKey(p: Period): Sale -> BucketKey
  {
    (s: Sale) => BucketOf(p, s.saleDate)
  }

  function BucketKeys(w: seq<Sale>, p: Period): seq<BucketKey>
  {
    ObjectOrder(KeysSeen(w, PeriodKey(p)), BucketIndex)
  }

  /** Every label appears once among the keys, and there are no more labels
      than sales. */
  lemma BucketKeysDistinct(w: seq<Sale>, p: Period)
    ensures var keys := BucketKeys(w, p);
      |keys| <= |w| && forall i, j | 0 <= i < j < |keys| :: keys[i] != keys[j]
  {
    var keys := BucketKeys(w, p);
    KeysSeenDistinct(w, PeriodKey(p));
    DistinctPerm(KeysSeen(w, PeriodKey(p)), keys);
    forall i, j | 0 <= i < j < |keys|
      ensures keys[i] != keys[j]
    {
      DistinctIndices(keys, i, j);
    }
  }

  /** The analytics of a window's sales: one bucket per distinct label, in
      `Object.values` order, each summarising exactly the sales with that label. */
  function BucketsOf(w: seq<Sale>, p: Period): (r: seq<Bucket>)
    ensures |r| == |BucketKeys(w, p)| <= |w|
    ensures forall j | 0 <= j < |r| :: r[j] == Finish(BucketKeys(w, p)[j], AccOf(Group(w, PeriodKey(p), BucketKeys(w, p)[j])))
    ensures forall i, j | 0 <= i < j < |r| :: r[i].date != r[j].date
  {
    var keys := BucketKeys(w, p);
    BucketKeysDistinct(w, p);
    seq(|keys|, j requires 0 <= j < |keys| => Finish(keys[j], AccOf(Group(w, PeriodKey(p), keys[j]))))
  }

  function SalesAnalytics(sales: seq<Sale>, userId: string, p: Period, now: Calendar.DateTime): seq<Bucket>
  {
    BucketsOf(InWindow(sales, userId, DateRange(now, p)), p)
  }

  function BucketTotal(b: Bucket): real
  {
    b.totalSales
  }

  function BucketQuantity(b: Bucket): real
  {
    b.totalQuantity
  }

  function BucketCount(b: Bucket): real
  {
    b.salesCount as real
  }

  function BucketCustomers(b: Bucket): real
  {
    b.uniqueCustomers as real
  }

  /** Summing the buckets gives back the window: total revenue, total
      quantity and the number of sales. */
  lemma BucketsConserve(w: seq<Sale>, p: Period)
    ensures var r := BucketsOf(w, p);
      && SumMap(r, BucketTotal) == SumMap(w, TotalOf)
      && SumMap(r, BucketQuantity) == SumMap(w, QuantityOf)
      && SumMap(r, BucketCount) == |w| as real
  {
    var r, keys, key := BucketsOf(w, p), BucketKeys(w, p), PeriodKey(p);
    RowsConserve(w, key, keys, r, BucketTotal, TotalOf);
    RowsConserve(w, key, keys, r, BucketQuantity, QuantityOf);
    forall j | 0 <= j < |r|
      ensures BucketCount(r[j]) == GroupSum(w, key, One)(keys[j])
    {
      SumOfOnes(Group(w, key, keys[j]));
    }
    RowsConserve(w, key, keys, r, BucketCount, One);
    SumOfOnes(w);
  }

  /** Every bucket holds at least one sale and has between 1 and
      salesCount customers. */
  lemma BucketShape(w: seq<Sale>, p: Period)
    ensures forall b | b in BucketsOf(w, p) :: 1 <= b.uniqueCustomers <= b.salesCount
  {
    var r, keys, key := BucketsOf(w, p), BucketKeys(w, p), PeriodKey(p);
    forall b | b in r
      ensures 1 <= b.uniqueCustomers <= b.salesCount
    {
      var j :| 0 <= j < |r| && r[j] == b;
      var g := Group(w, key, keys[j]);
      assert b == Finish(keys[j], AccOf(g));
      assert keys[j] in multiset(KeysSeen(w, key));
      GroupNonEmpty(w, key, keys[j]);
      FinishedGroup(keys[j], g);
    }
  }

  /** The bucket of a non-empty group has between 1 and salesCount
      customers. */
  lemma FinishedGroup(k: BucketKey, g: seq<Sale>)
    requires g != []
    ensures var b := Finish(k, AccOf(g));
      1 <= b.uniqueCustomers <= b.salesCount
  {
  }

  /** With distinct sale ids and no customer named like a token, a bucket's
      uniqueCustomers is its distinct customer names plus its anonymous sales. */
  lemma BucketCustomersCount(w: seq<Sale>, p: Period, j: int)
    requires Sales.IdsDistinct(w)
    requires forall s | s in w && Named(s) :: !IsPrefix(AnonymousPrefix, s.customer.value)
    requires 0 <= j < |BucketsOf(w, p)|
    ensures var g := Group(w, PeriodKey(p), BucketKeys(w, p)[j]);
      BucketsOf(w, p)[j].uniqueCustomers == |NamedCustomers(g)| + AnonymousCount(g)
  {
    var g := Group(w, PeriodKey(p), BucketKeys(w, p)[j]);
    GroupIdsDistinct(w, PeriodKey(p), BucketKeys(w, p)[j]);
    UniqueCustomersCount(g);
  }

  /** An entry before its first sale: `{ totalSales: 0, ..., customers: new Set() }`. */
  const NoSales := Acc(0.0, 0.0, 0, {})

  /** The entry after one more sale of its label. */
  function AddSale(a: Acc, x: Sale): Acc
  {
    Acc(a.totalSales + x.total, a.totalQuantity + x.quantity, a.salesCount + 1, a.customers + {CustomerToken(x)})
  }

  /** One more sale in a group adds its total, quantity, one order and its token. */
  lemma AccSnoc(g: seq<Sale>, x: Sale)
    ensures AccOf(g + [x]) == AddSale(AccOf(g), x)
  {
    assert (g + [x])[..|g|] == g;
  }

  /** The entry the loop builds for a group is the one AccOf describes. */
  lemma {:induction false} AccFold(g: seq<Sale>)
    ensures Fold(g, NoSales, AddSale) == AccOf(g)
  {
    if g != [] {
      var init := g[..|g| - 1];
      assert g == init + [g[|g| - 1]];
      AccFold(init);
      AccSnoc(init, g[|g| - 1]);
    }
  }

  /** getSalesAnalytics: the window, the `forEach` that fills the dictionary,
      then `Object.values(...).map(...)`. The result is exactly the analytics
      of the caller's in-window sales. */
  method GetSalesAnalytics(sales: seq<Sale>, userId: string, p: Period, now: Calendar.DateTime)
    returns (result: seq<Bucket>)
    ensures result == SalesAnalytics(sales, userId, p, now)
  {
    var w := InWindow(sales, userId, DateRange(now, p));
    var grouped, order := GroupInto(w, PeriodKey(p), NoSales, AddSale);
    var keys := ObjectOrder(order, BucketIndex);
    ReorderedKeysPresent(order, keys, grouped);
    result := FinishEntries(keys, grouped, Finish);
    forall m | 0 <= m < |keys|
      ensures result[m] == Finish(keys[m], AccOf(Group(w, PeriodKey(p), keys[m])))
    {
      GroupedEntry(w, PeriodKey(p), NoSales, AddSale, keys[m]);
      AccFold(Group(w, PeriodKey(p), keys[m]));
    }
  }
}
