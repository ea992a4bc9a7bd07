/** getDashboardStats: the daily, weekly and monthly analytics summed up,
    and the inventory status. */
module Dashboard {
  import opened Sums
  import opened Schemas
  import opened Periods
  import opened Windows
  import opened Analytics
  import opened Inventory

  /** The accumulator of aggregateData. */
  datatype Totals = Totals(totalSales: real, salesCount: nat, uniqueCustomers: nat)

  /** aggregateData: the `reduce` over the buckets, left to right from zero. */
  function Aggregate(data: seq<Bucket>): Totals
  {
    if data == [] then Totals(0.0, 0, 0)
    else
      var acc := Aggregate(data[..|data| - 1]);
      var item := data[|data| - 1];
      Totals(acc.totalSales + item.totalSales, acc.salesCount + item.salesCount,
             acc.uniqueCustomers + item.uniqueCustomers)
  }

  /** The reduce computes the three column sums. */
  lemma {:induction false} AggregateSums(data: seq<Bucket>)
    ensures var t := Aggregate(data);
      && t.totalSales == SumMap(data, BucketTotal)
      && t.salesCount as real == SumMap(data, BucketCount)
      && t.uniqueCustomers as real == SumMap(data, BucketCustomers)
  {
    if data != [] {
      AggregateSums(data[..|data| - 1]);
    }
  }

  datatype TodayStats = TodayStats(sales: real, orders: nat, customers: nat)
  datatype PeriodStats = PeriodStats(sales: real, orders: nat)
  datatype InventorySummary = InventorySummary(totalProducts: nat, lowStock: nat, outOfStock: nat, value: real)
  datatype DashboardStats = DashboardStats(today: TodayStats, weekly: PeriodStats, monthly: PeriodStats,
                                           inventory: InventorySummary)

  function Summary(s: InventoryStatus): InventorySummary
  {
    InventorySummary(s.totalProducts, s.lowStockProducts, s.outOfStockProducts, s.totalInventoryValue)
  }

  function Assemble(today: seq<Bucket>, weekly: seq<Bucket>, monthly: seq<Bucket>, inventory: InventoryStatus)
    : DashboardStats
  {
    var t, w, m := Aggregate(today), Aggregate(weekly), Aggregate(monthly);
    DashboardStats(TodayStats(t.totalSales, t.salesCount, t.uniqueCustomers),
                   PeriodStats(w.totalSales, w.salesCount),
                   PeriodStats(m.totalSales, m.salesCount),
                   Summary(inventory))
  }

  /** The dashboard from three clock readings: getDashboardStats awaits
      three getSalesAnalytics calls in turn, and each one's getDateRange reads
      the clock anew. */
  function DashboardOf(sales: seq<Sale>, rows: seq<Product>, userId: string,
                       nowToday: Calendar.DateTime, nowWeek: Calendar.DateTime, nowMonth: Calendar.DateTime)
    : DashboardStats
  {
    Assemble(SalesAnalytics(sales, userId, Daily, nowToday), SalesAnalytics(sales, userId, Weekly, nowWeek),
             SalesAnalytics(sales, userId, Monthly, nowMonth), InventoryStatusOf(rows, userId))
  }

  /** getDashboardStats: three analytics runs, each at its own clock reading,
      and the inventory status. */
  method GetDashboardStats(sales: seq<Sale>, rows: seq<Product>, userId: string,
                           nowToday: Calendar.DateTime, nowWeek: Calendar.DateTime, nowMonth: Calendar.DateTime)
    returns (d: DashboardStats)
    ensures d == DashboardOf(sales, rows, userId, nowToday, nowWeek, nowMonth)
  {
    var today := GetSalesAnalytics(sales, userId, Daily, nowToday);
    var weekly := GetSalesAnalytics(sales, userId, Weekly, nowWeek);
    var monthly := GetSalesAnalytics(sales, userId, Monthly, nowMonth);
    var inventory := InventoryStatusOf(rows, userId);
    d := Assemble(today, weekly, monthly, inventory);
  }

  function Window(sales: seq<Sale>, userId: string, p: Period, now: Calendar.DateTime): seq<Sale>
  {
    InWindow(sales, userId, DateRange(now, p))
  }

  /** The dashboard figures are the window sums: each period's sales is the
      revenue of its window and its orders the number of sales in it. */
  lemma DashboardSums(sales: seq<Sale>, rows: seq<Product>, userId: string,
                      nowToday: Calendar.DateTime, nowWeek: Calendar.DateTime, nowMonth: Calendar.DateTime)
    ensures var d := DashboardOf(sales, rows, userId, nowToday, nowWeek, nowMonth);
      && d.today.sales == SumMap(Window(sales, userId, Daily, nowToday), TotalOf)
      && d.today.orders == |Window(sales, userId, Daily, nowToday)|
      && d.weekly.sales == SumMap(Window(sales, userId, Weekly, nowWeek), TotalOf)
      && d.weekly.orders == |Window(sales, userId, Weekly, nowWeek)|
      && d.monthly.sales == SumMap(Window(sales, userId, Monthly, nowMonth), TotalOf)
      && d.monthly.orders == |Window(sales, userId, Monthly, nowMonth)|
  {
    PeriodSums(sales, userId, Daily, nowToday);
    PeriodSums(sales, userId, Weekly, nowWeek);
    PeriodSums(sales, userId, Monthly, nowMonth);
  }

  lemma PeriodSums(sales: seq<Sale>, userId: string, p: Period, now: Calendar.DateTime)
    ensures var t := Aggregate(SalesAnalytics(sales, userId, p, now));
      t.totalSales == SumMap(Window(sales, userId, p, now), TotalOf)
      && t.salesCount == |Window(sales, userId, p, now)|
  {
    var w := Window(sales, userId, p, now);
    AggregateSums(BucketsOf(w, p));
    BucketsConserve(w, p);
  }

  /** At one clock reading the monthly window contains the weekly one, which
      contains today's. */
  lemma WindowsNest(now: Calendar.DateTime)
    requires now.Valid()
    ensures DateRange(now, Monthly).start <= DateRange(now, Weekly).start <= DateRange(now, Daily).start
    ensures DateRange(now, Monthly).end == DateRange(now, Weekly).end == DateRange(now, Daily).end
  {
    DateRangeBounds(now, Daily);
    DateRangeBounds(now, Weekly);
    DateRangeBounds(now, Monthly);
  }

  /** The same holds for three successive readings that lie within seven days
      of each other: each window starts no later and ends no earlier than the
      one read before it. */
  lemma ReadingsNest(nowToday: Calendar.DateTime, nowWeek: Calendar.DateTime, nowMonth: Calendar.DateTime)
    requires nowToday.Valid() && nowWeek.Valid() && nowMonth.Valid()
    requires nowToday.time <= nowWeek.time <= nowMonth.time
    requires nowMonth.Day() <= nowToday.Day() + 7
    ensures DateRange(nowMonth, Monthly).start <= DateRange(nowWeek, Weekly).start <= DateRange(nowToday, Daily).start
    ensures DateRange(nowToday, Daily).end <= DateRange(nowWeek, Weekly).end <= DateRange(nowMonth, Monthly).end
  {
    DateRangeBounds(nowToday, Daily);
    DateRangeBounds(nowWeek, Weekly);
    DateRangeBounds(nowMonth, Monthly);
    Calendar.DayMonotone(nowToday.time, nowWeek.time);
    Calendar.DayMonotone(nowWeek.time, nowMonth.time);
  }

  /** Today's figures never exceed this week's, nor this week's this
      month's: always for orders, and for sales while totals are not
      negative. */
  lemma DashboardNested(sales: seq<Sale>, rows: seq<Product>, userId: string,
                        nowToday: Calendar.DateTime, nowWeek: Calendar.DateTime, nowMonth: Calendar.DateTime)
    requires nowToday.Valid() && nowWeek.Valid() && nowMonth.Valid()
    requires nowToday.time <= nowWeek.time <= nowMonth.time
    requires nowMonth.Day() <= nowToday.Day() + 7
    ensures var d := DashboardOf(sales, rows, userId, nowToday, nowWeek, nowMonth);
      d.today.orders <= d.weekly.orders <= d.monthly.orders
    ensures var d := DashboardOf(sales, rows, userId, nowToday, nowWeek, nowMonth);
      (forall s | s in sales :: s.total >= 0.0) ==> d.today.sales <= d.weekly.sales <= d.monthly.sales
  {
    DashboardSums(sales, rows, userId, nowToday, nowWeek, nowMonth);
    ReadingsNest(nowToday, nowWeek, nowMonth);
    WiderWindow(sales, userId, DateRange(nowToday, Daily), DateRange(nowWeek, Weekly));
    WiderWindow(sales, userId, DateRange(nowWeek, Weekly), DateRange(nowMonth, Monthly));
  }

  /** Today's customer count is at most today's orders: every bucket has at
      most one customer per sale. */
  lemma CustomersAtMostOrders(sales: seq<Sale>, rows: seq<Product>, userId: string,
                              nowToday: Calendar.DateTime, nowWeek: Calendar.DateTime, nowMonth: Calendar.DateTime)
    ensures var d := DashboardOf(sales, rows, userId, nowToday, nowWeek, nowMonth);
      d.today.customers <= d.today.orders
  {
    var b := SalesAnalytics(sales, userId, Daily, nowToday);
    AggregateSums(b);
    BucketShape(Window(sales, userId, Daily, nowToday), Daily);
    forall i | 0 <= i < |b|
      ensures BucketCustomers(b[i]) <= BucketCount(b[i])
    {
      assert b[i] in b;
    }
    SumMapMonotone(b, BucketCustomers, BucketCount);
  }
}
