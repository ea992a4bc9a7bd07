/** getInventoryStatus: counts and stock valuations over the caller's active
    products. */
module Inventory {
  import opened Sums
  import opened Schemas
  import Products

  /** `find({ where: { userId, isActive: true } })`, in table order. */
  function ActiveRows(rows: seq<Product>, userId: string): (r: seq<Product>)
    ensures forall p :: p in r <==> p in rows && Products.ActiveOf(p, userId)
    ensures |r| <= |rows|
  {
    if rows == [] then []
    else
      var x := rows[|rows| - 1];
      assert rows == rows[..|rows| - 1] + [x];
      ActiveRows(rows[..|rows| - 1], userId) + (if Products.ActiveOf(x, userId) then [x] else [])
  }

  /** `filter(pred).length`. */
  function CountWhere(ps: seq<Product>, pred: Product -> bool): (n: nat)
    ensures n <= |ps|
  {
    if ps == [] then 0 else CountWhere(ps[..|ps| - 1], pred) + (if pred(ps[|ps| - 1]) then 1 else 0)
  }

  /** The status report's low-stock test: inclusive, unlike getLowStock. */
  predicate AtOrBelowMin(p: Product)
  {
    p.stock <= p.minStock
  }

  predicate OutOfStock(p: Product)
  {
    p.stock == 0.0
  }

  predicate AtMin(p: Product)
  {
    p.stock == p.minStock
  }

  function InventoryValueOf(p: Product): real
  {
    p.cost * p.stock
  }

  function RetailValueOf(p: Product): real
  {
    p.price * p.stock
  }

  function MarginOf(p: Product): real
  {
    (p.price - p.cost) * p.stock
  }

  datatype InventoryStatus = InventoryStatus(totalProducts: nat, lowStockProducts: nat, outOfStockProducts: nat,
                                             totalInventoryValue: real, totalRetailValue: real, potentialProfit: real)

  function InventoryStatusOf(rows: seq<Product>, userId: string): InventoryStatus
  {
    var ps := ActiveRows(rows, userId);
    var inventory := SumMap(ps, InventoryValueOf);
    var retail := SumMap(ps, RetailValueOf);
    InventoryStatus(|ps|, CountWhere(ps, AtOrBelowMin), CountWhere(ps, OutOfStock), inventory, retail, retail - inventory)
  }

  /** A weaker test counts at least as many products. */
  lemma {:induction false} CountMonotone(ps: seq<Product>, a: Product -> bool, b: Product -> bool)
    requires forall i | 0 <= i < |ps| :: a(ps[i]) ==> b(ps[i])
    ensures CountWhere(ps, a) <= CountWhere(ps, b)
  {
    if ps != [] {
      CountMonotone(ps[..|ps| - 1], a, b);
    }
  }

  /** A test that is one of two exclusive tests counts their two counts. */
  lemma {:induction false} CountSplit(ps: seq<Product>, a: Product -> bool, b: Product -> bool, c: Product -> bool)
    requires forall i | 0 <= i < |ps| :: (a(ps[i]) <==> b(ps[i]) || c(ps[i])) && !(b(ps[i]) && c(ps[i]))
    ensures CountWhere(ps, a) == CountWhere(ps, b) + CountWhere(ps, c)
  {
    if ps != [] {
      CountSplit(ps[..|ps| - 1], a, b, c);
    }
  }

  /** With minimum stocks not negative, an out-of-stock product is also low
      on stock: outOfStock <= lowStock <= totalProducts. */
  lemma InventoryCounts(rows: seq<Product>, userId: string)
    requires forall p | p in rows :: p.minStock >= 0.0
    ensures var s := InventoryStatusOf(rows, userId);
      s.outOfStockProducts <= s.lowStockProducts <= s.totalProducts
  {
    var ps := ActiveRows(rows, userId);
    forall i | 0 <= i < |ps|
      ensures OutOfStock(ps[i]) ==> AtOrBelowMin(ps[i])
    {
      assert ps[i] in rows;
    }
    CountMonotone(ps, OutOfStock, AtOrBelowMin);
  }

  /** The report's lowStock counts getLowStock's products (strictly below
      the minimum) plus those exactly at it. */
  lemma LowStockInclusive(rows: seq<Product>, userId: string)
    ensures var ps := ActiveRows(rows, userId);
      InventoryStatusOf(rows, userId).lowStockProducts
        == CountWhere(ps, Products.IsLowStock) + CountWhere(ps, AtMin)
  {
    CountSplit(ActiveRows(rows, userId), AtOrBelowMin, Products.IsLowStock, AtMin);
  }

  /** potentialProfit is the sum over the active products of their margin
      times their stock, and is not negative when no product sells below
      cost and stocks are not negative. */
  lemma PotentialProfit(rows: seq<Product>, userId: string)
    ensures var ps := ActiveRows(rows, userId);
      InventoryStatusOf(rows, userId).potentialProfit == SumMap(ps, MarginOf)
    ensures (forall p | p in rows :: p.price >= p.cost && p.stock >= 0.0) ==>
      InventoryStatusOf(rows, userId).potentialProfit >= 0.0
  {
    var ps := ActiveRows(rows, userId);
    SumMapAdd(ps, RetailValueOf, MarginOf, InventoryValueOf);
    if forall p | p in rows :: p.price >= p.cost && p.stock >= 0.0 {
      forall i | 0 <= i < |ps|
        ensures MarginOf(ps[i]) >= 0.0
      {
        assert ps[i] in rows;
      }
      SumMapNonNegative(ps, MarginOf);
    }
  }

  /** With the amounts the product form admits (none negative), both stock
      valuations are not negative. */
  lemma ValuesNonNegative(rows: seq<Product>, userId: string)
    requires forall p | p in rows :: AmountsNonNegative(p)
    ensures var s := InventoryStatusOf(rows, userId);
      s.totalInventoryValue >= 0.0 && s.totalRetailValue >= 0.0
  {
    var ps := ActiveRows(rows, userId);
    forall i | 0 <= i < |ps|
      ensures InventoryValueOf(ps[i]) >= 0.0 && RetailValueOf(ps[i]) >= 0.0
    {
      assert ps[i] in rows;
    }
    SumMapNonNegative(ps, InventoryValueOf);
    SumMapNonNegative(ps, RetailValueOf);
  }
}
