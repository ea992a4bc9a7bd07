/** getCategoryAnalytics: the in-window sales rolled up per product
    category, with "Unknown" for a sale whose product cannot be resolved or
    has no category. */
module Categories {
  import opened Common
  import opened Sums
  import opened Schemas
  import opened Grouping
  import opened Periods
  import opened Windows

  const Unknown: string := "Unknown"

  function ProductIdOf(s: Sale): string
  {
    s.productId
  }

  /** `[...new Set(filteredSales.map(sale => sale.productId))]`. */
  function ProductIds(w: seq<Sale>): seq<string>
  {
    KeysSeen(w, ProductIdOf)
  }

  /** The product query: the rows of the table whose id is among ids and
      that belong to the caller, in table order. */
  function Queried(rows: seq<Product>, userId: string, ids: seq<string>): (r: seq<Product>)
    ensures forall p :: p in r <==> p in rows && p.id in ids && p.userId == userId
    ensures |r| <= |rows|
  {
    if rows == [] then []
    else
      var x := rows[|rows| - 1];
      assert rows == rows[..|rows| - 1] + [x];
      Queried(rows[..|rows| - 1], userId, ids) + (if x.id in ids && x.userId == userId then [x] else [])
  }

  /** categoryMap after its `forEach`: a later row with the same id
      overwrites an earlier one. */
  function CategoryMap(ps: seq<Product>): map<string, string>
  {
    if ps == [] then map[]
    else
      var x := ps[|ps| - 1];
      CategoryMap(ps[..|ps| - 1])[x.id := x.category]
  }

  /** The map has an entry for every row's id, and each entry is the
      category of a row with that id. */
  lemma {:induction false} CategoryMapEntries(ps: seq<Product>)
    ensures forall p | p in ps :: p.id in CategoryMap(ps)
    ensures forall id | id in CategoryMap(ps) :: exists p | p in ps :: p.id == id && CategoryMap(ps)[id] == p.category
  {
    if ps != [] {
      var x := ps[|ps| - 1];
      assert ps == ps[..|ps| - 1] + [x];
      CategoryMapEntries(ps[..|ps| - 1]);
    }
  }

  /** The loop that fills categoryMap. */
  method BuildCategoryMap(ps: seq<Product>) returns (m: map<string, string>)
    ensures m == CategoryMap(ps)
  {
    m := map[];
    var i := 0;
    while i < |ps|
      invariant 0 <= i <= |ps|
      invariant m == CategoryMap(ps[..i])
    {
      assert ps[..i + 1] == ps[..i] + [ps[i]];
      m := m[ps[i].id := ps[i].category];
      i := i + 1;
    }
    assert ps[..i] == ps;
  }

  /** The last row with a given id decides its category. */
  lemma {:induction false} CategoryMapLast(ps: seq<Product>, i: int)
    requires 0 <= i < |ps|
    requires forall j | i < j < |ps| :: ps[j].id != ps[i].id
    ensures ps[i].id in CategoryMap(ps) && CategoryMap(ps)[ps[i].id] == ps[i].category
  {
    var init := ps[..|ps| - 1];
    if i < |ps| - 1 {
      CategoryMapLast(init, i);
    }
  }

  /** `categoryMap.get(sale.productId) || 'Unknown'`: a missing entry and an
      empty category both fall back to "Unknown". */
  function CategoryOf(m: map<string, string>, productId: string): (c: string)
    ensures c != ""
    ensures c == Unknown <==> productId !in m || m[productId] == "" || m[productId] == Unknown
  {
    if productId in m && m[productId] != "" then m[productId] else Unknown
  }

  function CategoryKey(m: map<string, string>): Sale -> string
  {
    (s: Sale) => CategoryOf(m, s.productId)
  }

  /** One dictionary entry while the loop runs. */
  datatype Tally = Tally(totalSales: real, totalQuantity: real, salesCount: nat)

  const NoTally := Tally(0.0, 0.0, 0)

  function AddToTally(a: Tally, x: Sale): Tally
  {
    Tally(a.totalSales + x.total, a.totalQuantity + x.quantity, a.salesCount + 1)
  }

  /** The entry the loop builds for a group of sales. */
  function TallyOf(g: seq<Sale>): Tally
  {
    Tally(SumMap(g, TotalOf), SumMap(g, QuantityOf), |g|)
  }

  lemma {:induction false} TallyFold(g: seq<Sale>)
    ensures Fold(g, NoTally, AddToTally) == TallyOf(g)
  {
    if g != [] {
      var init, x := g[..|g| - 1], g[|g| - 1];
      assert g == init + [x];
      TallyFold(init);
      assert (init + [x])[..|init|] == init;
    }
  }

  /** One row of the result. */
  datatype CategoryStat = CategoryStat(category: string, totalSales: real, totalQuantity: real, salesCount: nat)

  function Stat(k: string, a: Tally): CategoryStat
  {
    CategoryStat(k, a.totalSales, a.totalQuantity, a.salesCount)
  }

  predicate IsDigit(c: char)
  {
    '0' <= c <= '9'
  }

  predicate AllDigits(s: string)
  {
    forall i | 0 <= i < |s| :: IsDigit(s[i])
  }

  function DigitsValue(s: string): nat
    requires AllDigits(s)
  {
    if s == [] then 0 else DigitsValue(s[..|s| - 1]) * 10 + (s[|s| - 1] as int - '0' as int)
  }

  /** A category name is an array index for `Object.values` when it is the
      canonical decimal text of an integer below 2^32 - 1 (no sign, no
      leading zero). */
  function CategoryIndex(s: string): Option<nat>
  {
    if 1 <= |s| && AllDigits(s) && (s[0] != '0' || |s| == 1) && DigitsValue(s) < 0xFFFF_FFFF
    then Some(DigitsValue(s)) else None
  }

  function CategoryKeys(w: seq<Sale>, m: map<string, string>): seq<string>
  {
    ObjectOrder(KeysSeen(w, CategoryKey(m)), CategoryIndex)
  }

  /** The category rows of a window: one per distinct category, in
      `Object.values` order, each summing exactly that category's sales. */
  function CategoryRows(w: seq<Sale>, m: map<string, string>): (r: seq<CategoryStat>)
    ensures |r| == |CategoryKeys(w, m)| <= |w|
    ensures forall j | 0 <= j < |r| :: r[j] == Stat(CategoryKeys(w, m)[j], TallyOf(Group(w, CategoryKey(m), CategoryKeys(w, m)[j])))
    ensures forall i, j | 0 <= i < j < |r| :: r[i].category != r[j].category
  {
    var keys := CategoryKeys(w, m);
    CategoryKeysDistinct(w, m);
    seq(|keys|, j requires 0 <= j < |keys| => Stat(keys[j], TallyOf(Group(w, CategoryKey(m), keys[j]))))
  }

  /** Each category is listed once. */
  lemma CategoryKeysDistinct(w: seq<Sale>, m: map<string, string>)
    ensures var keys := CategoryKeys(w, m);
      forall i, j | 0 <= i < j < |keys| :: keys[i] != keys[j]
  {
    var keys := CategoryKeys(w, m);
    KeysSeenDistinct(w, CategoryKey(m));
    DistinctPerm(KeysSeen(w, CategoryKey(m)), keys);
    forall i, j | 0 <= i < j < |keys|
      ensures keys[i] != keys[j]
    {
      DistinctIndices(keys, i, j);
    }
  }

  /** The category map of the caller's products among the window's sales. */
  function WindowCategoryMap(w: seq<Sale>, rows: seq<Product>, userId: string): map<string, string>
  {
    CategoryMap(Queried(rows, userId, ProductIds(w)))
  }

  function CategoryAnalytics(sales: seq<Sale>, rows: seq<Product>, userId: string, p: Period, now: Calendar.DateTime)
    : seq<CategoryStat>
  {
    var w := InWindow(sales, userId, DateRange(now, p));
    CategoryRows(w, WindowCategoryMap(w, rows, userId))
  }

  /** getCategoryAnalytics: the window, the product query, the categoryMap
      loop, the categoryStats loop and `Object.values`. */
  method GetCategoryAnalytics(sales: seq<Sale>, rows: seq<Product>, userId: string, p: Period, now: Calendar.DateTime)
    returns (result: seq<CategoryStat>)
    ensures result == CategoryAnalytics(sales, rows, userId, p, now)
  {
    var w := InWindow(sales, userId, DateRange(now, p));
    var products := Queried(rows, userId, ProductIds(w));
    var categoryMap := BuildCategoryMap(products);
    var key := CategoryKey(categoryMap);
    var grouped, order := GroupInto(w, key, NoTally, AddToTally);
    var keys := ObjectOrder(order, CategoryIndex);
    ReorderedKeysPresent(order, keys, grouped);
    result := FinishEntries(keys, grouped, Stat);
    forall m | 0 <= m < |keys|
      ensures result[m] == Stat(keys[m], TallyOf(Group(w, key, keys[m])))
    {
      GroupedEntry(w, key, NoTally, AddToTally, keys[m]);
      TallyFold(Group(w, key, keys[m]));
    }
  }

  function StatTotal(c: CategoryStat): real
  {
    c.totalSales
  }

  function StatQuantity(c: CategoryStat): real
  {
    c.totalQuantity
  }

  function StatCount(c: CategoryStat): real
  {
    c.salesCount as real
  }

  /** Every in-window sale is counted in exactly one category: the rows add
      up to the window's revenue, quantity and number of sales. */
  lemma CategoriesConserve(w: seq<Sale>, m: map<string, string>)
    ensures var r := CategoryRows(w, m);
      && SumMap(r, StatTotal) == SumMap(w, TotalOf)
      && SumMap(r, StatQuantity) == SumMap(w, QuantityOf)
      && SumMap(r, StatCount) == |w| as real
  {
    var r, keys, key := CategoryRows(w, m), CategoryKeys(w, m), CategoryKey(m);
    RowsConserve(w, key, keys, r, StatTotal, TotalOf);
    RowsConserve(w, key, keys, r, StatQuantity, QuantityOf);
    forall j | 0 <= j < |r|
      ensures StatCount(r[j]) == GroupSum(w, key, One)(keys[j])
    {
      SumOfOnes(Group(w, key, keys[j]));
    }
    RowsConserve(w, key, keys, r, StatCount, One);
    SumOfOnes(w);
  }

  /** A category gets a row only once a sale is filed under it. */
  lemma CategoriesNonEmpty(w: seq<Sale>, m: map<string, string>)
    ensures forall c | c in CategoryRows(w, m) :: c.salesCount >= 1
  {
    var r, keys, key := CategoryRows(w, m), CategoryKeys(w, m), CategoryKey(m);
    forall j | 0 <= j < |r|
      ensures r[j].salesCount >= 1
    {
      assert keys[j] in multiset(KeysSeen(w, key));
      GroupNonEmpty(w, key, keys[j]);
    }
  }

  /** A sale whose product is not among the caller's rows is filed under
      "Unknown". */
  lemma UnresolvedIsUnknown(w: seq<Sale>, rows: seq<Product>, userId: string, s: Sale)
    requires forall p | p in rows :: p.id != s.productId || p.userId != userId
    ensures CategoryOf(WindowCategoryMap(w, rows, userId), s.productId) == Unknown
  {
    CategoryMapEntries(Queried(rows, userId, ProductIds(w)));
  }

  /** Product ids are the table's primary key: a sale of a caller's product
      is filed under that product's category, or "Unknown" when it is empty. */
  lemma ResolvedCategory(w: seq<Sale>, rows: seq<Product>, userId: string, s: Sale, p: Product)
    requires forall i, j | 0 <= i < j < |rows| :: rows[i].id != rows[j].id
    requires s in w && p in rows && p.id == s.productId && p.userId == userId
    ensures CategoryOf(WindowCategoryMap(w, rows, userId), s.productId) == if p.category == "" then Unknown else p.category
  {
    KeysSeenMembers(w, ProductIdOf);
    assert ProductIdOf(s) in ProductIds(w);
    var q := Queried(rows, userId, ProductIds(w));
    assert p in q;
    var i :| 0 <= i < |q| && q[i] == p;
    forall j | i < j < |q|
      ensures q[j].id != p.id
    {
      QueriedKeepsKeysApart(rows, userId, ProductIds(w), i, j);
    }
    CategoryMapLast(q, i);
  }

  /** The query keeps distinct ids apart, since it only drops rows. */
  lemma {:induction false} QueriedKeepsKeysApart(rows: seq<Product>, userId: string, ids: seq<string>, i: int, j: int)
    requires forall a, b | 0 <= a < b < |rows| :: rows[a].id != rows[b].id
    requires 0 <= i < j < |Queried(rows, userId, ids)|
    ensures Queried(rows, userId, ids)[i].id != Queried(rows, userId, ids)[j].id
  {
    var init, x := rows[..|rows| - 1], rows[|rows| - 1];
    var q := Queried(init, userId, ids);
    assert rows == init + [x];
    if j < |q| {
      QueriedKeepsKeysApart(init, userId, ids, i, j);
    } else {
      assert Queried(rows, userId, ids)[i] in init;
    }
  }

  /** Without numeric category names (and "Unknown" is not one), the rows
      come in the order their categories are first met. */
  lemma PlainCategoriesInOrder(w: seq<Sale>, rows: seq<Product>, userId: string)
    requires forall p | p in rows :: CategoryIndex(p.category).None?
    ensures CategoryKeys(w, WindowCategoryMap(w, rows, userId)) == KeysSeen(w, CategoryKey(WindowCategoryMap(w, rows, userId)))
  {
    var m := WindowCategoryMap(w, rows, userId);
    var key := CategoryKey(m);
    KeysSeenMembers(w, key);
    CategoryMapEntries(Queried(rows, userId, ProductIds(w)));
    forall k | k in KeysSeen(w, key)
      ensures CategoryIndex(k).None?
    {
      var s :| s in w && key(s) == k;
      if s.productId in m && m[s.productId] != "" {
        var p :| p in Queried(rows, userId, ProductIds(w)) && p.id == s.productId && m[s.productId] == p.category;
      } else {
        assert k == Unknown;
      }
    }
    ObjectOrderPlain(KeysSeen(w, key), CategoryIndex);
  }

  /** The properties every plain object `{}` inherits from Object.prototype. */
  const InheritedNames: set<string> := {
    "constructor", "__proto__", "hasOwnProperty", "isPrototypeOf",
    "propertyIsEnumerable", "toString", "toLocaleString", "valueOf",
    "__defineGetter__", "__defineSetter__", "__lookupGetter__", "__lookupSetter__"}

  /** The sales the `categoryStats` loop as written files: for a category
      named like an inherited property, `!categoryStats[category]` is false,
      so no entry is created and the `+=` lines write onto the inherited
      object instead. */
  function Filed(w: seq<Sale>, m: map<string, string>): (r: seq<Sale>)
    ensures forall s | s in r :: s in w && CategoryOf(m, s.productId) !in InheritedNames
    ensures forall s | s in w && CategoryOf(m, s.productId) !in InheritedNames :: s in r
    ensures |r| <= |w|
  {
    if w == [] then []
    else
      var x := w[|w| - 1];
      assert w == w[..|w| - 1] + [x];
      Filed(w[..|w| - 1], m) + (if CategoryOf(m, x.productId) in InheritedNames then [] else [x])
  }

  /** The category rows as the source computes them. */
  function CategoryRowsAsWritten(w: seq<Sale>, m: map<string, string>): (r: seq<CategoryStat>)
    ensures forall c | c in r :: c.category !in InheritedNames
  {
    var f := Filed(w, m);
    var r := CategoryRows(f, m);
    forall c | c in r
      ensures c.category !in InheritedNames
    {
      var j :| 0 <= j < |r| && r[j] == c;
      var keys := CategoryKeys(f, m);
      assert keys[j] in multiset(KeysSeen(f, CategoryKey(m)));
      KeysSeenMembers(f, CategoryKey(m));
    }
    r
  }

  /** getCategoryAnalytics as written: a window without sales sends
      `product.id IN ()` to PostgreSQL, which rejects it. */
  function CategoryAnalyticsAsWritten(sales: seq<Sale>, rows: seq<Product>, userId: string, p: Period, now: Calendar.DateTime)
    : (r: Result<seq<CategoryStat>>)
    ensures r.Err? <==> InWindow(sales, userId, DateRange(now, p)) == []
  {
    var w := InWindow(sales, userId, DateRange(now, p));
    NoIdsNoSales(w);
    if ProductIds(w) == [] then Err(QueryFailed(InternalServerError))
    else Ok(CategoryRowsAsWritten(w, WindowCategoryMap(w, rows, userId)))
  }

  lemma NoIdsNoSales(w: seq<Sale>)
    ensures ProductIds(w) == [] <==> w == []
  {
    if w != [] {
      KeysSeenMembers(w, ProductIdOf);
      assert ProductIdOf(w[0]) in ProductIds(w);
    }
  }

  /** As long as no category is named like an inherited property, the rows
      as written are the intended ones. */
  lemma {:induction false} AsWrittenAgrees(w: seq<Sale>, m: map<string, string>)
    requires forall s | s in w :: CategoryOf(m, s.productId) !in InheritedNames
    ensures CategoryRowsAsWritten(w, m) == CategoryRows(w, m)
  {
    FiledAll(w, m);
  }

  lemma {:induction false} FiledAll(w: seq<Sale>, m: map<string, string>)
    requires forall s | s in w :: CategoryOf(m, s.productId) !in InheritedNames
    ensures Filed(w, m) == w
  {
    if w != [] {
      assert w == w[..|w| - 1] + [w[|w| - 1]];
      FiledAll(w[..|w| - 1], m);
    }
  }

  /** A single sale of a product whose category is "constructor": the
      intended rows hold it, the rows as written are empty, so the revenue
      they add up to is 0 instead of the sale's total. */
  lemma InheritedCategoryDropped(s: Sale)
    requires s.productId == "p1" && s.total == 5.0
    ensures var m := map["p1" := "constructor"];
      && CategoryRows([s], m) == [CategoryStat("constructor", 5.0, s.quantity, 1)]
      && CategoryRowsAsWritten([s], m) == []
      && SumMap(CategoryRowsAsWritten([s], m), StatTotal) != SumMap([s], TotalOf)
  {
    var m := map["p1" := "constructor"];
    ConstructorRow(s, m);
    ConstructorNotFiled(s, m);
    assert SumMap([s], TotalOf) == 5.0 by {
      assert [s][..0] == [];
    }
  }

  lemma ConstructorRow(s: Sale, m: map<string, string>)
    requires m == map["p1" := "constructor"] && s.productId == "p1"
    ensures CategoryRows([s], m) == [CategoryStat("constructor", s.total, s.quantity, 1)]
  {
    ConstructorKeys(s, m);
    ConstructorGroup(s, m);
    SingleTally(s);
    RowsOfOneKey([s], m, "constructor");
  }

  /** A window filed under one category has the one row of that category. */
  lemma RowsOfOneKey(w: seq<Sale>, m: map<string, string>, k: string)
    requires CategoryKeys(w, m) == [k]
    ensures CategoryRows(w, m) == [Stat(k, TallyOf(Group(w, CategoryKey(m), k)))]
  {
    var r, keys := CategoryRows(w, m), CategoryKeys(w, m);
    assert |r| == 1;
    assert keys[0] == k;
    assert r[0] == Stat(keys[0], TallyOf(Group(w, CategoryKey(m), keys[0])));
    OneRow(r);
  }

  lemma OneRow(r: seq<CategoryStat>)
    requires |r| == 1
    ensures r == [r[0]]
  {
  }

  lemma ConstructorKeys(s: Sale, m: map<string, string>)
    requires m == map["p1" := "constructor"] && s.productId == "p1"
    ensures CategoryKeys([s], m) == ["constructor"]
  {
    var key := CategoryKey(m);
    assert key(s) == "constructor";
    assert [s][..0] == [];
    assert KeysSeen([s], key) == ["constructor"];
    assert !IsDigit("constructor"[0]);
    ObjectOrderPlain(["constructor"], CategoryIndex);
  }

  lemma ConstructorGroup(s: Sale, m: map<string, string>)
    requires m == map["p1" := "constructor"] && s.productId == "p1"
    ensures Group([s], CategoryKey(m), "constructor") == [s]
  {
    assert CategoryKey(m)(s) == "constructor";
    assert [s][..0] == [];
  }

  lemma SingleTally(s: Sale)
    ensures TallyOf([s]) == Tally(s.total, s.quantity, 1)
  {
    assert [s][..0] == [];
    assert SumMap([s], TotalOf) == SumMap([], TotalOf) + TotalOf(s);
    assert SumMap([s], QuantityOf) == SumMap([], QuantityOf) + QuantityOf(s);
  }

  lemma ConstructorNotFiled(s: Sale, m: map<string, string>)
    requires m == map["p1" := "constructor"] && s.productId == "p1"
    ensures CategoryRowsAsWritten([s], m) == []
  {
    assert [s][..0] == [];
    assert Filed([s], m) == [];
    assert KeysSeen([], CategoryKey(m)) == [];
  }

  /** The intended behaviour: no categories exactly when the window holds no
      sales. */
  lemma EmptyWindowNoCategories(sales: seq<Sale>, rows: seq<Product>, userId: string, p: Period, now: Calendar.DateTime)
    ensures CategoryAnalytics(sales, rows, userId, p, now) == [] <==> InWindow(sales, userId, DateRange(now, p)) == []
  {
    var w := InWindow(sales, userId, DateRange(now, p));
    var m := WindowCategoryMap(w, rows, userId);
    if w != [] {
      KeysSeenMembers(w, CategoryKey(m));
      assert CategoryKey(m)(w[0]) in KeysSeen(w, CategoryKey(m));
    }
  }
}
