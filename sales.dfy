/** The sale workflow (sales.service.ts): check stock, decrement it through the
    catalog, record an immutable sale; the batch variant that repeats this per
    item and stops at the first failure without undoing earlier items; and the
    date-window queries. */
module Sales {
  import opened Common
  import opened Calendar
  import opened Sorting
  import opened Sums
  import opened Schemas
  import Products

  const InsufficientStock: string := "Insufficient stock"

  /** The single-sale message is fixed; the batch message names the product. */
  function ShortageMessage(p: Product, batch: bool): string
  {
    if batch then "Insufficient stock for " + p.name else InsufficientStock
  }

  /** One requested line: product, quantity and unit price. */
  datatype SaleItem = SaleItem(productId: string, quantity: real, price: real)

  /** The sale DTO's bounds: quantity at least 1, price at least 0. */
  predicate ItemBounds(item: SaleItem)
  {
    item.quantity >= 1.0 && item.price >= 0.0
  }

  /** What the database and the clock supply to one saved sale: the generated
      id and the `new Date()` stored as saleDate. */
  datatype Stamp = Stamp(saleId: string, saleDate: DateTime)

  /** The two stores the workflow touches. */
  datatype Ledger = Ledger(products: map<string, Product>, sales: seq<Sale>)

  datatype Step = Step(ledger: Ledger, result: Result<Sale>)

  datatype BatchStep = BatchStep(ledger: Ledger, result: Result<seq<Sale>>)

  /** The record one successful step writes for `item`. */
  predicate RecordsItem(s: Sale, userId: string, item: SaleItem, customer: Option<string>, stamp: Stamp)
  {
    && s.id == stamp.saleId && s.userId == userId && s.productId == item.productId
    && s.quantity == item.quantity && s.price == item.price
    && s.total == item.quantity * item.price
    && s.customer == customer && s.saleDate == stamp.saleDate
  }

  /** create, and one iteration of createMultiple: look the product up (not
      checking isActive), refuse when its stock is below the quantity,
      otherwise decrement the stock and append the sale. */
  function Sell(l: Ledger, userId: string, item: SaleItem, customer: Option<string>,
                stamp: Stamp, batch: bool): (r: Step)
    requires ItemBounds(item)
    ensures r.result.Ok? <==>
      item.productId in l.products && l.products[item.productId].userId == userId
      && l.products[item.productId].stock >= item.quantity
    ensures r.result.Err? ==> r.ledger == l
    ensures Products.FindOne(l.products, userId, item.productId).Err? ==>
      r.result == Err(NotFound(Products.ProductNotFound))
    ensures (Products.FindOne(l.products, userId, item.productId).Ok?
             && l.products[item.productId].stock < item.quantity) ==>
      r.result == Err(BadRequest(ShortageMessage(l.products[item.productId], batch)))
    ensures r.result.Ok? ==>
      var p := l.products[item.productId];
      && r.ledger.products.Keys == l.products.Keys
      && r.ledger.products[item.productId] == p.(stock := p.stock - item.quantity)
      && (forall id | id in l.products && id != item.productId :: r.ledger.products[id] == l.products[id])
      && r.ledger.sales == l.sales + [r.result.value]
      && RecordsItem(r.result.value, userId, item, customer, stamp)
      && r.result.value.productName == p.name
      && (p.stock >= 0.0 ==> r.ledger.products[item.productId].stock >= 0.0)
  {
    var found := Products.FindOne(l.products, userId, item.productId);
    if found.Err? then Step(l, Err(found.error))
    else
      var p := found.value;
      if p.stock < item.quantity then Step(l, Err(BadRequest(ShortageMessage(p, batch))))
      else
        var sale := Sale(stamp.saleId, userId, item.productId, p.name, item.quantity,
                         item.price, item.quantity * item.price, customer, stamp.saleDate);
        Step(Ledger(l.products[item.productId := p.(stock := p.stock - item.quantity)],
                    l.sales + [sale]),
             Ok(sale))
  }

  /** The successful branch of Sell, spelled out for the method that runs it. */
  lemma SellSucceeds(l: Ledger, userId: string, item: SaleItem, customer: Option<string>,
                     stamp: Stamp, batch: bool)
    requires ItemBounds(item)
    requires item.productId in l.products && l.products[item.productId].userId == userId
    requires l.products[item.productId].stock >= item.quantity
    ensures var p := l.products[item.productId];
      Sell(l, userId, item, customer, stamp, batch)
      == Step(Ledger(l.products[item.productId := p.(stock := p.stock - item.quantity)],
                     l.sales + [Sale(stamp.saleId, userId, item.productId, p.name, item.quantity,
                                     item.price, item.quantity * item.price, customer, stamp.saleDate)]),
              Ok(Sale(stamp.saleId, userId, item.productId, p.name, item.quantity,
                      item.price, item.quantity * item.price, customer, stamp.saleDate)))
  {
    var p := l.products[item.productId];
    var sale := Sale(stamp.saleId, userId, item.productId, p.name, item.quantity,
                     item.price, item.quantity * item.price, customer, stamp.saleDate);
    var r := Sell(l, userId, item, customer, stamp, batch);
    assert Products.FindOne(l.products, userId, item.productId) == Ok(p);
    assert r.result.Ok?;
    assert r.result.value.productName == p.name;
    assert r.result.value.total == item.quantity * item.price;
    assert r.result.value.customer == customer;
    assert r.result.value.saleDate == stamp.saleDate;
    assert r.result.value.id == stamp.saleId;
    assert r.result == Ok(sale);
    assert r.ledger.sales == l.sales + [sale];
    assert r.ledger.products == l.products[item.productId := p.(stock := p.stock - item.quantity)];
  }

  function Prepend(done: seq<Sale>, b: BatchStep): BatchStep
  {
    if b.result.Ok? then BatchStep(b.ledger, Ok(done + b.result.value)) else b
  }

  lemma PrependNothing(b: BatchStep)
    ensures Prepend([], b) == b
  {
    if b.result.Ok? {
      assert [] + b.result.value == b.result.value;
    }
  }

  lemma PrependTwice(done: seq<Sale>, sale: Sale, b: BatchStep)
    ensures Prepend(done, Prepend([sale], b)) == Prepend(done + [sale], b)
  {
    if b.result.Ok? {
      assert done + ([sale] + b.result.value) == (done + [sale]) + b.result.value;
    }
  }

  predicate AllBounded(items: seq<SaleItem>)
  {
    forall j | 0 <= j < |items| :: ItemBounds(items[j])
  }

  /** createMultiple: the items in input order, each seeing the stock the
      previous ones left; the first failure ends the batch with that error and
      keeps everything done so far. */
  function SellBatch(l: Ledger, userId: string, items: seq<SaleItem>, customer: Option<string>,
                     stamps: seq<Stamp>): (r: BatchStep)
    requires |stamps| == |items| && AllBounded(items)
    decreases |items|
  {
    if items == [] then BatchStep(l, Ok([]))
    else
      var first := Sell(l, userId, items[0], customer, stamps[0], true);
      if first.result.Err? then BatchStep(first.ledger, Err(first.result.error))
      else Prepend([first.result.value], SellBatch(first.ledger, userId, items[1..], customer, stamps[1..]))
  }

  /** One batch step: a refused first item ends the batch on the stores as
      they were; an accepted one joins the sales done and the rest of the
      batch runs on the stores it left. */
  lemma BatchFirst(done: seq<Sale>, l: Ledger, userId: string, item: SaleItem, rest: seq<SaleItem>,
                   customer: Option<string>, stamp: Stamp, restStamps: seq<Stamp>)
    requires |restStamps| == |rest| && ItemBounds(item) && AllBounded(rest)
    ensures var st := Sell(l, userId, item, customer, stamp, true);
      Prepend(done, SellBatch(l, userId, [item] + rest, customer, [stamp] + restStamps))
        == if st.result.Err? then BatchStep(l, Err(st.result.error))
           else Prepend(done + [st.result.value], SellBatch(st.ledger, userId, rest, customer, restStamps))
  {
    var st := Sell(l, userId, item, customer, stamp, true);
    assert ([item] + rest)[1..] == rest && ([stamp] + restStamps)[1..] == restStamps;
    if st.result.Ok? {
      PrependTwice(done, st.result.value, SellBatch(st.ledger, userId, rest, customer, restStamps));
    }
  }

  /** A sale step never adds or drops a product, nor renames one. */
  lemma SellKeepsNames(l: Ledger, userId: string, item: SaleItem, customer: Option<string>, stamp: Stamp, batch: bool)
    requires ItemBounds(item)
    ensures var r := Sell(l, userId, item, customer, stamp, batch);
      && r.ledger.products.Keys == l.products.Keys
      && forall id | id in l.products :: r.ledger.products[id].name == l.products[id].name
  {
  }

  /** Total quantity the items ask of one product. */
  function Demand(items: seq<SaleItem>, id: string): real
  {
    if items == [] then 0.0
    else (if items[0].productId == id then items[0].quantity else 0.0) + Demand(items[1..], id)
  }

  /** A successful batch returns one sale per item, in item order, all carrying
      the batch customer and the product's name, and appends exactly those. */
  lemma BatchRecordsEveryItem(l: Ledger, userId: string, items: seq<SaleItem>,
                              customer: Option<string>, stamps: seq<Stamp>)
    requires |stamps| == |items| && AllBounded(items)
    ensures var b := SellBatch(l, userId, items, customer, stamps);
      b.result.Ok? ==>
        && |b.result.value| == |items|
        && b.ledger.sales == l.sales + b.result.value
        && (forall j | 0 <= j < |items| ::
              && RecordsItem(b.result.value[j], userId, items[j], customer, stamps[j])
              && items[j].productId in l.products
              && b.result.value[j].productName == l.products[items[j].productId].name)
  {
    var b := SellBatch(l, userId, items, customer, stamps);
    if b.result.Ok? {
      BatchAppends(l, userId, items, customer, stamps);
      forall j | 0 <= j < |items|
        ensures RecordsItem(b.result.value[j], userId, items[j], customer, stamps[j])
        ensures items[j].productId in l.products
        ensures b.result.value[j].productName == l.products[items[j].productId].name
      {
        BatchItem(l, userId, items, customer, stamps, j);
      }
    }
  }

  /** A successful batch appends one sale per item to the sale store. */
  lemma {:induction false} BatchAppends(l: Ledger, userId: string, items: seq<SaleItem>,
                                        customer: Option<string>, stamps: seq<Stamp>)
    requires |stamps| == |items| && AllBounded(items)
    ensures var b := SellBatch(l, userId, items, customer, stamps);
      b.result.Ok? ==> |b.result.value| == |items| && b.ledger.sales == l.sales + b.result.value
    decreases |items|
  {
    var b := SellBatch(l, userId, items, customer, stamps);
    if items != [] && b.result.Ok? {
      var first := Sell(l, userId, items[0], customer, stamps[0], true);
      var rest := SellBatch(first.ledger, userId, items[1..], customer, stamps[1..]);
      BatchAppends(first.ledger, userId, items[1..], customer, stamps[1..]);
      assert b.result.value == [first.result.value] + rest.result.value;
    }
  }

  /** The sale a successful batch records for item j. */
  lemma {:induction false} BatchItem(l: Ledger, userId: string, items: seq<SaleItem>,
                                     customer: Option<string>, stamps: seq<Stamp>, j: int)
    requires |stamps| == |items| && AllBounded(items) && 0 <= j < |items|
    requires SellBatch(l, userId, items, customer, stamps).result.Ok?
    ensures var v := SellBatch(l, userId, items, customer, stamps).result.value;
      && j < |v|
      && RecordsItem(v[j], userId, items[j], customer, stamps[j])
      && items[j].productId in l.products
      && v[j].productName == l.products[items[j].productId].name
    decreases j
  {
    var first := Sell(l, userId, items[0], customer, stamps[0], true);
    var rest := SellBatch(first.ledger, userId, items[1..], customer, stamps[1..]);
    assert SellBatch(l, userId, items, customer, stamps).result.value == [first.result.value] + rest.result.value;
    if j > 0 {
      BatchItem(first.ledger, userId, items[1..], customer, stamps[1..], j - 1);
      SellKeepsNames(l, userId, items[0], customer, stamps[0], true);
      assert items[1..][j - 1] == items[j] && stamps[1..][j - 1] == stamps[j];
    }
  }

  /** A failing batch failed at some item k: the stores are exactly what the
      first k items left behind (their decrements and sales stay), item k was
      refused there, and nothing after k ran. */
  lemma {:induction false} BatchStopsAtFirstFailure(l: Ledger, userId: string, items: seq<SaleItem>,
                                                    customer: Option<string>, stamps: seq<Stamp>)
    requires |stamps| == |items| && AllBounded(items)
    ensures var b := SellBatch(l, userId, items, customer, stamps);
      b.result.Err? ==>
        exists k :: 0 <= k < |items| &&
          var before := SellBatch(l, userId, items[..k], customer, stamps[..k]);
          && before.result.Ok?
          && b.ledger == before.ledger
          && Sell(before.ledger, userId, items[k], customer, stamps[k], true).result == Err(b.result.error)
    decreases |items|
  {
    var b := SellBatch(l, userId, items, customer, stamps);
    if items != [] && b.result.Err? {
      var first := Sell(l, userId, items[0], customer, stamps[0], true);
      if first.result.Err? {
        assert items[..0] == [] && stamps[..0] == [];
        var before := SellBatch(l, userId, items[..0], customer, stamps[..0]);
        assert before.result.Ok? && before.ledger == l;
      } else {
        var l' := first.ledger;
        BatchStopsAtFirstFailure(l', userId, items[1..], customer, stamps[1..]);
        var k' :| 0 <= k' < |items[1..]| &&
          var before := SellBatch(l', userId, items[1..][..k'], customer, stamps[1..][..k']);
          && before.result.Ok?
          && b.ledger == before.ledger
          && Sell(before.ledger, userId, items[1..][k'], customer, stamps[1..][k'], true).result == Err(b.result.error);
        var k := k' + 1;
        PrefixUnfold(l, userId, items, customer, stamps, k);
        assert items[1..][k'] == items[k] && stamps[1..][k'] == stamps[k];
      }
    }
  }

  /** A batch of the first k items whose first item is sold is that sale
      followed by the batch of the next k - 1 items on the stores it left. */
  lemma PrefixUnfold(l: Ledger, userId: string, items: seq<SaleItem>, customer: Option<string>,
                     stamps: seq<Stamp>, k: int)
    requires |stamps| == |items| && AllBounded(items) && 1 <= k <= |items|
    ensures var first := Sell(l, userId, items[0], customer, stamps[0], true);
      first.result.Ok? ==>
        SellBatch(l, userId, items[..k], customer, stamps[..k])
          == Prepend([first.result.value], SellBatch(first.ledger, userId, items[1..][..k - 1], customer, stamps[1..][..k - 1]))
  {
    assert items[..k][0] == items[0] && items[..k][1..] == items[1..][..k - 1];
    assert stamps[..k][0] == stamps[0] && stamps[..k][1..] == stamps[1..][..k - 1];
  }

  /** Whatever the outcome, a batch only lowers stock, by what the items
      asked, and never below zero: if every stock was at least 0 before, every
      stock is at least 0 after. On success each product lost exactly its
      demand; no record changes in any other field and none appears or goes. */
  lemma {:induction false} BatchStockConservation(l: Ledger, userId: string, items: seq<SaleItem>,
                                                  customer: Option<string>, stamps: seq<Stamp>)
    requires |stamps| == |items| && AllBounded(items)
    ensures var b := SellBatch(l, userId, items, customer, stamps);
      && b.ledger.products.Keys == l.products.Keys
      && (forall id | id in l.products ::
            b.ledger.products[id] == l.products[id].(stock := b.ledger.products[id].stock))
      && (forall id | id in l.products && l.products[id].stock >= 0.0 :: b.ledger.products[id].stock >= 0.0)
      && (b.result.Ok? ==> forall id | id in l.products ::
            b.ledger.products[id].stock == l.products[id].stock - Demand(items, id))
    decreases |items|
  {
    if items != [] {
      var first := Sell(l, userId, items[0], customer, stamps[0], true);
      if first.result.Ok? {
        BatchStockConservation(first.ledger, userId, items[1..], customer, stamps[1..]);
      }
    }
  }

  // ---------------------------------------------------------------- queries

  /** The inclusive window findAll applies; either bound may be absent. */
  predicate InBounds(t: int, startDate: Option<int>, endDate: Option<int>)
  {
    (startDate.None? || startDate.value <= t) && (endDate.None? || t <= endDate.value)
  }

  /** The caller's sales inside the window, in store order. */
  function Matching(sales: seq<Sale>, userId: string, startDate: Option<int>, endDate: Option<int>)
    : (r: seq<Sale>)
    ensures forall s :: s in r <==>
      s in sales && s.userId == userId && InBounds(s.saleDate.time, startDate, endDate)
    ensures |r| <= |sales|
  {
    if sales == [] then []
    else
      var last := sales[|sales| - 1];
      assert sales == sales[..|sales| - 1] + [last];
      Matching(sales[..|sales| - 1], userId, startDate, endDate)
        + (if last.userId == userId && InBounds(last.saleDate.time, startDate, endDate) then [last] else [])
  }

  function FirstWithId(sales: seq<Sale>, userId: string, id: string): (r: Option<Sale>)
    ensures r.Some? ==> r.value in sales && r.value.id == id && r.value.userId == userId
    ensures r.None? ==> forall s | s in sales :: !(s.id == id && s.userId == userId)
  {
    if sales == [] then None
    else if sales[0].id == id && sales[0].userId == userId then Some(sales[0])
    else FirstWithId(sales[1..], userId, id)
  }

  /** The first and last millisecond of now's local day. */
  function TodayStart(now: DateTime): int
  {
    StartOfDay(now.Day())
  }

  function TodayEnd(now: DateTime): int
  {
    StartOfDay(now.Day()) + MsPerDay - 1
  }

  lemma TodayIsDay(sales: seq<Sale>, now: DateTime)
    ensures forall s | s in sales ::
      InBounds(s.saleDate.time, Some(TodayStart(now)), Some(TodayEnd(now))) <==> s.saleDate.Day() == now.Day()
  {
    forall s | s in sales
      ensures InBounds(s.saleDate.time, Some(TodayStart(now)), Some(TodayEnd(now))) <==> s.saleDate.Day() == now.Day()
    {
      WithinDay(s.saleDate.time, now.Day());
    }
  }

  datatype DayTotal = DayTotal(total: real, count: nat)

  /** getTodaysTotal as written: `sales.reduce((sum, sale) => sum + sale.total, 0)`
      over the decimal column, which the database driver hands over as text.
      `0 + "12.50"` is the string "012.50", and every further `+` appends. */
  function TodaysTotalAsWritten(totals: seq<string>): (r: JsValue)
    ensures totals == [] <==> r == Num(0.0)
    ensures totals != [] ==>
      r.Str? && |r.s| == 1 + Lengths(totals) && r.s[0] == '0' && r.s[1..] == Join(totals)
  {
    if totals == [] then Num(0.0) else Str("0" + Join(totals))
  }

  /** The texts laid end to end, in order. */
  function Join(parts: seq<string>): (r: string)
    ensures |r| == Lengths(parts)
    ensures parts != [] ==> r[..|parts[0]|] == parts[0]
  {
    if parts == [] then "" else parts[0] + Join(parts[1..])
  }

  function Lengths(parts: seq<string>): nat
  {
    if parts == [] then 0 else |parts[0]| + Lengths(parts[1..])
  }

  /** Joining one more text appends it at the end. */
  lemma {:induction false} JoinSnoc(parts: seq<string>, t: string)
    ensures Join(parts + [t]) == Join(parts) + t
  {
    if parts != [] {
      assert (parts + [t])[1..] == parts[1..] + [t];
      JoinSnoc(parts[1..], t);
    }
  }

  /** The reduce step by step: the first sale turns the starting 0 into the
      text "0" followed by its total, and every later sale appends its total
      to the text so far. */
  lemma TotalAppendsEachSale(totals: seq<string>, t: string)
    ensures TodaysTotalAsWritten([t]) == Str("0" + t)
    ensures totals != [] ==>
      TodaysTotalAsWritten(totals + [t]) == Str(TodaysTotalAsWritten(totals).s + t)
  {
    FirstSaleTotal(t);
    if totals != [] {
      LaterSaleTotal(totals, t);
    }
  }

  lemma FirstSaleTotal(t: string)
    ensures TodaysTotalAsWritten([t]) == Str("0" + t)
  {
    assert [t][1..] == [];
    assert Join([t]) == t + Join([]);
  }

  lemma LaterSaleTotal(totals: seq<string>, t: string)
    requires totals != []
    ensures TodaysTotalAsWritten(totals + [t]) == Str(TodaysTotalAsWritten(totals).s + t)
  {
    JoinSnoc(totals, t);
    assert "0" + (Join(totals) + t) == ("0" + Join(totals)) + t;
  }

  /** Two sales of 1.00 and 2.00 give the text "01.002.00", not the number 3. */
  lemma TotalConcatenatesText()
    ensures TodaysTotalAsWritten(["1.00", "2.00"]) == Str("01.002.00")
    ensures TodaysTotalAsWritten(["1.00", "2.00"]) != Num(3.0)
  {
    assert Join(["1.00", "2.00"]) == "1.00" + Join(["2.00"]);
    assert Join(["2.00"]) == "2.00" + Join([]);
  }

  predicate IdsDistinct(sales: seq<Sale>)
  {
    forall a, b | 0 <= a < b < |sales| :: sales[a].id != sales[b].id
  }

  predicate FreshId(sales: seq<Sale>, id: string)
  {
    forall s | s in sales :: s.id != id
  }

  /** A sale with a new id keeps the ids distinct. */
  lemma AppendFreshKeepsDistinct(sales: seq<Sale>, sale: Sale)
    requires IdsDistinct(sales) && FreshId(sales, sale.id)
    ensures IdsDistinct(sales + [sale])
  {
    forall a, b | 0 <= a < b < |sales + [sale]|
      ensures (sales + [sale])[a].id != (sales + [sale])[b].id
    {
      if b == |sales| {
        assert sales[a] in sales;
      }
    }
  }

  /** The ids the batch will store are new and pairwise different. */
  predicate FreshStamps(sales: seq<Sale>, stamps: seq<Stamp>)
  {
    && (forall j | 0 <= j < |stamps| :: FreshId(sales, stamps[j].saleId))
    && (forall j, k | 0 <= j < k < |stamps| :: stamps[j].saleId != stamps[k].saleId)
  }

  /** After the sale stamped with stamps[i] is stored, the later stamps'
      ids are still new. */
  lemma StampsStayFresh(sales: seq<Sale>, sale: Sale, stamps: seq<Stamp>, i: nat)
    requires i < |stamps| && sale.id == stamps[i].saleId
    requires forall m | i <= m < |stamps| :: FreshId(sales, stamps[m].saleId)
    requires forall j, k | 0 <= j < k < |stamps| :: stamps[j].saleId != stamps[k].saleId
    ensures forall m | i + 1 <= m < |stamps| :: FreshId(sales + [sale], stamps[m].saleId)
  {
    forall m, s | i + 1 <= m < |stamps| && s in sales + [sale]
      ensures s.id != stamps[m].saleId
    {
      if s !in sales {
        assert s == sale;
      }
    }
  }

  /** One createMultiple iteration on values: with the batch so far
      accounted for by `done`, item i either ends the batch with its error
      or joins `done`, the later stamps staying fresh. */
  lemma BatchLoopStep(start: Ledger, done: seq<Sale>, l: Ledger, userId: string, items: seq<SaleItem>,
                      customer: Option<string>, stamps: seq<Stamp>, i: nat)
    requires i < |items| == |stamps| && AllBounded(items)
    requires SellBatch(start, userId, items, customer, stamps)
      == Prepend(done, SellBatch(l, userId, items[i..], customer, stamps[i..]))
    requires forall m | i <= m < |stamps| :: FreshId(l.sales, stamps[m].saleId)
    requires forall j, k | 0 <= j < k < |stamps| :: stamps[j].saleId != stamps[k].saleId
    ensures var st := Sell(l, userId, items[i], customer, stamps[i], true);
      && (st.result.Err? ==> SellBatch(start, userId, items, customer, stamps) == BatchStep(l, Err(st.result.error)))
      && (st.result.Ok? ==>
            && SellBatch(start, userId, items, customer, stamps)
                 == Prepend(done + [st.result.value], SellBatch(st.ledger, userId, items[i + 1..], customer, stamps[i + 1..]))
            && forall m | i + 1 <= m < |stamps| :: FreshId(st.ledger.sales, stamps[m].saleId))
  {
    BatchAt(done, l, userId, items, customer, stamps, i);
    var st := Sell(l, userId, items[i], customer, stamps[i], true);
    if st.result.Ok? {
      SellStoresStamp(l, userId, items[i], customer, stamps[i]);
      StampsStayFresh(l.sales, st.result.value, stamps, i);
    }
  }

  /** BatchFirst at position i of the items. */
  lemma BatchAt(done: seq<Sale>, l: Ledger, userId: string, items: seq<SaleItem>,
                customer: Option<string>, stamps: seq<Stamp>, i: nat)
    requires i < |items| == |stamps| && AllBounded(items)
    ensures var st := Sell(l, userId, items[i], customer, stamps[i], true);
      Prepend(done, SellBatch(l, userId, items[i..], customer, stamps[i..]))
        == if st.result.Err? then BatchStep(l, Err(st.result.error))
           else Prepend(done + [st.result.value], SellBatch(st.ledger, userId, items[i + 1..], customer, stamps[i + 1..]))
  {
    assert items[i..] == [items[i]] + items[i + 1..] && stamps[i..] == [stamps[i]] + stamps[i + 1..];
    BatchFirst(done, l, userId, items[i], items[i + 1..], customer, stamps[i], stamps[i + 1..]);
  }

  /** A successful step stores one more sale, under the stamp's id. */
  lemma SellStoresStamp(l: Ledger, userId: string, item: SaleItem, customer: Option<string>, stamp: Stamp)
    requires ItemBounds(item)
    ensures var st := Sell(l, userId, item, customer, stamp, true);
      st.result.Ok? ==> st.ledger.sales == l.sales + [st.result.value] && st.result.value.id == stamp.saleId
  {
  }

  /** The sale store; it reaches the catalog through the products service, as
      the source's dependency injection does. */
  class SalesService {
    var sales: seq<Sale>
    const productsService: Products.ProductsService

    ghost predicate Valid()
      reads this, productsService
    {
      productsService.Valid() && IdsDistinct(sales)
    }

    constructor (catalog: Products.ProductsService, initial: seq<Sale>)
      requires catalog.Valid() && IdsDistinct(initial)
      ensures Valid() && productsService == catalog && sales == initial
    {
      productsService := catalog;
      sales := initial;
    }

    /** The steps create and each createMultiple iteration share: the stores
        and the result are exactly one Sell step. */
    method SellOne(userId: string, item: SaleItem, customer: Option<string>, stamp: Stamp, batch: bool)
      returns (r: Result<Sale>)
      requires Valid() && ItemBounds(item) && FreshId(sales, stamp.saleId)
      modifies this, productsService
      ensures Valid()
      ensures var step := Sell(old(Ledger(productsService.products, sales)), userId, item, customer, stamp, batch);
        Ledger(productsService.products, sales) == step.ledger && r == step.result
    {
      ghost var before := Ledger(productsService.products, sales);
      var found := Products.FindOne(productsService.products, userId, item.productId);
      if found.Err? {
        return Err(found.error);
      }
      var product := found.value;
      if product.stock < item.quantity {
        return Err(BadRequest(ShortageMessage(product, batch)));
      }
      var _ := productsService.UpdateStock(userId, item.productId, item.quantity);
      var sale := Sale(stamp.saleId, userId, item.productId, product.name, item.quantity,
                       item.price, item.quantity * item.price, customer, stamp.saleDate);
      AppendFreshKeepsDistinct(sales, sale);
      sales := sales + [sale];
      r := Ok(sale);
      SellSucceeds(before, userId, item, customer, stamp, batch);
    }

    /** create: one sale, with the fixed shortage message. */
    method Create(userId: string, item: SaleItem, customer: Option<string>, stamp: Stamp)
      returns (r: Result<Sale>)
      requires Valid() && ItemBounds(item) && FreshId(sales, stamp.saleId)
      modifies this, productsService
      ensures Valid()
      ensures var step := Sell(old(Ledger(productsService.products, sales)), userId, item, customer, stamp, false);
        Ledger(productsService.products, sales) == step.ledger && r == step.result
    {
      r := SellOne(userId, item, customer, stamp, false);
    }

    /** createMultiple: the stores and the result are exactly SellBatch, so a
        failure leaves the earlier items applied. */
    method CreateMultiple(userId: string, items: seq<SaleItem>, customer: Option<string>, stamps: seq<Stamp>)
      returns (r: Result<seq<Sale>>)
      requires Valid() && |stamps| == |items| && AllBounded(items) && FreshStamps(sales, stamps)
      modifies this, productsService
      ensures Valid()
      ensures var b := SellBatch(old(Ledger(productsService.products, sales)), userId, items, customer, stamps);
        Ledger(productsService.products, sales) == b.ledger && r == b.result
    {
      ghost var start := Ledger(productsService.products, sales);
      var done: seq<Sale> := [];
      var i := 0;
      assert items[0..] == items && stamps[0..] == stamps;
      PrependNothing(SellBatch(start, userId, items, customer, stamps));
      while i < |items|
        invariant 0 <= i <= |items|
        invariant Valid()
        invariant forall m | i <= m < |stamps| :: FreshId(sales, stamps[m].saleId)
        invariant SellBatch(start, userId, items, customer, stamps)
          == Prepend(done, SellBatch(Ledger(productsService.products, sales), userId, items[i..], customer, stamps[i..]))
      {
        ghost var before := Ledger(productsService.products, sales);
        BatchLoopStep(start, done, before, userId, items, customer, stamps, i);
        var sale := SellOne(userId, items[i], customer, stamps[i], true);
        if sale.Err? {
          return Err(sale.error);
        }
        done := done + [sale.value];
        i := i + 1;
      }
      assert items[i..] == [] && done + [] == done;
      r := Ok(done);
    }

    /** findAll: exactly the caller's sales with start <= saleDate <= end
        (each bound optional), latest first. */
    function FindAll(userId: string, startDate: Option<int>, endDate: Option<int>): (r: seq<Sale>)
      reads this
      ensures forall s :: s in r <==>
        s in sales && s.userId == userId && InBounds(s.saleDate.time, startDate, endDate)
      ensures multiset(r) == multiset(Matching(sales, userId, startDate, endDate))
      ensures SortedDesc(r, SaleTime)
    {
      var m := Matching(sales, userId, startDate, endDate);
      var r := SortDesc(m, SaleTime);
      assert forall s :: s in r <==> s in multiset(r);
      assert forall s :: s in m <==> s in multiset(m);
      r
    }

    /** findOne: the caller's sale with that id, or absent (no failure). */
    function FindOne(userId: string, id: string): (r: Option<Sale>)
      reads this
      ensures r.Some? ==> r.value in sales && r.value.id == id && r.value.userId == userId
      ensures r.None? <==> forall s | s in sales :: !(s.id == id && s.userId == userId)
    {
      FirstWithId(sales, userId, id)
    }

    /** getTodaysSales: the caller's sales whose local day is now's, latest first. */
    function TodaysSales(userId: string, now: DateTime): (r: seq<Sale>)
      reads this
      ensures forall s :: s in r <==> s in sales && s.userId == userId && s.saleDate.Day() == now.Day()
      ensures SortedDesc(r, SaleTime)
    {
      TodayIsDay(sales, now);
      FindAll(userId, Some(TodayStart(now)), Some(TodayEnd(now)))
    }

    /** getTodaysTotal, with the numeric sum the code evidently intends:
        count is the number of today's sales and total the sum of their
        totals, independent of the order the query returns them in. */
    function TodaysTotal(userId: string, now: DateTime): (r: DayTotal)
      reads this
      ensures var today := Matching(sales, userId, Some(TodayStart(now)), Some(TodayEnd(now)));
        r.count == |today| && r.total == SumMap(today, TotalOf)
    {
      var ts := TodaysSales(userId, now);
      var today := Matching(sales, userId, Some(TodayStart(now)), Some(TodayEnd(now)));
      SumMapPerm(ts, today, TotalOf);
      assert |ts| == |multiset(ts)| == |multiset(today)| == |today|;
      DayTotal(SumMap(ts, TotalOf), |ts|)
    }
  }
}
