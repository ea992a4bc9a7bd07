# Shop backend core, modelled in Dafny

This project models the business logic of a NestJS shop backend. It has three services:

- **ProductsService**, the catalog. It looks up the caller's product by id; decrements stock;
  soft-deletes a product by clearing `isActive`; applies partial updates; and answers the
  filter queries: listing by category and search text, low stock, distinct categories, and
  lookup by barcode, SKU or name.
- **SalesService**, the till. `create` checks stock, decrements it, and appends an immutable
  sale carrying the product's name and `total = quantity * price`. `createMultiple` runs the
  same step per item, in order. It stops at the first failing item and does not roll back the
  items before it. The queries are the date-window listing, one sale by id, today's sales and
  today's total.
- **ReportsService**, the analytics:
  - the period window `[start of the start day, now]`;
  - sales bucketed by day, week, month, quarter, half-year or year, with sums, counts,
    average order value and unique customers;
  - the category roll-up with an `"Unknown"` fallback;
  - the top products with their profit;
  - the inventory valuation;
  - the dashboard totals.

The database tables become in-memory stores:
- `Products.ProductsService.products` is a `map` from product id to record.
- `Sales.SalesService.sales` is a `seq` in insertion order.
- The sales service reaches the catalog through its `productsService` field, as dependency
  injection wires it in the source.

The report queries read the two tables as values: the sale rows as a `seq<Sale>`, and the
product rows as a `seq<Product>`, or as a `map` keyed by id for the left join.

Other modelling choices:
- **Money and quantities** are exact `real`s.
- **Time values** are local milliseconds since the epoch. A `Calendar.DateTime` carries a time
  value together with the calendar fields JavaScript derives from it (year, month 0–11, date,
  weekday). `DateTime.Valid` ties the fields to the time value through ECMAScript's MakeDay
  day numbering. So `setDate`/`setMonth`/`setFullYear` with an out-of-range date overflow into
  the next month exactly as JavaScript does.
- **Inputs from outside**: the clock reading `now` and the generated sale ids and sale dates
  (`Stamp`) are parameters.
- **The validation DTOs' bounds** become `requires`:
  - a sale item needs quantity ≥ 1 and price ≥ 0;
  - a product update may only supply amounts ≥ 0.

Where the two services disagree the model follows each as written. The inventory report's
`lowStockProducts` counts `stock <= minStock`, inclusive, while `getLowStock` lists
`stock < minStock`; `Inventory.LowStockInclusive` states the difference.

The modules are:
- `Products` (products.dfy)
- `Sales` (sales.dfy)
- `Periods` (periods.dfy: getDateRange and the bucket labels)
- `Windows` (windows.dfy)
- `Analytics` (analytics.dfy)
- `Categories` (categories.dfy)
- `TopProducts` (topproducts.dfy)
- `Inventory` (inventory.dfy)
- `Dashboard` (dashboard.dfy)

They rest on small supporting modules:
- `Calendar`
- `Text`: ASCII case folding and substring search
- `Sorting`: a stable sort by a numeric key, descending
- `Sums`
- `Grouping`: first-seen key order, per-key groups, the dictionary-filling loop, and the
  `Object.values` key order, which lists canonical array-index keys first, ascending, and
  then the rest in insertion order
- `Common`
- `Schemas`: the two record types

## Model

| member | source | states |
|---|---|---|
| Products.FindOne | src/products/products.service.ts:41-49 | Succeeds exactly when the id is stored and belongs to the caller, whether or not the product is active, and then returns the stored record; otherwise, for a well-formed id, fails NotFound "Product not found". |
| Products.ProductsService.UpdateStock | src/products/products.service.ts:82-86 | On a found product the new stock is old stock minus quantity, even when that is negative. No other field and no other product changes. Otherwise it is the NotFound of findOne and the store is unchanged. |
| Products.ProductsService.Remove | src/products/products.service.ts:75-80 | Soft delete: the record stays with isActive false and every other field as it was, and the message "Product deleted successfully" is returned. A foreign or missing id gives NotFound and leaves the store unchanged. |
| Products.ProductsService.Update | src/products/products.service.ts:69-73 | A missing or foreign id gives the NotFound of findOne. An explicit null in a field other than barcode, or a sku that another product already has, makes the save fail with a server error. In all three cases the store is unchanged. Otherwise the record becomes ApplyChanges of the old one and nothing else changes. The skus stay unique, and within the DTO's bounds non-negative amounts stay non-negative. |
| Products.UpdateKeepsSkusUnique | src/schemas/product.schema.ts:20-21 | An update the unique sku index lets through keeps every sku in the table distinct. |
| Products.ApplyChanges | src/products/products.service.ts:71 | Object.assign keeps the id, owner, isActive and createdAt of the record. |
| Products.ApplyOverwritesSupplied | src/products/products.service.ts:71 | A given field takes the given value and an absent one keeps the old value; a null barcode becomes no barcode. |
| Products.ApplyIdempotent | src/products/products.service.ts:71 | Applying the same update twice equals applying it once. |
| Products.ApplyNoChanges | src/products/products.service.ts:71 | An empty update leaves the record unchanged. |
| Products.ApplyKeepsBounds | src/products/dto/product.dto.ts:13-27 | A record and an update within the DTO's bounds (amounts ≥ 0) give a record within the bounds. |
| Products.ProductsService.FindAll | src/products/products.service.ts:21-39 | Returns exactly the caller's active products passing the filters, each once, newest first. An absent, empty or 'all' category does not filter. A non-empty search must occur, ignoring case, in the name, the sku or the barcode. |
| Products.ProductsService.GetLowStock | src/products/products.service.ts:98-105 | Exactly the caller's active products with stock strictly below minStock, each once. |
| Products.ProductsService.GetCategories | src/products/products.service.ts:88-96 | A category is listed iff some active product of the caller has it; each is listed once. |
| Products.ProductsService.FindByBarcode | src/products/products.service.ts:51-67 | Any product returned is an active product of the caller whose barcode or sku equals the code, or whose name contains it ignoring case. It fails, with the "Please add it to inventory first" NotFound, iff no product matches. |
| Text.IgnoresCaseOfHay | src/products/products.service.ts:33 | A case-insensitive match does not depend on the case of the searched text. |
| Sales.Sell | src/sales/sales.service.ts:15-42 | One step of create, for a well-formed product id and amounts below 10^8:<br>• It succeeds iff the product is the caller's and its stock is at least the quantity.<br>• A foreign or missing product gives NotFound; a shortage gives BadRequest with the create or batch message. On failure both stores are unchanged.<br>• On success, exactly that product's stock drops by the quantity, and stock ≥ 0 is kept.<br>• On success, exactly one sale is appended, recording the user, product, product name, quantity, price, customer, stamp and total = quantity*price. |
| Sales.SalesService.SellOne | src/sales/sales.service.ts:19-41 | The method leaves both stores and its result exactly as Sell says, and keeps the stores valid (ids as keys, distinct sale ids). |
| Sales.SalesService.Create | src/sales/sales.service.ts:15-42 | create is the Sell step with the message "Insufficient stock". |
| Sales.SalesService.CreateMultiple | src/sales/sales.service.ts:44-72 | The loop leaves the stores and its result exactly as SellBatch says: items in order, each seeing the stock earlier items left, stopping at the first failure without rollback. |
| Sales.BatchRecordsEveryItem | src/sales/sales.service.ts:48-71 | A successful batch returns one sale per item, in item order. Each sale records its item and the batch customer and carries the product's name. Exactly those sales are appended. |
| Sales.BatchStopsAtFirstFailure | src/sales/sales.service.ts:49-55 | A failed batch failed at some item k. The earlier items all succeeded and their effects are exactly the final stores. Item k was refused on those stores with the returned error. Nothing after k ran. |
| Sales.BatchStockConservation | src/sales/sales.service.ts:48-69 | Whatever the outcome, no product appears or disappears and no field but stock changes. A stock ≥ 0 stays ≥ 0. On success each product's stock drops by exactly the quantity the items ask of it. |
| Sales.SalesService.FindAll | src/sales/sales.service.ts:74-88 | Exactly the caller's sales with start ≤ saleDate ≤ end (each bound optional and inclusive), as a permutation of the matching sales, latest first. |
| Sales.SalesService.FindOne | src/sales/sales.service.ts:90-92 | Returns a sale of the caller with that id, or absent iff there is none, for a well-formed id; it does not fail on such an id. |
| Sales.SalesService.TodaysSales | src/sales/sales.service.ts:94-102 | Exactly the caller's sales whose local day is today's, latest first. |
| Sales.TodayIsDay | src/sales/sales.service.ts:95-99 | A time lies between 00:00:00.000 and 23:59:59.999 of now's day iff its day number is now's. |
| Sales.SalesService.TodaysTotal | src/sales/sales.service.ts:104-108 | count is the number of today's sales; total is the numeric sum of their totals, the same whatever order they come in. |
| Sales.TodaysTotalAsWritten | src/sales/sales.service.ts:106 | The reduce as written over decimal columns delivered as text: the result is the number 0 only when there are no sales. Otherwise it is text: the character "0" followed by the totals laid end to end, as long as 1 plus their lengths. |
| Sales.TotalAppendsEachSale | src/sales/sales.service.ts:106 | Step by step: the first sale turns the starting 0 into "0" followed by its total, and each later sale appends its total to the text so far. |
| Sales.TotalConcatenatesText | src/sales/sales.service.ts:106 | Two sales of 1.00 and 2.00 give the text "01.002.00", not 3. |
| Periods.ParsePeriod | src/reports/reports.service.ts:18-44 | The parsed period names the query text, and Other is returned only for text that names no period. |
| Periods.DateRange | src/reports/reports.service.ts:14-47 | The window ends at now and starts at a local midnight, on the day the period's setDate/setMonth/setFullYear reaches. |
| Periods.DateRangeBounds | src/reports/reports.service.ts:14-47 | start ≤ end. The start day is today for daily (and an unknown period), 7 days back for weekly, 28–31 days per month back for monthly, quarterly and semi-annual, and 365–366 days back for annual. |
| Periods.Lookback | src/reports/reports.service.ts:18-44 | How many days back each period's start day lies, from the calendar arithmetic. |
| Calendar.ShiftMonthsBack | src/reports/reports.service.ts:27 | The same date k months back, with JavaScript's overflow, lies between 28k and 31k days back. |
| Periods.YearBack | src/reports/reports.service.ts:39 | The same date one year back lies 365 or 366 days back. |
| Calendar.ShiftDaysBack | src/reports/reports.service.ts:23 | setDate(date − n) moves exactly n days back. |
| Periods.UnknownIsDaily | src/reports/reports.service.ts:42-43 | An unknown period gets the daily window. |
| Periods.BucketOf | src/reports/reports.service.ts:69-100 | The quarter key is month/3 + 1, in 1..4, and contains the month. The half key is H1 iff month < 6. The weekly key is the Sunday starting the sale's week, within the last 7 days. |
| Windows.InWindow | src/reports/reports.service.ts:52-60 | A sale is in the window iff it is the caller's and start ≤ saleDate ≤ end. |
| Analytics.Finish | src/reports/reports.service.ts:126-133 | A row carries its entry's sums and count and the size of its customer set. avgOrderValue * salesCount = totalSales when there are sales, and the average is 0 otherwise. |
| Analytics.BucketsOf | src/reports/reports.service.ts:62-133 | One bucket per distinct label, in Object.values order, each finishing the entry of exactly the window's sales with that label. No two buckets share a label. |
| Analytics.GetSalesAnalytics | src/reports/reports.service.ts:49-136 | The forEach that fills the dictionary, followed by Object.values(...).map, gives exactly the analytics of the caller's in-window sales. |
| Analytics.BucketsConserve | src/reports/reports.service.ts:112-114 | The buckets' totalSales, totalQuantity and salesCount add up to the window's revenue, quantity and number of sales. |
| Analytics.BucketShape | src/reports/reports.service.ts:117-132 | Every bucket has 1 ≤ uniqueCustomers ≤ salesCount. |
| Analytics.BucketCustomersCount | src/reports/reports.service.ts:117-122 | With distinct sale ids and no customer literally named anonymous_…, uniqueCustomers = distinct customer names + anonymous sales. |
| Analytics.UniqueCustomersCount | src/reports/reports.service.ts:117-122 | The customer set of a group has exactly (distinct names + anonymous sales) members, under the same conditions. |
| Analytics.AccFold | src/reports/reports.service.ts:102-122 | The entry the loop builds for a label is the sums, the count and the customer tokens of that label's sales. |
| Grouping.GroupInto | src/reports/reports.service.ts:65-123 | The dictionary-filling loop yields the fold of each key's records, and its keys in first-seen order. |
| Grouping.GroupedEntry | src/reports/reports.service.ts:102-114 | A key's entry is the fold of exactly the records with that key, in order. |
| Grouping.GroupsPartition | src/reports/reports.service.ts:208-221 | Summing any quantity over the groups of the distinct keys gives its sum over all records. |
| Grouping.ObjectOrder | src/reports/reports.service.ts:126 | Object.values order is a permutation of the insertion order. Array-index keys come first, ascending, and the other keys end the list in their insertion order. |
| Grouping.ObjectOrderPlain | src/reports/reports.service.ts:223 | Without array-index keys, Object.values keeps insertion order. |
| Categories.Queried | src/reports/reports.service.ts:193-199 | The product query returns exactly the caller's rows whose id is among the window's product ids. |
| Categories.BuildCategoryMap | src/reports/reports.service.ts:201-204 | The forEach builds the id-to-category map in which a later row overwrites an earlier one. |
| Categories.CategoryMapEntries | src/reports/reports.service.ts:201-204 | Every queried row's id has an entry, and each entry is the category of some row with that id. |
| Categories.CategoryOf | src/reports/reports.service.ts:209 | A missing entry and an empty category fall back to "Unknown"; the result is never empty. |
| Categories.CategoryRows | src/reports/reports.service.ts:206-223 | One row per distinct category, in Object.values order, each summing exactly that category's sales; no two rows share a category. |
| Categories.GetCategoryAnalytics | src/reports/reports.service.ts:182-224 | The two loops and Object.values give exactly the category analytics of the caller's in-window sales. |
| Categories.CategoriesConserve | src/reports/reports.service.ts:208-221 | Every in-window sale counts in exactly one category: the rows' sums and counts equal the window's. |
| Categories.CategoryRowsAsWritten | src/reports/reports.service.ts:206-223 | The rows as the source computes them over a plain object: no row is named like a member of Object.prototype. |
| Categories.AsWrittenAgrees | src/reports/reports.service.ts:206-223 | When no category is named like a member of Object.prototype, the rows as written are the intended rows. |
| Categories.InheritedCategoryDropped | src/reports/reports.service.ts:206-221 | A single sale filed under "constructor" has its own row in the intended result, but the rows as written are empty and add up to 0. |
| Categories.CategoryAnalyticsAsWritten | src/reports/reports.service.ts:193-199 | getCategoryAnalytics as written fails with a server error exactly when the window holds no sales. |
| Categories.EmptyWindowNoCategories | src/reports/reports.service.ts:182-224 | The intended result is empty exactly when the window holds no sales. |
| Categories.CategoriesNonEmpty | src/reports/reports.service.ts:208-217 | Every category row counts at least one sale. |
| Categories.UnresolvedIsUnknown | src/reports/reports.service.ts:209 | A sale whose product is not among the caller's products is filed under "Unknown". |
| Categories.ResolvedCategory | src/reports/reports.service.ts:195-209 | A sale of the caller's product is filed under that product's category, or under "Unknown" when the category is empty. |
| Categories.PlainCategoriesInOrder | src/reports/reports.service.ts:223 | With no numeric category names, the rows come in the order their categories are first met. |
| TopProducts.Ranked | src/reports/reports.service.ts:159-160 | ORDER BY revenue DESC then LIMIT: sorted by non-increasing revenue, at most limit rows, drawn from the grouped rows. |
| TopProducts.RankedIsTop | src/reports/reports.service.ts:159-160 | No row cut off by the limit earns more than any row kept. |
| TopProducts.TopProductsOrder | src/reports/reports.service.ts:141-179 | At most limit rows, no more than the window's sales, in non-increasing order of revenue. |
| TopProducts.RawRowIsProductSales | src/reports/reports.service.ts:141-158 | A grouped row sums exactly one product's in-window sales under one recorded name. Its joined sku, category and cost are the product's, or null when the join finds none. |
| TopProducts.TopProductRow | src/reports/reports.service.ts:163-178 | Every result row describes its product's sales:<br>• profit = revenue − cost*totalQuantity, where a missing product's null cost counts as 0;<br>• stockTurnover is 0;<br>• the count is at least 1. |
| TopProducts.TopProductsConserve | src/reports/reports.service.ts:141-161 | When the limit cuts nothing, the rows' revenues and counts add up to the window's. |
| Inventory.ActiveRows | src/reports/reports.service.ts:252-254 | Exactly the caller's active products. |
| Inventory.InventoryCounts | src/reports/reports.service.ts:256-258 | With minimum stocks ≥ 0: outOfStock ≤ lowStock ≤ totalProducts. |
| Inventory.LowStockInclusive | src/reports/reports.service.ts:257 | lowStock counts the products getLowStock lists (strictly below the minimum) plus those exactly at it. |
| Inventory.PotentialProfit | src/reports/reports.service.ts:259-268 | potentialProfit = retail value − inventory value = Σ (price − cost) * stock, which is ≥ 0 when no price is below cost and no stock is negative. |
| Inventory.ValuesNonNegative | src/reports/reports.service.ts:259-260 | Within the product DTO's bounds, both stock valuations are ≥ 0. |
| Dashboard.AggregateSums | src/reports/reports.service.ts:279-285 | aggregateData's reduce gives the column sums of totalSales, salesCount and uniqueCustomers. |
| Dashboard.GetDashboardStats | src/reports/reports.service.ts:272-312 | The three analytics runs, each at its own clock reading, and the inventory status assemble exactly DashboardOf. |
| Dashboard.DashboardSums | src/reports/reports.service.ts:287-304 | Each period's sales is its window's revenue and its orders the number of sales in it. |
| Dashboard.WindowsNest | src/reports/reports.service.ts:273-275 | At one clock reading, the monthly window contains the weekly one, which contains today's. |
| Dashboard.ReadingsNest | src/reports/reports.service.ts:273-275 | For three successive clock readings within seven days, each window starts no later and ends no earlier than the one read before it. |
| Dashboard.DashboardNested | src/reports/reports.service.ts:291-304 | For three successive clock readings within seven days: today's orders ≤ the week's ≤ the month's. The same holds for sales while sale totals are ≥ 0. |
| Dashboard.CustomersAtMostOrders | src/reports/reports.service.ts:292-296 | Today's customers never exceed today's orders. |

## Left out

- `ProductsService.create` and the controllers, modules and bootstrap are not part of this
  model. They are record creation, HTTP routing, dependency wiring and configuration.
- `getSalesTrend` is not modelled. It is a SQL `TO_CHAR` / `GROUP BY` query with no
  in-service logic.
- The check-then-decrement race between concurrent sales is not modelled. Requests run one
  at a time here.
- `Number` floating point and the decimal(10,2) rounding on save are not modelled. Amounts
  are exact reals.
- Date handling:
  - Time zones are not modelled. Times are local milliseconds.
  - `toLocaleDateString` label text is not modelled. Labels are kept as the fields they are
    printed from, except the weekly label: the source prints the Sunday's month and day
    without its year, and the model keys it by the Sunday's day number. The two agree inside
    the seven-day weekly window, where no two Sundays share a month and day.
  - The driver's conversion of `saleDate` is not modelled.
- Products.ProductsService.FindAll: SQL `ILIKE` treats `%` and `_` in the search text as
  wildcards; the model matches them literally, and it folds case for ASCII only.
- Products.ProductsService.FindByBarcode: `getOne` picks a database-dependent row; the model
  returns some matching product, not a specific one.
- Products.ProductsService.FindAll: products with equal `createdAt` may come in any order
  (the SQL order is unspecified too). Timestamps are not modelled either: `updatedAt` is not
  stored, and `createdAt` is a given number.
- TopProducts.Ranked: rows with equal revenue keep their first-seen order. SQL leaves that
  order unspecified.
- TopProducts.Ranked: a limit of 0 is treated as no limit, because the query builder omits a
  falsy limit. A negative or non-integer limit is not modelled.
- Categories.Queried: when the window holds no sales, the source sends `IN ()` with an empty
  list, which PostgreSQL rejects, so getCategoryAnalytics fails with a server error. Queried
  returns no rows instead, and the model's result is no categories. The failing behaviour is
  Categories.CategoryAnalyticsAsWritten; see Findings.
- Categories.CategoryRows, Categories.GetCategoryAnalytics and Categories.CategoriesConserve
  describe the intended result, in which every category gets its row. The source's plain
  object drops the sales of a category named like a member of Object.prototype
  ("constructor", "toString", "__proto__", …). Categories.CategoryRowsAsWritten is that
  behaviour; see Findings.
- Analytics.BucketsOf, Categories.CategoryRows and Categories.PlainCategoriesInOrder: the
  first-seen order of labels and categories follows the store's insertion order of sales.
  In the source it follows the row order of `find({ where: { userId } })`, which has no
  ORDER BY, so the database may return the rows, and hence the keys, in another order.
- Products.ProductsService.Update: PostgreSQL's own error text, and which constraint it
  reports when several fail, are not modelled; every failed save answers "Internal server
  error", as NestJS does for an unhandled database error.
- Dashboard.GetDashboardStats: the three analytics runs read one list of sale rows. In the
  source each run queries the table anew, so a sale recorded between the awaits is seen by
  the later runs only; that interleaving is concurrency and is not modelled.
- Dashboard.DashboardNested: proved for readings at most seven days apart. Readings taken
  further apart may not nest, which cannot happen within one request.
- getTopProducts groups by product id and recorded name. Two products with the same id are
  impossible, since the id is the table's key, so the join is a `map` keyed by id.
- Products.FindOne: ids are taken to be well-formed uuids. The id columns are uuid primary
  keys and nothing validates an id before the query, so a malformed id such as "abc" makes
  PostgreSQL reject the query ("invalid input syntax for type uuid"), a server error, where
  the model answers NotFound.
- Products.ProductsService.UpdateStock: a malformed product id is a server error in the
  source, through findOne; the model answers NotFound.
- Products.ProductsService.Remove: a malformed product id is a server error in the source,
  through findOne; the model answers NotFound.
- Products.ProductsService.Update: a malformed product id is a server error in the source,
  through findOne; the model answers NotFound. An amount of 10^8 or more overflows its
  decimal(10,2) column, so the save fails with a server error; the model has no upper bound
  and returns Ok.
- Sales.Sell: a malformed productId is a server error in the source, where the model answers
  NotFound. The sale's decimal(10,2) columns cannot hold 10^8 or more, and the DTO puts no
  upper bound on price. When quantity, price or total = quantity*price reaches 10^8, the
  source has already saved the decremented stock when the sale save fails with "numeric
  field overflow", a server error: the stock is lost and no sale is recorded. The model has
  no such bound; it records the sale and returns Ok.
- Sales.SalesService.SellOne and Sales.SalesService.Create: they inherit Sell's missing
  overflow failure and its partial effect (stock decremented, no sale).
- Sales.SalesService.CreateMultiple: an item whose sale save overflows ends the batch in the
  source with that item's stock decremented and no sale for it; the model has no such
  failure.
- Sales.SalesService.FindOne: a malformed id is a server error in the source; the model
  answers absent.
- Products.ProductsService.GetLowStock and Products.ProductsService.GetCategories: the
  database's row order is not modelled, since neither query has an ORDER BY; the contracts
  fix the contents, not the order.

## Findings

| source | as written | input that shows it | evidently intended | confidence | as-written member | corrected member |
|---|---|---|---|---|---|---|
| src/sales/sales.service.ts:106 | `sales.reduce((sum, sale) => sum + sale.total, 0)` adds a decimal column, which the Postgres driver delivers as text, so `+` concatenates | two sales today with totals 1.00 and 2.00 give total "01.002.00" | total is the numeric sum 3.00 of today's sale totals | not executed | Sales.TotalConcatenatesText | Sales.SalesService.TodaysTotal |
| src/reports/reports.service.ts:206-210 | `categoryStats` is a plain `{}`, so `!categoryStats[category]` finds an inherited member for a category such as "constructor"; no entry is made and the `+=` lines write onto that member | one in-window sale of a product whose category is "constructor" gives `[]` | every category gets its row, as with `Object.create(null)` or a `Map` | high; not executed | Categories.InheritedCategoryDropped | Categories.CategoriesConserve |
| src/reports/reports.service.ts:197 | `IN (:...ids)` with an empty id list becomes `IN ()`, which PostgreSQL rejects | a period in which the caller has no sales gives a server error | an empty list of categories | medium; not executed | Categories.CategoryAnalyticsAsWritten | Categories.EmptyWindowNoCategories |
