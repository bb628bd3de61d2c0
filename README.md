# Inventory and sales ledger of a small online shop

This project models the two services of the inventory-management
application in Dafny and proves properties of the model. Both services
work on one SQLite database with a `products` table and a `sales` table.

- `InventoryManager` (inventory.py) is the catalog service. It adds,
  updates and deletes products, looks them up, lists them with a search and
  a sort column, and summarises the stock.
- `SalesManager` (sales.py) is the sales ledger. It records a sale on one
  of three platforms (네이버, 쿠팡, 자사몰). Recording prices the sale from
  the product's price and that platform's margin and takes the quantity off
  the stock. It also lists sales by date and by product, and summarises
  them by platform and by best-selling product.

The files:

- `wrappers.dfy`: `Option` and `Result`.
- `store.dfy`: the rows of both tables, the column rules, the platform
  names, and the Error values for the ValueError messages. The products
  table is a map from id to row plus the AUTOINCREMENT counter. Its scan
  returns the rows in rowid order. The `Database` class holds both tables
  and a logical clock.
- `sorting.dfy`: ORDER BY as a stable insertion sort over any ordering
  relation. It proves the result is a permutation of the input and is
  sorted when the relation is a total preorder. It also holds the BINARY
  collation order on text.
- `catalog.dfy`: `InventoryManager` as a class whose methods change
  `db.products` in place. The loop of `update_product` that builds the SET
  clause is the method `FieldsToUpdate`. The read-only queries are
  functions of the table.
- `ledger.dfy`: `SalesManager` as a class whose `RecordSale` changes
  `db.sales` and `db.products`. The read-only queries are functions of the
  two tables.
- `scenario.dfy`: two runs on a fresh database. One is the demonstration at
  the bottom of inventory.py. The other sells a product until its stock
  runs short.

Dafny's integers are unbounded and its reals exact. The SQL DECIMAL and
Python float columns are modelled as `real`. Stock levels and ids are
modelled as `int`.

Three behaviours of the code carry over into the model as they are:

- `record_sale` checks the platform name before it looks up the product.
  So an unknown platform is reported even for a product that does not
  exist.
- `record_sale` does not reject a sale quantity of zero or less. Such a
  sale is recorded with zero or negative revenue, and the stock goes up or
  stays the same. `CheckSale` says so, and `ProfitWithinRevenue` assumes
  `quantity >= 0` explicitly.
- The stock decrement of `record_sale` does not refresh `updated_at`.

## Model

| member | source | states |
|---|---|---|
| Store.PlatformName | sales.py:11-12 | definition of the three platform texts 네이버, 쿠팡 and 자사몰, one per platform |
| Store.ParsePlatform | sales.py:11-12 | a platform text is accepted exactly when it is one of 네이버, 쿠팡, 자사몰 |
| Store.PlatformRoundTrip | sales.py:30-31 | the platform text and the platform whose margin is used determine each other: parsing the stored name gives the platform back, and a parsed text is that platform's name |
| Store.Product.Margin | sales.py:30-31 | definition of `margin_map[platform]`: the margin column that belongs to the platform |
| Store.Product.Value | inventory.py:76 | definition of the derived column `price * quantity` |
| Store.PriceOk | inventory.py:12-13 | definition of the price rule: not negative |
| Store.MarginOk | inventory.py:14-15 | definition of the margin rule: between 0 and 100 inclusive |
| Store.QuantityOk | inventory.py:16-17 | definition of the quantity rule: not negative |
| Store.WellFormed | inventory.py:12-17 | definition of a product that passes every column rule |
| Store.ProductTable.Valid | inventory.py:22-27 | definition of the AUTOINCREMENT invariant: every stored id lies between 1 and the next id to hand out |
| Store.ScanRange | inventory.py:74-78 | definition of a scan of an id range in ascending id order |
| Store.ScanRangeCount | inventory.py:74-78 | a range scan has as many rows as the table has ids in the range |
| Store.ScanRangeRows | inventory.py:74-78 | a scan of an id range yields exactly the stored rows with ids in the range, with their stored columns, in strictly ascending id order |
| Store.Scan | inventory.py:74-78 | a full scan yields every stored row exactly once (as many rows as the table holds), each with its stored columns, in ascending id order |
| Store.Database.constructor | inventory.py:7-8 | a freshly initialised database has both tables empty, the id counter at 1, and satisfies the table invariants |
| Store.Database.Valid | sales.py:26-43 | definition of the database invariant: every stored product passes the column rules, so no stock is negative; timestamps lie before the clock; sale ids run 1, 2, 3, ... in insertion order |
| Sorting.SortBy | inventory.py:85 | ORDER BY returns a permutation of its input |
| Sorting.SortBySorted | inventory.py:85 | under a total preorder, the ORDER BY result is sorted |
| Sorting.StrLeTotal | inventory.py:85 | the ORDER BY name order compares every pair of names |
| Sorting.StrLeTransitive | inventory.py:85 | the ORDER BY name order is transitive |
| Sorting.PrefixDominates | sales.py:127-128 | after ORDER BY, LIMIT k keeps elements that each dominate every element cut off |
| Sorting.DistinctPermutation | sales.py:126-127 | reordering rows that contain no duplicates yields rows that contain no duplicates |
| Catalog.CheckNewProduct | inventory.py:12-17 | add_product's checks pass exactly when price ≥ 0, each margin lies in [0,100] and quantity ≥ 0; a negative price is reported first, then the margins, then the quantity |
| Catalog.InventoryManager.AddProduct | inventory.py:10-31 | a failing check returns its error and changes nothing; otherwise the row is inserted under the next id, which is returned and was unused; created_at equals updated_at, and get_product of the id returns exactly the inserted columns |
| Catalog.GetProduct | inventory.py:33-59 | a lookup returns a row exactly when one is stored under the id, and that row is the stored one |
| Catalog.SortColumn | inventory.py:65-72 | the keys price, quantity and value select their column, and any other key sorts by name |
| Catalog.ListedLe | inventory.py:85 | definition of the four ORDER BY relations: name in BINARY order, price, quantity or value ascending |
| Catalog.ListedLeTotalPreorder | inventory.py:85 | each of the four sort orders of get_all_products is a total preorder |
| Catalog.Contains | inventory.py:82-83 | definition of `name LIKE '%search%'`, as a substring test |
| Catalog.Matches | inventory.py:81-83 | definition of the WHERE clause, which applies only to a non-empty search |
| Catalog.Listing | inventory.py:74-104 | definition of the listed rows of a scan: those passing the search, each with `value = price * quantity` |
| Catalog.ListingRows | inventory.py:80-104 | the listing holds exactly the rows whose name passes the search, each with value = price × quantity; with an empty search it holds every row |
| Catalog.ListingAbove | inventory.py:74-104 | a lower bound on the ids of the scanned rows bounds the ids of the listing |
| Catalog.ListingOrdered | inventory.py:74-104 | the listing keeps the scan's id order |
| Catalog.ListingOfScan | inventory.py:74-104 | listing a full scan yields exactly the stored products that pass the search, in ascending id order |
| Catalog.SortListing | inventory.py:85 | the sorted listing is a permutation of the listing and is ordered by the chosen column |
| Catalog.ReorderedIdsDistinct | inventory.py:85-104 | reordering a listing of distinct stored rows never lists an id twice |
| Catalog.GetAllProducts | inventory.py:61-106 | it lists exactly the stored products whose name passes the search, each once, with their stored columns and value = price × quantity, ordered by the requested column (name when the key is unknown); with no search it lists every product |
| Catalog.Field.Column | inventory.py:109 | definition of the keyword and column name of each of the six allowed fields |
| Catalog.Field.Rank | inventory.py:109 | each field's position in `allowed_fields` is its place in that list |
| Catalog.AllowedFields | inventory.py:109 | definition of `allowed_fields`, in its order |
| Catalog.AllowedColumns | inventory.py:109 | the six allowed fields have the keywords name, price, margin_naver, margin_coupang, margin_self and quantity, in that order |
| Catalog.ColumnInjective | inventory.py:109 | distinct allowed fields have distinct keywords |
| Catalog.UpdateOk | inventory.py:111-119 | definition of the update rules: each supplied price, margin and quantity keeps its column's rule |
| Catalog.CheckUpdate | inventory.py:111-119 | update_product's checks pass exactly when every supplied price is ≥ 0, every supplied margin lies in [0,100] and a supplied quantity is ≥ 0; the error names the first failing field in the order price, margin_naver, margin_coupang, margin_self, quantity |
| Catalog.Patched | inventory.py:108-139 | patching a well-formed product with arguments that pass the checks yields a well-formed product; it keeps the timestamps; with no allowed keyword supplied it changes nothing |
| Catalog.PatchedIgnoresOthers | inventory.py:109-127 | a keyword outside allowed_fields has no effect on the update |
| Catalog.AnySupplied | inventory.py:129-130 | definition of "some keyword of `allowed_fields` is present", the negation of `if not fields_to_update` |
| Catalog.ExactlySupplied | inventory.py:121-127 | definition of the SET list the loop must build: exactly the supplied allowed fields, once each, in `allowed_fields` order, with their arguments |
| Catalog.FieldsToUpdate | inventory.py:121-130 | the collected SET list holds exactly the supplied allowed fields, each once, in allowed_fields order, each with its argument; it is empty exactly when no allowed keyword is supplied |
| Catalog.SuppliedIffAssigned | inventory.py:124-130 | a SET list that holds exactly the supplied fields is empty exactly when no allowed keyword is supplied |
| Catalog.Assign | inventory.py:138-139 | definition of executing one `column = ?` of the UPDATE on a row |
| Catalog.AssignAll | inventory.py:138-139 | definition of executing the whole SET list of the UPDATE on a row, left to right |
| Catalog.AssignPatched | inventory.py:124-139 | executing one `column = ?` and then patching with the remaining arguments is the same as patching with all of them |
| Catalog.AssignAllPatched | inventory.py:121-139 | executing the collected SET list on a row yields exactly the patched product |
| Catalog.InventoryManager.UpdateProduct | inventory.py:108-145 | a failing check returns its error and changes nothing; with no allowed field supplied it returns false and changes nothing; otherwise it returns whether the id exists, and if it does, that row alone becomes the patched product with a fresh updated_at |
| Catalog.InventoryManager.DeleteProduct | inventory.py:147-157 | it returns whether the id existed; the row is gone afterwards, every other row is kept, and the sales table is left alone |
| Catalog.DeleteScanTotals | inventory.py:147-170 | after a delete, the summary counts one product fewer, and the deleted row's quantity and value are gone from the totals |
| Catalog.TotalQuantity | inventory.py:166 | definition of SUM(quantity), 0 on no rows |
| Catalog.TotalValue | inventory.py:167 | definition of SUM(price * quantity), 0 on no rows |
| Catalog.TotalPrice | inventory.py:168 | definition of the sum under AVG(price) |
| Catalog.QuantityRatio | inventory.py:176-187 | definition of `100.0 * quantity / NULLIF(total, 0)` with NULL read as 0 |
| Catalog.DetailOf | inventory.py:175-187 | definition of one product_details entry: name, quantity, value and quantity_ratio |
| Catalog.Details | inventory.py:174-188 | the product_details rows before ORDER BY: one entry per scanned row, the i-th entry being the detail of the i-th row |
| Catalog.TotalQuantityBounds | inventory.py:166 | with no negative stock, the total quantity is at least every single stock level and is not negative |
| Catalog.RatioBounds | inventory.py:176 | a quantity between 0 and the total has a ratio between 0 and 100 |
| Catalog.RatiosArePercentages | inventory.py:174-188 | with no negative stock, every quantity_ratio of a breakdown lies in [0,100] |
| Catalog.MoreStock | inventory.py:178 | definition of ORDER BY quantity DESC: `a` may come before `b` when its stock is not smaller |
| Catalog.SortDetails | inventory.py:178 | ORDER BY quantity DESC returns a permutation with non-increasing quantities |
| Catalog.DetailsOfScan | inventory.py:174-188 | a breakdown of a full scan has an entry for every stored product and only for stored products |
| Catalog.Breakdown | inventory.py:174-188 | product_details is a permutation of the details of the scanned rows, so it has one entry per stored product, each with its name, quantity, value and share of the total, and the largest stock comes first |
| Catalog.BreakdownRatios | inventory.py:174-188 | with no negative stock, every share in product_details is a percentage |
| Catalog.GetInventorySummary | inventory.py:159-198 | the count is the number of products; the totals are sums over all rows; the average is the sum of prices divided by the count, or 0 on an empty table; the breakdown is taken against the total stock |
| Catalog.EmptySummary | inventory.py:192-197 | an empty table gives a summary with every figure 0 and no details |
| Catalog.SummaryRatios | inventory.py:176-197 | with no negative stock, total_quantity is not negative and every quantity_ratio of the summary lies between 0 and 100 |
| Catalog.ScanRangeDeleteQuantity | inventory.py:147-166 | deleting a row takes exactly its stock off the SUM(quantity) of a range scan that covers it, and nothing off one that does not |
| Catalog.ScanRangeDeleteValue | inventory.py:147-167 | deleting a row takes exactly its value off the SUM(price * quantity) of a range scan that covers it, and nothing off one that does not |
| Ledger.CheckSale | sales.py:10-28 | a sale is accepted exactly when the platform is known, the product exists and the quantity does not exceed its stock; otherwise the error is, in order, the invalid platform, the missing product, or the insufficient stock with the available and requested amounts |
| Ledger.Revenue | sales.py:33 | definition of `revenue = price * quantity` |
| Ledger.Profit | sales.py:34 | definition of `profit = revenue * (1 - margin / 100)` |
| Ledger.NextSaleId | sales.py:36-41 | definition of the id the sales table hands the inserted row: one more than the rows it holds |
| Ledger.ProfitWithinRevenue | sales.py:30-34 | for a well-formed product and a quantity ≥ 0, revenue is not negative, profit plus the margin's share makes up the revenue, and 0 ≤ profit ≤ revenue |
| Ledger.Sell | sales.py:43 | the stock decrement takes the quantity off that product's stock and leaves every other column and every other product as it was |
| Ledger.SellKeepsStock | sales.py:26-43 | a sale that passed the stock check leaves every product well formed (no negative stock) and keeps the table valid |
| Ledger.SalesManager.RecordSale | sales.py:10-48 | it fails exactly when the checks fail, with their error, and then changes nothing; otherwise it appends one sale with the next id, the given date, quantity and platform, revenue = price × quantity and profit from the platform's margin; the product's stock drops by the quantity and the table invariants hold |
| Ledger.SellAll | sales.py:43 | a run of stock decrements on one product keeps the table's ids |
| Ledger.EachAccepted | sales.py:26-28 | definition of a run of sales each of which passed the stock check on the stock the earlier ones left |
| Ledger.SellAllStock | sales.py:43 | after a run of sales of one product, its stock is the initial stock minus the sum sold, and no other product changed |
| Ledger.AcceptedSalesKeepStock | sales.py:26-43 | a run of sales that each passed the stock check never takes the stock below zero |
| Ledger.ScanRangeSellQuantity | sales.py:43 | a stock decrement takes exactly the quantity sold off the SUM(quantity) of a range scan that covers the product |
| Ledger.ScanRangeSellValue | sales.py:43 | a stock decrement takes exactly price times the quantity sold off the SUM(price * quantity) of a range scan that covers the product |
| Ledger.SaleScanTotals | sales.py:43 | a recorded sale takes exactly its quantity off the total stock and its revenue off the total inventory value |
| Ledger.Filter | sales.py:59 | a WHERE clause keeps exactly the rows that pass it, each as often as in the table |
| Ledger.Between | sales.py:59 | the date window keeps exactly the sales dated within [start, end], each as often as it occurs |
| Ledger.OfProduct | sales.py:157 | the product filter keeps exactly that product's sales, each as often as it occurs |
| Ledger.OnPlatform | sales.py:103-109 | the platform filter keeps exactly that platform's sales, each as often as it occurs |
| Ledger.Joins | sales.py:58 | definition of `ON s.product_id = p.id`: the joined row's product is stored, under the name the row carries |
| Ledger.Join | sales.py:57-58 | the join drops sales whose product is gone and pairs each other sale, as often as it occurs, with its product's current name |
| Ledger.Later | sales.py:60 | definition of ORDER BY sale_date DESC, created_at DESC: `a` may come before `b` |
| Ledger.LaterTotalPreorder | sales.py:60 | ORDER BY sale_date DESC, created_at DESC is a total preorder on sales and on joined rows |
| Ledger.NewestFirst | sales.py:158 | sorting the history returns a permutation with the newest sale first |
| Ledger.NewestRowsFirst | sales.py:60 | sorting the joined rows returns a permutation with the newest sale first |
| Ledger.Selects | sales.py:54-61 | definition of how often get_sales_by_date lists a joined row: its multiplicity in the table when it is in the window and joins, else 0 |
| Ledger.GetSalesByDate | sales.py:50-78 | it lists exactly the sales dated within [start, end] whose product still exists, each as often as it occurs, with that product's name, newest first |
| Ledger.GetProductSalesHistory | sales.py:150-174 | it lists exactly the product's sales, each as often as it occurs, newest first, whether or not the product still exists |
| Ledger.Totals.Plus | sales.py:91-98 | definition of the four aggregates with one more sale counted in |
| Ledger.Totals.Add | sales.py:91-98 | definition of the field-wise sum of two sets of aggregates |
| Ledger.NoTotals | sales.py:141-145 | definition of the aggregates over no rows, with the NULL sums read as 0 |
| Ledger.Aggregate | sales.py:91-98 | COUNT(*) is the number of selected sales |
| Ledger.AggregateConcat | sales.py:91-98 | the totals over two runs of sales, one after the other, are the sum of their totals |
| Ledger.AggregateAppend | sales.py:91-98 | recording one more sale adds exactly that sale to the unfiltered totals |
| Ledger.PlatformPartition | sales.py:102-110 | the per-platform totals add up to the overall totals, because every sale is on exactly one platform |
| Ledger.PlatformsOf | sales.py:102-110 | a platform is in the set exactly when some selected sale is on it |
| Ledger.PlatformStats | sales.py:102-119 | platform_stats has an entry exactly for each platform that has a selected sale |
| Ledger.PlatformStatsCounts | sales.py:102-119 | every entry of platform_stats counts at least one sale |
| Ledger.StatOrAggregate | sales.py:102-119 | reading a missing platform as zero, each platform's entry is the aggregate over that platform's sales |
| Ledger.StatOr | sales.py:112-119 | definition of reading platform_stats with zero for a missing platform |
| Ledger.PlatformStatsTotal | sales.py:91-119 | the entries of platform_stats, with zero for a missing platform, add up to total_sales, total_quantity, total_revenue and total_profit |
| Ledger.HasSale | sales.py:121-126 | definition of "the product has a selected sale", the condition for it to have a group |
| Ledger.GroupOf | sales.py:122-126 | definition of a product's group: its id, current name, and the sums of quantity and revenue of its selected sales |
| Ledger.Groups | sales.py:121-126 | definition of the GROUP BY groups: one group per scanned product that has a selected sale, in scan order |
| Ledger.GroupsOfRows | sales.py:121-126 | groups and stored products with a selected sale correspond in both directions: every group is the group of such a product, with its sums and current name, and every such product has a group (that no product has two groups follows from `Ledger.GroupsOrdered`) |
| Ledger.GroupsOrdered | sales.py:121-126 | the groups come in ascending product id order, so no product is grouped twice |
| Ledger.GroupsOfNoSales | sales.py:121-126 | with no selected sales there are no groups |
| Ledger.MoreSold | sales.py:127 | definition of ORDER BY total_sold DESC: `a` may come before `b` |
| Ledger.BestSellersFirst | sales.py:127 | ORDER BY total_sold DESC returns a permutation of the groups with the best seller first |
| Ledger.TopCount | sales.py:128 | definition of the limit 5 of `LIMIT 5` |
| Ledger.TopPrefix | sales.py:127-128 | the first k sorted groups are groups of distinct products, in non-increasing order, and each dominates every group cut off |
| Ledger.TopProducts | sales.py:121-137 | top_products holds min(5, number of groups) groups of distinct products, in non-increasing quantity sold, and no group left out sold more than a kept one |
| Ledger.TopProductsOfTable | sales.py:121-137 | each top product is the group of a stored product with a sale; no product left out sold more than a kept one; when at most five products have sales, all of them are kept |
| Ledger.Selected | sales.py:84-89 | definition of the where_clause: the date window applies only when both bounds are given |
| Ledger.GetSalesSummary | sales.py:80-148 | the totals, platform_stats and top_products are taken over the sales in the window when both bounds are given, and over all sales otherwise; with no sales selected, the totals are zero and both collections are empty |
| Ledger.SalesSummaryConsistent | sales.py:91-148 | the platform_stats entries, with zero for a missing platform, add up to the summary's totals, and at most five products are returned |
| Scenarios.InventoryDemo | inventory.py:201-219 | the demonstration adds "Test Product" under id 1 and reads back price 10000 and stock 50; the update to price 12000 and stock 100 succeeds; the listing holds that one product with value 1200000; the summary shows 1 product, stock 100, value 1200000 and average price 12000 |
| Scenarios.PriceAndQuantity | inventory.py:212 | the update price=12000, quantity=100 passes the checks and changes exactly those two columns |
| Scenarios.OneProductQueries | inventory.py:215-218 | a table holding one product lists that product alone, and its summary totals are that product's own figures |
| Scenarios.WidgetSales | sales.py:10-48 | for a product with price 10000, margins 10/15/20 and stock 50: a sale of 5 on 네이버 is sale 1, with revenue 50000 and profit 45000; a second sale of 50 on 쿠팡 fails with insufficient stock (45 available, 50 requested), and the stock stays 45 |

## Left out

- Connections, commits and the SQLite file are replaced by the in-memory `Database` object. database.py, database_cloud.py, app.py and auth.py are not part of this model.
- `CURRENT_TIMESTAMP` is a logical clock: each written row takes the next tick. Dates are day numbers.
- Concurrency is left out. Each method runs alone, so the race between the stock check and the decrement of `record_sale` under concurrent calls is not modelled.
- Catalog.GetInventorySummary: avg_price and quantity_ratio are exact reals. They are not rounded to two decimals, because float rounding is out of scope.
- Ledger.ProfitWithinRevenue: revenue and profit are exact reals, not binary floats. The DECIMAL(10,2) storage and its rounding are not modelled.
- Catalog.GetAllProducts: `name LIKE '%search%'` is modelled as a plain, case-sensitive substring test. SQLite's LIKE is case-insensitive for ASCII letters, and `%` and `_` in the search text act as wildcards; neither is modelled.
- Catalog.GetAllProducts: SQLite does not fix the order of rows that tie on the sort column. The model orders ties by id, through a stable sort over the rowid scan. The same applies to ties in the sales listings and in top_products.
- Ledger.GroupsOfRows: the GROUP BY groups of top_products are taken in ascending product id before the sort. SQLite does not promise this order.
- Catalog.InventoryManager.UpdateProduct: requires `WellTyped(kwargs)`, meaning text for the name, a number for price and the margins, and an int for quantity. A wrongly typed argument makes Python raise TypeError or SQLite coerce the value; neither is modelled.
- Ledger.TopProducts: each entry carries the product id, which is the GROUP BY key. The dictionary returned by the source holds only the name, quantity sold and revenue.
- Ledger.GetProductSalesHistory: it returns whole sale rows. The source returns every column except product_id, which equals the argument.
- Ledger.PlatformStats: the map is keyed by `Platform`; `PlatformName` gives back the text the source uses as the key. A Python dict also has an iteration order, here the row order of the GROUP BY at sales.py:113-114. A Dafny `map` has none, so the model does not fix the order in which the entries are displayed.
- Ledger.GetSalesSummary: the optional bounds are `Option<Date>`. A Python `date` is always truthy, so `if start_date and end_date` is modelled as both bounds being present.
- The constructors of both managers take an existing `Database` instead of calling `init_database`. The table migrations of database.py are not modelled.
- Default arguments are not modelled: `Catalog.InventoryManager.AddProduct` takes the quantity, `Catalog.GetAllProducts` takes the search and the sort key, and `Ledger.GetSalesSummary` takes both date bounds explicitly. A caller of the source that omits them gets quantity 0 (inventory.py:11), an empty search and the key "name" (inventory.py:61), and no date bounds (sales.py:80); the model reaches the same results when given these values.
- SQLite's 64-bit integer limits are not modelled: ids and quantities are unbounded.
- `record_sale` returns `Optional[int]` in the source but always returns the new id on success. The model returns a `Result` whose failure carries the ValueError.
- The `options` column, bulk product updates, and the editing or deletion of a sale are not in inventory.py or sales.py and are not modelled.
