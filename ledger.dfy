/** The sales service of sales.py (class SalesManager): recording a sale,
    which appends to `sales` and takes the sold quantity off the product's
    stock, and the read-only queries over the sales table (date window,
    per-product history, totals by platform and best sellers). */
module Ledger {
  import opened Wrappers
  import opened Store
  import Catalog
  import Sorting

  // ---------------------------------------------------------------------
  // record_sale: checks, pricing, stock
  // ---------------------------------------------------------------------

  /** The checks record_sale makes, in its order: the platform name first,
      before any table is read, then the product lookup, then the stock.
      A sale quantity that is zero or negative is not rejected. */
  function CheckSale(t: ProductTable, productId: int, quantity: int, platform: string): (r: Result<Platform, Error>)
    ensures r.Success? <==>
      ParsePlatform(platform).Some? && productId in t.rows && quantity <= t.rows[productId].quantity
    ensures r.Success? ==> PlatformName(r.value) == platform
    ensures ParsePlatform(platform).None? ==> r == Failure(InvalidPlatform)
    ensures ParsePlatform(platform).Some? && productId !in t.rows ==> r == Failure(ProductNotFound)
    ensures ParsePlatform(platform).Some? && productId in t.rows && quantity > t.rows[productId].quantity ==>
      r == Failure(InsufficientStock(t.rows[productId].quantity, quantity))
  {
    match ParsePlatform(platform)
    case None => Failure(InvalidPlatform)
    case Some(p) =>
      PlatformRoundTrip(p, platform);
      if productId !in t.rows then Failure(ProductNotFound)
      else if quantity > t.rows[productId].quantity then
        Failure(InsufficientStock(t.rows[productId].quantity, quantity))
      else Success(p)
  }

  /** `revenue = price * quantity`. */
  function Revenue(price: real, quantity: int): real {
    price * quantity as real
  }

  /** `profit = revenue * (1 - margin / 100)`. */
  function Profit(revenue: real, margin: real): real {
    revenue * (1.0 - margin / 100.0)
  }

  /** The margin takes its share out of the revenue: what is left is the
      profit, which lies between nothing and the whole revenue. */
  lemma ProfitWithinRevenue(p: Product, platform: Platform, quantity: int)
    requires WellFormed(p)
    requires quantity >= 0
    ensures Revenue(p.price, quantity) >= 0.0
    ensures Profit(Revenue(p.price, quantity), p.Margin(platform))
      + Revenue(p.price, quantity) * p.Margin(platform) / 100.0 == Revenue(p.price, quantity)
    ensures 0.0 <= Profit(Revenue(p.price, quantity), p.Margin(platform)) <= Revenue(p.price, quantity)
  {
    var revenue := Revenue(p.price, quantity);
    var m := p.Margin(platform);
    assert revenue >= 0.0 by {
      assert p.price >= 0.0 && quantity as real >= 0.0;
    }
    assert 0.0 <= m <= 100.0;
    var share := 1.0 - m / 100.0;
    assert 0.0 <= share <= 1.0;
    assert revenue * share <= revenue * 1.0;
    assert revenue * share >= 0.0;
  }

  /** `UPDATE products SET quantity = quantity - ? WHERE id = ?`: only that
      product's stock changes (updated_at is left as it was). */
  function Sell(t: ProductTable, id: int, quantity: int): (r: ProductTable)
    requires id in t.rows
    ensures r.nextId == t.nextId && r.rows.Keys == t.rows.Keys
    ensures r.rows[id].quantity == t.rows[id].quantity - quantity
    ensures r.rows[id] == t.rows[id].(quantity := r.rows[id].quantity)
    ensures forall other :: other in t.rows && other != id ==> r.rows[other] == t.rows[other]
  {
    t.(rows := t.rows[id := t.rows[id].(quantity := t.rows[id].quantity - quantity)])
  }

  /** A sale that passed the stock check leaves every product well formed:
      no stock level goes negative. */
  lemma SellKeepsStock(t: ProductTable, id: int, quantity: int)
    requires id in t.rows
    requires forall k :: k in t.rows ==> WellFormed(t.rows[k])
    requires quantity <= t.rows[id].quantity
    ensures forall k :: k in Sell(t, id, quantity).rows ==> WellFormed(Sell(t, id, quantity).rows[k])
    ensures t.Valid() ==> Sell(t, id, quantity).Valid()
  {
  }

  /** The sales table's AUTOINCREMENT id of the next row. */
  function NextSaleId(sales: seq<Sale>): int {
    |sales| + 1
  }

  /** SalesManager, working on the shared database. */
  class SalesManager {
    const db: Database

    /** The constructor finds the tables in place. */
    constructor (db: Database)
      ensures this.db == db
    {
      this.db := db;
    }

    /** record_sale: check, price the sale, INSERT it into `sales`, take the
        quantity off the product's stock and return the new sale id; a
        rejected sale changes nothing. */
    method RecordSale(productId: int, saleDate: Date, quantity: int, platform: string)
      returns (r: Result<int, Error>)
      requires db.Valid()
      modifies db
      ensures db.Valid()
      ensures r.Failure? <==> CheckSale(old(db.products), productId, quantity, platform).Failure?
      ensures r.Failure? ==>
        && r.error == CheckSale(old(db.products), productId, quantity, platform).error
        && unchanged(db)
      ensures r.Success? ==>
        && productId in old(db.products.rows)
        && r.value == NextSaleId(old(db.sales))
        && db.sales == old(db.sales) + [
             var p := old(db.products.rows[productId]);
             var pl := CheckSale(old(db.products), productId, quantity, platform).value;
             Sale(r.value, productId, saleDate, quantity, pl, Revenue(p.price, quantity),
                  Profit(Revenue(p.price, quantity), p.Margin(pl)), old(db.clock))]
        && db.products == Sell(old(db.products), productId, quantity)
        && db.clock == old(db.clock) + 1
    {
      var check := CheckSale(db.products, productId, quantity, platform);
      if check.Failure? {
        return Failure(check.error);
      }
      var platformId := check.value;
      var p := db.products.rows[productId];
      var revenue := Revenue(p.price, quantity);
      var profit := Profit(revenue, p.Margin(platformId));
      var saleId := NextSaleId(db.sales);
      var now := db.clock;
      db.sales := db.sales + [Sale(saleId, productId, saleDate, quantity, platformId, revenue, profit, now)];
      SellKeepsStock(db.products, productId, quantity);
      db.products := Sell(db.products, productId, quantity);
      db.clock := now + 1;
      r := Success(saleId);
    }
  }

  // ---------------------------------------------------------------------
  // Repeated sales of one product
  // ---------------------------------------------------------------------

  /** The stock updates of a run of sales of one product, in order. */
  function SellAll(t: ProductTable, id: int, quantities: seq<int>): (r: ProductTable)
    requires id in t.rows
    ensures r.rows.Keys == t.rows.Keys
    decreases |quantities|
  {
    if quantities == [] then t
    else SellAll(Sell(t, id, quantities[0]), id, quantities[1..])
  }

  function Sum(quantities: seq<int>): int {
    if quantities == [] then 0 else quantities[0] + Sum(quantities[1..])
  }

  /** Every sale of the run passed the stock check on the stock left by
      the sales before it. */
  ghost predicate EachAccepted(t: ProductTable, id: int, quantities: seq<int>)
    requires id in t.rows
  {
    forall k :: 0 <= k < |quantities| ==>
      quantities[k] <= SellAll(t, id, quantities[..k]).rows[id].quantity
  }

  /** After a run of sales the stock is the initial stock less everything
      sold, and no other product changed. */
  lemma {:induction false} SellAllStock(t: ProductTable, id: int, quantities: seq<int>)
    requires id in t.rows
    ensures SellAll(t, id, quantities).rows[id].quantity == t.rows[id].quantity - Sum(quantities)
    ensures forall other :: other in t.rows && other != id ==>
      SellAll(t, id, quantities).rows[other] == t.rows[other]
    decreases |quantities|
  {
    if quantities != [] {
      SellAllStock(Sell(t, id, quantities[0]), id, quantities[1..]);
    }
  }

  /** A run of accepted sales never takes the stock below zero. */
  lemma {:induction false} AcceptedSalesKeepStock(t: ProductTable, id: int, quantities: seq<int>)
    requires id in t.rows
    requires QuantityOk(t.rows[id].quantity)
    requires EachAccepted(t, id, quantities)
    ensures QuantityOk(SellAll(t, id, quantities).rows[id].quantity)
    decreases |quantities|
  {
    if quantities != [] {
      var t' := Sell(t, id, quantities[0]);
      var rest := quantities[1..];
      assert quantities[..0] == [];
      assert EachAccepted(t', id, rest) by {
        forall k | 0 <= k < |rest| ensures rest[k] <= SellAll(t', id, rest[..k]).rows[id].quantity {
          assert quantities[..k + 1][0] == quantities[0];
          assert quantities[..k + 1][1..] == rest[..k];
          assert rest[k] == quantities[k + 1];
        }
      }
      AcceptedSalesKeepStock(t', id, rest);
    }
  }

  /** Point update of one stock level inside a range scan: the total stock. */
  lemma {:induction false} ScanRangeSellQuantity(rows: map<int, Product>, rows': map<int, Product>,
                                                 id: int, quantity: int, lo: int, hi: int)
    requires id in rows
    requires rows' == rows[id := rows[id].(quantity := rows[id].quantity - quantity)]
    ensures Catalog.TotalQuantity(ScanRange(rows', lo, hi))
      == Catalog.TotalQuantity(ScanRange(rows, lo, hi)) - (if lo <= id < hi then quantity else 0)
    decreases hi - lo
  {
    if lo < hi {
      ScanRangeSellQuantity(rows, rows', id, quantity, lo + 1, hi);
      ScanRangeStep(rows, lo, hi);
      ScanRangeStep(rows', lo, hi);
      var s := ScanRange(rows, lo + 1, hi);
      var s' := ScanRange(rows', lo + 1, hi);
      if lo in rows {
        Catalog.TotalsCons(Row(lo, rows[lo]), s);
        Catalog.TotalsCons(Row(lo, rows'[lo]), s');
        if lo == id {
          assert rows'[lo].quantity == rows[lo].quantity - quantity;
        } else {
          assert rows'[lo] == rows[lo];
        }
      } else {
        assert [] + s == s && [] + s' == s';
      }
    } else {
      assert ScanRange(rows, lo, hi) == [] && ScanRange(rows', lo, hi) == [];
    }
  }

  /** Point update of one stock level inside a range scan: the total value. */
  lemma {:induction false} ScanRangeSellValue(rows: map<int, Product>, rows': map<int, Product>,
                                              id: int, quantity: int, lo: int, hi: int)
    requires id in rows
    requires rows' == rows[id := rows[id].(quantity := rows[id].quantity - quantity)]
    ensures Catalog.TotalValue(ScanRange(rows', lo, hi))
      == Catalog.TotalValue(ScanRange(rows, lo, hi))
         - (if lo <= id < hi then Revenue(rows[id].price, quantity) else 0.0)
    decreases hi - lo
  {
    if lo < hi {
      ScanRangeSellValue(rows, rows', id, quantity, lo + 1, hi);
      ScanRangeStep(rows, lo, hi);
      ScanRangeStep(rows', lo, hi);
      var s := ScanRange(rows, lo + 1, hi);
      var s' := ScanRange(rows', lo + 1, hi);
      if lo in rows {
        Catalog.TotalsCons(Row(lo, rows[lo]), s);
        Catalog.TotalsCons(Row(lo, rows'[lo]), s');
        if lo == id {
          ValueAfterSale(rows[id], quantity);
        }
      } else {
        assert [] + s == s && [] + s' == s';
      }
    } else {
      assert ScanRange(rows, lo, hi) == [] && ScanRange(rows', lo, hi) == [];
    }
  }

  /** Selling some of a product's stock takes their revenue off its value. */
  lemma ValueAfterSale(p: Product, quantity: int)
    ensures p.(quantity := p.quantity - quantity).Value() == p.Value() - Revenue(p.price, quantity)
  {
    assert (p.quantity - quantity) as real == p.quantity as real - quantity as real;
  }

  /** A recorded sale takes exactly its quantity off the total stock of a
      full scan, and its price times quantity off the total value. */
  lemma SaleScanTotals(t: ProductTable, id: int, quantity: int)
    requires t.Valid()
    requires id in t.rows
    ensures Sell(t, id, quantity).Valid()
    ensures Catalog.TotalQuantity(Scan(Sell(t, id, quantity))) == Catalog.TotalQuantity(Scan(t)) - quantity
    ensures Catalog.TotalValue(Scan(Sell(t, id, quantity)))
      == Catalog.TotalValue(Scan(t)) - Revenue(t.rows[id].price, quantity)
  {
    ScanRangeSellQuantity(t.rows, Sell(t, id, quantity).rows, id, quantity, 1, t.nextId);
    ScanRangeSellValue(t.rows, Sell(t, id, quantity).rows, id, quantity, 1, t.nextId);
  }

  // ---------------------------------------------------------------------
  // Read-only queries: WHERE, JOIN, ORDER BY
  // ---------------------------------------------------------------------

  /** A WHERE clause: the elements that pass `keep`, in table order. */
  function Filter<T(!new)>(s: seq<T>, keep: T -> bool): (r: seq<T>)
    ensures forall x :: multiset(r)[x] == if keep(x) then multiset(s)[x] else 0
    ensures forall x :: x in r <==> x in s && keep(x)
  {
    if s == [] then []
    else
      assert s == [s[0]] + s[1..];
      if keep(s[0]) then [s[0]] + Filter(s[1..], keep) else Filter(s[1..], keep)
  }

  /** A sequence without members is empty. */
  lemma MembersOfNonEmpty<T>(s: seq<T>)
    ensures (forall x :: x !in s) ==> s == []
  {
    if s != [] {
      assert s[0] in s;
    }
  }

  /** `sale_date BETWEEN start AND end`. */
  function Between(sales: seq<Sale>, start: Date, end: Date): (r: seq<Sale>)
    ensures forall s :: multiset(r)[s] == if start <= s.saleDate <= end then multiset(sales)[s] else 0
    ensures forall s :: s in r <==> s in sales && start <= s.saleDate <= end
  {
    Filter(sales, (s: Sale) => start <= s.saleDate <= end)
  }

  /** `WHERE product_id = ?`. */
  function OfProduct(sales: seq<Sale>, productId: int): (r: seq<Sale>)
    ensures forall s :: multiset(r)[s] == if s.productId == productId then multiset(sales)[s] else 0
    ensures forall s :: s in r <==> s in sales && s.productId == productId
  {
    Filter(sales, (s: Sale) => s.productId == productId)
  }

  /** The sales of one platform. */
  function OnPlatform(sales: seq<Sale>, p: Platform): (r: seq<Sale>)
    ensures forall s :: multiset(r)[s] == if s.platform == p then multiset(sales)[s] else 0
    ensures forall s :: s in r <==> s in sales && s.platform == p
  {
    Filter(sales, (s: Sale) => s.platform == p)
  }

  /** A sale with the name of its product, as `JOIN products` yields it. */
  datatype SaleRow = SaleRow(sale: Sale, productName: string)

  /** The product a joined row names is in the table under that name. */
  predicate Joins(x: SaleRow, rows: map<int, Product>) {
    x.sale.productId in rows && x.productName == rows[x.sale.productId].name
  }

  /** `JOIN products p ON s.product_id = p.id`: sales whose product is gone
      drop out; the others carry the product's current name. */
  function Join(sales: seq<Sale>, rows: map<int, Product>): (r: seq<SaleRow>)
    ensures forall x :: multiset(r)[x] == if Joins(x, rows) then multiset(sales)[x.sale] else 0
  {
    if sales == [] then []
    else
      assert sales == [sales[0]] + sales[1..];
      var rest := Join(sales[1..], rows);
      if sales[0].productId in rows then
        [SaleRow(sales[0], rows[sales[0].productId].name)] + rest
      else rest
  }

  /** `ORDER BY sale_date DESC, created_at DESC`: `a` may come before `b`. */
  predicate Later(a: Sale, b: Sale) {
    a.saleDate > b.saleDate || (a.saleDate == b.saleDate && a.createdAt >= b.createdAt)
  }

  lemma LaterTotalPreorder()
    ensures Sorting.TotalPreorder((a: Sale, b: Sale) => Later(a, b))
    ensures Sorting.TotalPreorder((a: SaleRow, b: SaleRow) => Later(a.sale, b.sale))
  {
  }

  /** The ORDER BY of the two sale listings, on plain sales. */
  function NewestFirst(sales: seq<Sale>): (r: seq<Sale>)
    ensures multiset(r) == multiset(sales)
    ensures forall i, j :: 0 <= i < j < |r| ==> Later(r[i], r[j])
  {
    var le := (a: Sale, b: Sale) => Later(a, b);
    LaterTotalPreorder();
    Sorting.SortBySorted(sales, le);
    Sorting.SortBy(sales, le)
  }

  /** The ORDER BY of the two sale listings, on joined rows. */
  function NewestRowsFirst(rows: seq<SaleRow>): (r: seq<SaleRow>)
    ensures multiset(r) == multiset(rows)
    ensures forall i, j :: 0 <= i < j < |r| ==> Later(r[i].sale, r[j].sale)
  {
    var le := (a: SaleRow, b: SaleRow) => Later(a.sale, b.sale);
    LaterTotalPreorder();
    Sorting.SortBySorted(rows, le);
    Sorting.SortBy(rows, le)
  }

  /** How often `get_sales_by_date` lists a joined row. */
  function Selects(x: SaleRow, sales: seq<Sale>, products: ProductTable, start: Date, end: Date): nat {
    if start <= x.sale.saleDate <= end && Joins(x, products.rows) then multiset(sales)[x.sale] else 0
  }

  /** get_sales_by_date: every sale dated within [start, end] whose product
      still exists, as often as it is in the table, with the product's name,
      newest first. */
  function GetSalesByDate(sales: seq<Sale>, products: ProductTable, start: Date, end: Date)
    : (r: seq<SaleRow>)
    ensures forall x :: multiset(r)[x] == Selects(x, sales, products, start, end)
    ensures forall x :: x in r <==>
      x.sale in sales && start <= x.sale.saleDate <= end && Joins(x, products.rows)
    ensures forall i, j :: 0 <= i < j < |r| ==> Later(r[i].sale, r[j].sale)
  {
    var r := NewestRowsFirst(Join(Between(sales, start, end), products.rows));
    assert forall x :: x in r <==> multiset(r)[x] > 0;
    r
  }

  /** get_product_sales_history: every sale of the product, as often as it
      is in the table, newest first; no join, so the product need not exist. */
  function GetProductSalesHistory(sales: seq<Sale>, productId: int): (r: seq<Sale>)
    ensures forall s :: multiset(r)[s] == if s.productId == productId then multiset(sales)[s] else 0
    ensures forall s :: s in r <==> s in sales && s.productId == productId
    ensures forall i, j :: 0 <= i < j < |r| ==> Later(r[i], r[j])
  {
    var r := NewestFirst(OfProduct(sales, productId));
    assert forall s :: s in r <==> multiset(r)[s] > 0;
    r
  }

  // ---------------------------------------------------------------------
  // get_sales_summary
  // ---------------------------------------------------------------------

  /** COUNT(*), SUM(quantity), SUM(revenue), SUM(profit). */
  datatype Totals = Totals(count: nat, quantity: int, revenue: real, profit: real) {
    /** The totals with one more sale counted in. */
    function Plus(s: Sale): Totals {
      Totals(count + 1, quantity + s.quantity, revenue + s.revenue, profit + s.profit)
    }

    /** Field-wise sum of two totals. */
    function Add(other: Totals): Totals {
      Totals(count + other.count, quantity + other.quantity, revenue + other.revenue,
             profit + other.profit)
    }
  }

  /** The totals over no rows: SUM gives NULL there, which the code reads as 0. */
  const NoTotals: Totals := Totals(0, 0, 0.0, 0.0)

  /** The aggregates over a set of sale rows. */
  function Aggregate(sales: seq<Sale>): (r: Totals)
    ensures r.count == |sales|
  {
    if sales == [] then NoTotals else Aggregate(sales[1..]).Plus(sales[0])
  }

  lemma NoTotalsAdd(t: Totals)
    ensures NoTotals.Add(t) == t
  {
  }

  /** Counting a sale in before or after adding totals comes to the same. */
  lemma PlusAdd(x: Totals, y: Totals, s: Sale)
    ensures x.Plus(s).Add(y) == x.Add(y).Plus(s)
    ensures x.Add(y.Plus(s)) == x.Add(y).Plus(s)
  {
  }

  /** Aggregating two runs of rows one after the other adds their totals. */
  lemma {:induction false} AggregateConcat(a: seq<Sale>, b: seq<Sale>)
    ensures Aggregate(a + b) == Aggregate(a).Add(Aggregate(b))
    decreases |a|
  {
    if a == [] {
      assert a + b == b;
      NoTotalsAdd(Aggregate(b));
    } else {
      assert (a + b)[0] == a[0] && (a + b)[1..] == a[1..] + b;
      AggregateConcat(a[1..], b);
      PlusAdd(Aggregate(a[1..]), Aggregate(b), a[0]);
    }
  }

  /** Recording a sale adds exactly that sale to the unfiltered totals. */
  lemma AggregateAppend(sales: seq<Sale>, s: Sale)
    ensures Aggregate(sales + [s]) == Aggregate(sales).Plus(s)
  {
    AggregateConcat(sales, [s]);
    var a := Aggregate(sales);
    assert Aggregate([s]) == NoTotals.Plus(s) by {
      assert [s][1..] == [];
    }
    assert a.Add(NoTotals.Plus(s)) == a.Plus(s);
  }

  /** The first row counts towards its own platform only. */
  lemma OnPlatformStep(sales: seq<Sale>, p: Platform)
    requires sales != []
    ensures Aggregate(OnPlatform(sales, p)) == if sales[0].platform == p
      then Aggregate(OnPlatform(sales[1..], p)).Plus(sales[0])
      else Aggregate(OnPlatform(sales[1..], p))
  {
    var rest := OnPlatform(sales[1..], p);
    if sales[0].platform == p {
      assert OnPlatform(sales, p) == [sales[0]] + rest;
      assert ([sales[0]] + rest)[1..] == rest;
    } else {
      assert OnPlatform(sales, p) == rest;
    }
  }

  /** Every sale is on exactly one of the three platforms, so the
      per-platform totals add up to the overall totals. */
  lemma {:induction false} PlatformPartition(sales: seq<Sale>)
    ensures Aggregate(sales)
      == Aggregate(OnPlatform(sales, Naver)).Add(Aggregate(OnPlatform(sales, Coupang)))
           .Add(Aggregate(OnPlatform(sales, SelfMall)))
  {
    if sales != [] {
      var s, rest := sales[0], sales[1..];
      PlatformPartition(rest);
      var n := Aggregate(OnPlatform(rest, Naver));
      var c := Aggregate(OnPlatform(rest, Coupang));
      var m := Aggregate(OnPlatform(rest, SelfMall));
      OnPlatformStep(sales, Naver);
      OnPlatformStep(sales, Coupang);
      OnPlatformStep(sales, SelfMall);
      match s.platform
      case Naver =>
        PlusAdd(n, c, s);
        PlusAdd(n.Add(c), m, s);
      case Coupang =>
        PlusAdd(n, c, s);
        PlusAdd(n.Add(c), m, s);
      case SelfMall =>
        PlusAdd(n.Add(c), m, s);
    } else {
      assert OnPlatform(sales, Naver) == [] && OnPlatform(sales, Coupang) == []
        && OnPlatform(sales, SelfMall) == [];
      NoTotalsAdd(NoTotals);
    }
  }

  /** The platforms some sale in the rows is on. */
  function PlatformsOf(sales: seq<Sale>): (r: set<Platform>)
    ensures forall p :: p in r <==> exists i :: 0 <= i < |sales| && sales[i].platform == p
  {
    set i | 0 <= i < |sales| :: sales[i].platform
  }

  /** `GROUP BY platform`: an entry for each platform that has a sale, with
      the aggregates over that platform's sales; no entry for the others. */
  function PlatformStats(sales: seq<Sale>): (r: map<Platform, Totals>)
    ensures forall p :: p in r <==> exists i :: 0 <= i < |sales| && sales[i].platform == p
  {
    map p | p in PlatformsOf(sales) :: Aggregate(OnPlatform(sales, p))
  }

  /** Every entry of the breakdown counts at least one sale. */
  lemma PlatformStatsCounts(sales: seq<Sale>)
    ensures forall p :: p in PlatformStats(sales) ==> PlatformStats(sales)[p].count > 0
  {
    forall p | p in PlatformStats(sales) ensures PlatformStats(sales)[p].count > 0 {
      var i :| 0 <= i < |sales| && sales[i].platform == p;
      assert sales[i] in OnPlatform(sales, p);
    }
  }

  /** The entry of a platform, zero when it has none. */
  function StatOr(stats: map<Platform, Totals>, p: Platform): Totals {
    if p in stats then stats[p] else NoTotals
  }

  /** The platform breakdown accounts for every sale: its entries, with
      zero for a missing platform, add up to the totals. */
  lemma PlatformStatsTotal(sales: seq<Sale>)
    ensures Aggregate(sales)
      == StatOr(PlatformStats(sales), Naver).Add(StatOr(PlatformStats(sales), Coupang))
           .Add(StatOr(PlatformStats(sales), SelfMall))
  {
    PlatformPartition(sales);
    StatOrAggregate(sales, Naver);
    StatOrAggregate(sales, Coupang);
    StatOrAggregate(sales, SelfMall);
  }

  /** With zero for a missing platform, each entry is the aggregate over
      that platform's sales. */
  lemma StatOrAggregate(sales: seq<Sale>, p: Platform)
    ensures StatOr(PlatformStats(sales), p) == Aggregate(OnPlatform(sales, p))
  {
    if p !in PlatformStats(sales) {
      MembersOfNonEmpty(OnPlatform(sales, p));
    }
  }

  /** One row of `top_products`: a product with the quantity sold and the
      revenue over its sales; the id is the GROUP BY key (not returned). */
  datatype ProductTotal = ProductTotal(productId: int, name: string, quantitySold: int, revenue: real)

  /** Some sale in the rows is of that product. */
  predicate HasSale(sales: seq<Sale>, productId: int) {
    exists i :: 0 <= i < |sales| && sales[i].productId == productId
  }

  /** The group of a product's sales, named by the product's current name. */
  function GroupOf(row: Row, sales: seq<Sale>): ProductTotal {
    var a := Aggregate(OfProduct(sales, row.id));
    ProductTotal(row.id, row.product.name, a.quantity, a.revenue)
  }

  /** `JOIN products ... GROUP BY s.product_id, p.name`, the groups taken in
      the order of the scan: one group per product that has a sale. */
  function Groups(rows: seq<Row>, sales: seq<Sale>): seq<ProductTotal> {
    if rows == [] then []
    else if HasSale(sales, rows[0].id) then [GroupOf(rows[0], sales)] + Groups(rows[1..], sales)
    else Groups(rows[1..], sales)
  }

  /** The groups are exactly those of the scanned products that have a sale. */
  lemma {:induction false} GroupsOfRows(rows: seq<Row>, sales: seq<Sale>)
    ensures forall g :: g in Groups(rows, sales) ==>
      exists row :: row in rows && HasSale(sales, row.id) && g == GroupOf(row, sales)
    ensures forall row :: row in rows && HasSale(sales, row.id) ==> GroupOf(row, sales) in Groups(rows, sales)
  {
    if rows != [] {
      GroupsOfRows(rows[1..], sales);
      assert rows == [rows[0]] + rows[1..];
    }
  }

  /** Every group is of a scanned product, so a bound on the ids of the
      rows bounds the ids of the groups. */
  lemma {:induction false} GroupsAbove(rows: seq<Row>, sales: seq<Sale>, bound: int)
    requires forall i :: 0 <= i < |rows| ==> rows[i].id > bound
    ensures forall g :: g in Groups(rows, sales) ==> g.productId > bound
  {
    if rows != [] {
      assert forall i :: 0 <= i < |rows[1..]| ==> rows[1..][i] == rows[i + 1];
      GroupsAbove(rows[1..], sales, bound);
    }
  }

  /** Groups come in the scan's id order. */
  lemma {:induction false} GroupsOrdered(rows: seq<Row>, sales: seq<Sale>)
    requires forall i, j :: 0 <= i < j < |rows| ==> rows[i].id < rows[j].id
    ensures forall i, j :: 0 <= i < j < |Groups(rows, sales)| ==>
      Groups(rows, sales)[i].productId < Groups(rows, sales)[j].productId
  {
    if rows != [] {
      var tail := rows[1..];
      assert forall i :: 0 <= i < |tail| ==> tail[i] == rows[i + 1];
      var rest := Groups(tail, sales);
      GroupsOrdered(tail, sales);
      if HasSale(sales, rows[0].id) {
        GroupsAbove(tail, sales, rows[0].id);
        var r := [GroupOf(rows[0], sales)] + rest;
        assert Groups(rows, sales) == r;
        assert r[0].productId == rows[0].id;
        forall i, j | 0 <= i < j < |r| ensures r[i].productId < r[j].productId {
          assert r[j] == rest[j - 1];
          if i == 0 {
            assert r[j] in rest;
          } else {
            assert r[i] == rest[i - 1];
          }
        }
      }
    }
  }

  /** Without sales there are no groups. */
  lemma {:induction false} GroupsOfNoSales(rows: seq<Row>)
    ensures Groups(rows, []) == []
  {
    if rows != [] {
      GroupsOfNoSales(rows[1..]);
    }
  }

  /** `ORDER BY total_sold DESC`: `a` may come before `b`. */
  predicate MoreSold(a: ProductTotal, b: ProductTotal) {
    a.quantitySold >= b.quantitySold
  }

  /** ORDER BY total_sold DESC on the groups. */
  function BestSellersFirst(groups: seq<ProductTotal>): (r: seq<ProductTotal>)
    ensures multiset(r) == multiset(groups)
    ensures Sorting.Sorted(r, (a: ProductTotal, b: ProductTotal) => MoreSold(a, b))
  {
    var le := (a: ProductTotal, b: ProductTotal) => MoreSold(a, b);
    Sorting.SortBySorted(groups, le);
    Sorting.SortBy(groups, le)
  }

  /** The LIMIT of `top_products`. */
  const TopCount: nat := 5

  function Min(a: int, b: int): int {
    if a <= b then a else b
  }

  /** The top_products query over the selected sales. */
  function TopProducts(products: ProductTable, sales: seq<Sale>): (r: seq<ProductTotal>)
    requires products.Valid()
    ensures |r| == Min(TopCount, |Groups(Scan(products), sales)|)
    ensures forall i, j :: 0 <= i < j < |r| ==> r[i].quantitySold >= r[j].quantitySold
    ensures forall g :: g in r ==> g in Groups(Scan(products), sales)
    ensures forall g, h :: g in r && h in Groups(Scan(products), sales) && h !in r ==>
      g.quantitySold >= h.quantitySold
    ensures forall i, j :: 0 <= i < j < |r| ==> r[i].productId != r[j].productId
  {
    var groups := Groups(Scan(products), sales);
    GroupsOfRows(Scan(products), sales);
    GroupsOrdered(Scan(products), sales);
    var sorted := BestSellersFirst(groups);
    var k := Min(TopCount, |sorted|);
    TopPrefix(groups, sorted, k);
    sorted[..k]
  }

  /** top_products in terms of the products table: each entry is the group
      of a stored product that has a sale, no product sold more than a kept
      one without being kept, and when at most five products have a sale,
      all of them are kept. */
  lemma TopProductsOfTable(products: ProductTable, sales: seq<Sale>)
    requires products.Valid()
    ensures |TopProducts(products, sales)| <= TopCount
    ensures forall g :: g in TopProducts(products, sales) ==>
      && g.productId in products.rows && HasSale(sales, g.productId)
      && g == GroupOf(Row(g.productId, products.rows[g.productId]), sales)
    ensures forall id, g ::
      (&& id in products.rows && HasSale(sales, id)
       && GroupOf(Row(id, products.rows[id]), sales) !in TopProducts(products, sales)
       && g in TopProducts(products, sales))
      ==> g.quantitySold >= GroupOf(Row(id, products.rows[id]), sales).quantitySold
    ensures |Groups(Scan(products), sales)| <= TopCount ==>
      forall id :: id in products.rows && HasSale(sales, id) ==>
        GroupOf(Row(id, products.rows[id]), sales) in TopProducts(products, sales)
  {
    var rows := Scan(products);
    var groups := Groups(rows, sales);
    var top := TopProducts(products, sales);
    GroupsOfRows(rows, sales);
    forall g | g in top ensures
      && g.productId in products.rows && HasSale(sales, g.productId)
      && g == GroupOf(Row(g.productId, products.rows[g.productId]), sales)
    {
      var row :| row in rows && HasSale(sales, row.id) && g == GroupOf(row, sales);
    }
    if |groups| <= TopCount {
      var sorted := BestSellersFirst(groups);
      assert top == sorted[..|sorted|];
      assert sorted[..|sorted|] == sorted;
      Sorting.SameElements(groups, sorted);
    }
  }

  /** The first k of the sorted groups: groups of distinct products, and
      none of those cut off sold more than one kept. */
  lemma TopPrefix(groups: seq<ProductTotal>, sorted: seq<ProductTotal>, k: nat)
    requires forall i, j :: 0 <= i < j < |groups| ==> groups[i].productId < groups[j].productId
    requires multiset(sorted) == multiset(groups)
    requires Sorting.Sorted(sorted, (a: ProductTotal, b: ProductTotal) => MoreSold(a, b))
    requires k <= |sorted|
    ensures forall i, j :: 0 <= i < j < k ==> sorted[i].quantitySold >= sorted[j].quantitySold
    ensures forall g :: g in sorted[..k] ==> g in groups
    ensures forall g, h :: g in sorted[..k] && h in groups && h !in sorted[..k] ==>
      g.quantitySold >= h.quantitySold
    ensures forall i, j :: 0 <= i < j < k ==> sorted[i].productId != sorted[j].productId
  {
    var le := (a: ProductTotal, b: ProductTotal) => MoreSold(a, b);
    Sorting.SameElements(groups, sorted);
    Sorting.PrefixDominates(sorted, k, le);
    forall g, h | g in sorted[..k] && h in groups && h !in sorted[..k]
      ensures g.quantitySold >= h.quantitySold
    {
      var i :| 0 <= i < k && sorted[..k][i] == g;
      assert h in multiset(sorted) && h !in multiset(sorted[..k]);
      assert h in multiset(sorted) - multiset(sorted[..k]);
      assert le(sorted[i], h);
    }
    assert Sorting.Distinct(groups);
    Sorting.DistinctPermutation(groups, sorted);
    forall g | g in sorted[..k] ensures g in groups {
      assert g in sorted;
    }
    forall i, j | 0 <= i < j < k ensures sorted[i].productId != sorted[j].productId {
      assert sorted[i] != sorted[j];
      assert sorted[i] in groups && sorted[j] in groups;
      var a :| 0 <= a < |groups| && groups[a] == sorted[i];
      var b :| 0 <= b < |groups| && groups[b] == sorted[j];
      assert a != b;
    }
  }

  /** What get_sales_summary returns. */
  datatype SalesSummary = SalesSummary(
    totals: Totals,
    platformStats: map<Platform, Totals>,
    topProducts: seq<ProductTotal>)

  /** The `where_clause` of get_sales_summary: the date window applies only
      when both bounds are given. */
  function Selected(sales: seq<Sale>, start: Option<Date>, end: Option<Date>): seq<Sale> {
    if start.Some? && end.Some? then Between(sales, start.value, end.value) else sales
  }

  /** get_sales_summary: over the selected sales, the totals, the
      per-platform breakdown and the five best-selling products. */
  function GetSalesSummary(sales: seq<Sale>, products: ProductTable, start: Option<Date>, end: Option<Date>)
    : (r: SalesSummary)
    requires products.Valid()
    ensures r.totals == Aggregate(Selected(sales, start, end))
    ensures r.platformStats == PlatformStats(Selected(sales, start, end))
    ensures r.topProducts == TopProducts(products, Selected(sales, start, end))
    ensures Selected(sales, start, end) == [] ==>
      r.totals == NoTotals && r.platformStats == map[] && r.topProducts == []
  {
    var selected := Selected(sales, start, end);
    var top := TopProducts(products, selected);
    GroupsOfNoSales(Scan(products));
    SalesSummary(Aggregate(selected), PlatformStats(selected), top)
  }

  /** The summary is consistent: its per-platform entries, with zero for a
      missing platform, add up to its totals, and it names at most five
      products. */
  lemma SalesSummaryConsistent(sales: seq<Sale>, products: ProductTable, start: Option<Date>, end: Option<Date>)
    requires products.Valid()
    ensures var r := GetSalesSummary(sales, products, start, end);
      && r.totals == StatOr(r.platformStats, Naver).Add(StatOr(r.platformStats, Coupang))
           .Add(StatOr(r.platformStats, SelfMall))
      && |r.topProducts| <= TopCount
  {
    var selected := Selected(sales, start, end);
    var r := GetSalesSummary(sales, products, start, end);
    PlatformStatsTotal(selected);
    assert r.totals == Aggregate(selected) && r.platformStats == PlatformStats(selected);
    TopProductsOfTable(products, selected);
  }
}
