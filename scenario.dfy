/** Two runs of the managers on a fresh database: the demonstration at the
    bottom of inventory.py, and a product sold until its stock runs short. */
module Scenarios {
  import opened Wrappers
  import opened Store
  import Catalog
  import Ledger

  /** inventory.py run as a script: add a product, read it back, change its
      price and stock, list the products and take the summary. */
  method InventoryDemo()
    returns (added: Result<int, Error>, fetched: Option<Product>, updated: Result<bool, Error>,
             listed: seq<Catalog.Listed>, summary: Catalog.InventorySummary)
    ensures added == Success(1)
    ensures fetched.Some? && fetched.value.name == "Test Product" && fetched.value.price == 10000.0
      && fetched.value.quantity == 50
    ensures updated == Success(true)
    ensures |listed| == 1 && listed[0].id == 1 && listed[0].product.price == 12000.0
      && listed[0].product.quantity == 100 && listed[0].value == 1200000.0
    ensures summary.totalProducts == 1 && summary.totalQuantity == 100
      && summary.totalValue == 1200000.0 && summary.avgPrice == 12000.0
  {
    var db := new Database();
    var manager := new Catalog.InventoryManager(db);
    added := manager.AddProduct("Test Product", 10000.0, 10.0, 15.0, 20.0, 50);
    var p0 := Product("Test Product", 10000.0, 10.0, 15.0, 20.0, 50, 0, 0);
    assert db.products == ProductTable(map[1 := p0], 2) && db.clock == 1;
    fetched := Catalog.GetProduct(db.products, added.value);
    var kwargs := map["price" := Catalog.Int(12000), "quantity" := Catalog.Int(100)];
    PriceAndQuantity(p0);
    updated := manager.UpdateProduct(1, kwargs);
    var p := p0.(price := 12000.0, quantity := 100, updatedAt := 1);
    assert db.products == ProductTable(map[1 := p], 2);
    OneProductQueries(p);
    listed := Catalog.GetAllProducts(db.products, "", "name");
    summary := Catalog.GetInventorySummary(db.products);
  }

  /** Setting price 12000 and quantity 100 passes the checks and changes
      just those two columns. */
  lemma PriceAndQuantity(p: Product)
    ensures Catalog.WellTyped(map["price" := Catalog.Int(12000), "quantity" := Catalog.Int(100)])
    ensures Catalog.CheckUpdate(map["price" := Catalog.Int(12000), "quantity" := Catalog.Int(100)]).None?
    ensures Catalog.AnySupplied(map["price" := Catalog.Int(12000), "quantity" := Catalog.Int(100)])
    ensures Catalog.Patched(p, map["price" := Catalog.Int(12000), "quantity" := Catalog.Int(100)])
      == p.(price := 12000.0, quantity := 100)
  {
  }

  /** A table holding one product under id 1 scans to that row, whose
      totals are its own columns. */
  lemma OneRow(p: Product)
    ensures ProductTable(map[1 := p], 2).Valid()
    ensures Scan(ProductTable(map[1 := p], 2)) == [Row(1, p)]
    ensures Catalog.TotalQuantity([Row(1, p)]) == p.quantity
    ensures Catalog.TotalValue([Row(1, p)]) == p.Value()
    ensures Catalog.TotalPrice([Row(1, p)]) == p.price
  {
    assert ScanRange(map[1 := p], 2, 2) == [];
    assert [Row(1, p)][1..] == [];
  }

  /** Listing and summarising a table that holds one product only. */
  lemma OneProductQueries(p: Product)
    ensures ProductTable(map[1 := p], 2).Valid()
    ensures var listed := Catalog.GetAllProducts(ProductTable(map[1 := p], 2), "", "name");
      |listed| == 1 && listed[0] == Catalog.Listed(1, p, p.Value())
    ensures var summary := Catalog.GetInventorySummary(ProductTable(map[1 := p], 2));
      && summary.totalProducts == 1 && summary.totalQuantity == p.quantity
      && summary.totalValue == p.Value() && summary.avgPrice == p.price
  {
    OneRow(p);
    var listed := Catalog.GetAllProducts(ProductTable(map[1 := p], 2), "", "name");
    assert listed[0] in listed;
  }

  /** A product with 50 in stock: selling 5 on Naver is accepted at a 10%
      margin; selling 50 more on Coupang is refused, and the stock stays 45. */
  method WidgetSales(saleDate: Date)
    returns (first: Result<int, Error>, sale: Sale, second: Result<int, Error>, stock: int)
    ensures first == Success(1)
    ensures sale.revenue == 50000.0 && sale.profit == 45000.0 && sale.quantity == 5
    ensures second == Failure(InsufficientStock(45, 50))
    ensures stock == 45
  {
    var db := new Database();
    var catalog := new Catalog.InventoryManager(db);
    var ledger := new Ledger.SalesManager(db);
    var added := catalog.AddProduct("Widget", 10000.0, 10.0, 15.0, 20.0, 50);
    first := ledger.RecordSale(added.value, saleDate, 5, "네이버");
    sale := db.sales[0];
    second := ledger.RecordSale(added.value, saleDate, 50, "쿠팡");
    stock := db.products.rows[added.value].quantity;
  }
}
