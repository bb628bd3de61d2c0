/** The two SQLite tables the managers act on, `products` and `sales`, held in
    memory: the records, the validation rules of their columns, the scan of
    the products table in rowid order, and the database object itself. */
module Store {
  import opened Wrappers

  /** A calendar date, as a day number; SQL BETWEEN and ORDER BY compare it. */
  type Date = int

  /** The three sales channels a sale is attributed to. */
  datatype Platform = Naver | Coupang | SelfMall

  /** The text under which each platform is passed in and stored. */
  function PlatformName(p: Platform): string {
    match p
    case Naver => "네이버"
    case Coupang => "쿠팡"
    case SelfMall => "자사몰"
  }

  /** The platform check of record_sale: one of the three fixed names. */
  function ParsePlatform(s: string): (r: Option<Platform>)
    ensures r.Some? <==> s in ["네이버", "쿠팡", "자사몰"]
  {
    if s == "네이버" then Some(Naver)
    else if s == "쿠팡" then Some(Coupang)
    else if s == "자사몰" then Some(SelfMall)
    else None
  }

  /** The platform text and the platform determine each other. */
  lemma PlatformRoundTrip(p: Platform, s: string)
    ensures ParsePlatform(PlatformName(p)) == Some(p)
    ensures ParsePlatform(s) == Some(p) ==> PlatformName(p) == s
  {
  }

  /** A row of `products` without its id (the id is the table's key);
      createdAt and updatedAt are ticks of the database's logical clock. */
  datatype Product = Product(
    name: string,
    price: real,
    marginNaver: real,
    marginCoupang: real,
    marginSelf: real,
    quantity: int,
    createdAt: nat,
    updatedAt: nat)
  {
    /** The margin column that belongs to a platform. */
    function Margin(p: Platform): real {
      match p
      case Naver => marginNaver
      case Coupang => marginCoupang
      case SelfMall => marginSelf
    }

    /** The derived column `price * quantity`. */
    function Value(): real {
      price * quantity as real
    }
  }

  predicate PriceOk(price: real) { price >= 0.0 }

  predicate MarginOk(margin: real) { 0.0 <= margin <= 100.0 }

  predicate QuantityOk(quantity: int) { quantity >= 0 }

  /** What add_product and update_product enforce of every stored product. */
  predicate WellFormed(p: Product) {
    && PriceOk(p.price)
    && MarginOk(p.marginNaver) && MarginOk(p.marginCoupang) && MarginOk(p.marginSelf)
    && QuantityOk(p.quantity)
  }

  /** A row of `sales`; revenue and profit are fixed when it is recorded. */
  datatype Sale = Sale(
    id: int,
    productId: int,
    saleDate: Date,
    quantity: int,
    platform: Platform,
    revenue: real,
    profit: real,
    createdAt: nat)

  /** The ValueError messages the managers raise. */
  datatype Error =
    | NegativePrice                        // "Price must be non-negative"
    | MarginsOutOfRange                    // "Margins must be between 0 and 100"
    | MarginOutOfRange(column: string)     // "<column> must be between 0 and 100"
    | NegativeQuantity                     // "Quantity must be non-negative"
    | InvalidPlatform                      // "Platform must be 네이버, 쿠팡, or 자사몰"
    | ProductNotFound                      // "Product not found"
    | InsufficientStock(available: int, requested: int)

  /** A product row together with its id. */
  datatype Row = Row(id: int, product: Product)

  /** The `products` table: rows by id, and the AUTOINCREMENT counter that
      hands out the next id (ids start at 1 and are never reused). */
  datatype ProductTable = ProductTable(rows: map<int, Product>, nextId: int) {
    ghost predicate Valid() {
      nextId >= 1 && forall id :: id in rows ==> 1 <= id < nextId
    }
  }

  /** The ids of `rows` in [lo, hi). */
  ghost function IdsIn(rows: map<int, Product>, lo: int, hi: int): set<int> {
    set id | id in rows && lo <= id < hi
  }

  /** The rows with ids in [lo, hi), taken in ascending id order. */
  function ScanRange(rows: map<int, Product>, lo: int, hi: int): seq<Row>
    decreases hi - lo
  {
    if lo >= hi then []
    else if lo in rows then [Row(lo, rows[lo])] + ScanRange(rows, lo + 1, hi)
    else ScanRange(rows, lo + 1, hi)
  }

  /** A range scan yields exactly the rows with ids in the range, in
      strictly ascending id order. */
  lemma {:induction false} ScanRangeRows(rows: map<int, Product>, lo: int, hi: int)
    ensures forall x :: x in ScanRange(rows, lo, hi) ==>
      x.id in rows && rows[x.id] == x.product && lo <= x.id < hi
    ensures forall id :: id in rows && lo <= id < hi ==> Row(id, rows[id]) in ScanRange(rows, lo, hi)
    ensures forall i, j :: 0 <= i < j < |ScanRange(rows, lo, hi)| ==>
      ScanRange(rows, lo, hi)[i].id < ScanRange(rows, lo, hi)[j].id
    decreases hi - lo
  {
    if lo < hi {
      ScanRangeRows(rows, lo + 1, hi);
      var s := ScanRange(rows, lo + 1, hi);
      if lo in rows {
        var r := [Row(lo, rows[lo])] + s;
        assert ScanRange(rows, lo, hi) == r;
        forall i, j | 0 <= i < j < |r| ensures r[i].id < r[j].id {
          if i == 0 {
            assert r[j] == s[j - 1] && r[j] in s;
          } else {
            assert r[i] == s[i - 1] && r[j] == s[j - 1];
          }
        }
      }
    }
  }

  /** One step of a range scan: the row at `lo`, if any, then the rest. */
  lemma ScanRangeStep(rows: map<int, Product>, lo: int, hi: int)
    requires lo < hi
    ensures ScanRange(rows, lo, hi)
      == (if lo in rows then [Row(lo, rows[lo])] else []) + ScanRange(rows, lo + 1, hi)
  {
  }

  lemma IdsInSplit(rows: map<int, Product>, lo: int, hi: int)
    requires lo < hi
    ensures lo !in IdsIn(rows, lo + 1, hi)
    ensures lo in rows ==> IdsIn(rows, lo, hi) == {lo} + IdsIn(rows, lo + 1, hi)
    ensures lo !in rows ==> IdsIn(rows, lo, hi) == IdsIn(rows, lo + 1, hi)
  {
  }

  lemma {:induction false} ScanRangeCount(rows: map<int, Product>, lo: int, hi: int)
    ensures |ScanRange(rows, lo, hi)| == |IdsIn(rows, lo, hi)|
    decreases hi - lo
  {
    if lo >= hi {
      assert IdsIn(rows, lo, hi) == {};
    } else {
      ScanRangeCount(rows, lo + 1, hi);
      IdsInSplit(rows, lo, hi);
    }
  }

  /** A full table scan: every row exactly once, in rowid order. */
  function Scan(t: ProductTable): (r: seq<Row>)
    requires t.Valid()
    ensures forall x :: x in r ==> x.id in t.rows && t.rows[x.id] == x.product
    ensures forall id :: id in t.rows ==> Row(id, t.rows[id]) in r
    ensures forall i, j :: 0 <= i < j < |r| ==> r[i].id < r[j].id
    ensures |r| == |t.rows|
  {
    ScanRangeRows(t.rows, 1, t.nextId);
    ScanRangeCount(t.rows, 1, t.nextId);
    assert IdsIn(t.rows, 1, t.nextId) == t.rows.Keys;
    ScanRange(t.rows, 1, t.nextId)
  }

  /** The SQLite database file: both tables and the clock that stands for
      CURRENT_TIMESTAMP. */
  class Database {
    var products: ProductTable
    var sales: seq<Sale>
    var clock: nat

    /** The table invariants: every product passes the column checks (so no
        stock level is negative), timestamps lie in the past, and the sales
        table holds its rows in insertion order with ids 1, 2, 3, ... */
    ghost predicate Valid()
      reads this
    {
      && products.Valid()
      && (forall id :: id in products.rows ==>
            WellFormed(products.rows[id])
            && products.rows[id].createdAt <= products.rows[id].updatedAt < clock)
      && (forall i :: 0 <= i < |sales| ==> sales[i].id == i + 1 && sales[i].createdAt < clock)
      && (forall i, j :: 0 <= i < j < |sales| ==> sales[i].createdAt < sales[j].createdAt)
    }

    /** init_database on a fresh file: both tables created empty. */
    constructor ()
      ensures Valid()
      ensures products == ProductTable(map[], 1) && sales == [] && clock == 0
    {
      products := ProductTable(map[], 1);
      sales := [];
      clock := 0;
    }
  }
}
