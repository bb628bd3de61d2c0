/** The catalog service of inventory.py (class InventoryManager): inserting,
    updating and deleting products in place on the `products` table, and the
    read-only queries over it (lookup, listing, inventory summary). */
module Catalog {
  import opened Wrappers
  import opened Store
  import Sorting

  // ---------------------------------------------------------------------
  // add_product: validation
  // ---------------------------------------------------------------------

  /** The three checks add_product makes before it touches the table, in its
      order: price, then the three margins together, then quantity. */
  function CheckNewProduct(price: real, marginNaver: real, marginCoupang: real,
                           marginSelf: real, quantity: int): (r: Option<Error>)
    ensures r.None? <==>
      PriceOk(price) && MarginOk(marginNaver) && MarginOk(marginCoupang)
      && MarginOk(marginSelf) && QuantityOk(quantity)
    ensures r == Some(NegativePrice) <==> !PriceOk(price)
    ensures r == Some(MarginsOutOfRange) <==>
      PriceOk(price) && !(MarginOk(marginNaver) && MarginOk(marginCoupang) && MarginOk(marginSelf))
    ensures r == Some(NegativeQuantity) <==>
      PriceOk(price) && MarginOk(marginNaver) && MarginOk(marginCoupang)
      && MarginOk(marginSelf) && !QuantityOk(quantity)
  {
    if price < 0.0 then Some(NegativePrice)
    else if !(MarginOk(marginNaver) && MarginOk(marginCoupang) && MarginOk(marginSelf)) then
      Some(MarginsOutOfRange)
    else if quantity < 0 then Some(NegativeQuantity)
    else None
  }

  // ---------------------------------------------------------------------
  // update_product: keyword arguments, validation, the SET clause
  // ---------------------------------------------------------------------

  /** A keyword-argument value as a caller passes it: text, int or float. */
  datatype Arg = Text(s: string) | Int(n: int) | Real(x: real)

  /** The numeric value of an int or float argument. */
  function Num(v: Arg): real
    requires !v.Text?
  {
    if v.Int? then v.n as real else v.x
  }

  /** The columns update_product may set (its `allowed_fields`). */
  datatype Field = Name | Price | MarginNaver | MarginCoupang | MarginSelf | Quantity {
    /** The keyword and column name of the field. */
    function Column(): string {
      match this
      case Name => "name"
      case Price => "price"
      case MarginNaver => "margin_naver"
      case MarginCoupang => "margin_coupang"
      case MarginSelf => "margin_self"
      case Quantity => "quantity"
    }

    /** The position of the field in `allowed_fields`. */
    function Rank(): (i: nat)
      ensures i < |AllowedFields| && AllowedFields[i] == this
    {
      match this
      case Name => 0
      case Price => 1
      case MarginNaver => 2
      case MarginCoupang => 3
      case MarginSelf => 4
      case Quantity => 5
    }
  }

  const AllowedFields: seq<Field> := [Name, Price, MarginNaver, MarginCoupang, MarginSelf, Quantity]

  /** The `**kwargs` of update_product: keyword name to value. */
  type Kwargs = map<string, Arg>

  /** The six field names in `allowed_fields` order. */
  lemma AllowedColumns()
    ensures |AllowedFields| == 6
    ensures AllowedFields[0].Column() == "name" && AllowedFields[1].Column() == "price"
    ensures AllowedFields[2].Column() == "margin_naver" && AllowedFields[3].Column() == "margin_coupang"
    ensures AllowedFields[4].Column() == "margin_self" && AllowedFields[5].Column() == "quantity"
  {
  }

  /** Distinct fields have distinct keywords. */
  lemma ColumnInjective(f: Field, g: Field)
    ensures f.Column() == g.Column() ==> f == g
  {
  }

  /** A value of the type a field's column holds. */
  predicate Fits(f: Field, v: Arg) {
    match f
    case Name => v.Text?
    case Quantity => v.Int?
    case _ => v.Int? || v.Real?
  }

  /** What callers pass: text for the name, a number for price and margins,
      an int for quantity; keywords outside `allowed_fields` may hold anything. */
  predicate WellTyped(kwargs: Kwargs) {
    && ("name" in kwargs ==> kwargs["name"].Text?)
    && ("price" in kwargs ==> !kwargs["price"].Text?)
    && ("margin_naver" in kwargs ==> !kwargs["margin_naver"].Text?)
    && ("margin_coupang" in kwargs ==> !kwargs["margin_coupang"].Text?)
    && ("margin_self" in kwargs ==> !kwargs["margin_self"].Text?)
    && ("quantity" in kwargs ==> kwargs["quantity"].Int?)
  }

  lemma WellTypedFits(kwargs: Kwargs, f: Field)
    requires WellTyped(kwargs)
    requires f.Column() in kwargs
    ensures Fits(f, kwargs[f.Column()])
  {
    match f
    case Name =>
    case Price =>
    case MarginNaver =>
    case MarginCoupang =>
    case MarginSelf =>
    case Quantity =>
  }

  /** Every supplied field keeps its column's rule (the name has none). */
  predicate UpdateOk(kwargs: Kwargs)
    requires WellTyped(kwargs)
  {
    && ("price" in kwargs ==> PriceOk(Num(kwargs["price"])))
    && ("margin_naver" in kwargs ==> MarginOk(Num(kwargs["margin_naver"])))
    && ("margin_coupang" in kwargs ==> MarginOk(Num(kwargs["margin_coupang"])))
    && ("margin_self" in kwargs ==> MarginOk(Num(kwargs["margin_self"])))
    && ("quantity" in kwargs ==> QuantityOk(kwargs["quantity"].n))
  }

  /** The checks update_product makes before anything else, in its order:
      price, margin_naver, margin_coupang, margin_self, quantity; the first
      supplied field that breaks its rule decides the error. */
  function CheckUpdate(kwargs: Kwargs): (r: Option<Error>)
    requires WellTyped(kwargs)
    ensures r.None? <==> UpdateOk(kwargs)
    ensures r == Some(NegativePrice) <==> "price" in kwargs && !PriceOk(Num(kwargs["price"]))
    ensures r == Some(MarginOutOfRange("margin_naver")) <==>
      && ("price" in kwargs ==> PriceOk(Num(kwargs["price"])))
      && "margin_naver" in kwargs && !MarginOk(Num(kwargs["margin_naver"]))
    ensures r == Some(MarginOutOfRange("margin_coupang")) <==>
      && ("price" in kwargs ==> PriceOk(Num(kwargs["price"])))
      && ("margin_naver" in kwargs ==> MarginOk(Num(kwargs["margin_naver"])))
      && "margin_coupang" in kwargs && !MarginOk(Num(kwargs["margin_coupang"]))
    ensures r == Some(MarginOutOfRange("margin_self")) <==>
      && ("price" in kwargs ==> PriceOk(Num(kwargs["price"])))
      && ("margin_naver" in kwargs ==> MarginOk(Num(kwargs["margin_naver"])))
      && ("margin_coupang" in kwargs ==> MarginOk(Num(kwargs["margin_coupang"])))
      && "margin_self" in kwargs && !MarginOk(Num(kwargs["margin_self"]))
    ensures r == Some(NegativeQuantity) <==>
      && ("price" in kwargs ==> PriceOk(Num(kwargs["price"])))
      && ("margin_naver" in kwargs ==> MarginOk(Num(kwargs["margin_naver"])))
      && ("margin_coupang" in kwargs ==> MarginOk(Num(kwargs["margin_coupang"])))
      && ("margin_self" in kwargs ==> MarginOk(Num(kwargs["margin_self"])))
      && "quantity" in kwargs && !QuantityOk(kwargs["quantity"].n)
  {
    if "price" in kwargs && Num(kwargs["price"]) < 0.0 then
      Some(NegativePrice)
    else if "margin_naver" in kwargs && !MarginOk(Num(kwargs["margin_naver"])) then
      Some(MarginOutOfRange("margin_naver"))
    else if "margin_coupang" in kwargs && !MarginOk(Num(kwargs["margin_coupang"])) then
      Some(MarginOutOfRange("margin_coupang"))
    else if "margin_self" in kwargs && !MarginOk(Num(kwargs["margin_self"])) then
      Some(MarginOutOfRange("margin_self"))
    else if "quantity" in kwargs && kwargs["quantity"].n < 0 then
      Some(NegativeQuantity)
    else
      None
  }

  /** Some keyword of `allowed_fields` is supplied. */
  predicate AnySupplied(kwargs: Kwargs) {
    || "name" in kwargs || "price" in kwargs || "margin_naver" in kwargs
    || "margin_coupang" in kwargs || "margin_self" in kwargs || "quantity" in kwargs
  }

  /** The product with every supplied allowed field replaced by its argument
      and every other field as it was; keywords outside `allowed_fields` play
      no part. */
  function Patched(p: Product, kwargs: Kwargs): (r: Product)
    requires WellTyped(kwargs)
    ensures WellFormed(p) && UpdateOk(kwargs) ==> WellFormed(r)
    ensures r.createdAt == p.createdAt && r.updatedAt == p.updatedAt
    ensures !AnySupplied(kwargs) ==> r == p
  {
    p.(name := if "name" in kwargs then kwargs["name"].s else p.name,
       price := if "price" in kwargs then Num(kwargs["price"]) else p.price,
       marginNaver := if "margin_naver" in kwargs then Num(kwargs["margin_naver"]) else p.marginNaver,
       marginCoupang := if "margin_coupang" in kwargs then Num(kwargs["margin_coupang"]) else p.marginCoupang,
       marginSelf := if "margin_self" in kwargs then Num(kwargs["margin_self"]) else p.marginSelf,
       quantity := if "quantity" in kwargs then kwargs["quantity"].n else p.quantity)
  }

  /** A keyword outside `allowed_fields` changes nothing. */
  lemma PatchedIgnoresOthers(p: Product, kwargs: Kwargs, k: string)
    requires WellTyped(kwargs)
    requires k !in ["name", "price", "margin_naver", "margin_coupang", "margin_self", "quantity"]
    ensures WellTyped(kwargs - {k})
    ensures Patched(p, kwargs - {k}) == Patched(p, kwargs)
  {
  }

  /** One `column = ?` of the SET clause with its bound value. */
  datatype Assignment = Assignment(field: Field, value: Arg)

  /** The SET clause the loop of update_product collects holds exactly the
      supplied allowed fields, each once, in the order of `allowed_fields`,
      each with the argument passed for it. */
  ghost predicate ExactlySupplied(assignments: seq<Assignment>, kwargs: Kwargs) {
    && (forall i :: 0 <= i < |assignments| ==>
          assignments[i].field.Column() in kwargs
          && assignments[i].value == kwargs[assignments[i].field.Column()])
    && (forall k :: 0 <= k < |AllowedFields| && AllowedFields[k].Column() in kwargs ==>
          exists i :: 0 <= i < |assignments| && assignments[i].field == AllowedFields[k])
    && (forall i, j :: 0 <= i < j < |assignments| ==>
          assignments[i].field.Rank() < assignments[j].field.Rank())
  }

  lemma RankOf(k: int)
    requires 0 <= k < |AllowedFields|
    ensures AllowedFields[k].Rank() == k
  {
  }

  /** The loop of update_product over `allowed_fields` that builds the
      `field = ?` list and its values. */
  method FieldsToUpdate(kwargs: Kwargs) returns (assignments: seq<Assignment>)
    ensures ExactlySupplied(assignments, kwargs)
    ensures assignments == [] <==> !AnySupplied(kwargs)
  {
    assignments := [];
    for k := 0 to |AllowedFields|
      invariant forall i :: 0 <= i < |assignments| ==>
        assignments[i].field.Column() in kwargs
        && assignments[i].value == kwargs[assignments[i].field.Column()]
        && assignments[i].field.Rank() < k
      invariant forall j :: 0 <= j < k && AllowedFields[j].Column() in kwargs ==>
        exists i :: 0 <= i < |assignments| && assignments[i].field == AllowedFields[j]
      invariant forall i, j :: 0 <= i < j < |assignments| ==>
        assignments[i].field.Rank() < assignments[j].field.Rank()
    {
      var field := AllowedFields[k];
      RankOf(k);
      if field.Column() in kwargs {
        ghost var before := assignments;
        assignments := assignments + [Assignment(field, kwargs[field.Column()])];
        assert forall i :: 0 <= i < |before| ==> assignments[i] == before[i];
        assert assignments[|assignments| - 1].field == field;
      }
    }
    SuppliedIffAssigned(assignments, kwargs);
  }

  /** The SET list is empty exactly when no allowed keyword is supplied. */
  lemma SuppliedIffAssigned(assignments: seq<Assignment>, kwargs: Kwargs)
    requires ExactlySupplied(assignments, kwargs)
    ensures assignments == [] <==> !AnySupplied(kwargs)
  {
    AllowedColumns();
    if assignments != [] {
      assert assignments[0].field.Column() in kwargs;
      match assignments[0].field
      case Name =>
      case Price =>
      case MarginNaver =>
      case MarginCoupang =>
      case MarginSelf =>
      case Quantity =>
    }
  }

  /** Executing one `column = ?` on a row. */
  function Assign(p: Product, a: Assignment): Product
    requires Fits(a.field, a.value)
  {
    match a.field
    case Name => p.(name := a.value.s)
    case Price => p.(price := Num(a.value))
    case MarginNaver => p.(marginNaver := Num(a.value))
    case MarginCoupang => p.(marginCoupang := Num(a.value))
    case MarginSelf => p.(marginSelf := Num(a.value))
    case Quantity => p.(quantity := a.value.n)
  }

  /** Executing the whole SET list on a row, left to right. */
  function AssignAll(p: Product, assignments: seq<Assignment>): Product
    requires forall i :: 0 <= i < |assignments| ==> Fits(assignments[i].field, assignments[i].value)
    decreases |assignments|
  {
    if assignments == [] then p
    else AssignAll(Assign(p, assignments[0]), assignments[1..])
  }

  /** Setting one supplied field first and patching with the rest of the
      arguments is patching with all of them. */
  lemma AssignPatched(p: Product, a: Assignment, kwargs: Kwargs)
    requires WellTyped(kwargs)
    requires a.field.Column() in kwargs && a.value == kwargs[a.field.Column()]
    ensures Fits(a.field, a.value)
    ensures WellTyped(kwargs - {a.field.Column()})
    ensures Patched(Assign(p, a), kwargs - {a.field.Column()}) == Patched(p, kwargs)
  {
    WellTypedFits(kwargs, a.field);
    if a.field == Name {
      AssignPatchedName(p, a, kwargs);
    } else if a.field == Quantity {
      AssignPatchedQuantity(p, a, kwargs);
    } else {
      AssignPatchedNumber(p, a, kwargs);
    }
  }

  /** AssignPatched for the text column. */
  lemma AssignPatchedName(p: Product, a: Assignment, kwargs: Kwargs)
    requires WellTyped(kwargs)
    requires a.field == Name && "name" in kwargs && a.value == kwargs["name"]
    ensures Fits(a.field, a.value)
    ensures Patched(Assign(p, a), kwargs - {"name"}) == Patched(p, kwargs)
  {
  }

  /** AssignPatched for the integer column. */
  lemma AssignPatchedQuantity(p: Product, a: Assignment, kwargs: Kwargs)
    requires WellTyped(kwargs)
    requires a.field == Quantity && "quantity" in kwargs && a.value == kwargs["quantity"]
    ensures Fits(a.field, a.value)
    ensures Patched(Assign(p, a), kwargs - {"quantity"}) == Patched(p, kwargs)
  {
  }

  /** AssignPatched for the numeric columns: price and the three margins. */
  lemma AssignPatchedNumber(p: Product, a: Assignment, kwargs: Kwargs)
    requires WellTyped(kwargs)
    requires a.field in {Price, MarginNaver, MarginCoupang, MarginSelf}
    requires a.field.Column() in kwargs && a.value == kwargs[a.field.Column()]
    ensures Fits(a.field, a.value)
    ensures Patched(Assign(p, a), kwargs - {a.field.Column()}) == Patched(p, kwargs)
  {
    WellTypedFits(kwargs, a.field);
    match a.field
    case Price =>
    case MarginNaver =>
    case MarginCoupang =>
    case MarginSelf =>
  }

  /** The UPDATE built from the collected list sets exactly the supplied
      fields: it yields the patched product. */
  lemma {:induction false} AssignAllPatched(p: Product, assignments: seq<Assignment>, kwargs: Kwargs)
    requires WellTyped(kwargs)
    requires ExactlySupplied(assignments, kwargs)
    ensures forall i :: 0 <= i < |assignments| ==> Fits(assignments[i].field, assignments[i].value)
    ensures AssignAll(p, assignments) == Patched(p, kwargs)
    decreases |assignments|
  {
    forall i | 0 <= i < |assignments|
      ensures Fits(assignments[i].field, assignments[i].value)
    {
      WellTypedFits(kwargs, assignments[i].field);
    }
    if assignments == [] {
      AllowedColumns();
      assert !AnySupplied(kwargs);
    } else {
      var a := assignments[0];
      var rest := assignments[1..];
      var kwargs' := kwargs - {a.field.Column()};
      AssignPatched(p, a, kwargs);
      assert ExactlySupplied(rest, kwargs') by {
        forall i | 0 <= i < |rest|
          ensures rest[i].field.Column() in kwargs'
          ensures rest[i].value == kwargs'[rest[i].field.Column()]
        {
          assert rest[i] == assignments[i + 1];
          assert a.field.Rank() < rest[i].field.Rank();
          ColumnInjective(a.field, rest[i].field);
        }
        forall k | 0 <= k < |AllowedFields| && AllowedFields[k].Column() in kwargs'
          ensures exists i :: 0 <= i < |rest| && rest[i].field == AllowedFields[k]
        {
          var i :| 0 <= i < |assignments| && assignments[i].field == AllowedFields[k];
          assert i != 0;
          assert rest[i - 1].field == AllowedFields[k];
        }
        forall i, j | 0 <= i < j < |rest|
          ensures rest[i].field.Rank() < rest[j].field.Rank()
        {
          assert rest[i] == assignments[i + 1] && rest[j] == assignments[j + 1];
        }
      }
      AssignAllPatched(Assign(p, a), rest, kwargs');
    }
  }

  // ---------------------------------------------------------------------
  // The manager: statements that change the products table
  // ---------------------------------------------------------------------

  /** InventoryManager, working on the shared database. */
  class InventoryManager {
    const db: Database

    /** The constructor finds the tables in place (init_database creates
        them only when missing). */
    constructor (db: Database)
      ensures this.db == db
    {
      this.db := db;
    }

    /** add_product: validate, then INSERT one row under a fresh id, which is
        returned; on a failed check nothing changes. */
    method AddProduct(name: string, price: real, marginNaver: real, marginCoupang: real,
                      marginSelf: real, quantity: int) returns (r: Result<int, Error>)
      requires db.Valid()
      modifies db
      ensures db.Valid()
      ensures CheckNewProduct(price, marginNaver, marginCoupang, marginSelf, quantity).Some? ==>
        && r == Failure(CheckNewProduct(price, marginNaver, marginCoupang, marginSelf, quantity).value)
        && unchanged(db)
      ensures CheckNewProduct(price, marginNaver, marginCoupang, marginSelf, quantity).None? ==>
        && r == Success(old(db.products.nextId))
        && r.value !in old(db.products.rows)
        && db.products == ProductTable(
             old(db.products.rows)[r.value := Product(name, price, marginNaver, marginCoupang,
                                                      marginSelf, quantity, old(db.clock), old(db.clock))],
             old(db.products.nextId) + 1)
        && db.sales == old(db.sales)
        && db.clock == old(db.clock) + 1
      ensures r.Success? ==>
        GetProduct(db.products, r.value)
          == Some(Product(name, price, marginNaver, marginCoupang, marginSelf, quantity,
                          old(db.clock), old(db.clock)))
    {
      var error := CheckNewProduct(price, marginNaver, marginCoupang, marginSelf, quantity);
      if error.Some? {
        return Failure(error.value);
      }
      var id := db.products.nextId;
      var now := db.clock;
      var p := Product(name, price, marginNaver, marginCoupang, marginSelf, quantity, now, now);
      db.products := ProductTable(db.products.rows[id := p], id + 1);
      db.clock := now + 1;
      r := Success(id);
    }

    /** update_product: validate every supplied field first; with no allowed
        field supplied return false; otherwise UPDATE the row with that id
        (setting updated_at too) and return whether it existed. Only a
        successful update changes anything. */
    method UpdateProduct(id: int, kwargs: Kwargs) returns (r: Result<bool, Error>)
      requires db.Valid()
      requires WellTyped(kwargs)
      modifies db
      ensures db.Valid()
      ensures CheckUpdate(kwargs).Some? ==> r == Failure(CheckUpdate(kwargs).value)
      ensures CheckUpdate(kwargs).None? && !AnySupplied(kwargs) ==> r == Success(false)
      ensures CheckUpdate(kwargs).None? && AnySupplied(kwargs) ==>
        r == Success(id in old(db.products.rows))
      ensures r == Success(true) ==>
        && id in old(db.products.rows)
        && db.products == old(db.products).(rows := old(db.products.rows)[id :=
             Patched(old(db.products.rows[id]), kwargs).(updatedAt := old(db.clock))])
        && db.sales == old(db.sales)
        && db.clock == old(db.clock) + 1
      ensures r != Success(true) ==> unchanged(db)
    {
      var error := CheckUpdate(kwargs);
      if error.Some? {
        return Failure(error.value);
      }
      var assignments := FieldsToUpdate(kwargs);
      if assignments == [] {
        return Success(false);
      }
      if id !in db.products.rows {
        return Success(false);
      }
      AssignAllPatched(db.products.rows[id], assignments, kwargs);
      var now := db.clock;
      var p := AssignAll(db.products.rows[id], assignments).(updatedAt := now);
      db.products := db.products.(rows := db.products.rows[id := p]);
      db.clock := now + 1;
      r := Success(true);
    }

    /** delete_product: DELETE the row with that id and return whether it
        existed. Sales that refer to it stay. */
    method DeleteProduct(id: int) returns (r: bool)
      requires db.Valid()
      modifies db
      ensures db.Valid()
      ensures r == (id in old(db.products.rows))
      ensures db.products == old(db.products).(rows := old(db.products.rows) - {id})
      ensures id !in db.products.rows
      ensures db.sales == old(db.sales) && db.clock == old(db.clock)
    {
      r := id in db.products.rows;
      db.products := db.products.(rows := db.products.rows - {id});
    }
  }

  // ---------------------------------------------------------------------
  // Read-only queries
  // ---------------------------------------------------------------------

  /** get_product: the stored row, or None when no row has that id. */
  function GetProduct(t: ProductTable, id: int): (r: Option<Product>)
    ensures r.Some? <==> id in t.rows
    ensures r.Some? ==> r.value == t.rows[id]
  {
    if id in t.rows then Some(t.rows[id]) else None
  }

  /** The ORDER BY columns of get_all_products. */
  datatype SortKey = ByName | ByPrice | ByQuantity | ByValue

  /** `valid_sort.get(sort_by, 'name')`: an unknown key orders by name. */
  function SortColumn(sortBy: string): (k: SortKey)
    ensures sortBy == "price" ==> k == ByPrice
    ensures sortBy == "quantity" ==> k == ByQuantity
    ensures sortBy == "value" ==> k == ByValue
    ensures sortBy !in ["price", "quantity", "value"] ==> k == ByName
  {
    if sortBy == "price" then ByPrice
    else if sortBy == "quantity" then ByQuantity
    else if sortBy == "value" then ByValue
    else ByName
  }

  /** A listed row: the product with its id and the derived `value` column. */
  datatype Listed = Listed(id: int, product: Product, value: real)

  predicate ListedLe(k: SortKey, a: Listed, b: Listed) {
    match k
    case ByName => Sorting.StrLe(a.product.name, b.product.name)
    case ByPrice => a.product.price <= b.product.price
    case ByQuantity => a.product.quantity <= b.product.quantity
    case ByValue => a.value <= b.value
  }

  ghost predicate SortedBy(listing: seq<Listed>, k: SortKey) {
    forall i, j :: 0 <= i < j < |listing| ==> ListedLe(k, listing[i], listing[j])
  }

  lemma ListedLeTotalPreorder(k: SortKey)
    ensures Sorting.TotalPreorder((a: Listed, b: Listed) => ListedLe(k, a, b))
  {
    if k == ByName {
      forall a: Listed, b: Listed ensures ListedLe(k, a, b) || ListedLe(k, b, a) {
        Sorting.StrLeTotal(a.product.name, b.product.name);
      }
      forall a: Listed, b: Listed, c: Listed | ListedLe(k, a, b) && ListedLe(k, b, c)
        ensures ListedLe(k, a, c)
      {
        Sorting.StrLeTransitive(a.product.name, b.product.name, c.product.name);
      }
    }
  }

  /** `name LIKE '%search%'`, taken as a plain substring test. */
  predicate Contains(s: string, sub: string) {
    exists i :: 0 <= i <= |s| && sub <= s[i..]
  }

  /** The WHERE clause of get_all_products: applied only to a non-empty search. */
  predicate Matches(name: string, search: string) {
    search == [] || Contains(name, search)
  }

  /** The rows of a scan that pass the search, with their `value`. */
  function Listing(rows: seq<Row>, search: string): seq<Listed> {
    if rows == [] then []
    else if Matches(rows[0].product.name, search) then
      [Listed(rows[0].id, rows[0].product, rows[0].product.Value())] + Listing(rows[1..], search)
    else Listing(rows[1..], search)
  }

  /** A listing holds exactly the rows that pass the search, with their
      value; with no search it is all of them. */
  lemma {:induction false} ListingRows(rows: seq<Row>, search: string)
    ensures forall x :: x in Listing(rows, search) ==>
      Row(x.id, x.product) in rows && x.value == x.product.Value() && Matches(x.product.name, search)
    ensures forall row :: row in rows && Matches(row.product.name, search) ==>
      Listed(row.id, row.product, row.product.Value()) in Listing(rows, search)
    ensures search == [] ==> |Listing(rows, search)| == |rows|
  {
    if rows != [] {
      ListingRows(rows[1..], search);
      assert rows == [rows[0]] + rows[1..];
    }
  }

  /** A bound on the ids of the rows bounds the ids of the listing. */
  lemma {:induction false} ListingAbove(rows: seq<Row>, search: string, bound: int)
    requires forall i :: 0 <= i < |rows| ==> rows[i].id > bound
    ensures forall x :: x in Listing(rows, search) ==> x.id > bound
  {
    if rows != [] {
      assert forall i :: 0 <= i < |rows[1..]| ==> rows[1..][i] == rows[i + 1];
      ListingAbove(rows[1..], search, bound);
    }
  }

  /** A listing keeps the order of the rows. */
  lemma {:induction false} ListingOrdered(rows: seq<Row>, search: string)
    requires forall i, j :: 0 <= i < j < |rows| ==> rows[i].id < rows[j].id
    ensures forall i, j :: 0 <= i < j < |Listing(rows, search)| ==>
      Listing(rows, search)[i].id < Listing(rows, search)[j].id
  {
    if rows != [] {
      var tail := rows[1..];
      assert forall i :: 0 <= i < |tail| ==> tail[i] == rows[i + 1];
      ListingOrdered(tail, search);
      if Matches(rows[0].product.name, search) {
        var rest := Listing(tail, search);
        ListingAbove(tail, search, rows[0].id);
        var r := [Listed(rows[0].id, rows[0].product, rows[0].product.Value())] + rest;
        assert Listing(rows, search) == r;
        forall i, j | 0 <= i < j < |r| ensures r[i].id < r[j].id {
          assert r[j] == rest[j - 1];
          if i == 0 {
            assert r[j] in rest;
          } else {
            assert r[i] == rest[i - 1];
          }
        }
      }
    }
  }

  /** ORDER BY on a listing: the same rows, ordered by the key. */
  function SortListing(listing: seq<Listed>, k: SortKey): (r: seq<Listed>)
    ensures multiset(r) == multiset(listing)
    ensures SortedBy(r, k)
  {
    var le := (a: Listed, b: Listed) => ListedLe(k, a, b);
    ListedLeTotalPreorder(k);
    Sorting.SortBySorted(listing, le);
    Sorting.SortBy(listing, le)
  }

  /** get_all_products: the products passing the search, each with
      value = price * quantity, each once, ordered by the requested column. */
  function GetAllProducts(t: ProductTable, search: string, sortBy: string): (r: seq<Listed>)
    requires t.Valid()
    ensures forall x :: x in r ==>
      x.id in t.rows && x.product == t.rows[x.id] && Matches(x.product.name, search)
      && x.value == x.product.price * x.product.quantity as real
    ensures forall id :: id in t.rows && Matches(t.rows[id].name, search) ==>
      Listed(id, t.rows[id], t.rows[id].Value()) in r
    ensures forall i, j :: 0 <= i < j < |r| ==> r[i].id != r[j].id
    ensures SortedBy(r, SortColumn(sortBy))
    ensures search == [] ==> |r| == |t.rows|
  {
    var listing := Listing(Scan(t), search);
    var r := SortListing(listing, SortColumn(sortBy));
    ListingOfScan(t, search);
    Sorting.SameElements(listing, r);
    ReorderedIdsDistinct(t, listing, r);
    assert forall x :: x in r ==> x.value == x.product.price * x.product.quantity as real by {
      forall x | x in r ensures x.value == x.product.price * x.product.quantity as real {
        assert x in listing;
        assert x.value == x.product.Value();
      }
    }
    r
  }

  /** The listing of a scan: exactly the stored products that pass the
      search, in ascending id order. */
  lemma ListingOfScan(t: ProductTable, search: string)
    requires t.Valid()
    ensures forall x :: x in Listing(Scan(t), search) ==>
      x.id in t.rows && x.product == t.rows[x.id] && Matches(x.product.name, search)
      && x.value == x.product.Value()
    ensures forall id :: id in t.rows && Matches(t.rows[id].name, search) ==>
      Listed(id, t.rows[id], t.rows[id].Value()) in Listing(Scan(t), search)
    ensures forall i, j :: 0 <= i < j < |Listing(Scan(t), search)| ==>
      Listing(Scan(t), search)[i].id < Listing(Scan(t), search)[j].id
    ensures search == [] ==> |Listing(Scan(t), search)| == |t.rows|
  {
    var rows := Scan(t);
    ListingRows(rows, search);
    ListingOrdered(rows, search);
    forall id | id in t.rows && Matches(t.rows[id].name, search)
      ensures Listed(id, t.rows[id], t.rows[id].Value()) in Listing(rows, search)
    {
      assert Row(id, t.rows[id]) in rows;
    }
  }

  /** A reordering of rows of one table, none twice, names no id twice. */
  lemma ReorderedIdsDistinct(t: ProductTable, listing: seq<Listed>, r: seq<Listed>)
    requires forall i, j :: 0 <= i < j < |listing| ==> listing[i].id < listing[j].id
    requires forall x :: x in listing ==>
      x.id in t.rows && x.product == t.rows[x.id] && x.value == x.product.Value()
    requires multiset(r) == multiset(listing)
    ensures forall i, j :: 0 <= i < j < |r| ==> r[i].id != r[j].id
  {
    assert Sorting.Distinct(listing);
    Sorting.DistinctPermutation(listing, r);
    Sorting.SameElements(listing, r);
    forall i, j | 0 <= i < j < |r| ensures r[i].id != r[j].id {
      assert r[i] in r && r[j] in r;
      assert r[i] != r[j];
    }
  }

  // ---------------------------------------------------------------------
  // get_inventory_summary
  // ---------------------------------------------------------------------

  /** One entry of `product_details`. */
  datatype Detail = Detail(name: string, quantity: int, value: real, quantityRatio: real)

  datatype InventorySummary = InventorySummary(
    totalProducts: nat,
    totalQuantity: int,
    totalValue: real,
    avgPrice: real,
    productDetails: seq<Detail>)

  /** SUM(quantity) over rows; 0 when there are none. */
  function TotalQuantity(rows: seq<Row>): int {
    if rows == [] then 0 else rows[0].product.quantity + TotalQuantity(rows[1..])
  }

  /** SUM(price * quantity) over rows; 0 when there are none. */
  function TotalValue(rows: seq<Row>): real {
    if rows == [] then 0.0 else rows[0].product.Value() + TotalValue(rows[1..])
  }

  /** SUM(price) over rows, the numerator of AVG(price). */
  function TotalPrice(rows: seq<Row>): real {
    if rows == [] then 0.0 else rows[0].product.price + TotalPrice(rows[1..])
  }

  /** The totals of a scan split into its first row and the rest. */
  lemma TotalsCons(x: Row, s: seq<Row>)
    ensures TotalQuantity([x] + s) == x.product.quantity + TotalQuantity(s)
    ensures TotalValue([x] + s) == x.product.Value() + TotalValue(s)
  {
    assert ([x] + s)[1..] == s;
  }

  /** `100.0 * quantity / NULLIF(total, 0)`, with NULL read as 0. */
  function QuantityRatio(quantity: int, total: int): real {
    if total == 0 then 0.0 else 100.0 * quantity as real / total as real
  }

  function DetailOf(p: Product, total: int): Detail {
    Detail(p.name, p.quantity, p.Value(), QuantityRatio(p.quantity, total))
  }

  function Details(rows: seq<Row>, total: int): (r: seq<Detail>)
    ensures |r| == |rows|
    ensures forall i :: 0 <= i < |rows| ==> r[i] == DetailOf(rows[i].product, total)
  {
    if rows == [] then [] else [DetailOf(rows[0].product, total)] + Details(rows[1..], total)
  }

  predicate MoreStock(a: Detail, b: Detail) {
    a.quantity >= b.quantity
  }

  /** With no negative stock, the total is at least every single stock level. */
  lemma {:induction false} TotalQuantityBounds(rows: seq<Row>)
    requires forall i :: 0 <= i < |rows| ==> QuantityOk(rows[i].product.quantity)
    ensures TotalQuantity(rows) >= 0
    ensures forall i :: 0 <= i < |rows| ==> rows[i].product.quantity <= TotalQuantity(rows)
  {
    if rows != [] {
      TotalQuantityBounds(rows[1..]);
      assert forall i :: 1 <= i < |rows| ==> rows[i] == rows[1..][i - 1];
    }
  }

  /** A share of a total that bounds it is a percentage. */
  lemma RatioBounds(quantity: int, total: int)
    requires 0 <= quantity <= total
    ensures 0.0 <= QuantityRatio(quantity, total) <= 100.0
  {
    if total != 0 {
      var q := quantity as real;
      var n := total as real;
      assert 100.0 * q / n <= 100.0 * n / n by {
        assert 100.0 * q <= 100.0 * n;
      }
      assert 100.0 * n / n == 100.0;
    }
  }

  /** With no negative stock, every share of the total stock is a percentage. */
  lemma {:induction false} RatiosArePercentages(rows: seq<Row>)
    requires forall i :: 0 <= i < |rows| ==> QuantityOk(rows[i].product.quantity)
    ensures TotalQuantity(rows) >= 0
    ensures forall d :: d in Details(rows, TotalQuantity(rows)) ==> 0.0 <= d.quantityRatio <= 100.0
  {
    var total := TotalQuantity(rows);
    var details := Details(rows, total);
    TotalQuantityBounds(rows);
    forall i | 0 <= i < |details| ensures 0.0 <= details[i].quantityRatio <= 100.0 {
      RatioBounds(rows[i].product.quantity, total);
    }
  }

  /** ORDER BY quantity DESC on the breakdown. */
  function SortDetails(details: seq<Detail>): (r: seq<Detail>)
    ensures multiset(r) == multiset(details)
    ensures forall i, j :: 0 <= i < j < |r| ==> r[i].quantity >= r[j].quantity
  {
    var le := (a: Detail, b: Detail) => MoreStock(a, b);
    Sorting.SortBySorted(details, le);
    Sorting.SortBy(details, le)
  }

  /** The breakdown of a full scan holds one entry per stored product. */
  lemma DetailsOfScan(t: ProductTable, total: int)
    requires t.Valid()
    ensures forall d :: d in Details(Scan(t), total) ==>
      exists id :: id in t.rows && d == DetailOf(t.rows[id], total)
    ensures forall id :: id in t.rows ==> DetailOf(t.rows[id], total) in Details(Scan(t), total)
  {
    var rows := Scan(t);
    var details := Details(rows, total);
    forall d | d in details ensures exists id :: id in t.rows && d == DetailOf(t.rows[id], total) {
      var i :| 0 <= i < |details| && details[i] == d;
      assert rows[i] in rows;
    }
    forall id | id in t.rows ensures DetailOf(t.rows[id], total) in details {
      var i :| 0 <= i < |rows| && rows[i] == Row(id, t.rows[id]);
      assert details[i] == DetailOf(t.rows[id], total);
    }
  }

  /** The scan of a table without negative stock has none either. */
  lemma ScanQuantitiesOk(t: ProductTable)
    requires t.Valid()
    requires forall id :: id in t.rows ==> QuantityOk(t.rows[id].quantity)
    ensures forall i :: 0 <= i < |Scan(t)| ==> QuantityOk(Scan(t)[i].product.quantity)
  {
    var rows := Scan(t);
    forall i | 0 <= i < |rows| ensures QuantityOk(rows[i].product.quantity) {
      assert rows[i] in rows;
    }
  }

  /** The `product_details` query: one entry per stored product, largest
      stock first, each with its share of `total`. */
  function Breakdown(t: ProductTable, total: int): (r: seq<Detail>)
    requires t.Valid()
    ensures multiset(r) == multiset(Details(Scan(t), total))
    ensures |r| == |t.rows|
    ensures forall i, j :: 0 <= i < j < |r| ==> r[i].quantity >= r[j].quantity
    ensures forall d :: d in r ==> exists id :: id in t.rows && d == DetailOf(t.rows[id], total)
    ensures forall id :: id in t.rows ==> DetailOf(t.rows[id], total) in r
  {
    var details := Details(Scan(t), total);
    var sorted := SortDetails(details);
    Sorting.SameElements(details, sorted);
    DetailsOfScan(t, total);
    sorted
  }

  /** With no negative stock, every share in the breakdown is a percentage. */
  lemma BreakdownRatios(t: ProductTable)
    requires t.Valid()
    requires forall id :: id in t.rows ==> QuantityOk(t.rows[id].quantity)
    ensures TotalQuantity(Scan(t)) >= 0
    ensures forall d :: d in Breakdown(t, TotalQuantity(Scan(t))) ==> 0.0 <= d.quantityRatio <= 100.0
  {
    var total := TotalQuantity(Scan(t));
    ScanQuantitiesOk(t);
    RatiosArePercentages(Scan(t));
    DetailsOfScan(t, total);
    forall d | d in Breakdown(t, total) ensures 0.0 <= d.quantityRatio <= 100.0 {
      var id :| id in t.rows && d == DetailOf(t.rows[id], total);
      assert d in Details(Scan(t), total);
    }
  }

  /** get_inventory_summary: product count, total stock, total value,
      average price (0 on an empty table) and the per-product breakdown,
      largest stock first, each with its share of the total stock. */
  function GetInventorySummary(t: ProductTable): (r: InventorySummary)
    requires t.Valid()
    ensures r.totalProducts == |t.rows|
    ensures r.totalQuantity == TotalQuantity(Scan(t)) && r.totalValue == TotalValue(Scan(t))
    ensures r.avgPrice == if |t.rows| == 0 then 0.0 else TotalPrice(Scan(t)) / |t.rows| as real
    ensures r.productDetails == Breakdown(t, r.totalQuantity)
  {
    var rows := Scan(t);
    var count := |t.rows|;
    var total := TotalQuantity(rows);
    var avg := if count == 0 then 0.0 else TotalPrice(rows) / count as real;
    InventorySummary(count, total, TotalValue(rows), avg, Breakdown(t, total))
  }

  /** On an empty table every figure is zero and the breakdown is empty. */
  lemma EmptySummary(t: ProductTable)
    requires t.Valid() && t.rows == map[]
    ensures GetInventorySummary(t) == InventorySummary(0, 0, 0.0, 0.0, [])
  {
    assert Scan(t) == [];
  }

  /** With no negative stock the total stock is not negative and every
      quantity_ratio of the summary lies between 0 and 100. */
  lemma SummaryRatios(t: ProductTable)
    requires t.Valid()
    requires forall id :: id in t.rows ==> QuantityOk(t.rows[id].quantity)
    ensures GetInventorySummary(t).totalQuantity >= 0
    ensures forall d :: d in GetInventorySummary(t).productDetails ==> 0.0 <= d.quantityRatio <= 100.0
  {
    BreakdownRatios(t);
  }

  /** Deleting a row inside a range scan takes its stock off the total. */
  lemma {:induction false} ScanRangeDeleteQuantity(rows: map<int, Product>, id: int, lo: int, hi: int)
    requires id in rows
    ensures TotalQuantity(ScanRange(rows - {id}, lo, hi))
      == TotalQuantity(ScanRange(rows, lo, hi)) - (if lo <= id < hi then rows[id].quantity else 0)
    decreases hi - lo
  {
    var rows' := rows - {id};
    if lo < hi {
      ScanRangeDeleteQuantity(rows, id, lo + 1, hi);
      ScanRangeStep(rows, lo, hi);
      ScanRangeStep(rows', lo, hi);
      var s := ScanRange(rows, lo + 1, hi);
      var s' := ScanRange(rows', lo + 1, hi);
      if lo in rows {
        TotalsCons(Row(lo, rows[lo]), s);
        if lo != id {
          assert rows'[lo] == rows[lo];
          TotalsCons(Row(lo, rows'[lo]), s');
        } else {
          assert [] + s' == s';
        }
      } else {
        assert [] + s == s && [] + s' == s';
      }
    } else {
      assert ScanRange(rows, lo, hi) == [] && ScanRange(rows', lo, hi) == [];
    }
  }

  /** Deleting a row inside a range scan takes its value off the total. */
  lemma {:induction false} ScanRangeDeleteValue(rows: map<int, Product>, id: int, lo: int, hi: int)
    requires id in rows
    ensures TotalValue(ScanRange(rows - {id}, lo, hi))
      == TotalValue(ScanRange(rows, lo, hi)) - (if lo <= id < hi then rows[id].Value() else 0.0)
    decreases hi - lo
  {
    var rows' := rows - {id};
    if lo < hi {
      ScanRangeDeleteValue(rows, id, lo + 1, hi);
      ScanRangeStep(rows, lo, hi);
      ScanRangeStep(rows', lo, hi);
      var s := ScanRange(rows, lo + 1, hi);
      var s' := ScanRange(rows', lo + 1, hi);
      if lo in rows {
        TotalsCons(Row(lo, rows[lo]), s);
        if lo != id {
          assert rows'[lo] == rows[lo];
          TotalsCons(Row(lo, rows'[lo]), s');
        } else {
          assert [] + s' == s';
        }
      } else {
        assert [] + s == s && [] + s' == s';
      }
    } else {
      assert ScanRange(rows, lo, hi) == [] && ScanRange(rows', lo, hi) == [];
    }
  }

  /** After delete_product the summary counts one product fewer, and its
      stock and value are gone from the totals. */
  lemma DeleteScanTotals(t: ProductTable, id: int)
    requires t.Valid()
    requires id in t.rows
    ensures t.(rows := t.rows - {id}).Valid()
    ensures GetInventorySummary(t.(rows := t.rows - {id})).totalProducts
      == GetInventorySummary(t).totalProducts - 1
    ensures GetInventorySummary(t.(rows := t.rows - {id})).totalQuantity
      == GetInventorySummary(t).totalQuantity - t.rows[id].quantity
    ensures GetInventorySummary(t.(rows := t.rows - {id})).totalValue
      == GetInventorySummary(t).totalValue - t.rows[id].Value()
  {
    var t' := t.(rows := t.rows - {id});
    ScanRangeDeleteQuantity(t.rows, id, 1, t.nextId);
    ScanRangeDeleteValue(t.rows, id, 1, t.nextId);
    assert |t'.rows| == |t.rows| - 1;
  }
}
