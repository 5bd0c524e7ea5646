/** The entry points built on the store: the console generator and scanner, and the
    desktop application's create and scan dialogs. What the image decoder reads from a
    file, what the user types and what the random device draws arrive as parameters. */
module Flows {
  import opened ProductStore
  import opened Schema
  import opened Codes
  import opened Storage

  /** What the unique-code allocator yields when it opens the store: the reconciler's
      failure, or the first candidate the reconciled store does not hold. */
  function Allocated(variant: Reconciler, products: Option<Table>, idType: string, draws: seq<seq<int>>): (r: Result<string>)
    requires ValidAttemptDraws(draws)
    ensures var a := Reconcile(variant, Store(products, None), idType);
      && (r.Ok? ==> a.outcome.Done? && Queryable(a.store.products) && !HasBarcode(a.store.products.value.rows, r.value))
      && (r.Ok? ==> |r.value| == DefaultLength && exists k :: 0 <= k < MaxAttempts && r.value == Candidate(draws[k]))
      && (a.outcome.Failed? ==> r == Err(a.outcome.error))
  {
    var a := Reconcile(variant, Store(products, None), idType);
    if a.outcome.Failed? then Err(a.outcome.error) else Allocation(Candidates(draws), a.store.products)
  }

  /** The table after a successful insert of `item` into `t`. */
  function Appended(t: Table, item: Item): Table
    requires !HasBarcode(t.rows, item.barcode)
  {
    Table(t.columns, InsertItem(t.rows, item).value)
  }

  /** `generate()` of the console program (and `main` of the generator program): allocate
      a code, insert the product under it, then check the output path. Status 0 means the
      product was added and the path handed to the encoder is `file`. */
  method Generate(db: Database, name: string, price: Price, draws: seq<seq<int>>)
    returns (status: int, file: Option<string>)
    requires ValidAttemptDraws(draws)
    modifies db
    ensures var a := Reconcile(Full, Store(old(db.products), None), db.idType);
      var code := Allocated(Full, old(db.products), db.idType, draws);
      && (status == 0 || status == 1)
      && (status == 0 <==> code.Ok? && HasItemColumns(a.store.products.value.columns))
      && (status == 0 ==>
            && db.products == Some(Appended(a.store.products.value, Item(code.value, name, price)))
            && db.backup == None
            && file == Some(OutputPath(code.value)))
      && (status == 1 ==> db.State() == a.store && file == None)
  {
    var code, attempts, queried := db.GenerateUniqueBarcode(Full, draws);
    if code.Err? {
      return 1, None;
    }
    ReconcileIdempotent(Full, Store(old(db.products), None), db.idType);
    ReconcileKeepsItems(Full, Store(old(db.products), None), db.idType);
    var id := db.AddToDatabase(code.value, name, price);
    if id.Err? {
      return 1, None;
    }
    DefaultPathFits(code.value);
    var path := CheckPath(code.value);
    status := if path.Ok? then 0 else 1;
    file := if path.Ok? then Some(path.value) else None;
  }

  /** What a scan reports. */
  datatype ScanReport =
    | Cancelled                              // no file was chosen
    | NoBarcode                              // the image held no readable barcode
    | ReconcileFailed(error: Error)          // the reconciler threw, uncaught in the scan dialog
    | QueryFailed(error: Error)              // the SELECT could not be prepared
    | Product(id: int, name: string, price: Price)
    | NotFoundFor(barcode: string)

  /** The lookup's report for a decoded barcode. */
  function Report(decoded: string, products: Option<Table>): (r: ScanReport)
    ensures r.QueryFailed? <==> !(products.Some? && LookupColumns(products.value.columns))
    ensures r.NotFoundFor? ==> r.barcode == decoded && !HasBarcode(products.value.rows, decoded)
    ensures r.Product? ==>
      exists i :: 0 <= i < |products.value.rows|
        && products.value.rows[i] == Row(r.id, decoded, r.name, r.price)
        && forall j :: 0 <= j < i ==> products.value.rows[j].barcode != decoded
    ensures r.Product? || r.NotFoundFor? || r.QueryFailed?
  {
    match SelectByBarcode(products, decoded)
    case Err(e) => QueryFailed(e)
    case Ok(Found(id, name, price)) => Product(id, name, price)
    case Ok(NotFound) => NotFoundFor(decoded)
  }

  /** `scan()` of the console program: an empty decode stops before the store is opened;
      otherwise the lookup runs on the table as it stands, without reconciling it. */
  function Scan(decoded: string, products: Option<Table>): ScanReport {
    if decoded == [] then NoBarcode else Report(decoded, products)
  }

  /** The exit status `scan()` returns. */
  function ExitStatus(r: ScanReport): (status: int)
    ensures status == 0 || status == 1
  {
    if r.NoBarcode? || r.QueryFailed? || r.ReconcileFailed? then 1 else 0
  }

  /** The console scan succeeds exactly when something was decoded and the lookup could
      run; it reports a product exactly when some row has the decoded barcode, and an
      empty decode does not depend on the store at all. */
  lemma ScanOutcome(decoded: string, products: Option<Table>, other: Option<Table>)
    ensures ExitStatus(Scan(decoded, products)) == 0
        <==> decoded != [] && products.Some? && LookupColumns(products.value.columns)
    ensures Scan(decoded, products).Product?
        <==> decoded != [] && products.Some? && LookupColumns(products.value.columns)
             && HasBarcode(products.value.rows, decoded)
    ensures decoded == [] ==> Scan(decoded, products) == Scan(decoded, other) == NoBarcode
  {
    if decoded != [] && products.Some? && LookupColumns(products.value.columns) {
      var r := SelectByBarcode(products, decoded);
      assert r.Ok?;
    }
  }

  /** A generated product is found again by scanning its barcode: the lookup reports the
      id, name and price the insert stored. */
  lemma ScanFindsGenerated(t: Table, code: string, name: string, price: Price)
    requires LookupColumns(t.columns) && !HasBarcode(t.rows, code) && code != []
    ensures Scan(code, Some(Appended(t, Item(code, name, price)))) == Product(NextId(t.rows), name, price)
  {
    InsertThenSelect(t, Item(code, name, price));
  }

  /** The create dialog's handler: check the fields, allocate a code with the create-only
      reconciler, insert the product, then check the output path. `priceOk` is whether the
      cost text parsed as a number and `price` the number it parsed to. */
  method CreateClicked(db: Database, name: string, cost: string, priceOk: bool, price: Price, draws: seq<seq<int>>)
    returns (r: Result<string>)
    requires ValidAttemptDraws(draws)
    modifies db
    ensures name == [] || cost == [] ==> r == Err(EmptyField) && db.State() == old(db.State())
    ensures name != [] && cost != [] && !priceOk ==> r == Err(InvalidPrice) && db.State() == old(db.State())
    ensures name != [] && cost != [] && priceOk ==>
      var a := Reconcile(CreateOnly, Store(old(db.products), None), db.idType);
      var code := Allocated(CreateOnly, old(db.products), db.idType, draws);
      && a.store.products.Some?
      && (r.Ok? <==> code.Ok? && HasItemColumns(a.store.products.value.columns))
      && (r.Ok? ==>
            && db.products == Some(Appended(a.store.products.value, Item(code.value, name, price)))
            && r.value == OutputPath(code.value))
      && (r.Err? ==> db.products == a.store.products)
      && db.backup == None
  {
    if name == [] || cost == [] {
      return Err(EmptyField);
    }
    if !priceOk {
      return Err(InvalidPrice);
    }
    var code, attempts, queried := db.GenerateUniqueBarcode(CreateOnly, draws);
    if code.Err? {
      return Err(code.error);
    }
    db.Connect();
    var ready, migrated := db.EnsureTableStructure(CreateOnly);
    var id := db.Insert(code.value, name, price);
    if id.Err? {
      return Err(id.error);
    }
    DefaultPathFits(code.value);
    r := CheckPath(code.value);
  }

  /** The scanner dialog's handler: a cancelled file choice or an empty decode stops
      before the store is opened; otherwise the full reconciler runs (its failure is an
      exception the handler does not catch, and ends the scan) and the lookup reports on
      the reconciled table. */
  method ChoiceBarcodeClicked(db: Database, fileName: string, decoded: string) returns (r: ScanReport)
    modifies db
    ensures fileName == [] ==> r == Cancelled && db.State() == old(db.State())
    ensures fileName != [] && decoded == [] ==> r == NoBarcode && db.State() == old(db.State())
    ensures fileName != [] && decoded != [] ==>
      var a := Reconcile(Full, Store(old(db.products), None), db.idType);
      && db.State() == a.store
      && (a.outcome.Failed? ==> r == ReconcileFailed(a.outcome.error))
      && (a.outcome.Done? ==> r == Report(decoded, a.store.products))
  {
    if fileName == [] {
      return Cancelled;
    }
    if decoded == [] {
      return NoBarcode;
    }
    db.Connect();
    var ready, migrated := db.EnsureTableStructure(Full);
    if ready.Failed? {
      return ReconcileFailed(ready.error);
    }
    r := Report(decoded, db.products);
  }
}
