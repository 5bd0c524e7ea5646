/** The store as the programs drive it, statement by statement: the database file's
    `products` table, reached through a connection that may hold the temporary backup
    table of a migration. */
module Storage {
  import opened ProductStore
  import opened Schema
  import opened Codes

  /** The number of rows `SELECT COUNT(*) FROM products WHERE barcode = ?` counts. */
  function Count(rows: seq<Row>, code: string): (n: nat)
    ensures n <= |rows|
    ensures n > 0 <==> HasBarcode(rows, code)
  {
    if rows == [] then 0
    else
      var rest := Count(rows[1..], code);
      assert HasBarcode(rows[1..], code) ==> HasBarcode(rows, code) by {
        if HasBarcode(rows[1..], code) {
          var i :| 0 <= i < |rows[1..]| && rows[1..][i].barcode == code;
          assert rows[i + 1].barcode == code;
        }
      }
      assert HasBarcode(rows, code) ==> rows[0].barcode == code || HasBarcode(rows[1..], code) by {
        if HasBarcode(rows, code) && rows[0].barcode != code {
          var i :| 0 <= i < |rows| && rows[i].barcode == code;
          assert rows[1..][i - 1].barcode == code;
        }
      }
      (if rows[0].barcode == code then 1 else 0) + rest
  }

  /** The count query: it needs the table and its `barcode` column. */
  function CountQuery(products: Option<Table>, code: string): Result<nat> {
    if !Queryable(products) then Err(QueryError(products)) else Ok(Count(products.value.rows, code))
  }

  /** The position of the first row whose barcode is exactly `code`. */
  function FirstMatch(rows: seq<Row>, code: string): (r: Option<nat>)
    ensures r.Some? ==> r.value < |rows| && rows[r.value].barcode == code
    ensures r.Some? ==> forall j :: 0 <= j < r.value ==> rows[j].barcode != code
    ensures r.None? <==> !HasBarcode(rows, code)
  {
    if rows == [] then None
    else if rows[0].barcode == code then Some(0)
    else match FirstMatch(rows[1..], code)
      case None => None
      case Some(k) => Some(k + 1)
  }

  /** The columns `SELECT id, product_name, price FROM products WHERE barcode = ?` names. */
  predicate LookupColumns(columns: seq<Column>) {
    Resolves(columns, "id") && HasItemColumns(columns)
  }

  /** What the lookup reports from the first row it steps to. */
  datatype Lookup = Found(id: int, name: string, price: Price) | NotFound

  /** The product lookup: found exactly when some row's barcode is `code`, and then the
      first such row's id, name and price. */
  function SelectByBarcode(products: Option<Table>, code: string): (r: Result<Lookup>)
    ensures r.Ok? <==> products.Some? && LookupColumns(products.value.columns)
    ensures r.Ok? ==> (r.value.Found? <==> HasBarcode(products.value.rows, code))
    ensures r.Ok? && r.value.Found? ==>
      exists i :: 0 <= i < |products.value.rows|
        && products.value.rows[i] == Row(r.value.id, code, r.value.name, r.value.price)
        && forall j :: 0 <= j < i ==> products.value.rows[j].barcode != code
  {
    if products.None? then Err(NoSuchTable)
    else if !LookupColumns(products.value.columns) then Err(NoSuchColumn)
    else match FirstMatch(products.value.rows, code)
      case None => Ok(NotFound)
      case Some(i) =>
        var row := products.value.rows[i];
        Ok(Found(row.id, row.name, row.price))
  }

  /** Under the UNIQUE constraint the row found is the only one with that barcode. */
  lemma LookupFindsTheOnlyRow(t: Table, code: string, i: nat)
    requires UniqueBarcodes(t.rows)
    requires i < |t.rows| && t.rows[i].barcode == code
    ensures SelectByBarcode(Some(t), code).Ok? ==>
      SelectByBarcode(Some(t), code) == Ok(Found(t.rows[i].id, t.rows[i].name, t.rows[i].price))
  {
    if SelectByBarcode(Some(t), code).Ok? {
      var k := FirstMatch(t.rows, code).value;
      assert k == i;
    }
  }

  /** The single-row insert `INSERT INTO products (barcode, product_name, price)
      VALUES (?, ?, ?)` on the table as it stands. */
  function InsertProduct(products: Option<Table>, item: Item): Result<Table> {
    if products.None? then Err(NoSuchTable)
    else if !HasItemColumns(products.value.columns) then Err(NoSuchColumn)
    else match InsertItem(products.value.rows, item)
      case Err(e) => Err(e)
      case Ok(rows) => Ok(Table(products.value.columns, rows))
  }

  /** An insert appends exactly one row, carrying the item and an id no row had; it
      fails on a barcode already present; and it keeps barcodes unique and ids distinct. */
  lemma InsertProductMeaning(t: Table, item: Item)
    requires HasItemColumns(t.columns)
    ensures InsertProduct(Some(t), item).Ok? <==> !HasBarcode(t.rows, item.barcode)
    ensures InsertProduct(Some(t), item).Err? ==> InsertProduct(Some(t), item).error == UniqueViolation
    ensures InsertProduct(Some(t), item).Ok? ==>
      var u := InsertProduct(Some(t), item).value;
      && u.columns == t.columns
      && |u.rows| == |t.rows| + 1
      && u.rows[..|t.rows|] == t.rows
      && ItemOf(u.rows[|t.rows|]) == item
      && (forall i :: 0 <= i < |t.rows| ==> t.rows[i].id != u.rows[|t.rows|].id)
      && (UniqueBarcodes(t.rows) ==> UniqueBarcodes(u.rows))
      && (DistinctIds(t.rows) ==> DistinctIds(u.rows))
  {
    if !HasBarcode(t.rows, item.barcode) {
      var u := InsertProduct(Some(t), item).value;
      assert u.rows == t.rows + [Row(NextId(t.rows), item.barcode, item.name, item.price)];
      assert u.rows[..|t.rows|] == t.rows;
      forall i | 0 <= i < |t.rows| ensures t.rows[i].barcode != item.barcode { }
    }
  }

  /** A product just inserted is what the lookup then reports for its barcode: the
      new row's id, name and price. */
  lemma InsertThenSelect(t: Table, item: Item)
    requires LookupColumns(t.columns) && !HasBarcode(t.rows, item.barcode)
    ensures InsertProduct(Some(t), item).Ok?
    ensures SelectByBarcode(Some(InsertProduct(Some(t), item).value), item.barcode)
         == Ok(Found(NextId(t.rows), item.name, item.price))
  {
    var u := InsertProduct(Some(t), item).value;
    assert u.rows == t.rows + [Row(NextId(t.rows), item.barcode, item.name, item.price)];
    var k := FirstMatch(u.rows, item.barcode);
    assert u.rows[|t.rows|].barcode == item.barcode;
    assert k.Some?;
    assert forall j :: 0 <= j < |t.rows| ==> u.rows[j] == t.rows[j];
  }

  class Database {
    /** The `products` table of the database file. */
    var products: Option<Table>
    /** The temporary `products_backup` table of the open connection. */
    var backup: Option<Table>
    /** The declared type the engine reports for the created `id` column. */
    const idType: string

    function State(): Store
      reads this
    {
      Store(products, backup)
    }

    constructor (products: Option<Table>, idType: string)
      ensures this.products == products && backup == None && this.idType == idType
    {
      this.products := products;
      this.backup := None;
      this.idType := idType;
    }

    /** `sqlite3_open("products.db", &db)`: a new connection sees the file's tables and
        no temporary ones (a connection's temporary tables go when it is closed). */
    method Connect()
      modifies this
      ensures products == old(products) && backup == None
    {
      backup := None;
    }

    /** The migration script run by `sqlite3_exec`, one statement at a time. */
    method MigrateTable() returns (outcome: Outcome)
      requires products.Some?
      modifies this
      ensures Applied(State(), outcome) == Migrate(old(State()), idType)
    {
      if backup.Some? {
        return Failed(BackupExists);
      }
      backup := products;                   // CREATE TEMPORARY TABLE products_backup AS SELECT * FROM products
      products := None;                     // DROP TABLE products
      products := Some(CreatedTable(idType));  // CREATE TABLE products (...)
      var source := backup.value;
      if !HasItemColumns(source.columns) {  // INSERT INTO products ... SELECT ... FROM products_backup
        return Failed(NoSuchColumn);
      }
      var copied := InsertAll([], source.rows);
      if copied.Err? {
        return Failed(copied.error);
      }
      products := Some(Table(products.value.columns, copied.value));
      backup := None;                       // DROP TABLE products_backup
      outcome := Done;
    }

    /** `ensure_table_structure(db)`; `migrated` records whether the migration ran. */
    method EnsureTableStructure(variant: Reconciler) returns (outcome: Outcome, ghost migrated: bool)
      modifies this
      ensures Applied(State(), outcome) == Reconcile(variant, old(State()), idType)
      ensures migrated <==> old(products).Some? && variant == Full && NeedsMigration(old(products).value.columns)
    {
      migrated := false;
      if products.None? {
        products := Some(CreatedTable(idType));
        return Done, migrated;
      }
      if variant == CreateOnly {
        return Done, migrated;
      }
      var hasIdColumn, hasAutoinc := ScanColumns(products.value.columns);
      if !hasIdColumn || !hasAutoinc {
        migrated := true;
        outcome := MigrateTable();
      } else {
        outcome := Done;
      }
    }

    /** `barcode_exists(db, code)`: reconcile, then count the rows with that barcode. */
    method BarcodeExists(variant: Reconciler, code: string) returns (r: Result<bool>)
      modifies this
      ensures var a := Reconcile(variant, old(State()), idType);
        && State() == a.store
        && (a.outcome.Failed? ==> r == Err(a.outcome.error))
        && (a.outcome.Done? && !Queryable(products) ==> r == Err(QueryError(products)))
        && (a.outcome.Done? && Queryable(products) ==> r == Ok(HasBarcode(products.value.rows, code)))
      ensures Settled(variant, old(State()), idType) ==>
        && State() == old(State())
        && r == if Queryable(products) then Ok(HasBarcode(products.value.rows, code)) else Err(QueryError(products))
    {
      var outcome;
      ghost var migrated;
      outcome, migrated := EnsureTableStructure(variant);
      if outcome.Failed? {
        return Err(outcome.error);
      }
      var count := CountQuery(products, code);
      if count.Err? {
        return Err(count.error);
      }
      r := Ok(count.value > 0);
    }

    /** The insert step: `INSERT INTO products (barcode, product_name, price) VALUES
        (?, ?, ?)`, then `sqlite3_last_insert_rowid`. */
    method Insert(code: string, name: string, price: Price) returns (r: Result<int>)
      modifies this
      ensures backup == old(backup)
      ensures var s := InsertProduct(old(products), Item(code, name, price));
        && (s.Ok? ==> products == Some(s.value) && r == Ok(NextId(old(products).value.rows)))
        && (s.Err? ==> products == old(products) && r == Err(s.error))
    {
      if products.None? {
        return Err(NoSuchTable);
      }
      var t := products.value;
      if !HasItemColumns(t.columns) {
        return Err(NoSuchColumn);
      }
      var inserted := InsertItem(t.rows, Item(code, name, price));
      if inserted.Err? {
        return Err(inserted.error);
      }
      products := Some(Table(t.columns, inserted.value));
      r := Ok(NextId(t.rows));
    }

    /** The insert of `add_to_database`: open, reconcile, insert. */
    method AddToDatabase(code: string, name: string, price: Price) returns (r: Result<int>)
      modifies this
      ensures var a := Reconcile(Full, Store(old(products), None), idType);
        && (a.outcome.Failed? ==> State() == a.store && r == Err(a.outcome.error))
        && (a.outcome.Done? ==>
              var s := InsertProduct(a.store.products, Item(code, name, price));
              && backup == a.store.backup
              && (s.Ok? ==> products == Some(s.value) && r == Ok(NextId(a.store.products.value.rows)))
              && (s.Err? ==> products == a.store.products && r == Err(s.error)))
    {
      Connect();
      var outcome;
      ghost var migrated;
      outcome, migrated := EnsureTableStructure(Full);
      if outcome.Failed? {
        return Err(outcome.error);
      }
      r := Insert(code, name, price);
    }

    /** `generate_unique_barcode()`: open, reconcile, then the attempt loop. */
    method GenerateUniqueBarcode(variant: Reconciler, draws: seq<seq<int>>)
      returns (r: Result<string>, ghost attempts: nat, ghost queried: seq<string>)
      requires ValidAttemptDraws(draws)
      modifies this
      ensures var a := Reconcile(variant, Store(old(products), None), idType);
        && State() == a.store
        && (a.outcome.Failed? ==> r == Err(a.outcome.error))
        && (a.outcome.Done? ==> r == Allocation(Candidates(draws), a.store.products))
      ensures attempts <= MaxAttempts && |queried| <= attempts
      ensures forall i, j :: 0 <= i < j < |queried| ==> queried[i] != queried[j]
      ensures r.Ok? ==> 0 < attempts && queried != [] && r.value == queried[|queried| - 1] == Candidates(draws)[attempts - 1]
    {
      Connect();
      ghost var start := State();
      var ready;
      ghost var migrated;
      ready, migrated := EnsureTableStructure(variant);
      if ready.Failed? {
        return Err(ready.error), 0, [];
      }
      ReconcileIdempotent(variant, start, idType);
      ReconcileKeepsItems(variant, start, idType);
      r, attempts, queried := DrawUniqueBarcode(variant, draws);
      if r.Ok? || r == Err(ExhaustedRetries) {
        RunAllocation(Candidates(draws), products, attempts);
      } else {
        RunFacts(Candidates(draws), products.value.rows, attempts);
      }
    }

    /** `barcode_exists()` on a store its reconciler leaves as it is. */
    method ExistsOnSettled(variant: Reconciler, code: string, ghost settled: Store) returns (r: Result<bool>)
      requires State() == settled && Settled(variant, settled, idType)
      modifies this
      ensures State() == old(State())
      ensures r.Ok? <==> Queryable(products)
      ensures r.Ok? ==> r.value == HasBarcode(products.value.rows, code)
      ensures r.Err? ==> r.error == QueryError(products)
    {
      r := BarcodeExists(variant, code);
    }

    /** The attempt loop of `generate_unique_barcode()` on a reconciled store: up to
        `MaxAttempts` candidates, each drawn afresh; a candidate already drawn in this
        call uses up an attempt without a store check; the first candidate the store
        reports absent is the result. `attempts` counts the iterations, `queried` the
        candidates checked against the store. */
    method DrawUniqueBarcode(variant: Reconciler, draws: seq<seq<int>>)
      returns (r: Result<string>, ghost attempts: nat, ghost queried: seq<string>)
      requires ValidAttemptDraws(draws)
      requires Settled(variant, State(), idType) && products.Some?
      modifies this
      ensures State() == old(State())
      ensures 0 < attempts <= MaxAttempts
      ensures queried == Run(Candidates(draws), products.value.rows, attempts).queried
      ensures r.Ok? ==>
        && Queryable(products) && r.value == Candidates(draws)[attempts - 1]
        && Run(Candidates(draws), products.value.rows, attempts).found
        && !Run(Candidates(draws), products.value.rows, attempts - 1).found
      ensures r == Err(ExhaustedRetries) ==>
        && Queryable(products) && attempts == MaxAttempts
        && !Run(Candidates(draws), products.value.rows, attempts).found
      ensures r.Err? && r.error != ExhaustedRetries ==> !Queryable(products) && r.error == QueryError(products)
    {
      ghost var settled := State();
      ghost var rows := settled.products.value.rows;
      ghost var codes := Candidates(draws);
      queried := [];

      var generatedCodes: set<string> := {};
      var barcode := "";
      var isUnique := false;
      var tries := 0;
      while !isUnique && tries < MaxAttempts
        invariant 0 <= tries <= MaxAttempts
        invariant State() == settled
        invariant Search(isUnique, generatedCodes, queried) == Run(codes, rows, tries)
        invariant generatedCodes != {} ==> Queryable(settled.products)
        invariant isUnique ==> 0 < tries && barcode == codes[tries - 1] && !Run(codes, rows, tries - 1).found
        decreases MaxAttempts - tries
      {
        barcode := DrawCandidate(draws, tries);
        if barcode in generatedCodes {
          tries := tries + 1;
          continue;
        }
        generatedCodes := generatedCodes + {barcode};
        queried := queried + [barcode];
        var present := ExistsOnSettled(variant, barcode, settled);
        if present.Err? {
          return Err(present.error), tries + 1, queried;
        }
        if !present.value {
          isUnique := true;
        }
        tries := tries + 1;
      }
      attempts := tries;
      if !isUnique {
        RunFacts(codes, rows, tries);
        assert codes[0] in generatedCodes;
        return Err(ExhaustedRetries), attempts, queried;
      }
      r := Ok(barcode);
    }
  }
}
