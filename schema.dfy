/** `ensure_table_structure`: bring the store to the layout
      products(id INTEGER PRIMARY KEY AUTOINCREMENT, barcode TEXT NOT NULL UNIQUE,
               product_name TEXT NOT NULL, price REAL)
    creating the table when it is missing and migrating an older layout whose `id`
    column is not declared AUTOINCREMENT. */
module Schema {
  import opened ProductStore

  /** The two variants of the reconciler in the repository: the full one, and the one
      in the create dialog that only creates a missing table. */
  datatype Reconciler = Full | CreateOnly

  /** A store and the outcome of the statements that produced it. */
  datatype Applied = Applied(store: Store, outcome: Outcome)

  /** The columns `PRAGMA table_info` reports for a freshly created `products` table.
      `idType` is the declared type the engine reports for
      `id INTEGER PRIMARY KEY AUTOINCREMENT`; the model does not fix it. */
  function TargetColumns(idType: string): seq<Column> {
    [Column("id", idType), Column("barcode", "TEXT"), Column("product_name", "TEXT"), Column("price", "REAL")]
  }

  function CreatedTable(idType: string): Table {
    Table(TargetColumns(idType), [])
  }

  predicate OccursAt(s: string, sub: string, i: int) {
    0 <= i && i + |sub| <= |s| && s[i..i + |sub|] == sub
  }

  /** `s.find(sub) != std::string::npos`. */
  predicate Contains(s: string, sub: string)
    decreases |s|
  {
    |sub| <= |s| && (s[..|sub|] == sub || Contains(s[1..], sub))
  }

  /** The search agrees with "`sub` occurs at some position of `s`". */
  lemma {:induction false} ContainsIff(s: string, sub: string)
    ensures Contains(s, sub) <==> exists i :: OccursAt(s, sub, i)
    decreases |s|
  {
    if |sub| <= |s| {
      if s[..|sub|] == sub {
        assert OccursAt(s, sub, 0);
      } else {
        ContainsIff(s[1..], sub);
        if Contains(s[1..], sub) {
          var i :| OccursAt(s[1..], sub, i);
          assert s[i + 1..i + 1 + |sub|] == s[1..][i..i + |sub|];
          assert OccursAt(s, sub, i + 1);
        }
        if i :| OccursAt(s, sub, i) {
          assert i != 0;
          assert s[1..][i - 1..i - 1 + |sub|] == s[i..i + |sub|];
          assert OccursAt(s[1..], sub, i - 1);
        }
      }
    }
  }

  /** A column the scan counts as the auto-increment id. */
  predicate IsAutoincId(c: Column) {
    c.name == "id" && Contains(c.declType, "AUTOINCREMENT")
  }

  predicate HasAutoincId(columns: seq<Column>) {
    exists i :: 0 <= i < |columns| && IsAutoincId(columns[i])
  }

  /** The migration condition `!has_id_column || !has_autoinc`. */
  predicate NeedsMigration(columns: seq<Column>) {
    !HasColumn(columns, "id") || !HasAutoincId(columns)
  }

  /** The scan of `PRAGMA table_info(products)`: `has_id_column` is set by any column
      named `id`, `has_autoinc` only by such a column whose declared type contains
      "AUTOINCREMENT". */
  method ScanColumns(columns: seq<Column>) returns (hasIdColumn: bool, hasAutoinc: bool)
    ensures hasIdColumn <==> HasColumn(columns, "id")
    ensures hasAutoinc <==> HasAutoincId(columns)
    ensures hasAutoinc ==> hasIdColumn
    ensures NeedsMigration(columns) <==> !hasIdColumn || !hasAutoinc
  {
    hasIdColumn, hasAutoinc := false, false;
    for k := 0 to |columns|
      invariant hasIdColumn <==> exists i :: 0 <= i < k && columns[i].name == "id"
      invariant hasAutoinc <==> exists i :: 0 <= i < k && IsAutoincId(columns[i])
    {
      if columns[k].name == "id" {
        hasIdColumn := true;
        if Contains(columns[k].declType, "AUTOINCREMENT") {
          hasAutoinc := true;
        }
      }
    }
  }

  /** The migration script, statement by statement:
        CREATE TEMPORARY TABLE products_backup AS SELECT * FROM products;
        DROP TABLE products;
        CREATE TABLE products (...);
        INSERT INTO products (barcode, product_name, price)
          SELECT barcode, product_name, price FROM products_backup;
        DROP TABLE products_backup;
      The engine stops at the first failing statement and keeps the effect of the
      statements before it. */
  function Migrate(s: Store, idType: string): Applied
    requires s.products.Some?
  {
    if s.backup.Some? then Applied(s, Failed(BackupExists))
    else
      var original := s.products.value;
      var recreated := Store(Some(CreatedTable(idType)), Some(original));
      if !HasItemColumns(original.columns) then Applied(recreated, Failed(NoSuchColumn))
      else match InsertAll([], original.rows)
        case Err(e) => Applied(recreated, Failed(e))
        case Ok(copied) => Applied(Store(Some(Table(TargetColumns(idType), copied)), None), Done)
  }

  /** The whole reconciler. */
  function Reconcile(variant: Reconciler, s: Store, idType: string): Applied {
    if s.products.None? then Applied(Store(Some(CreatedTable(idType)), s.backup), Done)
    else if variant == CreateOnly || !NeedsMigration(s.products.value.columns) then Applied(s, Done)
    else Migrate(s, idType)
  }

  /** A store the reconciler leaves as it is. */
  predicate Settled(variant: Reconciler, s: Store, idType: string) {
    Reconcile(variant, s, idType) == Applied(s, Done)
  }

  /** A missing table is created empty, with the target layout. */
  lemma CreatesMissingTable(variant: Reconciler, s: Store, idType: string)
    requires s.products.None?
    ensures Reconcile(variant, s, idType).outcome == Done
    ensures Reconcile(variant, s, idType).store.products == Some(Table(TargetColumns(idType), []))
  {
  }

  /** An existing table the reconciler does not migrate is left exactly as it is: always
      for the create-only variant, and for the full one when the table has an `id`
      column declared AUTOINCREMENT. */
  lemma LeavesExistingTable(variant: Reconciler, s: Store, idType: string)
    requires s.products.Some?
    requires variant == CreateOnly || (HasColumn(s.products.value.columns, "id") && HasAutoincId(s.products.value.columns))
    ensures Reconcile(variant, s, idType) == Applied(s, Done)
  {
  }

  /** A successful migration keeps the `(barcode, product_name, price)` items in order,
      numbers the rows 1, 2, ... with distinct ids, and drops the backup table. */
  lemma MigrationKeepsItems(s: Store, idType: string)
    requires s.products.Some?
    requires Migrate(s, idType).outcome == Done
    ensures var t := Migrate(s, idType).store.products;
      && t.Some?
      && t.value.columns == TargetColumns(idType)
      && Items(t.value.rows) == Items(s.products.value.rows)
      && (forall i :: 0 <= i < |t.value.rows| ==> t.value.rows[i].id == i + 1)
      && DistinctIds(t.value.rows)
      && UniqueBarcodes(t.value.rows)
    ensures Migrate(s, idType).store.backup == None
  {
    var rows := s.products.value.rows;
    InsertAllResult([], rows);
    RenumberedKeepsItems(rows, 1);
  }

  /** A migration succeeds exactly when there is no backup table yet, the old table has
      the copied columns and its barcodes are distinct. Otherwise it fails with the
      earlier statements' effects kept: on a repeated barcode the old table is gone, the
      recreated one is empty and the rows live on only in the temporary backup. */
  lemma MigrationFailure(s: Store, idType: string)
    requires s.products.Some?
    ensures Migrate(s, idType).outcome == Done
        <==> s.backup.None? && HasItemColumns(s.products.value.columns) && UniqueBarcodes(s.products.value.rows)
    ensures s.backup.None? && HasItemColumns(s.products.value.columns) && !UniqueBarcodes(s.products.value.rows) ==>
      Migrate(s, idType) == Applied(Store(Some(CreatedTable(idType)), s.products), Failed(UniqueViolation))
  {
    InsertAllResult([], s.products.value.rows);
  }

  /** Every successful reconciliation leaves a `products` table holding the items it
      held before (none when it was missing). */
  lemma ReconcileKeepsItems(variant: Reconciler, s: Store, idType: string)
    requires Reconcile(variant, s, idType).outcome == Done
    ensures Reconcile(variant, s, idType).store.products.Some?
    ensures Items(Reconcile(variant, s, idType).store.products.value.rows)
         == if s.products.None? then [] else Items(s.products.value.rows)
    ensures s.backup.None? ==> Reconcile(variant, s, idType).store.backup == None
  {
    if s.products.Some? && variant == Full && NeedsMigration(s.products.value.columns) {
      MigrationKeepsItems(s, idType);
    }
  }

  /** Reconciliation is idempotent on a fresh connection: once it has succeeded, running
      it again succeeds and changes nothing. */
  lemma ReconcileIdempotent(variant: Reconciler, s: Store, idType: string)
    requires s.backup.None?
    requires Reconcile(variant, s, idType).outcome == Done
    ensures Settled(variant, Reconcile(variant, s, idType).store, idType)
  {
    var r := Reconcile(variant, s, idType).store;
    assert HasItemColumns(TargetColumns(idType)) by {
      assert TargetColumns(idType)[1].name == "barcode";
      assert TargetColumns(idType)[2].name == "product_name";
      assert TargetColumns(idType)[3].name == "price";
    }
    if s.products.None? {
      InsertAllResult([], []);
      assert r == Store(Some(CreatedTable(idType)), None);
    } else if variant == Full && NeedsMigration(s.products.value.columns) {
      var rows := s.products.value.rows;
      MigrationFailure(s, idType);
      InsertAllResult([], rows);
      var copied := Renumbered(rows, 1);
      assert NextId([]) == 1;
      assert [] + copied == copied;
      assert r == Store(Some(Table(TargetColumns(idType), copied)), None);
      RenumberedKeepsItems(rows, 1);
      InsertAllResult([], copied);
      RenumberedTwice(rows, 1);
    }
  }
}
