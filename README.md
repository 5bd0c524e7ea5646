# barcode_scanner: the product store, verified

The barcode utility mints unique 12-character product codes over `0-9A-Z`,
stores each product (barcode, name, price) in the `products` table of a local
SQLite file, and looks products up again by the barcode decoded from an image.
Both the console programs (`generate_barcode.cpp`, `main.cpp`) and the Qt
dialogs (`GenerateWindow.cpp`, `ScannerWindow.cpp`) carry their own copies of
the same store logic. This project models that logic once, over an abstract
in-memory store, and proves what it does.

- `store.dfy` (module `ProductStore`): the store. `Store` holds the `products`
  table of the file and the temporary `products_backup` table of the open
  connection. A `Table` is a list of `(name, declared type)` columns and a
  sequence of `(id, barcode, name, price)` rows. The price is opaque. Also here:
  the single-row insert under the UNIQUE `barcode` constraint, and the
  `INSERT ... SELECT` copy of a migration with its statement-level rollback.
- `schema.dfy` (module `Schema`): `ensure_table_structure`. It creates a
  missing table. It scans `PRAGMA table_info` for an `id` column declared
  AUTOINCREMENT. It migrates the table statement by statement when that column
  is missing. There are two variants: `Full`, and `CreateOnly` for the create
  dialog's copy, which only creates a missing table.
- `codes.dfy` (module `Codes`): the random code generator, the allocation
  policy (the first candidate absent from the store), and the output path
  `"test_barcodes/" + code + "_barcode.png"` with its length guard.
- `storage.dfy` (module `Storage`): the count and lookup queries, and class
  `Database`. Its methods change the store in place: open a connection,
  reconcile, migrate, check a barcode, insert, and the unique-code loop.
- `flows.dfy` (module `Flows`): the entry points. These are the console
  `generate()` and `scan()`, the create dialog's `on_CreateButton_clicked`,
  and the scan dialog's `on_choiceBarcode_clicked`.

Some inputs become parameters. The random device becomes a sequence of draws
in `0..35`. The image decoder becomes the decoded string. The typed name and
price become plain parameters, and so does the parse outcome of the cost text.
The declared type that the engine reports for the created `id` column is the
`idType` field of `Database`. The model does not fix it: SQLite may report
`INTEGER` there, and then every reconcile by the full variant migrates again.

Behaviours of the code the model keeps:
- The name column is `product_name`, not `name`.
- The console `scan()` does not reconcile; it queries the table as it stands.
  The dialog scan does reconcile.
- A failed insert is not retried with a fresh code. It is reported.
- The migration is not atomic. When the old rows repeat a barcode, the copy
  fails after the drop and the re-create. The new table is left empty and the
  rows survive only in the temporary backup.
- Temporary tables belong to the connection, and `Storage.Database.Connect`
  discards them. Rows that a failed migration left in `products_backup` are
  therefore gone once that connection closes. A migration that meets a repeated
  barcode loses every product.
- Reconciliation is idempotent only on a fresh connection after it succeeded
  (`Schema.ReconcileIdempotent`). A failed migration leaves `products_backup`
  behind on its connection, and a second migration there fails at once.
- The statements name their columns in lower case, and the engine resolves
  column names without regard to ASCII case. A table whose columns are spelled
  `Barcode`, `PRODUCT_NAME` or `Price` therefore serves the count, the lookup,
  the insert and the migration's copy (`ProductStore.Resolves`). Only the scan
  of `PRAGMA table_info` compares the name `id` exactly, so an `ID` column does
  not count as the `id` column there (`ProductStore.ColumnCaseExample`).
- The scan dialog calls the reconciler outside any `try`, so a reconcile
  failure there is an exception that escapes the click handler. The scan's
  `ReconcileFailed` report stands for that uncaught exception. The create
  dialog catches its exceptions and reports them.

## Model

| member | source | states |
|---|---|---|
| ProductStore.MaxId | main.cpp:36-41 | the largest id in use bounds every row's id and is attained (0 on an empty table); ids are allocated one above it |
| ProductStore.ResolvesExact | generate_barcode.cpp:73-74 | a column named exactly as a statement writes it is found |
| ProductStore.ColumnCaseExample | generate_barcode.cpp:50-74 | `Barcode`, `PRODUCT_NAME` and `Price` serve as the copied columns, and `ID` resolves as `id` in a statement but is not the `id` column for the scan |
| ProductStore.InsertAllResult | main.cpp:81-82 | the migration's copy succeeds iff the copied barcodes are distinct and absent from the target; then it appends exactly the copied items with consecutive fresh ids; otherwise it fails with the UNIQUE violation and the statement leaves the table as it was |
| ProductStore.RenumberedKeepsItems | main.cpp:73-83 | renumbering keeps every `(barcode, product_name, price)` item in order, makes the ids distinct and keeps distinct barcodes distinct |
| ProductStore.RenumberedTwice | main.cpp:73-83 | copying an already migrated table again gives the same rows |
| Schema.ContainsIff | main.cpp:64-66 | the `find(...) != npos` test holds iff the substring occurs at some position |
| Schema.ScanColumns | generate_barcode.cpp:50-64 | the loop's `has_id_column` holds iff some column is named `id`; `has_autoinc` holds iff some `id` column's declared type contains "AUTOINCREMENT"; `has_autoinc` implies `has_id_column`; migration is needed iff one of them is false (the copies in main.cpp:58-72 and barcode_desktop_app/ScannerWindow.cpp:55-69 are the same) |
| Schema.CreatesMissingTable | generate_barcode.cpp:20-41 | with no table, reconciling succeeds and creates it with the target columns and no rows |
| Schema.LeavesExistingTable | barcode_desktop_app/GenerateWindow.cpp:12-43 | the create-only variant, and the full variant when an AUTOINCREMENT `id` column exists, leave an existing store exactly as it is |
| Schema.MigrationKeepsItems | generate_barcode.cpp:65-75 | a successful migration keeps the items in order, gives the target columns, numbers the rows 1..n with distinct ids, keeps barcodes unique and drops the backup |
| Schema.MigrationFailure | generate_barcode.cpp:65-82 | the migration succeeds iff there is no backup table yet, the old table has the copied columns (named in any ASCII case) and its barcodes are distinct; on repeated barcodes it fails leaving an empty recreated table and the rows only in the backup (the same in main.cpp and barcode_desktop_app/ScannerWindow.cpp:70-88) |
| Schema.ReconcileKeepsItems | main.cpp:21-92 | every successful reconcile leaves a `products` table with the items it held before (none when it was missing) and keeps a fresh connection free of the backup table |
| Schema.ReconcileIdempotent | barcode_desktop_app/ScannerWindow.cpp:19-89 | after a successful reconcile on a fresh connection, reconciling again succeeds and changes nothing |
| Storage.Database.MigrateTable | generate_barcode.cpp:64-82 | the statements run in order, each on the state the previous one left; the result is the migration's outcome with the effects of the statements before a failure kept |
| Storage.Database.EnsureTableStructure | generate_barcode.cpp:13-84 | the new store and outcome are the reconciler's; the migration runs iff the table existed, the variant is the full one and the scan found no AUTOINCREMENT `id` (main.cpp:21-92 and barcode_desktop_app/ScannerWindow.cpp:19-89 are the same; the create-only copy is barcode_desktop_app/GenerateWindow.cpp:12-43) |
| Codes.AlphabetIsSymbols | generate_barcode.cpp:108-110 | table entry `d` is digit `d` for `d < 10` and letter `d - 10` after |
| Codes.GenerateRandomBarcode | generate_barcode.cpp:107-121 | the result has `max(length, 0)` characters, each from `0-9A-Z`, the `i`-th being the entry the `i`-th draw picks; every draw in `0..35` indexes the table in bounds (the copies in main.cpp:115-129 and barcode_desktop_app/GenerateWindow.cpp:64-78 are the same) |
| Codes.SpellRoundTrip | generate_barcode.cpp:117-119 | each character of a generated code reads back as the draw that produced it |
| Codes.SpellInjective | generate_barcode.cpp:117-119 | different draw sequences give different codes |
| Codes.DrawCandidate | generate_barcode.cpp:141 | the `k`-th attempt's `generate_random_barcode()` call yields the `k`-th candidate |
| Codes.RunFacts | generate_barcode.cpp:140-154 | after any number of attempts each candidate was checked at most once and at most one per attempt, the codes drawn are exactly those checked; while none was absent every drawn code, and every candidate so far, is held by the store; once one is absent, it is the last one checked |
| Codes.RunFound | generate_barcode.cpp:144-153 | the attempt that first finds a candidate absent checked that candidate last, and every earlier candidate is held by the store |
| Codes.RunAllocation | generate_barcode.cpp:140-162 | where the loop stops on a queryable store, its result is the allocation policy's: the absent candidate it stopped on, or exhaustion after the last attempt; no candidate was checked twice |
| Codes.FirstAbsent | generate_barcode.cpp:140-154 | the first candidate absent from the store: all earlier candidates are present; none is found iff every candidate is present |
| Codes.Allocation | main.cpp:148-170 | a code is allocated only from a queryable store (one with a `barcode` column in any ASCII case), it is one of the candidates and it is absent; exhaustion is reported iff the store holds every candidate |
| Codes.AllocationFound | generate_barcode.cpp:150-151 | when all earlier candidates are held and the `k`-th is not, the allocator yields the `k`-th |
| Codes.OutputPathRoundTrip | main.cpp:239 | the output path is 26 characters longer than the code, starts with the directory and gives back the code |
| Codes.CheckPath | main.cpp:239-245 | the path is handed on iff its length is below the 256-byte file-name buffer; otherwise the error is PathTooLong |
| Codes.DefaultPathFits | barcode_desktop_app/GenerateWindow.cpp:192-196 | the path of every 12-character code passes the guard |
| Storage.Count | generate_barcode.cpp:90-103 | the count is at most the number of rows and is positive iff some row has the barcode |
| Storage.FirstMatch | main.cpp:344-354 | the first row whose barcode equals the code; none iff no row has it |
| Storage.SelectByBarcode | main.cpp:344-373 | the query runs iff the table has the `id`, `barcode`, `product_name` and `price` columns, matched without regard to ASCII case; it finds a product iff some row has the barcode, and then reports the first such row's id, name and price |
| Storage.LookupFindsTheOnlyRow | main.cpp:354-368 | under the UNIQUE constraint the row found is the one row with that barcode |
| Storage.InsertProductMeaning | main.cpp:191-209 | the insert succeeds iff the barcode is absent; it then appends exactly one row carrying the item and an id no row had, and keeps barcodes unique and ids distinct; otherwise it fails with the UNIQUE violation |
| Storage.InsertThenSelect | main.cpp:191-209 | looking up a barcode just inserted reports the inserted row's id, name and price |
| Storage.Database.Connect | main.cpp:184-186 | a fresh connection sees the file's table and no temporary table |
| Storage.Database.BarcodeExists | generate_barcode.cpp:87-104 | reconcile first; on success the answer is whether some row has the barcode, or the query's error when the table has no `barcode` column in any ASCII case; the store changes only by reconciling, and not at all on a settled store (barcode_desktop_app/GenerateWindow.cpp:45-62 is the same check with the create-only reconciler) |
| Storage.Database.Insert | generate_barcode.cpp:183-206 | the new table is the insert's result and the reported id is one above the largest id in use; on failure the table is unchanged |
| Storage.Database.AddToDatabase | main.cpp:173-215 | open, reconcile with the full variant, then insert; a reconcile failure stops before the insert |
| Storage.Database.GenerateUniqueBarcode | generate_barcode.cpp:124-163 | open and reconcile; a reconcile failure is reported; otherwise the result is the first of the 100 candidates absent from the reconciled store, or exhaustion; at most 100 attempts, the store queried at most once per distinct candidate, and a returned code is the last one queried (barcode_desktop_app/GenerateWindow.cpp:80-116 is the same allocator with the create-only reconciler) |
| Storage.Database.DrawUniqueBarcode | generate_barcode.cpp:140-154 | the attempt loop on a reconciled store leaves the store unchanged and makes at least one and at most 100 attempts; the candidates it checks are those of `Codes.Run` after its attempts; a returned code is the candidate of the attempt that first found one absent, exhaustion comes after 100 attempts without one, and any other error is the query's on a store without a `barcode` column (main.cpp:148-162 and barcode_desktop_app/GenerateWindow.cpp:94-107 are the same loop) |
| Storage.Database.ExistsOnSettled | generate_barcode.cpp:87-104 | `barcode_exists` on a store the reconciler leaves as it is: the store is unchanged, the query runs iff the table has a `barcode` column, and then the answer is whether some row has the barcode |
| Flows.Allocated | main.cpp:132-171 | an allocated code has 12 characters, is one of the candidates, and is absent from the reconciled store; a reconcile failure is passed on |
| Flows.Generate | main.cpp:217-269 | status is 0 or 1; 0 iff a code was allocated and the table has the insert's columns (in any ASCII case); then exactly one row with that code, the given name and price and a fresh id is appended, and the image path is the code's output path; on status 1 the store is what the reconcile left (the generator program's `main`, generate_barcode.cpp:209-261, is the same flow) |
| Flows.Report | barcode_desktop_app/ScannerWindow.cpp:171-195 | the query fails iff the table is missing or a selected column is missing in every ASCII case; not found names the barcode and holds iff no row has it; a product is the first row with exactly that barcode |
| Flows.ExitStatus | main.cpp:322-374 | the scan's status is 0 or 1 |
| Flows.ScanOutcome | main.cpp:327-374 | the console scan returns 0 iff something was decoded and the lookup could run, its columns matched without regard to ASCII case; it reports a product iff some row has the decoded barcode; an empty decode gives status 1 whatever the store holds |
| Flows.ScanFindsGenerated | main.cpp:344-368 | scanning the code of a product just added reports that product's id, name and price |
| Flows.CreateClicked | barcode_desktop_app/GenerateWindow.cpp:130-219 | an empty name or cost, then an unparsable price, is rejected with the store untouched; otherwise success iff a code was allocated and the table has the insert's columns (in any ASCII case), and then exactly one row with that code is appended and the path returned is the code's output path; the connection ends without a backup table; on a failure after validation the table is what the reconcile left, so a failed insert yields no image |
| Flows.ChoiceBarcodeClicked | barcode_desktop_app/ScannerWindow.cpp:145-199 | no file or an empty decode stops with the store untouched; otherwise the store becomes what the full reconcile makes of it, a reconcile failure (an uncaught exception in the dialog) ends the scan, and the report is the lookup on the reconciled table |

## Left out

- Image decoding (`barcode_reader`: stb_image loading, the floating-point grayscale conversion, zbar) is outside the model. Its result is the `decoded` parameter.
- Zint symbol creation, encoding and printing are outside the model. The model stops at the path-length guard. A `ZBarcode_Create` failure, which the console programs check before inserting, is not modelled.
- `sqlite3_open` failures, failures to prepare the table-existence check or `PRAGMA table_info`, and other engine errors (I/O, locking, out of memory) are not modelled. The reconciler's own statements are modelled as succeeding except for the failures named in `Error`.
- Random-device seeding and the Mersenne Twister are replaced by the `draws` parameter.
- Parsing the cost (`std::stod`, `QString::toDouble`) and prices as doubles are not modelled. The price is opaque. In the console programs, `std::stod` on text that is not a number throws an exception no handler catches; this is not modelled.
- Console prompts, the recursive menu in `main.cpp`, the Qt message boxes and the window lifecycle (`mainwindow.cpp`, the headers) are user interface and are not modelled.
- `init_database.cpp` and `scanner.cpp` are not part of this model. The first is three fixed statements; the lookup in the second duplicates the one in `main.cpp`.
- NULL values are not modelled. Every row has a barcode, a name and a price.
- The lookup reports the first matching row in table order. The query has no ORDER BY, and under the UNIQUE constraint at most one row matches (`Storage.LookupFindsTheOnlyRow`).
- Storage.Database.Insert: an older table created without the UNIQUE constraint would accept a duplicate barcode. The model rejects duplicates in every table.
- Storage.Database.Insert: ids are unbounded integers. The source reads them into a 32-bit `int` (`sqlite3_last_insert_rowid` and `sqlite3_column_int`), so once ids reach 2^31 the id it reports after an insert and the id the lookup shows are truncated. The model reports the full id, and so does `Flows.Report`.
- The table is assumed to be named exactly `products`. The existence check compares the name in `sqlite_master` case-sensitively, while `CREATE TABLE products` and the queries find a table of that name in any case. For a table named `Products`, every reconcile in the source fails with "table products already exists", and only the console scan, which does not reconcile, still reads it. The store does not record the table's name, so the model treats such a table as `products`.
- Flows.CreateClicked: the dialog binds the name from a temporary string with `SQLITE_STATIC`, so the engine may read freed memory. The model binds the name as typed.
- ProductStore.MaxId: new ids are one above the largest id in use. This matches AUTOINCREMENT only because rows are never deleted, and because dropping the table resets its sequence.
- Codes.CheckPath: the capacity 256 is the size of the encoder's `outfile` buffer, which is declared in the Zint header, not in this repository.
- Concurrent processes sharing the store file, and the check-then-insert race between them, are not modelled. Each operation runs alone.
