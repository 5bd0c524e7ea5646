/** The product store as the barcode programs see it through the embedded SQL engine:
    the `products` table kept in the database file and, on the current connection, the
    temporary `products_backup` table that a schema migration creates and drops. */
module ProductStore {

  /** A product's price. The programs only bind it into a statement and read it back,
      so the model keeps it opaque and does no arithmetic on it. */
  type Price(==)

  datatype Option<T> = None | Some(value: T)

  /** The failures the core reports. The engine's own message text is not modelled. */
  datatype Error =
    | BackupExists       // CREATE TEMPORARY TABLE products_backup: the table already exists
    | NoSuchTable        // a statement names `products` while there is no such table
    | NoSuchColumn       // a statement names a column the table does not have
    | UniqueViolation    // UNIQUE constraint failed: products.barcode
    | ExhaustedRetries   // no unique barcode within the attempt budget
    | PathTooLong        // the output path does not fit the encoder's file-name buffer
    | EmptyField         // the create dialog was submitted with an empty name or cost
    | InvalidPrice       // the cost text does not parse as a number

  datatype Result<T> = Ok(value: T) | Err(error: Error)

  /** The outcome of a statement sequence that yields no value. */
  datatype Outcome = Done | Failed(error: Error)

  /** One line of `PRAGMA table_info(products)`: the column name and its declared type. */
  datatype Column = Column(name: string, declType: string)

  datatype Row = Row(id: int, barcode: string, name: string, price: Price)

  /** The `(barcode, product_name, price)` part of a row: what a migration copies. */
  datatype Item = Item(barcode: string, name: string, price: Price)

  datatype Table = Table(columns: seq<Column>, rows: seq<Row>)

  datatype Store = Store(products: Option<Table>, backup: Option<Table>)

  predicate HasColumn(columns: seq<Column>, name: string) {
    exists i :: 0 <= i < |columns| && columns[i].name == name
  }

  /** ASCII lower case. */
  function LowerAscii(c: char): char {
    if 'A' <= c <= 'Z' then (c as int + 32) as char else c
  }

  /** Identifier equality as the engine decides it: without regard to ASCII case. */
  predicate SameIdentifier(a: string, b: string) {
    |a| == |b| && forall i :: 0 <= i < |a| ==> LowerAscii(a[i]) == LowerAscii(b[i])
  }

  /** Whether a statement that names the column `name` finds it. */
  predicate Resolves(columns: seq<Column>, name: string) {
    exists i :: 0 <= i < |columns| && SameIdentifier(columns[i].name, name)
  }

  /** A column named exactly as the statement writes it is found. */
  lemma ResolvesExact(columns: seq<Column>, name: string)
    requires HasColumn(columns, name)
    ensures Resolves(columns, name)
  {
    var i :| 0 <= i < |columns| && columns[i].name == name;
    assert SameIdentifier(columns[i].name, name);
  }

  /** The statements find columns whatever their ASCII case, while the scan of the
      column list compares `id` exactly. */
  lemma ColumnCaseExample(declType: string)
    ensures HasItemColumns([Column("Barcode", declType), Column("PRODUCT_NAME", declType), Column("Price", declType)])
    ensures Resolves([Column("ID", declType)], "id") && !HasColumn([Column("ID", declType)], "id")
  {
    var columns := [Column("Barcode", declType), Column("PRODUCT_NAME", declType), Column("Price", declType)];
    assert SameIdentifier(columns[0].name, "barcode");
    assert SameIdentifier(columns[1].name, "product_name");
    assert SameIdentifier(columns[2].name, "price");
    assert SameIdentifier("ID", "id");
    assert [Column("ID", declType)][0].name != "id";
  }

  /** The columns that `INSERT INTO products (barcode, product_name, price)` and the
      migration's `SELECT barcode, product_name, price` name. */
  predicate HasItemColumns(columns: seq<Column>) {
    Resolves(columns, "barcode") && Resolves(columns, "product_name") && Resolves(columns, "price")
  }

  predicate HasBarcode(rows: seq<Row>, code: string) {
    exists i :: 0 <= i < |rows| && rows[i].barcode == code
  }

  /** What the UNIQUE constraint on `barcode` enforces. */
  predicate UniqueBarcodes(rows: seq<Row>) {
    forall i, j :: 0 <= i < j < |rows| ==> rows[i].barcode != rows[j].barcode
  }

  predicate DistinctIds(rows: seq<Row>) {
    forall i, j :: 0 <= i < j < |rows| ==> rows[i].id != rows[j].id
  }

  function ItemOf(row: Row): Item {
    Item(row.barcode, row.name, row.price)
  }

  function Items(rows: seq<Row>): (items: seq<Item>)
    ensures |items| == |rows|
  {
    seq(|rows|, i requires 0 <= i < |rows| => ItemOf(rows[i]))
  }

  /** The largest id in use, or 0 for an empty table. */
  function MaxId(rows: seq<Row>): (m: int)
    ensures m >= 0
    ensures forall i :: 0 <= i < |rows| ==> rows[i].id <= m
    ensures m == 0 || exists i :: 0 <= i < |rows| && rows[i].id == m
  {
    if rows == [] then 0
    else
      var m := MaxId(rows[..|rows| - 1]);
      if rows[|rows| - 1].id > m then rows[|rows| - 1].id else m
  }

  /** The id an AUTOINCREMENT primary key gives the next row. Rows are never deleted
      here, so the engine's sequence never runs ahead of the largest id in use. */
  function NextId(rows: seq<Row>): int {
    MaxId(rows) + 1
  }

  /** One row inserted under the UNIQUE constraint on `barcode`. */
  function InsertItem(rows: seq<Row>, item: Item): Result<seq<Row>> {
    if HasBarcode(rows, item.barcode) then Err(UniqueViolation)
    else Ok(rows + [Row(NextId(rows), item.barcode, item.name, item.price)])
  }

  /** `INSERT INTO products (...) SELECT ... FROM source`: the source rows are inserted in
      order; the first refused row fails the statement, and the engine undoes the whole
      statement, so a failure leaves `rows` as they were. */
  function InsertAll(rows: seq<Row>, source: seq<Row>): Result<seq<Row>>
    decreases |source|
  {
    if source == [] then Ok(rows)
    else
      match InsertItem(rows, ItemOf(source[0]))
      case Err(e) => Err(e)
      case Ok(next) => InsertAll(next, source[1..])
  }

  /** The source rows' items with consecutive ids from `first` on. */
  function Renumbered(source: seq<Row>, first: int): (rows: seq<Row>)
    ensures |rows| == |source|
  {
    seq(|source|, i requires 0 <= i < |source| => Row(first + i, source[i].barcode, source[i].name, source[i].price))
  }

  /** Appending one row raises the largest id to that row's id when it is larger. */
  lemma MaxIdAppend(rows: seq<Row>, row: Row)
    ensures MaxId(rows + [row]) == if row.id > MaxId(rows) then row.id else MaxId(rows)
  {
    assert (rows + [row])[..|rows|] == rows;
  }

  /** The copy of a migration can insert every source row: the source barcodes are
      distinct and none is already present. */
  predicate Insertable(rows: seq<Row>, source: seq<Row>) {
    UniqueBarcodes(source) && forall k :: 0 <= k < |source| ==> !HasBarcode(rows, source[k].barcode)
  }

  lemma HasBarcodeAppend(rows: seq<Row>, row: Row, code: string)
    ensures HasBarcode(rows + [row], code) <==> HasBarcode(rows, code) || row.barcode == code
  {
    var next := rows + [row];
    if HasBarcode(rows, code) {
      var i :| 0 <= i < |rows| && rows[i].barcode == code;
      assert next[i].barcode == code;
    }
    if row.barcode == code {
      assert next[|rows|].barcode == code;
    }
  }

  /** Inserting the head of an insertable source leaves the rest insertable, and the
      converse: a source whose head is absent and whose rest is insertable after the
      head is insertable. */
  lemma InsertableStep(rows: seq<Row>, source: seq<Row>)
    requires source != [] && !HasBarcode(rows, source[0].barcode)
    ensures Insertable(rows, source)
        <==> Insertable(rows + [Row(NextId(rows), source[0].barcode, source[0].name, source[0].price)], source[1..])
  {
    var next := rows + [Row(NextId(rows), source[0].barcode, source[0].name, source[0].price)];
    var rest := source[1..];
    forall code ensures HasBarcode(next, code) <==> HasBarcode(rows, code) || code == source[0].barcode {
      HasBarcodeAppend(rows, Row(NextId(rows), source[0].barcode, source[0].name, source[0].price), code);
    }
    if Insertable(rows, source) {
      forall i, j | 0 <= i < j < |rest| ensures rest[i].barcode != rest[j].barcode {
        assert rest[i] == source[i + 1] && rest[j] == source[j + 1];
      }
      forall k | 0 <= k < |rest| ensures !HasBarcode(next, rest[k].barcode) {
        assert rest[k] == source[k + 1];
        assert source[0].barcode != source[k + 1].barcode;
      }
    }
    if Insertable(next, rest) {
      forall i, j | 0 <= i < j < |source| ensures source[i].barcode != source[j].barcode {
        assert source[j] == rest[j - 1];
        if i == 0 {
          assert HasBarcode(next, source[0].barcode);
        } else {
          assert source[i] == rest[i - 1];
        }
      }
      forall k | 0 <= k < |source| ensures !HasBarcode(rows, source[k].barcode) {
        if k > 0 { assert source[k] == rest[k - 1]; }
      }
    }
  }

  /** The copy of a migration succeeds exactly when the source is insertable, and then
      appends the source items with fresh consecutive ids; otherwise the UNIQUE
      constraint fails it. */
  lemma {:induction false} InsertAllResult(rows: seq<Row>, source: seq<Row>)
    ensures InsertAll(rows, source).Ok? <==> Insertable(rows, source)
    ensures InsertAll(rows, source).Ok? ==> InsertAll(rows, source).value == rows + Renumbered(source, NextId(rows))
    ensures InsertAll(rows, source).Err? ==> InsertAll(rows, source).error == UniqueViolation
    decreases |source|
  {
    if source != [] {
      var head := source[0];
      if !HasBarcode(rows, head.barcode) {
        var added := Row(NextId(rows), head.barcode, head.name, head.price);
        var next := rows + [added];
        MaxIdAppend(rows, added);
        InsertableStep(rows, source);
        InsertAllResult(next, source[1..]);
        assert InsertAll(rows, source) == InsertAll(next, source[1..]);
        assert NextId(next) == NextId(rows) + 1;
        RenumberedCons(source, NextId(rows));
      }
    }
  }

  /** Renumbering from `first` gives the first row `first` and the rest the ids after it. */
  lemma RenumberedCons(source: seq<Row>, first: int)
    requires source != []
    ensures Renumbered(source, first)
        == [Row(first, source[0].barcode, source[0].name, source[0].price)] + Renumbered(source[1..], first + 1)
  {
    var rest := Renumbered(source[1..], first + 1);
    assert forall i :: 1 <= i < |source| ==> Renumbered(source, first)[i] == rest[i - 1];
  }

  /** Renumbering an already renumbered sequence from the same start changes nothing. */
  lemma RenumberedTwice(source: seq<Row>, first: int)
    ensures Renumbered(Renumbered(source, first), first) == Renumbered(source, first)
  {
  }

  /** Renumbering keeps the items, in order, and makes the ids distinct. */
  lemma RenumberedKeepsItems(source: seq<Row>, first: int)
    ensures Items(Renumbered(source, first)) == Items(source)
    ensures DistinctIds(Renumbered(source, first))
    ensures UniqueBarcodes(source) ==> UniqueBarcodes(Renumbered(source, first))
  {
  }
}
