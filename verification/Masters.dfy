/** The master tables: their columns, and the bulk upsert that all their repositories use. */
module Masters {
  import opened Wrappers
  import opened Records
  import opened Statements
  import opened Dedupe
  import opened BulkUpsert
  import ParentChild

  // ----- the tables -----

  /** The columns that a repository binds, those that identify a row, and those that a conflict updates. */
  datatype MasterTable = MasterTable(columns: seq<string>, conflict: seq<string>, update: seq<string>)

  const COMPANIES := MasterTable(
    ["name", "guid", "books_from", "starting_from", "ending_at", "country", "state", "gstin",
     "alter_id", "synced_at"],
    ["name"],
    ["guid", "books_from", "starting_from", "ending_at", "country", "state", "gstin",
     "alter_id", "synced_at"])

  const LEDGER_GROUPS := MasterTable(
    ["company_name", "name", "guid", "parent", "is_deemed_positive", "is_revenue",
     "affects_stock", "alter_id", "synced_at"],
    ["company_name", "name"],
    ["guid", "parent", "is_deemed_positive", "is_revenue", "affects_stock", "alter_id",
     "synced_at"])

  const LEDGERS := MasterTable(
    ["company_name", "name", "guid", "parent", "is_deemed_positive", "opening_balance",
     "closing_balance", "gst_registration_type", "gstin", "pan", "mobile", "email", "country",
     "state", "pincode", "address", "alter_id", "synced_at"],
    ["company_name", "name"],
    ["guid", "parent", "is_deemed_positive", "opening_balance", "closing_balance",
     "gst_registration_type", "gstin", "pan", "mobile", "email", "country", "state",
     "pincode", "address", "alter_id", "synced_at"])

  const VOUCHER_TYPES := MasterTable(
    ["company_name", "name", "guid", "parent", "numbering_method", "is_active", "alter_id",
     "synced_at"],
    ["company_name", "name"],
    ["guid", "parent", "numbering_method", "is_active", "alter_id", "synced_at"])

  const UNITS := MasterTable(
    ["company_name", "name", "guid", "gst_unit_name", "formal_name", "is_simple_unit",
     "alter_id", "synced_at"],
    ["company_name", "name"],
    ["guid", "gst_unit_name", "formal_name", "is_simple_unit", "alter_id", "synced_at"])

  const GODOWNS := MasterTable(
    ["company_name", "name", "guid", "parent", "has_no_stock", "alter_id", "synced_at"],
    ["company_name", "name"],
    ["guid", "parent", "has_no_stock", "alter_id", "synced_at"])

  const STOCK_GROUPS := MasterTable(
    ["company_name", "name", "guid", "parent", "is_addable", "alter_id", "synced_at"],
    ["company_name", "name"],
    ["guid", "parent", "is_addable", "alter_id", "synced_at"])

  const STOCK_ITEMS := MasterTable(
    ["company_name", "name", "guid", "parent", "category", "base_units", "gst_applicable",
     "gst_type_of_supply", "hsn_code", "description", "opening_balance", "opening_rate",
     "opening_value", "closing_balance", "closing_rate", "closing_value", "alter_id",
     "synced_at"],
    ["company_name", "name"],
    ["guid", "parent", "category", "base_units", "gst_applicable", "gst_type_of_supply",
     "hsn_code", "description", "opening_balance", "opening_rate", "opening_value",
     "closing_balance", "closing_rate", "closing_value", "alter_id", "synced_at"])

  const MASTER_TABLES := [COMPANIES, LEDGER_GROUPS, LEDGERS, VOUCHER_TYPES, UNITS, GODOWNS, STOCK_GROUPS, STOCK_ITEMS]

  const MASTER_WIDTH: nat := 18

  ghost predicate Covers(t: MasterTable) {
    && (forall c :: c in t.columns ==> c in t.conflict || c in t.update)
    && Split(t)
  }

  /** Every update list names all columns that do not identify the row. */
  lemma {:induction false} EveryUpdateListCovers(t: MasterTable)
    requires t in MASTER_TABLES
    ensures Covers(t)
  {
    ListsSplit();
    hide COMPANIES, LEDGER_GROUPS, LEDGERS, VOUCHER_TYPES, UNITS, GODOWNS, STOCK_GROUPS, STOCK_ITEMS;
  }

  ghost predicate Split(t: MasterTable) {
    && t.columns == t.conflict + t.update && |t.columns| <= MASTER_WIDTH
    && (t.conflict == ["name"] || t.conflict == ["company_name", "name"])
  }

  lemma {:induction false} ListsSplit()
    ensures Split(COMPANIES) && Split(LEDGER_GROUPS) && Split(LEDGERS) && Split(VOUCHER_TYPES)
    ensures Split(UNITS) && Split(GODOWNS) && Split(STOCK_GROUPS) && Split(STOCK_ITEMS)
  {
    WideListsSplit();
    hide LEDGERS, STOCK_ITEMS;
  }

  lemma {:induction false} WideListsSplit()
    ensures Split(LEDGERS) && Split(STOCK_ITEMS)
    ensures |LEDGERS.columns| == MASTER_WIDTH && |STOCK_ITEMS.columns| == MASTER_WIDTH
  {
  }

  // ----- a conflict replaces the row -----

  datatype Cell = Text(text: string) | Number(number: int)

  /** The cell of one column: every column but these is a field of the record. */
  function CellOf(company: string, now: string, r: Record, column: string): Cell {
    if column == "company_name" then Text(company)
    else if column == "name" then Text(r.key.name)
    else if column == "guid" then Text(r.guid)
    else if column == "alter_id" then Number(r.alterId)
    else if column == "synced_at" then Text(now)
    else if column in r.fields then Text(r.fields[column]) else Text("")
  }

  /** The row that a repository binds for a record. */
  function RowOf(columns: seq<string>, company: string, now: string, r: Record): (row: Columns<Cell>)
    ensures row.Keys == set c | c in columns
    ensures forall c :: c in row ==> row[c] == CellOf(company, now, r, c)
  {
    if columns == [] then map[]
    else RowOf(columns[1..], company, now, r)[columns[0] := CellOf(company, now, r, columns[0])]
  }

  lemma {:induction false} ConflictIsBound(t: MasterTable)
    requires Split(t)
    ensures forall i :: 0 <= i < |t.conflict| ==> t.conflict[i] in t.columns
  {
    forall i | 0 <= i < |t.conflict| ensures t.conflict[i] in t.columns {
      assert t.columns[i] == t.conflict[i];
    }
  }

  lemma {:induction false} KeyCells(t: MasterTable, company: string, now: string, r: Record)
    requires Split(t)
    ensures ConflictKey(RowOf(t.columns, company, now, r), t.conflict) ==
            (if |t.conflict| == 1 then [] else [Some(Text(company))]) + [Some(Text(r.key.name))]
  {
    hide RowOf, ConflictKey, CellOf;
    ConflictIsBound(t);
    CellsHold(company, now, r);
    var key := ConflictKey(RowOf(t.columns, company, now, r), t.conflict);
    var n := |t.conflict| - 1;
    assert key[n] == Some(Text(r.key.name));
    if n == 1 {
      assert key[0] == Some(Text(company));
    }
  }

  /** Rows of one company conflict exactly when their records have the same name. */
  lemma {:induction false} RowsConflictByName(t: MasterTable, company: string, now: string, later: string, held: Record, next: Record)
    requires Split(t)
    ensures held.key.name == next.key.name <==>
            ConflictKey(RowOf(t.columns, company, now, held), t.conflict) == ConflictKey(RowOf(t.columns, company, later, next), t.conflict)
  {
    hide ConflictKey, RowOf, Split;
    KeyCells(t, company, now, held);
    KeyCells(t, company, later, next);
    var k, l := ConflictKey(RowOf(t.columns, company, now, held), t.conflict), ConflictKey(RowOf(t.columns, company, later, next), t.conflict);
    assert k[|k| - 1] == Some(Text(held.key.name)) && l[|l| - 1] == Some(Text(next.key.name));
  }

  /** In every master table the upsert of a record under a held name leaves exactly the record's row. */
  lemma {:induction false} ConflictReplacesRow(t: MasterTable, company: string, now: string, later: string, held: Record, next: Record)
    requires t in MASTER_TABLES && held.key.name == next.key.name
    ensures SetColumns(RowOf(t.columns, company, now, held), RowOf(t.columns, company, later, next), t.update) ==
            RowOf(t.columns, company, later, next)
  {
    EveryUpdateListCovers(t);
    hide SetColumns, ConflictKey, RowOf, CellOf, MASTER_TABLES;
    RowsConflictByName(t, company, now, later, held, next);
    SameKeyCovered((set c | c in t.columns), t.conflict, t.update,
                   RowOf(t.columns, company, now, held), RowOf(t.columns, company, later, next));
  }

  /** In every master table the bulk upsert is the row-by-row upsert of the batch as it came. */
  lemma {:induction false} MasterBulkIsRowByRow(t: MasterTable, rows: map<seq<Option<Cell>>, Columns<Cell>>, batch: seq<Columns<Cell>>)
    requires t in MASTER_TABLES
    requires forall k :: k in rows ==> rows[k].Keys == set c | c in t.columns
    requires forall r :: r in batch ==> r.Keys == set c | c in t.columns
    ensures var m := ColumnModel<Cell>(t.conflict, t.update, |t.columns|);
            CHUNK_SIZE * m.width <= MAX_PARAMETERS && UpsertRows(m, rows, Deduped(m, batch)) == UpsertRows(m, rows, batch)
  {
    EveryUpdateListCovers(t);
    hide MASTER_TABLES, UpsertRows, Deduped, ColumnModel;
    CoveringColumns<Cell>((set c | c in t.columns), t.conflict, t.update, |t.columns|, rows, batch);
  }

  // ----- records for rows -----

  /** So a master table may be looked at as its records by name, each replaced as a whole. */
  const MASTERS: Model<Key, Record> := Model((r: Record) => r.key, (held: Record, next: Record) => next, MASTER_WIDTH)

  lemma {:induction false} MastersFit()
    ensures CHUNK_SIZE * MASTERS.width <= MAX_PARAMETERS
  {
  }

  lemma {:induction false} LastIsWinners(records: seq<Record>)
    ensures Last(MASTERS, records) == Winners(Master, records)
  {
    if records != [] {
      LastIsWinners(records[..|records| - 1]);
    }
  }

  lemma {:induction false} BulkIsPlus(t: map<Key, Record>, last: map<Key, Record>, t': map<Key, Record>)
    requires Bulk(MASTERS, t, last, t')
    ensures t' == t + last
  {
  }

  lemma {:induction false} MasterBulk(t: map<Key, Record>, records: seq<Record>)
    ensures Upserted(MASTERS, t, records) == t + Winners(Master, records)
    ensures KeyCount(MASTERS, records) == |Winners(Master, records)|
  {
    var last := Last(MASTERS, records);
    assert forall k :: k in Order(MASTERS, records) <==> k in last.Keys;
    ParentChild.DistinctSize(Order(MASTERS, records), last.Keys);
    hide Last, Order, UpsertRows, Deduped, Winners, Bulk;
    LastIsWinners(records);
    DedupedHolds(MASTERS, t, records);
    BulkIsPlus(t, last, UpsertRows(MASTERS, t, Deduped(MASTERS, records)));
  }

  // ----- the column tables show the record tables -----

  type ColumnTable = map<seq<Option<Cell>>, Columns<Cell>>

  /** The constrained cells of the row of a name. */
  function Named(t: MasterTable, company: string, name: string): seq<Option<Cell>> {
    (if |t.conflict| == 1 then [] else [Some(Text(company))]) + [Some(Text(name))]
  }

  ghost predicate IsRowOf(t: MasterTable, company: string, row: Columns<Cell>, r: Record) {
    exists now :: row == RowOf(t.columns, company, now, r)
  }

  /** The company's rows are those of the records, each written at some time. */
  ghost predicate Shows(t: MasterTable, company: string, table: ColumnTable, records: map<Key, Record>) {
    && (forall k :: k in records ==>
          records[k].key == k && k.vtype == "" && Named(t, company, k.name) in table
          && IsRowOf(t, company, table[Named(t, company, k.name)], records[k]))
    && (forall c :: c in table ==> exists k :: k in records && c == Named(t, company, k.name))
  }

  function RowsOf(columns: seq<string>, company: string, now: string, records: seq<Record>): (rows: seq<Columns<Cell>>)
    ensures |rows| == |records|
    ensures forall i :: 0 <= i < |records| ==> rows[i] == RowOf(columns, company, now, records[i])
  {
    seq(|records|, i requires 0 <= i < |records| => RowOf(columns, company, now, records[i]))
  }

  lemma {:induction false} NamedApart(t: MasterTable, company: string, a: string, b: string)
    ensures Named(t, company, a) == Named(t, company, b) <==> a == b
  {
    var x, y := Named(t, company, a), Named(t, company, b);
    assert x[|x| - 1] == Some(Text(a)) && y[|y| - 1] == Some(Text(b));
  }

  /** What the row of a record holds, cell by cell. */
  ghost predicate Holds(t: MasterTable, company: string, row: Columns<Cell>, r: Record) {
    && (forall c :: c in row <==> c in t.columns)
    && "name" in row && row["name"] == Text(r.key.name)
    && "guid" in row && row["guid"] == Text(r.guid)
    && "alter_id" in row && row["alter_id"] == Number(r.alterId)
    && ("company_name" in row ==> row["company_name"] == Text(company))
    && (forall c :: c in row && IsField(c) && c in r.fields ==> row[c] == Text(r.fields[c]))
  }

  /** The columns that are neither key, guid, alter id nor time. */
  predicate IsField(column: string) {
    column != "company_name" && column != "name" && column != "guid" && column != "alter_id" && column != "synced_at"
  }

  lemma {:induction false} CellsHold(company: string, now: string, r: Record)
    ensures CellOf(company, now, r, "company_name") == Text(company) && CellOf(company, now, r, "name") == Text(r.key.name)
    ensures CellOf(company, now, r, "guid") == Text(r.guid) && CellOf(company, now, r, "alter_id") == Number(r.alterId)
    ensures CellOf(company, now, r, "synced_at") == Text(now)
    ensures forall c :: IsField(c) && c in r.fields ==> CellOf(company, now, r, c) == Text(r.fields[c])
  {
  }

  lemma {:induction false} EveryTableBinds(t: MasterTable)
    requires t in MASTER_TABLES
    ensures "name" in t.columns && "guid" in t.columns && "alter_id" in t.columns && "synced_at" in t.columns
  {
    WideTablesBind();
    hide LEDGERS, STOCK_ITEMS;
  }

  lemma {:induction false} WideTablesBind()
    ensures Binds(LEDGERS) && Binds(STOCK_ITEMS)
  {
    assert LEDGERS.columns[1] == "name" && LEDGERS.columns[2] == "guid" && LEDGERS.columns[16] == "alter_id" && LEDGERS.columns[17] == "synced_at";
    assert STOCK_ITEMS.columns[1] == "name" && STOCK_ITEMS.columns[2] == "guid" && STOCK_ITEMS.columns[16] == "alter_id" && STOCK_ITEMS.columns[17] == "synced_at";
  }

  ghost predicate Binds(t: MasterTable) {
    "name" in t.columns && "guid" in t.columns && "alter_id" in t.columns && "synced_at" in t.columns
  }

  /** The row that a repository binds holds the record. */
  lemma {:induction false} RowHoldsRecord(t: MasterTable, company: string, row: Columns<Cell>, r: Record)
    requires t in MASTER_TABLES && IsRowOf(t, company, row, r)
    ensures Holds(t, company, row, r)
  {
    hide MASTER_TABLES, RowOf, CellOf, IsField;
    EveryTableBinds(t);
    var now :| row == RowOf(t.columns, company, now, r);
    CellsHold(company, now, r);
  }

  /** A record is read back from its row: records with equal rows agree in all that the table keeps. */
  lemma {:induction false} RowsTellRecordsApart(t: MasterTable, company: string, row: Columns<Cell>, a: Record, b: Record)
    requires t in MASTER_TABLES && IsRowOf(t, company, row, a) && IsRowOf(t, company, row, b)
    ensures a.key.name == b.key.name && a.guid == b.guid && a.alterId == b.alterId
    ensures forall c :: c in t.columns && IsField(c) && c in a.fields && c in b.fields ==> a.fields[c] == b.fields[c]
  {
    hide MASTER_TABLES, IsRowOf, IsField;
    RowHoldsRecord(t, company, row, a);
    RowHoldsRecord(t, company, row, b);
  }

  /** One row upserted. */
  lemma {:induction false} PutShows(t: MasterTable, company: string, table: ColumnTable, records: map<Key, Record>, row: Columns<Cell>, r: Record)
    requires Shows(t, company, table, records) && r.key.vtype == "" && IsRowOf(t, company, row, r)
    ensures Shows(t, company, table[Named(t, company, r.key.name) := row], records[r.key := r])
  {
    hide Named, IsRowOf;
    var c := Named(t, company, r.key.name);
    forall k | k in records && k != r.key ensures Named(t, company, k.name) != c {
      NamedApart(t, company, k.name, r.key.name);
      assert k.name != r.key.name || k == r.key;
    }
    var table', records' := table[c := row], records[r.key := r];
    forall d | d in table' ensures exists k :: k in records' && d == Named(t, company, k.name) {
      if d == c {
        assert r.key in records';
      } else {
        var k :| k in records && d == Named(t, company, k.name);
        assert k in records';
      }
    }
  }

  /** The upsert of a row finds the row of the record's name, and leaves the record's. */
  lemma {:induction false} UpsertLeavesRow(t: MasterTable, company: string, now: string, table: ColumnTable, records: map<Key, Record>, r: Record)
    requires t in MASTER_TABLES && Shows(t, company, table, records) && r.key.vtype == ""
    ensures UpsertRow(ColumnModel<Cell>(t.conflict, t.update, |t.columns|), table, RowOf(t.columns, company, now, r)) ==
            table[Named(t, company, r.key.name) := RowOf(t.columns, company, now, r)]
  {
    hide MASTER_TABLES, RowOf, ConflictKey, SetColumns, Named;
    EveryUpdateListCovers(t);
    KeyIsNamed(t, company, now, r);
    var c := Named(t, company, r.key.name);
    if c in table {
      var k :| k in records && c == Named(t, company, k.name);
      NamedApart(t, company, k.name, r.key.name);
      var written :| table[c] == RowOf(t.columns, company, written, records[k]);
      ConflictReplacesRow(t, company, written, now, records[k], r);
    }
  }

  lemma {:induction false} KeyIsNamed(t: MasterTable, company: string, now: string, r: Record)
    requires Covers(t)
    ensures ConflictKey(RowOf(t.columns, company, now, r), t.conflict) == Named(t, company, r.key.name)
  {
    KeyCells(t, company, now, r);
    hide RowOf, ConflictKey;
  }

  lemma {:induction false} RowsShow(t: MasterTable, company: string, now: string, table: ColumnTable, held: map<Key, Record>, records: seq<Record>)
    requires t in MASTER_TABLES && Shows(t, company, table, held) && forall r :: r in records ==> r.key.vtype == ""
    ensures Shows(t, company, UpsertRows(ColumnModel<Cell>(t.conflict, t.update, |t.columns|), table, RowsOf(t.columns, company, now, records)),
                  UpsertRows(MASTERS, held, records))
    decreases |records|
  {
    hide MASTER_TABLES, RowOf, Shows, Named;
    if records != [] {
      var r, rows := records[0], RowsOf(t.columns, company, now, records);
      var row := RowOf(t.columns, company, now, r);
      assert rows[0] == row && rows[1..] == RowsOf(t.columns, company, now, records[1..]);
      UpsertLeavesRow(t, company, now, table, held, r);
      assert IsRowOf(t, company, row, r);
      PutShows(t, company, table, held, row, r);
      RowsShow(t, company, now, table[Named(t, company, r.key.name) := row], held[r.key := r], records[1..]);
    }
  }

  lemma {:induction false} RecordsRowByRow(held: map<Key, Record>, records: seq<Record>)
    ensures UpsertRows(MASTERS, held, records) == held + Winners(Master, records)
  {
    if records == [] {
      assert held + map[] == held;
    } else {
      var n := |records| - 1;
      var r := records[n];
      assert records == records[..n] + [r];
      RecordsRowByRow(held, records[..n]);
      UpsertRowsConcat(MASTERS, held, records[..n], [r]);
      OneRecord(held + Winners(Master, records[..n]), r);
      PlusOne(held, Winners(Master, records[..n]), r.key, r);
    }
  }

  lemma {:induction false} OneRecord(t: map<Key, Record>, r: Record)
    ensures UpsertRows(MASTERS, t, [r]) == t[r.key := r]
  {
  }

  lemma {:induction false} PlusOne<K, V>(a: map<K, V>, b: map<K, V>, k: K, v: V)
    ensures (a + b)[k := v] == a + b[k := v]
  {
  }

  lemma {:induction false} ShownRowsBindColumns(t: MasterTable, company: string, table: ColumnTable, records: map<Key, Record>)
    requires Shows(t, company, table, records)
    ensures forall c :: c in table ==> table[c].Keys == set d | d in t.columns
  {
    hide Named;
    forall c | c in table ensures table[c].Keys == set d | d in t.columns {
      var k :| k in records && c == Named(t, company, k.name);
      assert IsRowOf(t, company, table[c], records[k]);
    }
  }

  /** In every master table: the bulk upsert of the rows of a batch into the company's rows leaves the rows
      of the record table with the batch's winners put in. */
  lemma {:induction false} ColumnsShowRecords(t: MasterTable, company: string, now: string, table: ColumnTable, held: map<Key, Record>, records: seq<Record>)
    requires t in MASTER_TABLES && Shows(t, company, table, held) && forall r :: r in records ==> r.key.vtype == ""
    ensures var m := ColumnModel<Cell>(t.conflict, t.update, |t.columns|);
            var table', held' := UpsertRows(m, table, Deduped(m, RowsOf(t.columns, company, now, records))), held + Winners(Master, records);
            && Shows(t, company, table', held')
            && (forall k :: k in held' ==> Named(t, company, k.name) in table' && Holds(t, company, table'[Named(t, company, k.name)], held'[k]))
  {
    hide MASTER_TABLES, Shows, UpsertRows, Deduped, Winners, RowOf, ColumnModel, MASTERS;
    RowsShow(t, company, now, table, held, records);
    RecordsRowByRow(held, records);
    ShownRowsBindColumns(t, company, table, held);
    MasterBulkIsRowByRow(t, table, RowsOf(t.columns, company, now, records));
    ShownRowsHold(t, company,
      UpsertRows(ColumnModel<Cell>(t.conflict, t.update, |t.columns|), table, RowsOf(t.columns, company, now, records)),
      held + Winners(Master, records));
  }

  lemma {:induction false} ShownRowsHold(t: MasterTable, company: string, table: ColumnTable, records: map<Key, Record>)
    requires t in MASTER_TABLES && Shows(t, company, table, records)
    ensures forall k :: k in records ==>
              Named(t, company, k.name) in table && Holds(t, company, table[Named(t, company, k.name)], records[k])
  {
    hide MASTER_TABLES, Holds, IsRowOf, Named;
    forall k | k in records
      ensures Named(t, company, k.name) in table && Holds(t, company, table[Named(t, company, k.name)], records[k])
    {
      RowHoldsRecord(t, company, table[Named(t, company, k.name)], records[k]);
    }
  }
}
