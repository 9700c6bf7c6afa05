/**
 The SQL dump printer: the text of a dump as a function of the request, and the loops
 that print it.
 */
module SqlExport {
  import opened Text
  import opened SqlScanner
  import opened SqlTokens

  /** A scanned value: SQL NULL, bytes or text, a formatted time, or anything else in its default format. */
  datatype Cell = Null | Chars(value: string) | Time(stamp: string) | Other(text: string)

  /** The columns and rows of one table; a row that failed to scan is None. */
  datatype TableData = TableData(cols: seq<string>, rows: seq<Option<seq<Cell>>>)

  /** A table with the answers of SHOW CREATE TABLE and SELECT, either of which may have failed. */
  datatype Table = Table(name: string, create: Option<string>, data: Option<TableData>)

  datatype Request = Request(dbName: string, stamp: string, tables: seq<Table>, includeData: bool, includeStructure: bool)

  const BATCH := 100

  // ----- The printed text -----

  function CellText(c: Cell): string {
    match c
    case Null => "NULL"
    case Chars(v) => "'" + Escape(v) + "'"
    case Time(t) => "'" + t + "'"
    case Other(t) => t
  }

  function CellTexts(row: seq<Cell>): seq<string> {
    if row == [] then [] else [CellText(row[0])] + CellTexts(row[1..])
  }

  function RowText(row: seq<Cell>): string {
    "(" + Join(CellTexts(row), ", ") + ")"
  }

  function RowTexts(rows: seq<seq<Cell>>): seq<string> {
    if rows == [] then [] else [RowText(rows[0])] + RowTexts(rows[1..])
  }

  /** The rows that scanned. */
  function Scanned(rows: seq<Option<seq<Cell>>>): seq<seq<Cell>> {
    if rows == [] then []
    else (if rows[0].Some? then [rows[0].value] else []) + Scanned(rows[1..])
  }

  function QuotedCols(cols: seq<string>): seq<string> {
    if cols == [] then [] else [SafeQuoteIdentifier(cols[0])] + QuotedCols(cols[1..])
  }

  function InsertText(table: string, cols: seq<string>, rows: seq<string>): string {
    "INSERT INTO " + SafeQuoteIdentifier(table) + " (" + Join(QuotedCols(cols), ", ") + ") VALUES\n" + Join(rows, ",\n")
  }

  /** Full batches end with one line break, the last partial one with two. */
  function RowsText(table: string, cols: seq<string>, rows: seq<string>): string {
    if |rows| >= BATCH then InsertText(table, cols, rows[..BATCH]) + ";\n" + RowsText(table, cols, rows[BATCH..])
    else if rows == [] then ""
    else InsertText(table, cols, rows) + ";\n\n"
  }

  function StructureText(t: Table): string {
    var q := SafeQuoteIdentifier(t.name);
    if t.create.Some? then
      "-- Table structure for " + q + "\n" + "DROP TABLE IF EXISTS " + q + ";\n" + t.create.value + ";\n\n"
    else ""
  }

  function DataText(t: Table): string {
    if t.data.Some? then
      "-- Dumping data for table " + SafeQuoteIdentifier(t.name) + "\n" +
      RowsText(t.name, t.data.value.cols, RowTexts(Scanned(t.data.value.rows)))
    else ""
  }

  function TableText(t: Table, r: Request): string {
    (if r.includeStructure then StructureText(t) else "") + (if r.includeData then DataText(t) else "")
  }

  function TablesText(ts: seq<Table>, r: Request): string {
    if ts == [] then "" else TableText(ts[0], r) + TablesText(ts[1..], r)
  }

  function HeaderText(r: Request): string {
    "-- Hostvra Production Database Dump\n" + ("-- Database: `" + r.dbName + "`\n") +
    ("-- Generated at: " + r.stamp + "\n\n") + "SET NAMES utf8mb4;\nSET FOREIGN_KEY_CHECKS = 0;\n\n"
  }

  function DumpText(r: Request): string {
    HeaderText(r) + TablesText(r.tables, r) + "SET FOREIGN_KEY_CHECKS = 1;\n"
  }

  // ----- The exporter -----

  method PrintCell(c: Cell) returns (text: string)
    ensures text == CellText(c)
  {
    match c {
      case Null => text := "NULL";
      case Chars(v) =>
        var escaped := ReplaceAll(v, "\\", "\\\\");
        escaped := ReplaceAll(escaped, "'", "\\'");
        escaped := ReplaceAll(escaped, "\n", "\\n");
        escaped := ReplaceAll(escaped, "\r", "\\r");
        text := "'" + escaped + "'";
      case Time(t) => text := "'" + t + "'";
      case Other(t) => text := t;
    }
  }

  method PrintRow(row: seq<Cell>) returns (text: string)
    ensures text == RowText(row)
  {
    var valStrs: seq<string> := [];
    assert row[0..] == row;
    for i := 0 to |row|
      invariant valStrs + CellTexts(row[i..]) == CellTexts(row)
    {
      assert row[i..][0] == row[i] && row[i..][1..] == row[i + 1..];
      var valStr := PrintCell(row[i]);
      valStrs := valStrs + [valStr];
    }
    assert row[|row|..] == [] && valStrs + [] == valStrs;
    text := "(" + Join(valStrs, ", ") + ")";
  }

  method QuoteColumns(cols: seq<string>) returns (quotedCols: seq<string>)
    ensures quotedCols == QuotedCols(cols)
  {
    quotedCols := [];
    assert cols[0..] == cols;
    for i := 0 to |cols|
      invariant quotedCols + QuotedCols(cols[i..]) == QuotedCols(cols)
    {
      assert cols[i..][0] == cols[i] && cols[i..][1..] == cols[i + 1..];
      quotedCols := quotedCols + [SafeQuoteIdentifier(cols[i])];
    }
    assert cols[|cols|..] == [] && quotedCols + [] == quotedCols;
  }

  /** Prints the rows of one table, a batch of at most 100 rows per INSERT. */
  method PrintRows(table: string, data: TableData) returns (out: string)
    ensures out == RowsText(table, data.cols, RowTexts(Scanned(data.rows)))
  {
    out := "";
    var quotedCols := QuoteColumns(data.cols);
    var insertBatch: seq<string> := [];
    ghost var pending := RowTexts(Scanned(data.rows));
    ghost var goal := RowsText(table, data.cols, pending);
    assert data.rows[0..] == data.rows;
    for i := 0 to |data.rows|
      invariant |insertBatch| < BATCH
      invariant pending == insertBatch + RowTexts(Scanned(data.rows[i..]))
      invariant goal == out + RowsText(table, data.cols, pending)
    {
      ghost var later := RowTexts(Scanned(data.rows[i + 1..]));
      ScannedFrom(data.rows, i);
      if data.rows[i].Some? {
        var printed;
        ghost var before := out;
        insertBatch, printed := AddRow(table, quotedCols, data.cols, insertBatch, data.rows[i].value, later);
        out := out + printed;
        pending := insertBatch + later;
        Assoc(before, printed, RowsText(table, data.cols, pending));
      }
    }
    assert data.rows[|data.rows|..] == [] && pending == insertBatch;
    if |insertBatch| > 0 {
      var insert := PrintInsert(table, quotedCols, data.cols, insertBatch);
      out := out + (insert + ";\n\n");
    }
  }

  /** Adds one row to the batch and prints the batch once it is full. */
  method AddRow(table: string, quotedCols: seq<string>, ghost cols: seq<string>, insertBatch: seq<string>,
                row: seq<Cell>, ghost later: seq<string>)
    returns (newBatch: seq<string>, printed: string)
    requires quotedCols == QuotedCols(cols) && |insertBatch| < BATCH
    ensures |newBatch| < BATCH
    ensures RowsText(table, cols, insertBatch + ([RowText(row)] + later)) ==
            printed + RowsText(table, cols, newBatch + later)
  {
    var text := PrintRow(row);
    newBatch := insertBatch + [text];
    Grow(insertBatch, text, later);
    printed := "";
    if |newBatch| >= 100 {
      var insert := PrintInsert(table, quotedCols, cols, newBatch);
      FullBatch(table, cols, newBatch, later);
      printed := insert + ";\n";
      newBatch := [];
    }
  }

  lemma FullBatch(table: string, cols: seq<string>, batch: seq<string>, later: seq<string>)
    requires |batch| == BATCH
    ensures RowsText(table, cols, batch + later) == InsertText(table, cols, batch) + ";\n" + RowsText(table, cols, later)
  {
    assert (batch + later)[..BATCH] == batch && (batch + later)[BATCH..] == later;
  }

  lemma Grow(batch: seq<string>, text: string, later: seq<string>)
    ensures batch + ([text] + later) == (batch + [text]) + later
    ensures [] + later == later
  {
  }

  method PrintInsert(table: string, quotedCols: seq<string>, ghost cols: seq<string>, insertBatch: seq<string>)
    returns (text: string)
    requires quotedCols == QuotedCols(cols)
    ensures text == InsertText(table, cols, insertBatch)
  {
    text := "INSERT INTO " + SafeQuoteIdentifier(table) + " (" + Join(quotedCols, ", ") + ") VALUES\n" +
            Join(insertBatch, ",\n");
  }

  lemma ScannedFrom(rows: seq<Option<seq<Cell>>>, i: nat)
    requires i < |rows|
    ensures var later := RowTexts(Scanned(rows[i + 1..]));
            RowTexts(Scanned(rows[i..])) == if rows[i].Some? then [RowText(rows[i].value)] + later else later
  {
    var r := rows[i..];
    assert r[0] == rows[i] && r[1..] == rows[i + 1..];
    if rows[i].Some? {
      var s := Scanned(r);
      assert s[0] == rows[i].value && s[1..] == Scanned(r[1..]);
    } else {
      assert Scanned(r) == Scanned(r[1..]);
    }
  }

  method PrintTable(t: Table, r: Request) returns (out: string)
    ensures out == TableText(t, r)
  {
    var quotedTbl := SafeQuoteIdentifier(t.name);
    var structure, data := "", "";
    if r.includeStructure && t.create.Some? {
      structure := "-- Table structure for " + quotedTbl + "\n" + "DROP TABLE IF EXISTS " + quotedTbl + ";\n" +
                   t.create.value + ";\n\n";
    }
    if r.includeData && t.data.Some? {
      var rows := PrintRows(t.name, t.data.value);
      data := "-- Dumping data for table " + quotedTbl + "\n" + rows;
    }
    out := structure + data;
  }

  /** The SQL branch of the exporter: prints the whole dump. */
  method StreamExport(r: Request) returns (out: string)
    ensures out == DumpText(r)
  {
    out := "-- Hostvra Production Database Dump\n";
    out := out + ("-- Database: `" + r.dbName + "`\n");
    out := out + ("-- Generated at: " + r.stamp + "\n\n");
    out := out + "SET NAMES utf8mb4;\nSET FOREIGN_KEY_CHECKS = 0;\n\n";
    ghost var later := TablesText(r.tables, r);
    ghost var goal := HeaderText(r) + later;
    assert out == HeaderText(r) && r.tables[0..] == r.tables;
    for i := 0 to |r.tables|
      invariant later == TablesText(r.tables[i..], r) && goal == out + later
    {
      assert r.tables[i..][0] == r.tables[i] && r.tables[i..][1..] == r.tables[i + 1..];
      var text := PrintTable(r.tables[i], r);
      later := TablesText(r.tables[i + 1..], r);
      Assoc(out, text, later);
      out := out + text;
    }
    assert out + "" == out;
    out := out + "SET FOREIGN_KEY_CHECKS = 1;\n";
  }
}
