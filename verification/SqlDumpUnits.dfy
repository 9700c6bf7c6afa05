/**
 A printed dump as lexical units, and the proof that showing the units is printing it.
 */
module SqlDumpUnits {
  import opened Text
  import opened SqlScanner
  import opened SqlTokens
  import opened SqlExport

  // ----- What a dump may hold -----

  /** Formatted times hold nothing that needs escaping; other values are plain unquoted text such as numbers. */
  predicate CellOk(c: Cell) {
    match c
    case Null => true
    case Chars(_) => true
    case Time(t) => forall i :: 0 <= i < |t| ==> EscapeChar(t[i]) == [t[i]]
    case Other(t) => Calm(t)
  }

  predicate RowOk(row: seq<Cell>) {
    forall i :: 0 <= i < |row| ==> CellOk(row[i])
  }

  predicate RowsOk(rows: seq<seq<Cell>>) {
    forall i :: 0 <= i < |rows| ==> RowOk(rows[i])
  }

  predicate TableOk(t: Table) {
    && '\n' !in t.name
    && (t.create.Some? ==> Closed(START, t.create.value))
    && (t.data.Some? ==> RowsOk(Scanned(t.data.value.rows)))
  }

  /** Names without line breaks, create statements lexically closed; columns and text values are unrestricted. */
  predicate RequestOk(r: Request) {
    '\n' !in r.dbName && '\n' !in r.stamp && TablesOk(r.tables)
  }

  predicate TablesOk(ts: seq<Table>) {
    forall i :: 0 <= i < |ts| ==> TableOk(ts[i])
  }

  // ----- The units a dump is made of -----

  function ColTokens(cols: seq<string>): seq<Token> {
    if cols == [] then []
    else if |cols| == 1 then [Ident(cols[0])]
    else [Ident(cols[0]), Word(", ")] + ColTokens(cols[1..])
  }

  function CellToken(c: Cell): Token {
    match c
    case Null => Word("NULL")
    case Chars(v) => Literal(v)
    case Time(t) => Literal(t)
    case Other(t) => Word(t)
  }

  function CellTokens(row: seq<Cell>): seq<Token> {
    if row == [] then []
    else if |row| == 1 then [CellToken(row[0])]
    else [CellToken(row[0]), Word(", ")] + CellTokens(row[1..])
  }

  function RowTokens(row: seq<Cell>): seq<Token> {
    [Word("(")] + (CellTokens(row) + [Word(")")])
  }

  function RowsTokens(rows: seq<seq<Cell>>): seq<Token> {
    if rows == [] then []
    else if |rows| == 1 then RowTokens(rows[0])
    else RowTokens(rows[0]) + ([Word(",\n")] + RowsTokens(rows[1..]))
  }

  function InsertTokens(table: string, cols: seq<string>, rows: seq<seq<Cell>>): seq<Token> {
    [Start("INSERT INTO "), Ident(table), Word(" (")] + (ColTokens(cols) + ([Word(") VALUES\n")] + RowsTokens(rows)))
  }

  function BatchesTokens(table: string, cols: seq<string>, rows: seq<seq<Cell>>): seq<Token> {
    if |rows| >= BATCH then
      (InsertTokens(table, cols, rows[..BATCH]) + [Semi, Space("\n")]) + BatchesTokens(table, cols, rows[BATCH..])
    else if rows == [] then []
    else InsertTokens(table, cols, rows) + [Semi, Space("\n\n")]
  }

  function StructureTokens(t: Table): seq<Token> {
    if t.create.Some? then
      [Note("-- Table structure for " + SafeQuoteIdentifier(t.name)), Start("DROP TABLE IF EXISTS "), Ident(t.name),
       Semi, Space("\n"), Create(t.create.value), Semi, Space("\n\n")]
    else []
  }

  function DataTokens(t: Table): seq<Token> {
    if t.data.Some? then
      [Note("-- Dumping data for table " + SafeQuoteIdentifier(t.name))] +
      BatchesTokens(t.name, t.data.value.cols, Scanned(t.data.value.rows))
    else []
  }

  function TableTokens(t: Table, r: Request): seq<Token> {
    (if r.includeStructure then StructureTokens(t) else []) + (if r.includeData then DataTokens(t) else [])
  }

  function TablesTokens(ts: seq<Table>, r: Request): seq<Token> {
    if ts == [] then [] else TableTokens(ts[0], r) + TablesTokens(ts[1..], r)
  }

  function SettingTokens(): seq<Token> {
    ([Start("SET NAMES utf8mb4")] + [Semi, Space("\n")]) + ([Start("SET FOREIGN_KEY_CHECKS = 0")] + [Semi, Space("\n\n")])
  }

  function StampTokens(r: Request): seq<Token> {
    [Note("-- Generated at: " + r.stamp)] + ([Space("\n")] + SettingTokens())
  }

  function HeaderTokens(r: Request): seq<Token> {
    [Note("-- Hostvra Production Database Dump")] + ([Note("-- Database: `" + r.dbName + "`")] + StampTokens(r))
  }

  function FooterTokens(): seq<Token> {
    [Start("SET FOREIGN_KEY_CHECKS = 1"), Semi, Space("\n")]
  }

  function DumpTokens(r: Request): seq<Token> {
    HeaderTokens(r) + (TablesTokens(r.tables, r) + FooterTokens())
  }

  // ----- The printed text is the units shown -----

  lemma {:induction false} ShowAppend(a: seq<Token>, b: seq<Token>)
    ensures Show(a + b) == Show(a) + Show(b)
  {
    if a == [] {
      assert a + b == b;
    } else {
      assert (a + b)[1..] == a[1..] + b;
      ShowAppend(a[1..], b);
    }
  }

  lemma ShowCons(t: Token, ts: seq<Token>)
    ensures Show([t] + ts) == TextOf(t) + Show(ts)
  {
    assert ([t] + ts)[1..] == ts;
  }

  lemma ShowOne(t: Token)
    ensures Show([t]) == TextOf(t)
  {
    ShowCons(t, []);
    assert [t] + [] == [t] && TextOf(t) + "" == TextOf(t);
  }

  lemma ShowPair(t: Token, u: Token, ts: seq<Token>)
    ensures Show([t, u] + ts) == TextOf(t) + (TextOf(u) + Show(ts))
  {
    assert [t, u] + ts == [t] + ([u] + ts);
    ShowCons(t, [u] + ts);
    ShowCons(u, ts);
  }

  lemma {:induction false} ShowCols(cols: seq<string>)
    ensures Show(ColTokens(cols)) == Join(QuotedCols(cols), ", ")
  {
    if |cols| == 1 {
      ShowOne(Ident(cols[0]));
    } else if |cols| > 1 {
      ShowCols(cols[1..]);
      ShowPair(Ident(cols[0]), Word(", "), ColTokens(cols[1..]));
      assert QuotedCols(cols)[1..] == QuotedCols(cols[1..]);
      Assoc(SafeQuoteIdentifier(cols[0]), ", ", Join(QuotedCols(cols[1..]), ", "));
    }
  }

  lemma {:induction false} PlainEscape(t: string)
    requires forall i :: 0 <= i < |t| ==> EscapeChar(t[i]) == [t[i]]
    ensures EscapeEach(t) == t
  {
    if t != [] {
      assert EscapeChar(t[0]) == [t[0]];
      PlainEscape(t[1..]);
    }
  }

  lemma CellTokenShows(c: Cell)
    requires CellOk(c)
    ensures TextOf(CellToken(c)) == CellText(c)
  {
    if c.Time? {
      PlainEscape(c.stamp);
      EscapeIsEach(c.stamp);
    }
  }

  lemma {:induction false} ShowCells(row: seq<Cell>)
    requires RowOk(row)
    ensures Show(CellTokens(row)) == Join(CellTexts(row), ", ")
  {
    if row != [] {
      CellTokenShows(row[0]);
    }
    if |row| == 1 {
      ShowOne(CellToken(row[0]));
    } else if |row| > 1 {
      ShowCells(row[1..]);
      ShowPair(CellToken(row[0]), Word(", "), CellTokens(row[1..]));
      assert CellTexts(row)[1..] == CellTexts(row[1..]);
      Assoc(CellText(row[0]), ", ", Join(CellTexts(row[1..]), ", "));
    }
  }

  lemma ShowRow(row: seq<Cell>)
    requires RowOk(row)
    ensures Show(RowTokens(row)) == RowText(row)
  {
    ShowCells(row);
    ShowCons(Word("("), CellTokens(row) + [Word(")")]);
    ShowAppend(CellTokens(row), [Word(")")]);
    ShowOne(Word(")"));
    Assoc("(", Join(CellTexts(row), ", "), ")");
  }

  lemma {:induction false} ShowRows(rows: seq<seq<Cell>>)
    requires RowsOk(rows)
    ensures Show(RowsTokens(rows)) == Join(RowTexts(rows), ",\n")
  {
    if rows != [] {
      ShowRow(rows[0]);
    }
    if |rows| > 1 {
      ShowRows(rows[1..]);
      ShowAppend(RowTokens(rows[0]), [Word(",\n")] + RowsTokens(rows[1..]));
      ShowCons(Word(",\n"), RowsTokens(rows[1..]));
      assert RowTexts(rows)[1..] == RowTexts(rows[1..]);
      Assoc(RowText(rows[0]), ",\n", Join(RowTexts(rows[1..]), ",\n"));
    }
  }

  lemma ShowParts(a: Token, b: Token, c: Token, ts: seq<Token>, d: Token, us: seq<Token>)
    ensures Show([a, b, c] + (ts + ([d] + us))) == TextOf(a) + (TextOf(b) + (TextOf(c) + (Show(ts) + (TextOf(d) + Show(us)))))
  {
    var more := ts + ([d] + us);
    ShowCons(d, us);
    ShowAppend(ts, [d] + us);
    assert [a, b, c] + more == [a] + ([b, c] + more);
    ShowCons(a, [b, c] + more);
    ShowPair(b, c, more);
  }

  lemma ShowInsert(table: string, cols: seq<string>, rows: seq<seq<Cell>>)
    requires RowsOk(rows)
    ensures Show(InsertTokens(table, cols, rows)) == InsertText(table, cols, RowTexts(rows))
  {
    ShowCols(cols);
    ShowRows(rows);
    ShowParts(Start("INSERT INTO "), Ident(table), Word(" ("), ColTokens(cols), Word(") VALUES\n"), RowsTokens(rows));
    InsertParts(SafeQuoteIdentifier(table), Join(QuotedCols(cols), ", "), Join(RowTexts(rows), ",\n"));
  }

  lemma InsertParts(q: string, c: string, v: string)
    ensures "INSERT INTO " + (q + (" (" + (c + (") VALUES\n" + v)))) == "INSERT INTO " + q + " (" + c + ") VALUES\n" + v
  {
  }

  lemma RowTextsSlices(rows: seq<seq<Cell>>, n: nat)
    requires n <= |rows|
    ensures |RowTexts(rows)| == |rows|
    ensures RowTexts(rows[..n]) == RowTexts(rows)[..n] && RowTexts(rows[n..]) == RowTexts(rows)[n..]
  {
    RowTextsAppend(rows[..n], rows[n..]);
    assert rows[..n] + rows[n..] == rows;
    RowTextsLength(rows[..n]);
    RowTextsLength(rows);
  }

  lemma {:induction false} RowTextsLength(rows: seq<seq<Cell>>)
    ensures |RowTexts(rows)| == |rows|
  {
    if rows != [] { RowTextsLength(rows[1..]); }
  }

  lemma {:induction false} RowTextsAppend(a: seq<seq<Cell>>, b: seq<seq<Cell>>)
    ensures RowTexts(a + b) == RowTexts(a) + RowTexts(b)
  {
    if a == [] {
      assert a + b == b;
    } else {
      assert (a + b)[1..] == a[1..] + b;
      RowTextsAppend(a[1..], b);
    }
  }

  lemma ShowStatement(ts: seq<Token>, blanks: string)
    ensures Show(ts + [Semi, Space(blanks)]) == Show(ts) + (";" + blanks)
  {
    ShowAppend(ts, [Semi, Space(blanks)]);
    assert [Semi, Space(blanks)] == [Semi] + [Space(blanks)];
    ShowCons(Semi, [Space(blanks)]);
    ShowOne(Space(blanks));
  }

  lemma ShowFullBatch(table: string, cols: seq<string>, batch: seq<seq<Cell>>, later: seq<Token>)
    requires RowsOk(batch)
    ensures Show((InsertTokens(table, cols, batch) + [Semi, Space("\n")]) + later) ==
            InsertText(table, cols, RowTexts(batch)) + ";\n" + Show(later)
  {
    var first := InsertTokens(table, cols, batch);
    ShowInsert(table, cols, batch);
    ShowStatement(first, "\n");
    ShowAppend(first + [Semi, Space("\n")], later);
  }

  lemma {:induction false} ShowBatches(table: string, cols: seq<string>, rows: seq<seq<Cell>>)
    requires RowsOk(rows)
    ensures Show(BatchesTokens(table, cols, rows)) == RowsText(table, cols, RowTexts(rows))
    decreases |rows|
  {
    RowTextsLength(rows);
    if |rows| >= BATCH {
      RowTextsSlices(rows, BATCH);
      ShowFullBatch(table, cols, rows[..BATCH], BatchesTokens(table, cols, rows[BATCH..]));
      ShowBatches(table, cols, rows[BATCH..]);
    } else if rows != [] {
      ShowInsert(table, cols, rows);
      ShowStatement(InsertTokens(table, cols, rows), "\n\n");
    }
  }

  lemma ShowStructure(t: Table)
    ensures Show(StructureTokens(t)) == StructureText(t)
  {
    if t.create.Some? {
      var q, c := SafeQuoteIdentifier(t.name), t.create.value;
      var l3 := [Create(c)] + [Semi, Space("\n\n")];
      ShowStatement([Create(c)], "\n\n");
      ShowOne(Create(c));
      var l2 := [Start("DROP TABLE IF EXISTS "), Ident(t.name)];
      ShowPair(Start("DROP TABLE IF EXISTS "), Ident(t.name), []);
      assert l2 + [] == l2;
      ShowStatement(l2, "\n");
      ShowAppend(l2 + [Semi, Space("\n")], l3);
      ShowCons(Note("-- Table structure for " + q), (l2 + [Semi, Space("\n")]) + l3);
      assert StructureTokens(t) == [Note("-- Table structure for " + q)] + ((l2 + [Semi, Space("\n")]) + l3);
      StructureParts(q, c);
    }
  }

  lemma StructureParts(q: string, c: string)
    ensures ("-- Table structure for " + q + "\n") +
            ((("DROP TABLE IF EXISTS " + (q + "")) + (";" + "\n")) + (c + (";" + "\n\n"))) ==
            "-- Table structure for " + q + "\n" + "DROP TABLE IF EXISTS " + q + ";\n" + c + ";\n\n"
  {
    assert ("DROP TABLE IF EXISTS " + (q + "")) + (";" + "\n") == "DROP TABLE IF EXISTS " + q + ";\n";
  }

  lemma ShowData(t: Table)
    requires TableOk(t)
    ensures Show(DataTokens(t)) == DataText(t)
  {
    if t.data.Some? {
      var q, rows := SafeQuoteIdentifier(t.name), Scanned(t.data.value.rows);
      ShowBatches(t.name, t.data.value.cols, rows);
      ShowCons(Note("-- Dumping data for table " + q), BatchesTokens(t.name, t.data.value.cols, rows));
    }
  }

  lemma ShowTable(t: Table, r: Request)
    requires TableOk(t)
    ensures Show(TableTokens(t, r)) == TableText(t, r)
  {
    ShowStructure(t);
    ShowData(t);
    ShowAppend(if r.includeStructure then StructureTokens(t) else [], if r.includeData then DataTokens(t) else []);
  }

  lemma {:induction false} ShowTables(ts: seq<Table>, r: Request)
    requires forall i :: 0 <= i < |ts| ==> TableOk(ts[i])
    ensures Show(TablesTokens(ts, r)) == TablesText(ts, r)
  {
    if ts != [] {
      ShowTable(ts[0], r);
      ShowTables(ts[1..], r);
      ShowAppend(TableTokens(ts[0], r), TablesTokens(ts[1..], r));
    }
  }

  lemma ShowHeader(r: Request)
    ensures Show(HeaderTokens(r)) == HeaderText(r)
  {
    ShowSettings();
    var t3 := [Space("\n")] + SettingTokens();
    var t2 := [Note("-- Generated at: " + r.stamp)] + t3;
    ShowCons(Space("\n"), SettingTokens());
    ShowCons(Note("-- Generated at: " + r.stamp), t3);
    ShowCons(Note("-- Database: `" + r.dbName + "`"), t2);
    ShowCons(Note("-- Hostvra Production Database Dump"), [Note("-- Database: `" + r.dbName + "`")] + t2);
    HeaderParts(r.dbName, r.stamp);
  }

  lemma ShowSettings()
    ensures Show(SettingTokens()) ==
            ("SET NAMES utf8mb4" + (";" + "\n")) + ("SET FOREIGN_KEY_CHECKS = 0" + (";" + "\n\n"))
  {
    ShowStatement([Start("SET NAMES utf8mb4")], "\n");
    ShowOne(Start("SET NAMES utf8mb4"));
    ShowStatement([Start("SET FOREIGN_KEY_CHECKS = 0")], "\n\n");
    ShowOne(Start("SET FOREIGN_KEY_CHECKS = 0"));
    ShowAppend([Start("SET NAMES utf8mb4")] + [Semi, Space("\n")],
               [Start("SET FOREIGN_KEY_CHECKS = 0")] + [Semi, Space("\n\n")]);
  }

  lemma HeaderParts(db: string, stamp: string)
    ensures ("-- Hostvra Production Database Dump" + "\n") + (("-- Database: `" + db + "`" + "\n") +
            (("-- Generated at: " + stamp + "\n") + ("\n" +
            (("SET NAMES utf8mb4" + (";" + "\n")) + ("SET FOREIGN_KEY_CHECKS = 0" + (";" + "\n\n")))))) ==
            "-- Hostvra Production Database Dump\n" + ("-- Database: `" + db + "`\n") +
            ("-- Generated at: " + stamp + "\n\n") + "SET NAMES utf8mb4;\nSET FOREIGN_KEY_CHECKS = 0;\n\n"
  {
    FirstLine();
    SettingLines();
    Lines("-- Hostvra Production Database Dump\n", "-- Database: `" + db + "`\n", "-- Generated at: " + stamp + "\n",
          "SET NAMES utf8mb4;\nSET FOREIGN_KEY_CHECKS = 0;\n\n");
  }

  lemma FirstLine()
    ensures "-- Hostvra Production Database Dump" + "\n" == "-- Hostvra Production Database Dump\n"
  {
  }

  lemma SettingLines()
    ensures ("SET NAMES utf8mb4" + (";" + "\n")) + ("SET FOREIGN_KEY_CHECKS = 0" + (";" + "\n\n")) ==
            "SET NAMES utf8mb4;\nSET FOREIGN_KEY_CHECKS = 0;\n\n"
  {
  }

  lemma Lines(a: string, b: string, c: string, d: string)
    ensures a + (b + (c + ("\n" + d))) == a + b + (c + "\n") + d
  {
  }

  /** The printed dump is its units, shown one after the other. */
  lemma ShowDump(r: Request)
    requires TablesOk(r.tables)
    ensures Show(DumpTokens(r)) == DumpText(r)
  {
    ShowHeader(r);
    ShowTables(r.tables, r);
    ShowOne(Start("SET FOREIGN_KEY_CHECKS = 1"));
    ShowStatement([Start("SET FOREIGN_KEY_CHECKS = 1")], "\n");
    assert FooterTokens() == [Start("SET FOREIGN_KEY_CHECKS = 1")] + [Semi, Space("\n")];
    assert "SET FOREIGN_KEY_CHECKS = 1" + (";" + "\n") == "SET FOREIGN_KEY_CHECKS = 1;\n";
    ShowAppend(TablesTokens(r.tables, r), FooterTokens());
    ShowAppend(HeaderTokens(r), TablesTokens(r.tables, r) + FooterTokens());
    Assoc(HeaderText(r), TablesText(r.tables, r), "SET FOREIGN_KEY_CHECKS = 1;\n");
  }
}
