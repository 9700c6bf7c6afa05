/**
 Export followed by import: splitting a printed dump yields exactly the printed
 statements, in order.
 */
module SqlRoundTrip {
  import opened Text
  import opened SqlScanner
  import opened SqlTokens
  import opened SqlExport
  import opened SqlDumpUnits

  // ----- The statements a dump is meant to hold -----

  /** Rows in batches of at most 100. */
  function Batches(rows: seq<seq<Cell>>): seq<seq<seq<Cell>>> {
    if |rows| >= BATCH then [rows[..BATCH]] + Batches(rows[BATCH..])
    else if rows == [] then []
    else [rows]
  }

  function Inserts(table: string, cols: seq<string>, batches: seq<seq<seq<Cell>>>): seq<string> {
    if batches == [] then []
    else [InsertText(table, cols, RowTexts(batches[0]))] + Inserts(table, cols, batches[1..])
  }

  function NonEmpty(text: string): seq<string> {
    if text == "" then [] else [text]
  }

  function StructureStatements(t: Table): seq<string> {
    if t.create.Some? then ["DROP TABLE IF EXISTS " + SafeQuoteIdentifier(t.name)] + NonEmpty(Trim(t.create.value))
    else []
  }

  function DataStatements(t: Table): seq<string> {
    if t.data.Some? then Inserts(t.name, t.data.value.cols, Batches(Scanned(t.data.value.rows))) else []
  }

  function TableStatements(t: Table, r: Request): seq<string> {
    (if r.includeStructure then StructureStatements(t) else []) + (if r.includeData then DataStatements(t) else [])
  }

  function TablesStatements(ts: seq<Table>, r: Request): seq<string> {
    if ts == [] then [] else TableStatements(ts[0], r) + TablesStatements(ts[1..], r)
  }

  function HeaderStatements(): seq<string> {
    ["SET NAMES utf8mb4", "SET FOREIGN_KEY_CHECKS = 0"]
  }

  function DumpStatements(r: Request): seq<string> {
    HeaderStatements() + TablesStatements(r.tables, r) + ["SET FOREIGN_KEY_CHECKS = 1"]
  }

  /** The statements the splitter cut, blank ones aside. */
  function SplitTexts(hits: seq<Hit>): seq<string> {
    if hits == [] then [] else NonEmpty(QueryText(hits[0])) + SplitTexts(hits[1..])
  }

  // ----- The units never run into each other -----

  /** Whether a statement is under way after the units. */
  function BusyAfter(busy: bool, ts: seq<Token>): bool
    decreases |ts|
  {
    if ts == [] then busy
    else
      BusyAfter(match ts[0]
                case Note(_) => busy
                case Space(_) => busy
                case Create(text) => !Blank(text)
                case Semi => false
                case _ => true, ts[1..])
  }

  lemma {:induction false} LexAppend(busy: bool, a: seq<Token>, b: seq<Token>)
    requires LexOk(busy, a) && LexOk(BusyAfter(busy, a), b)
    ensures LexOk(busy, a + b) && BusyAfter(busy, a + b) == BusyAfter(BusyAfter(busy, a), b)
    decreases |a|
  {
    if a == [] {
      assert a + b == b;
    } else {
      var all, tail := a + b, a[1..];
      assert all[0] == a[0] && all[1..] == tail + b;
      ShowAppend(tail, b);
      match a[0] {
        case Note(_) => LexAppend(busy, tail, b);
        case Space(_) => LexAppend(busy, tail, b);
        case Create(text) => LexAppend(!Blank(text), tail, b);
        case Semi => LexAppend(false, tail, b);
        case _ => LexAppend(true, tail, b);
      }
    }
  }

  /** Lists of units that begin no statement of their own and leave the scanner inside one. */
  predicate Inside(ts: seq<Token>) {
    LexOk(true, ts) && BusyAfter(true, ts)
  }

  lemma InsideAppend(a: seq<Token>, b: seq<Token>)
    requires Inside(a) && Inside(b)
    ensures Inside(a + b)
  {
    LexAppend(true, a, b);
  }

  lemma InsideWord(text: string)
    requires Calm(text)
    ensures Inside([Word(text)])
  {
    assert [Word(text)][1..] == [];
  }

  lemma {:induction false} InsideCols(cols: seq<string>)
    ensures Inside(ColTokens(cols))
  {
    if |cols| == 1 {
      assert ColTokens(cols)[1..] == [];
    } else if |cols| > 1 {
      InsideCols(cols[1..]);
      var two := [Ident(cols[0]), Word(", ")];
      assert two[1..] == [Word(", ")];
      InsideWord(", ");
      InsideAppend(two, ColTokens(cols[1..]));
    }
  }

  /** A cell followed by unquoted text that opens no quote. */
  lemma InsideCell(c: Cell, word: string)
    requires CellOk(c) && Calm(word) && word != ""
    ensures Inside([CellToken(c), Word(word)])
  {
    var two := [CellToken(c), Word(word)];
    assert two[1..] == [Word(word)];
    InsideWord(word);
    ShowOne(Word(word));
    assert CalmAt(word, 0);
  }

  lemma {:induction false} InsideCells(row: seq<Cell>)
    requires RowOk(row)
    ensures Inside(CellTokens(row) + [Word(")")])
  {
    if row == [] {
      assert CellTokens(row) + [Word(")")] == [Word(")")];
      InsideWord(")");
    } else if |row| == 1 {
      InsideCell(row[0], ")");
      assert CellTokens(row) + [Word(")")] == [CellToken(row[0]), Word(")")];
    } else {
      InsideCell(row[0], ", ");
      InsideCells(row[1..]);
      InsideAppend([CellToken(row[0]), Word(", ")], CellTokens(row[1..]) + [Word(")")]);
      assert CellTokens(row) + [Word(")")] == [CellToken(row[0]), Word(", ")] + (CellTokens(row[1..]) + [Word(")")]);
    }
  }

  lemma InsideRow(row: seq<Cell>)
    requires RowOk(row)
    ensures Inside(RowTokens(row))
  {
    InsideWord("(");
    InsideCells(row);
    InsideAppend([Word("(")], CellTokens(row) + [Word(")")]);
  }

  lemma {:induction false} InsideRows(rows: seq<seq<Cell>>)
    requires RowsOk(rows)
    ensures Inside(RowsTokens(rows))
  {
    if rows != [] {
      InsideRow(rows[0]);
    }
    if |rows| > 1 {
      InsideRows(rows[1..]);
      InsideWord(",\n");
      InsideAppend([Word(",\n")], RowsTokens(rows[1..]));
      InsideAppend(RowTokens(rows[0]), [Word(",\n")] + RowsTokens(rows[1..]));
    }
  }

  lemma LexStart(text: string, ts: seq<Token>)
    requires Calm(text) && NotKeyword(text) && LexOk(true, ts)
    ensures LexOk(false, [Start(text)] + ts) && BusyAfter(false, [Start(text)] + ts) == BusyAfter(true, ts)
  {
    assert ([Start(text)] + ts)[1..] == ts;
  }

  lemma LexInsert(table: string, cols: seq<string>, rows: seq<seq<Cell>>)
    requires RowsOk(rows)
    ensures LexOk(false, InsertTokens(table, cols, rows))
  {
    InsideCols(cols);
    InsideRows(rows);
    InsideWord(") VALUES\n");
    InsideAppend([Word(") VALUES\n")], RowsTokens(rows));
    var more := ColTokens(cols) + ([Word(") VALUES\n")] + RowsTokens(rows));
    InsideAppend(ColTokens(cols), [Word(") VALUES\n")] + RowsTokens(rows));
    var two := [Ident(table), Word(" (")];
    assert two[1..] == [Word(" (")];
    InsideWord(" (");
    InsideAppend(two, more);
    KeywordsAreCalm();
    LexStart("INSERT INTO ", two + more);
    assert InsertTokens(table, cols, rows) == [Start("INSERT INTO ")] + (two + more);
  }

  // ----- What the splitter cuts from the units -----

  /** Between statements: nothing but blanks in the buffer. */
  predicate Idle(s: Scan) {
    s.mode.Plain? && s.delim == ";" && Blank(s.stmt)
  }

  /** From an idle scanner the units yield these statements and leave it idle. */
  predicate Emits(s: Scan, ts: seq<Token>, statements: seq<string>) {
    var t := Feed(s, ts);
    LexOk(false, ts) && !BusyAfter(false, ts) && Idle(t.last) && SplitTexts(t.hits) == statements
  }

  lemma {:induction false} FeedAppend(s: Scan, a: seq<Token>, b: seq<Token>)
    ensures var t, u := Feed(s, a), Feed(Feed(s, a).last, b);
            Feed(s, a + b) == Trace(t.hits + u.hits, u.last)
    decreases |a|
  {
    if a == [] {
      assert a + b == b;
    } else {
      assert (a + b)[0] == a[0] && (a + b)[1..] == a[1..] + b;
      if a[0].Note? {
        FeedAppend(s, a[1..], b);
      } else if a[0].Semi? {
        FeedAppend(s.(stmt := ""), a[1..], b);
      } else {
        FeedAppend(Fed(s, TextOf(a[0])), a[1..], b);
      }
    }
  }

  lemma {:induction false} SplitAppend(a: seq<Hit>, b: seq<Hit>)
    ensures SplitTexts(a + b) == SplitTexts(a) + SplitTexts(b)
  {
    if a == [] {
      assert a + b == b;
    } else {
      assert (a + b)[1..] == a[1..] + b;
      SplitAppend(a[1..], b);
    }
  }

  lemma EmitsAppend(s: Scan, a: seq<Token>, x: seq<string>, b: seq<Token>, y: seq<string>)
    requires Emits(s, a, x) && Emits(Feed(s, a).last, b, y)
    ensures Emits(s, a + b, x + y)
  {
    FeedAppend(s, a, b);
    LexAppend(false, a, b);
    SplitAppend(Feed(s, a).hits, Feed(Feed(s, a).last, b).hits);
  }

  lemma EmitsNothing(s: Scan)
    requires Idle(s)
    ensures Emits(s, [], [])
  {
  }

  /** A comment line: two dashes and no line break. */
  predicate NoteLine(line: string) {
    Peeks(line, 0, '-') && Peeks(line, 1, '-') && '\n' !in line
  }

  lemma EmitsNote(s: Scan, line: string, ts: seq<Token>, x: seq<string>)
    requires NoteLine(line) && Emits(s, ts, x)
    ensures Emits(s, [Note(line)] + ts, x)
  {
    assert ([Note(line)] + ts)[1..] == ts;
  }

  /** Units without comments or delimiters only fill the buffer. */
  predicate Filling(ts: seq<Token>) {
    forall i :: 0 <= i < |ts| ==> !ts[i].Note? && !ts[i].Semi?
  }

  lemma {:induction false} FeedFilling(s: Scan, ts: seq<Token>)
    requires Filling(ts)
    ensures Feed(s, ts) == Trace([], Fed(s, Show(ts)))
    decreases |ts|
  {
    if ts == [] {
      assert s.stmt + "" == s.stmt;
    } else {
      FeedFilling(Fed(s, TextOf(ts[0])), ts[1..]);
      FedTwice(s, TextOf(ts[0]), Show(ts[1..]));
    }
  }

  lemma FeedEnd(s: Scan, blanks: string)
    ensures Feed(s, [Semi, Space(blanks)]) == Trace([Hit(s.stmt, ";")], s.(stmt := blanks))
  {
    var e := s.(stmt := "");
    assert [Space(blanks)][1..] == [] && "" + blanks == blanks;
    assert Feed(e, [Space(blanks)]) == Trace([], s.(stmt := blanks));
    assert [Semi, Space(blanks)][1..] == [Space(blanks)];
  }

  lemma LexEnd(busy: bool, blanks: string)
    requires Blank(blanks)
    ensures LexOk(busy, [Semi, Space(blanks)]) && !BusyAfter(busy, [Semi, Space(blanks)])
  {
    assert [Space(blanks)][1..] == [];
    assert LexOk(false, [Space(blanks)]);
    assert BusyAfter(false, [Space(blanks)]) == BusyAfter(false, []);
    assert [Semi, Space(blanks)][1..] == [Space(blanks)];
  }

  /** One statement, its delimiter and the blanks after it. */
  lemma EmitsStatement(s: Scan, ts: seq<Token>, blanks: string)
    requires Idle(s) && LexOk(false, ts) && Filling(ts) && Blank(blanks)
    ensures Emits(s, ts + [Semi, Space(blanks)], NonEmpty(Trim(Show(ts))))
  {
    var end, hit := [Semi, Space(blanks)], Hit(s.stmt + Show(ts), ";");
    FeedAppend(s, ts, end);
    FeedFilling(s, ts);
    FeedEnd(Fed(s, Show(ts)), blanks);
    assert [] + [hit] == [hit];
    OneSplit(hit);
    TrimAbsorbs(s.stmt, Show(ts), "");
    assert s.stmt + Show(ts) + "" == hit.body;
    LexEnd(BusyAfter(false, ts), blanks);
    LexAppend(false, ts, end);
  }

  lemma OneSplit(hit: Hit)
    ensures SplitTexts([hit]) == NonEmpty(Trim(hit.body))
  {
    assert [hit][1..] == [];
    assert NonEmpty(Trim(hit.body)) + [] == NonEmpty(Trim(hit.body));
  }

  // ----- Each part of the dump emits its statements -----

  lemma {:induction false} FillingCols(cols: seq<string>)
    ensures Filling(ColTokens(cols))
  {
    if |cols| > 1 { FillingCols(cols[1..]); }
  }

  lemma {:induction false} FillingCells(row: seq<Cell>)
    ensures Filling(CellTokens(row))
  {
    if |row| > 1 { FillingCells(row[1..]); }
  }

  lemma {:induction false} FillingRows(rows: seq<seq<Cell>>)
    ensures Filling(RowsTokens(rows))
  {
    if rows != [] { FillingCells(rows[0]); }
    if |rows| > 1 { FillingRows(rows[1..]); }
  }

  lemma FillingInsert(table: string, cols: seq<string>, rows: seq<seq<Cell>>)
    ensures Filling(InsertTokens(table, cols, rows))
  {
    FillingCols(cols);
    FillingRows(rows);
  }

  /** A printed INSERT has no white space at its ends. */
  lemma TightInsert(table: string, cols: seq<string>, rows: seq<seq<Cell>>)
    requires rows != []
    ensures Trim(InsertText(table, cols, RowTexts(rows))) == InsertText(table, cols, RowTexts(rows))
    ensures InsertText(table, cols, RowTexts(rows)) != ""
  {
    var text, body := InsertText(table, cols, RowTexts(rows)), Join(RowTexts(rows), ",\n");
    RowTextsLength(rows);
    JoinEnds(rows);
    assert text[0] == 'I' && text[|text| - 1] == body[|body| - 1];
    TrimPadded("", text, "");
    assert "" + text + "" == text;
  }

  lemma RowEnds(row: seq<Cell>)
    ensures RowText(row) != "" && RowText(row)[|RowText(row)| - 1] == ')'
  {
  }

  lemma {:induction false} JoinEnds(rows: seq<seq<Cell>>)
    requires rows != []
    ensures var body := Join(RowTexts(rows), ",\n"); body != "" && body[|body| - 1] == ')'
  {
    RowTextsLength(rows);
    RowEnds(rows[0]);
    if |rows| > 1 {
      JoinEnds(rows[1..]);
      LaterEnds(RowText(rows[0]), ",\n", RowTexts(rows[1..]));
    }
  }

  lemma LaterEnds(a: string, sep: string, later: seq<string>)
    requires later != [] && Join(later, sep) != ""
    ensures var body, tail := Join([a] + later, sep), Join(later, sep); body != "" && body[|body| - 1] == tail[|tail| - 1]
  {
    assert ([a] + later)[1..] == later;
  }

  lemma EmitsInsert(s: Scan, table: string, cols: seq<string>, rows: seq<seq<Cell>>, blanks: string)
    requires Idle(s) && RowsOk(rows) && rows != [] && Blank(blanks)
    ensures Emits(s, InsertTokens(table, cols, rows) + [Semi, Space(blanks)], [InsertText(table, cols, RowTexts(rows))])
  {
    LexInsert(table, cols, rows);
    FillingInsert(table, cols, rows);
    ShowInsert(table, cols, rows);
    TightInsert(table, cols, rows);
    EmitsStatement(s, InsertTokens(table, cols, rows), blanks);
  }

  lemma {:induction false} EmitsBatches(s: Scan, table: string, cols: seq<string>, rows: seq<seq<Cell>>)
    requires Idle(s) && RowsOk(rows)
    ensures Emits(s, BatchesTokens(table, cols, rows), Inserts(table, cols, Batches(rows)))
    decreases |rows|
  {
    if |rows| >= BATCH {
      var first := InsertTokens(table, cols, rows[..BATCH]) + [Semi, Space("\n")];
      EmitsInsert(s, table, cols, rows[..BATCH], "\n");
      EmitsBatches(Feed(s, first).last, table, cols, rows[BATCH..]);
      var x, y := [InsertText(table, cols, RowTexts(rows[..BATCH]))], Inserts(table, cols, Batches(rows[BATCH..]));
      EmitsAppend(s, first, x, BatchesTokens(table, cols, rows[BATCH..]), y);
      assert Batches(rows)[1..] == Batches(rows[BATCH..]);
    } else if rows == [] {
      EmitsNothing(s);
    } else {
      EmitsInsert(s, table, cols, rows, "\n\n");
      assert Batches(rows)[1..] == [];
    }
  }

  /** A quoted name on a comment line keeps the line in one piece. */
  lemma {:induction false} DoubledName(name: string)
    requires '\n' !in name
    ensures '\n' !in ReplaceAll(name, "`", "``")
  {
    if name != [] {
      ReplaceByteHead(name, '`', "``");
      DoubledName(name[1..]);
    }
  }

  lemma NamedLine(lead: string, name: string)
    requires NoteLine(lead) && '\n' !in name
    ensures NoteLine(lead + SafeQuoteIdentifier(name)) && NoteLine(lead + name)
  {
    DoubledName(name);
  }

  lemma StructureLine(name: string)
    requires '\n' !in name
    ensures NoteLine("-- Table structure for " + SafeQuoteIdentifier(name))
  {
    NamedLine("-- Table structure for ", name);
  }

  lemma DataLine(name: string)
    requires '\n' !in name
    ensures NoteLine("-- Dumping data for table " + SafeQuoteIdentifier(name))
  {
    NamedLine("-- Dumping data for table ", name);
  }

  lemma HeaderNotes(db: string, stamp: string)
    requires '\n' !in db && '\n' !in stamp
    ensures NoteLine("-- Hostvra Production Database Dump")
    ensures NoteLine("-- Database: `" + db + "`") && NoteLine("-- Generated at: " + stamp)
  {
    NamedLine("-- Database: `", db);
    NamedLine("-- Generated at: ", stamp);
  }

  lemma KeywordsAreCalm()
    ensures Calm("INSERT INTO ") && Calm("DROP TABLE IF EXISTS ")
  {
  }

  lemma SettingsAreCalm()
    ensures Calm("SET NAMES utf8mb4") && Calm("SET FOREIGN_KEY_CHECKS = 0") && Calm("SET FOREIGN_KEY_CHECKS = 1")
  {
  }

  lemma TightDrop(name: string)
    ensures var text := "DROP TABLE IF EXISTS " + SafeQuoteIdentifier(name); Trim(text) == text && text != ""
  {
    var text := "DROP TABLE IF EXISTS " + SafeQuoteIdentifier(name);
    assert text[0] == 'D' && text[|text| - 1] == '`';
    TrimPadded("", text, "");
    assert "" + text + "" == text;
  }

  lemma EmitsDrop(s: Scan, name: string)
    requires Idle(s)
    ensures Emits(s, [Start("DROP TABLE IF EXISTS "), Ident(name)] + [Semi, Space("\n")],
                  ["DROP TABLE IF EXISTS " + SafeQuoteIdentifier(name)])
  {
    var ts := [Start("DROP TABLE IF EXISTS "), Ident(name)];
    assert [Ident(name)][1..] == [];
    KeywordsAreCalm();
    LexStart("DROP TABLE IF EXISTS ", [Ident(name)]);
    assert ts == [Start("DROP TABLE IF EXISTS ")] + [Ident(name)];
    ShowCons(Start("DROP TABLE IF EXISTS "), [Ident(name)]);
    ShowOne(Ident(name));
    TightDrop(name);
    EmitsStatement(s, ts, "\n");
  }

  lemma EmitsCreate(s: Scan, text: string, blanks: string)
    requires Idle(s) && Closed(START, text) && Blank(blanks)
    ensures Emits(s, [Create(text)] + [Semi, Space(blanks)], NonEmpty(Trim(text)))
  {
    var ts, end := [Create(text)], [Semi, Space(blanks)];
    assert (ts + end)[1..] == end && ts[1..] == [];
    ShowCons(Semi, [Space(blanks)]);
    assert end == [Semi] + [Space(blanks)];
    LexEnd(!Blank(text), blanks);
    FeedAppend(s, ts, end);
    FeedFilling(s, ts);
    ShowOne(Create(text));
    FeedEnd(Fed(s, text), blanks);
    var hit := Hit(s.stmt + text, ";");
    assert [] + [hit] == [hit];
    OneSplit(hit);
    TrimAbsorbs(s.stmt, text, "");
    assert s.stmt + text + "" == hit.body;
  }

  lemma EmitsStructure(s: Scan, t: Table)
    requires Idle(s) && TableOk(t)
    ensures Emits(s, StructureTokens(t), StructureStatements(t))
  {
    if t.create.Some? {
      EmitsDropCreate(s, t.name, t.create.value);
      StructureLine(t.name);
      var line := "-- Table structure for " + SafeQuoteIdentifier(t.name);
      EmitsNote(s, line, DropCreateTokens(t.name, t.create.value), StructureStatements(t));
      assert StructureTokens(t) == [Note(line)] + DropCreateTokens(t.name, t.create.value);
    } else {
      EmitsNothing(s);
    }
  }

  function DropCreateTokens(name: string, create: string): seq<Token> {
    ([Start("DROP TABLE IF EXISTS "), Ident(name)] + [Semi, Space("\n")]) + ([Create(create)] + [Semi, Space("\n\n")])
  }

  lemma EmitsDropCreate(s: Scan, name: string, create: string)
    requires Idle(s) && Closed(START, create)
    ensures Emits(s, DropCreateTokens(name, create),
                  ["DROP TABLE IF EXISTS " + SafeQuoteIdentifier(name)] + NonEmpty(Trim(create)))
  {
    var a, b := [Start("DROP TABLE IF EXISTS "), Ident(name)] + [Semi, Space("\n")], [Create(create)] + [Semi, Space("\n\n")];
    EmitsDrop(s, name);
    EmitsCreate(Feed(s, a).last, create, "\n\n");
    EmitsAppend(s, a, ["DROP TABLE IF EXISTS " + SafeQuoteIdentifier(name)], b, NonEmpty(Trim(create)));
  }

  lemma EmitsData(s: Scan, t: Table)
    requires Idle(s) && TableOk(t)
    ensures Emits(s, DataTokens(t), DataStatements(t))
  {
    if t.data.Some? {
      EmitsBatches(s, t.name, t.data.value.cols, Scanned(t.data.value.rows));
      DataLine(t.name);
      EmitsNote(s, "-- Dumping data for table " + SafeQuoteIdentifier(t.name),
                BatchesTokens(t.name, t.data.value.cols, Scanned(t.data.value.rows)), DataStatements(t));
    } else {
      EmitsNothing(s);
    }
  }

  lemma EmitsTable(s: Scan, t: Table, r: Request)
    requires Idle(s) && TableOk(t)
    ensures Emits(s, TableTokens(t, r), TableStatements(t, r))
  {
    EmitsNothing(s);
    var a, x := if r.includeStructure then StructureTokens(t) else [], if r.includeStructure then StructureStatements(t) else [];
    if r.includeStructure { EmitsStructure(s, t); }
    var s' := Feed(s, a).last;
    EmitsNothing(s');
    if r.includeData { EmitsData(s', t); }
    EmitsAppend(s, a, x, if r.includeData then DataTokens(t) else [], if r.includeData then DataStatements(t) else []);
  }

  lemma {:induction false} EmitsTables(s: Scan, ts: seq<Table>, r: Request)
    requires Idle(s) && forall i :: 0 <= i < |ts| ==> TableOk(ts[i])
    ensures Emits(s, TablesTokens(ts, r), TablesStatements(ts, r))
    decreases |ts|
  {
    if ts == [] {
      EmitsNothing(s);
    } else {
      EmitsTable(s, ts[0], r);
      EmitsTables(Feed(s, TableTokens(ts[0], r)).last, ts[1..], r);
      EmitsAppend(s, TableTokens(ts[0], r), TableStatements(ts[0], r), TablesTokens(ts[1..], r), TablesStatements(ts[1..], r));
    }
  }

  lemma EmitsSetting(s: Scan, text: string, blanks: string)
    requires Idle(s) && Calm(text) && NotKeyword(text) && Tight(text) && Blank(blanks)
    ensures Emits(s, [Start(text)] + [Semi, Space(blanks)], [text])
  {
    ShowOne(Start(text));
    TrimPadded("", text, "");
    assert "" + text + "" == text;
    assert [Start(text)][1..] == [];
    EmitsStatement(s, [Start(text)], blanks);
  }

  lemma EmitsSettings(s: Scan)
    requires Idle(s)
    ensures Emits(s, SettingTokens(), HeaderStatements())
  {
    var names := [Start("SET NAMES utf8mb4")] + [Semi, Space("\n")];
    var checks := [Start("SET FOREIGN_KEY_CHECKS = 0")] + [Semi, Space("\n\n")];
    SettingsAreCalm();
    EmitsSetting(s, "SET NAMES utf8mb4", "\n");
    EmitsSetting(Feed(s, names).last, "SET FOREIGN_KEY_CHECKS = 0", "\n\n");
    EmitsAppend(s, names, ["SET NAMES utf8mb4"], checks, ["SET FOREIGN_KEY_CHECKS = 0"]);
    assert ["SET NAMES utf8mb4"] + ["SET FOREIGN_KEY_CHECKS = 0"] == HeaderStatements();
  }

  lemma EmitsSpace(s: Scan, blanks: string, ts: seq<Token>, x: seq<string>)
    requires Blank(blanks) && Emits(Fed(s, blanks), ts, x)
    ensures Emits(s, [Space(blanks)] + ts, x)
  {
    assert ([Space(blanks)] + ts)[1..] == ts;
  }

  lemma EmitsStamp(s: Scan, r: Request)
    requires Idle(s) && '\n' !in r.stamp
    ensures Emits(s, StampTokens(r), HeaderStatements())
  {
    BlankConcat(s.stmt, "\n");
    EmitsSettings(Fed(s, "\n"));
    EmitsSpace(s, "\n", SettingTokens(), HeaderStatements());
    HeaderNotes("", r.stamp);
    EmitsNote(s, "-- Generated at: " + r.stamp, [Space("\n")] + SettingTokens(), HeaderStatements());
  }

  lemma EmitsHeader(s: Scan, r: Request)
    requires Idle(s) && RequestOk(r)
    ensures Emits(s, HeaderTokens(r), HeaderStatements())
  {
    EmitsStamp(s, r);
    var l1, l2 := "-- Hostvra Production Database Dump", "-- Database: `" + r.dbName + "`";
    HeaderNotes(r.dbName, r.stamp);
    EmitsNote(s, l2, StampTokens(r), HeaderStatements());
    EmitsNote(s, l1, [Note(l2)] + StampTokens(r), HeaderStatements());
  }

  lemma EmitsThree(s: Scan, a: seq<Token>, x: seq<string>, b: seq<Token>, y: seq<string>, c: seq<Token>, z: seq<string>)
    requires Emits(s, a, x) && Emits(Feed(s, a).last, b, y) && Emits(Feed(Feed(s, a).last, b).last, c, z)
    ensures Emits(s, a + (b + c), x + y + z)
  {
    EmitsAppend(Feed(s, a).last, b, y, c, z);
    EmitsAppend(s, a, x, b + c, y + z);
    AssocOf(x, y, z);
  }

  lemma EmitsDumpFrom(s: Scan, r: Request)
    requires RequestOk(r) && Idle(s)
    ensures Emits(s, DumpTokens(r), DumpStatements(r))
  {
    EmitsHeader(s, r);
    var s1 := Feed(s, HeaderTokens(r)).last;
    EmitsTables(s1, r.tables, r);
    var s2 := Feed(s1, TablesTokens(r.tables, r)).last;
    SettingsAreCalm();
    EmitsSetting(s2, "SET FOREIGN_KEY_CHECKS = 1", "\n");
    assert FooterTokens() == [Start("SET FOREIGN_KEY_CHECKS = 1")] + [Semi, Space("\n")];
    EmitsThree(s, HeaderTokens(r), HeaderStatements(), TablesTokens(r.tables, r), TablesStatements(r.tables, r),
               FooterTokens(), ["SET FOREIGN_KEY_CHECKS = 1"]);
  }

  /**
   The round trip: splitting the text the exporter prints cuts exactly the printed
   statements, in order, and leaves nothing but blanks.
   */
  lemma DumpSplitsIntoItsStatements(r: Request)
    requires RequestOk(r)
    ensures var t := Run(START, DumpText(r));
            SplitTexts(t.hits) == DumpStatements(r) && Blank(t.last.stmt)
  {
    ShowDump(r);
    EmitsDumpFrom(START, r);
    TokenRun(START, DumpTokens(r));
  }

  /** The batches are the rows, in order, at most 100 at a time, and all but the last are full. */
  lemma {:induction false} BatchesHoldTheRows(rows: seq<seq<Cell>>)
    ensures Flatten(Batches(rows)) == rows
    ensures forall i :: 0 <= i < |Batches(rows)| ==> 1 <= |Batches(rows)[i]| <= BATCH
    ensures forall i :: 0 <= i < |Batches(rows)| - 1 ==> |Batches(rows)[i]| == BATCH
  {
    if |rows| >= BATCH {
      var later := Batches(rows[BATCH..]);
      BatchesHoldTheRows(rows[BATCH..]);
      assert Batches(rows)[1..] == later;
      assert rows[..BATCH] + rows[BATCH..] == rows;
      forall i | 0 <= i < |Batches(rows)|
        ensures 1 <= |Batches(rows)[i]| <= BATCH && (i < |Batches(rows)| - 1 ==> |Batches(rows)[i]| == BATCH)
      {
        if i > 0 { assert Batches(rows)[i] == later[i - 1]; }
      }
    } else if rows != [] {
      assert Batches(rows)[1..] == [] && rows + [] == rows;
    }
  }

  function Flatten(batches: seq<seq<seq<Cell>>>): seq<seq<Cell>> {
    if batches == [] then [] else batches[0] + Flatten(batches[1..])
  }
}
