/**
 Export, rewrite, import: which requests print dumps that the rewriter leaves alone.
 */
module SqlPipeline {
  import opened Text
  import opened SqlScanner
  import opened SqlTokens
  import opened SqlExport
  import opened SqlDumpUnits
  import opened SqlRoundTrip
  import opened SqlSanitizer
  import opened SqlClosure
  import opened SqlImport

  // ----- Lines the rewriter copies -----

  /** A line that starts like none it looks for, ends in no carriage return and fits the buffer. */
  predicate Copied(l: string, size: nat) {
    && '\n' !in l && l != "" && |l| < size
    && !IsSpace(l[0]) && l[0] != '/' && UpperChar(l[0]) != 'C' && UpperChar(l[0]) != 'U'
    && l[|l| - 1] != '\r'
  }

  lemma LineCopied(l: string, size: nat)
    requires Copied(l, size)
    ensures Untouched(l + "\n", size)
  {
    var text := l + "\n";
    FirstBreak(l, "");
    assert text + "" == text && text[..|l|] == l && text[|l| + 1..] == "";
    HeadOfLine(l);
  }

  lemma BlankCopied(size: nat)
    requires size > 0
    ensures Untouched("\n", size)
  {
    NothingOrdinary();
    var text := "\n";
    assert text[..0] == "" && text[1..] == "";
  }

  lemma LineThen(l: string, rest: string, size: nat)
    requires '\n' !in l && |l| < size && DropReturn(l) == l && Classify(Trim(l)) == Ordinary && Untouched(rest, size)
    ensures Untouched(l + "\n" + rest, size)
  {
    var text := l + "\n" + rest;
    FirstBreak(l, rest);
    assert text[..|l|] == l && text[|l| + 1..] == rest;
  }

  lemma FirstUntouched(a: string, size: nat) returns (k: nat)
    requires a != "" && Untouched(a, size)
    ensures k < |a| && k < size && a[k] == '\n' && '\n' !in a[..k] && DropReturn(a[..k]) == a[..k]
    ensures Classify(Trim(a[..k])) == Ordinary && Untouched(a[k + 1..], size)
  {
    k := NewlineAt(a);
  }

  lemma LineBefore(a: string, k: nat, b: string)
    requires k < |a| && a[k] == '\n'
    ensures a + b == a[..k] + "\n" + (a[k + 1..] + b)
  {
    LineApart(a, k);
  }

  /** Texts of copied lines, one after the other. */
  lemma {:induction false} UntouchedAppend(a: string, b: string, size: nat)
    requires Untouched(a, size) && Untouched(b, size)
    ensures Untouched(a + b, size)
    decreases |a|
  {
    if a == "" {
      assert a + b == b;
    } else {
      var k := FirstUntouched(a, size);
      UntouchedAppend(a[k + 1..], b, size);
      LineThen(a[..k], a[k + 1..] + b, size);
      LineBefore(a, k, b);
    }
  }

  lemma ThreeUntouched(a: string, b: string, c: string, size: nat)
    requires Untouched(a, size) && Untouched(b, size) && Untouched(c, size)
    ensures Untouched(a + b + c, size)
  {
    UntouchedAppend(a, b, size);
    UntouchedAppend(a + b, c, size);
  }

  // ----- Requests -----

  /** A cell printed without line break; text is escaped, so only values in their default format can hold one. */
  predicate CellInLine(c: Cell) {
    c.Other? ==> '\n' !in c.text
  }

  predicate RowFits(row: seq<Cell>, size: nat) {
    && (forall i :: 0 <= i < |row| ==> CellInLine(row[i]))
    && |RowText(row)| + 1 < size
  }

  predicate RowsFit(rows: seq<seq<Cell>>, size: nat) {
    forall i :: 0 <= i < |rows| ==> RowFits(rows[i], size)
  }

  predicate ColsFit(cols: seq<string>) {
    forall i :: 0 <= i < |cols| ==> '\n' !in cols[i]
  }

  function InsertHead(table: string, cols: seq<string>): string {
    "INSERT INTO " + SafeQuoteIdentifier(table) + " (" + Join(QuotedCols(cols), ", ") + ") VALUES"
  }

  /** The server's create text is made of lines the rewriter copies; names, columns and rows keep to short lines. */
  predicate TableFits(t: Table, size: nat) {
    && |"-- Dumping data for table " + SafeQuoteIdentifier(t.name)| < size
    && (t.create.Some? ==> Untouched(t.create.value + ";\n", size))
    && (t.data.Some? ==>
          (ColsFit(t.data.value.cols) && |InsertHead(t.name, t.data.value.cols)| < size &&
           RowsFit(Scanned(t.data.value.rows), size)))
  }

  predicate RequestFits(r: Request, size: nat) {
    && |"-- Hostvra Production Database Dump"| < size
    && |"-- Database: `" + r.dbName + "`"| < size
    && |"-- Generated at: " + r.stamp| < size && (r.stamp != "" ==> r.stamp[|r.stamp| - 1] != '\r')
    && forall i :: 0 <= i < |r.tables| ==> TableFits(r.tables[i], size)
  }

  // ----- Rows -----

  lemma {:induction false} EscapedInLine(v: string)
    ensures '\n' !in EscapeEach(v)
  {
    if v != "" { EscapedInLine(v[1..]); }
  }

  lemma {:induction false} PlainStamp(t: string)
    requires forall i :: 0 <= i < |t| ==> EscapeChar(t[i]) == [t[i]]
    ensures '\n' !in t
  {
    forall i | 0 <= i < |t| ensures t[i] != '\n' { UnescapedByte(t[i]); }
  }

  lemma UnescapedByte(c: char)
    requires EscapeChar(c) == [c]
    ensures c != '\n'
  {
    assert |EscapeChar(c)| == 1;
  }

  lemma CellText1(c: Cell)
    requires CellOk(c) && CellInLine(c)
    ensures '\n' !in CellText(c)
  {
    match c {
      case Null =>
      case Chars(v) =>
        EscapeIsEach(v);
        EscapedInLine(v);
      case Time(t) => PlainStamp(t);
      case Other(t) =>
    }
  }

  predicate NoBreaks(parts: seq<string>) {
    forall i :: 0 <= i < |parts| ==> '\n' !in parts[i]
  }

  lemma {:induction false} JoinInLine(parts: seq<string>, sep: string)
    requires NoBreaks(parts) && '\n' !in sep
    ensures '\n' !in Join(parts, sep)
  {
    if |parts| > 1 { JoinInLine(parts[1..], sep); }
  }

  lemma {:induction false} CellsInLine(row: seq<Cell>)
    requires RowOk(row) && forall i :: 0 <= i < |row| ==> CellInLine(row[i])
    ensures NoBreaks(CellTexts(row))
  {
    if row != [] {
      CellText1(row[0]);
      CellsInLine(row[1..]);
    }
  }

  /** A printed row: parenthesised, on one line, with room for the byte behind it. */
  predicate ShortRow(text: string, size: nat) {
    text != "" && text[0] == '(' && '\n' !in text && |text| + 1 < size
  }

  predicate ShortRows(texts: seq<string>, size: nat) {
    forall i :: 0 <= i < |texts| ==> ShortRow(texts[i], size)
  }

  lemma {:induction false} RowsAreShort(rows: seq<seq<Cell>>, size: nat)
    requires RowsOk(rows) && RowsFit(rows, size)
    ensures ShortRows(RowTexts(rows), size)
  {
    if rows != [] {
      CellsInLine(rows[0]);
      JoinInLine(CellTexts(rows[0]), ", ");
      assert RowFits(rows[0], size);
      RowsAreShort(rows[1..], size);
    }
  }

  lemma RowLine(text: string, c: char, size: nat)
    requires ShortRow(text, size) && c != '\n' && c != '\r'
    ensures Untouched(text + [c] + "\n", size)
  {
    var l := text + [c];
    assert l[0] == '(' && l[|l| - 1] == c;
    LineCopied(l, size);
  }

  lemma {:induction false} RowLines(texts: seq<string>, size: nat)
    requires ShortRows(texts, size) && texts != []
    ensures Untouched(Join(texts, ",\n") + ";\n", size)
  {
    if |texts| == 1 {
      RowLine(texts[0], ';', size);
      SplitEnd(texts[0], ';');
    } else {
      RowLine(texts[0], ',', size);
      RowLines(texts[1..], size);
      UntouchedAppend(texts[0] + [','] + "\n", Join(texts[1..], ",\n") + ";\n", size);
      RowThenRows(texts[0], Join(texts[1..], ",\n"));
    }
  }

  lemma SplitEnd(a: string, c: char)
    requires c == ';'
    ensures a + [c] + "\n" == a + ";\n"
  {
    assert ";\n" == [c] + "\n";
  }

  lemma RowThenRows(a: string, b: string)
    ensures (a + [','] + "\n") + (b + ";\n") == a + ",\n" + b + ";\n"
  {
    assert ",\n" == [','] + "\n";
  }

  // ----- Inserts -----

  lemma {:induction false} ColsInLine(cols: seq<string>)
    requires ColsFit(cols)
    ensures NoBreaks(QuotedCols(cols))
  {
    if cols != [] {
      QuotedName(cols[0]);
      ColsInLine(cols[1..]);
    }
  }

  lemma HeadLine(table: string, cols: seq<string>, size: nat)
    requires '\n' !in table && ColsFit(cols) && |InsertHead(table, cols)| < size
    ensures Untouched(InsertHead(table, cols) + "\n", size)
  {
    QuotedName(table);
    ColsInLine(cols);
    JoinInLine(QuotedCols(cols), ", ");
    HeadIsCopied(SafeQuoteIdentifier(table), Join(QuotedCols(cols), ", "), size);
    LineCopied(InsertHead(table, cols), size);
  }

  lemma HeadIsCopied(q: string, c: string, size: nat)
    requires '\n' !in q && '\n' !in c && |"INSERT INTO " + q + " (" + c + ") VALUES"| < size
    ensures Copied("INSERT INTO " + q + " (" + c + ") VALUES", size)
  {
    var l := "INSERT INTO " + q + " (" + c + ") VALUES";
    assert l[0] == 'I' && l[|l| - 1] == 'S';
    Surrounded("INSERT INTO ", q, " (");
    Surrounded("INSERT INTO " + q + " (", c, ") VALUES");
  }

  lemma InsertUntouched(table: string, cols: seq<string>, texts: seq<string>, size: nat)
    requires '\n' !in table && ColsFit(cols) && |InsertHead(table, cols)| < size
    requires ShortRows(texts, size) && texts != []
    ensures Untouched(InsertText(table, cols, texts) + ";\n", size)
  {
    HeadLine(table, cols, size);
    RowLines(texts, size);
    UntouchedAppend(InsertHead(table, cols) + "\n", Join(texts, ",\n") + ";\n", size);
    InsertSplit("INSERT INTO " + SafeQuoteIdentifier(table) + " (" + Join(QuotedCols(cols), ", "), Join(texts, ",\n"));
  }

  lemma InsertSplit(a: string, rows: string)
    ensures ((a + ") VALUES") + "\n") + (rows + ";\n") == a + ") VALUES\n" + rows + ";\n"
  {
    assert ") VALUES\n" == ") VALUES" + "\n";
  }

  lemma {:induction false} RowsUntouched(table: string, cols: seq<string>, texts: seq<string>, size: nat)
    requires '\n' !in table && ColsFit(cols) && |InsertHead(table, cols)| < size && ShortRows(texts, size)
    ensures Untouched(RowsText(table, cols, texts), size)
    decreases |texts|
  {
    if |texts| >= BATCH {
      InsertUntouched(table, cols, texts[..BATCH], size);
      RowsUntouched(table, cols, texts[BATCH..], size);
      UntouchedAppend(InsertText(table, cols, texts[..BATCH]) + ";\n", RowsText(table, cols, texts[BATCH..]), size);
    } else if texts != [] {
      InsertUntouched(table, cols, texts, size);
      BlankCopied(size);
      UntouchedAppend(InsertText(table, cols, texts) + ";\n", "\n", size);
      BlankBehind(InsertText(table, cols, texts));
    }
  }

  lemma BlankBehind(a: string)
    ensures (a + ";\n") + "\n" == a + ";\n\n"
  {
    assert ";\n\n" == ";\n" + "\n";
  }

  // ----- Tables -----

  lemma NamedComment(lead: string, q: string, size: nat)
    requires "-- " <= lead && '\n' !in lead && '\n' !in q && q != "" && q[|q| - 1] == '`' && |lead + q| < size
    ensures Untouched(lead + q + "\n", size)
  {
    var l := lead + q;
    assert l[0] == '-' && l[|l| - 1] == '`';
    Surrounded(lead, q, "");
    assert lead + q + "" == l;
    LineCopied(l, size);
  }

  lemma DropLine(q: string, size: nat)
    requires '\n' !in q && |q| + 26 < size
    ensures Untouched("DROP TABLE IF EXISTS " + q + ";\n", size)
  {
    var l := "DROP TABLE IF EXISTS " + q + ";";
    assert l[0] == 'D' && l[|l| - 1] == ';';
    Surrounded("DROP TABLE IF EXISTS ", q, ";");
    LineCopied(l, size);
    SplitEnd("DROP TABLE IF EXISTS " + q, ';');
    assert l == "DROP TABLE IF EXISTS " + q + [';'];
  }

  lemma StructureUntouched(t: Table, size: nat)
    requires TableOk(t) && TableFits(t, size)
    ensures Untouched(StructureText(t), size)
  {
    if t.create.Some? {
      var q, c := SafeQuoteIdentifier(t.name), t.create.value;
      QuotedName(t.name);
      NamedComment("-- Table structure for ", q, size);
      DropLine(q, size);
      BlankCopied(size);
      UntouchedAppend(c + ";\n", "\n", size);
      BlankBehind(c);
      ThreeUntouched("-- Table structure for " + q + "\n", "DROP TABLE IF EXISTS " + q + ";\n", c + ";\n\n", size);
      StructureSplit("-- Table structure for " + q + "\n", "DROP TABLE IF EXISTS ", q, c);
    }
  }

  lemma StructureSplit(a: string, d: string, q: string, c: string)
    ensures a + (d + q + ";\n") + (c + ";\n\n") == a + d + q + ";\n" + c + ";\n\n"
  {
  }

  lemma DataUntouched(t: Table, size: nat)
    requires TableOk(t) && TableFits(t, size)
    ensures Untouched(DataText(t), size)
  {
    if t.data.Some? {
      var q, rows := SafeQuoteIdentifier(t.name), Scanned(t.data.value.rows);
      QuotedName(t.name);
      NamedComment("-- Dumping data for table ", q, size);
      RowsAreShort(rows, size);
      RowsUntouched(t.name, t.data.value.cols, RowTexts(rows), size);
      UntouchedAppend("-- Dumping data for table " + q + "\n", RowsText(t.name, t.data.value.cols, RowTexts(rows)), size);
    }
  }

  lemma {:induction false} TablesUntouched(ts: seq<Table>, r: Request, size: nat)
    requires TablesOk(ts) && forall i :: 0 <= i < |ts| ==> TableFits(ts[i], size)
    ensures Untouched(TablesText(ts, r), size)
  {
    if ts != [] {
      StructureUntouched(ts[0], size);
      DataUntouched(ts[0], size);
      UntouchedAppend(if r.includeStructure then StructureText(ts[0]) else "", if r.includeData then DataText(ts[0]) else "", size);
      TablesUntouched(ts[1..], r, size);
      UntouchedAppend(TableText(ts[0], r), TablesText(ts[1..], r), size);
    }
  }

  // ----- Header and footer -----

  lemma SettingUntouched(l: string, size: nat)
    requires l == "SET NAMES utf8mb4;" || l == "SET FOREIGN_KEY_CHECKS = 0;" || l == "SET FOREIGN_KEY_CHECKS = 1;"
    requires size > 35
    ensures Untouched(l + "\n", size)
  {
    assert l[0] == 'S' && l[|l| - 1] == ';';
    LineCopied(l, size);
  }

  lemma TitleUntouched(l: string, size: nat)
    requires l == "-- Hostvra Production Database Dump" && size > |l|
    ensures Untouched(l + "\n", size) && |l| == 35
  {
    assert l[0] == '-' && l[|l| - 1] == 'p';
    LineCopied(l, size);
  }

  lemma StampUntouched(lead: string, stamp: string, size: nat)
    requires lead == "-- Generated at: " && '\n' !in stamp && |lead + stamp| < size
    requires stamp != "" ==> stamp[|stamp| - 1] != '\r'
    ensures Untouched((lead + stamp) + "\n", size)
  {
    var l := lead + stamp;
    assert l[0] == '-' && l[|l| - 1] == if stamp == "" then ' ' else stamp[|stamp| - 1];
    Surrounded(lead, stamp, "");
    assert lead + stamp + "" == l;
    LineCopied(l, size);
  }

  lemma SettingsUntouched(size: nat)
    requires size > 35
    ensures Untouched(("SET NAMES utf8mb4" + (";" + "\n")) + ("SET FOREIGN_KEY_CHECKS = 0" + (";" + "\n\n")), size)
  {
    SettingUntouched("SET NAMES utf8mb4;", size);
    SettingUntouched("SET FOREIGN_KEY_CHECKS = 0;", size);
    BlankCopied(size);
    ThreeUntouched("SET NAMES utf8mb4;" + "\n", "SET FOREIGN_KEY_CHECKS = 0;" + "\n", "\n", size);
    SettingSplit("SET NAMES utf8mb4", "SET FOREIGN_KEY_CHECKS = 0");
    assert "SET NAMES utf8mb4" + ";" == "SET NAMES utf8mb4;" && "SET FOREIGN_KEY_CHECKS = 0" + ";" == "SET FOREIGN_KEY_CHECKS = 0;";
  }

  lemma SettingSplit(a: string, b: string)
    ensures ((a + ";") + "\n") + ((b + ";") + "\n") + "\n" == (a + (";" + "\n")) + (b + (";" + "\n\n"))
  {
    assert "\n\n" == "\n" + "\n";
  }

  lemma NameUntouched(lead: string, db: string, size: nat)
    requires lead == "-- Database: `" && '\n' !in db && |lead + db + "`"| < size
    ensures Untouched((lead + db + "`") + "\n", size)
  {
    var l := lead + db + "`";
    assert l[0] == '-' && l[|l| - 1] == '`';
    Surrounded(lead, db, "`");
    LineCopied(l, size);
  }

  lemma FourUntouched(a: string, b: string, c: string, d: string, size: nat)
    requires Untouched(a, size) && Untouched(b, size) && Untouched(c, size) && Untouched(d, size) && size > 0
    ensures Untouched(a + (b + (c + ("\n" + d))), size)
  {
    BlankCopied(size);
    UntouchedAppend("\n", d, size);
    UntouchedAppend(c, "\n" + d, size);
    UntouchedAppend(b, c + ("\n" + d), size);
    UntouchedAppend(a, b + (c + ("\n" + d)), size);
  }

  lemma HeaderUntouched(r: Request, size: nat)
    requires RequestOk(r) && RequestFits(r, size)
    ensures Untouched(HeaderText(r), size)
  {
    TitleUntouched("-- Hostvra Production Database Dump", size);
    NameUntouched("-- Database: `", r.dbName, size);
    StampUntouched("-- Generated at: ", r.stamp, size);
    SettingsUntouched(size);
    FourUntouched("-- Hostvra Production Database Dump" + "\n", ("-- Database: `" + r.dbName + "`") + "\n",
                  ("-- Generated at: " + r.stamp) + "\n",
                  ("SET NAMES utf8mb4" + (";" + "\n")) + ("SET FOREIGN_KEY_CHECKS = 0" + (";" + "\n\n")), size);
    HeaderParts(r.dbName, r.stamp);
  }

  /** A request that keeps to short lines prints a dump the rewriter copies byte for byte. */
  lemma DumpIsUntouched(r: Request, size: nat)
    requires RequestOk(r) && RequestFits(r, size)
    ensures Untouched(DumpText(r), size)
  {
    HeaderUntouched(r, size);
    TablesUntouched(r.tables, r, size);
    TitleUntouched("-- Hostvra Production Database Dump", size);
    LastUntouched(size);
    ThreeUntouched(HeaderText(r), TablesText(r.tables, r), "SET FOREIGN_KEY_CHECKS = 1;\n", size);
  }

  lemma LastUntouched(size: nat)
    requires size > 35
    ensures Untouched("SET FOREIGN_KEY_CHECKS = 1;\n", size)
  {
    SettingUntouched("SET FOREIGN_KEY_CHECKS = 1;", size);
    assert "SET FOREIGN_KEY_CHECKS = 1;" + "\n" == "SET FOREIGN_KEY_CHECKS = 1;\n";
  }

  /**
   Export, then import: the statements printed are executed on the target as printed,
   between the session settings.
   */
  lemma ExportThenImport(r: Request, db: string, size: nat, maxBytes: nat)
    requires RequestOk(r) && CreatesAreOrdinary(r.tables) && RequestFits(r, size) && |DumpText(r)| <= maxBytes
    ensures Executed(Run(START, Sanitized(DumpText(r), size, db, maxBytes)), db) ==
            Prelude(TargetFor(db)) + DumpStatements(r) + Postlude()
  {
    DumpIsUntouched(r, size);
    UntouchedIsExecuted(r, db, size, maxBytes);
  }
}
