/**
 Reading the printed statements back: a reader of quoted names, literals and INSERT statements
 that knows nothing of the printer, and what it finds in a dump.
 */
module SqlReadBack {
  import opened Text
  import opened SqlScanner
  import opened SqlTokens
  import opened SqlExport
  import opened SqlDumpUnits
  import opened SqlRoundTrip
  import opened SqlSanitizer
  import opened SqlImport
  import opened SqlPipeline

  // ----- Names -----

  /** The rest of a name in backticks and what follows it; a doubled backtick stands for one. */
  function ReadTicked(s: string): (r: Option<(string, string)>)
    ensures r.Some? ==> |r.value.1| < |s|
    decreases |s|
  {
    if s == "" then None
    else if s[0] == '`' && Peeks(s, 1, '`') then
      match ReadTicked(s[2..])
      case None => None
      case Some((n, rest)) => Some((['`'] + n, rest))
    else if s[0] == '`' then Some(("", s[1..]))
    else
      match ReadTicked(s[1..])
      case None => None
      case Some((n, rest)) => Some(([s[0]] + n, rest))
  }

  /** A name in backticks at the front of a text. */
  function ReadIdent(s: string): (r: Option<(string, string)>)
    ensures r.Some? ==> |r.value.1| < |s|
  {
    if s == "" || s[0] != '`' then None else ReadTicked(s[1..])
  }

  lemma {:induction false} TickedBack(name: string, rest: string)
    requires !Peeks(rest, 0, '`')
    ensures ReadTicked(ReplaceAll(name, "`", "``") + ("`" + rest)) == Some((name, rest))
    decreases |name|
  {
    if name == "" {
      var s := "`" + rest;
      assert ReplaceAll("", "`", "``") + s == s && s[1..] == rest;
    } else {
      var body := ReplaceAll(name[1..], "`", "``");
      TickedBack(name[1..], rest);
      ReplaceByteHead(name, '`', "``");
      AssocOf(if name[0] == '`' then "``" else [name[0]], body, "`" + rest);
      TickedByte(name[0], body + ("`" + rest), name[1..], rest);
      assert name == [name[0]] + name[1..];
    }
  }

  lemma TickedByte(c: char, tail: string, n: string, rest: string)
    requires ReadTicked(tail) == Some((n, rest))
    ensures ReadTicked((if c == '`' then "``" else [c]) + tail) == Some(([c] + n, rest))
  {
    var e := if c == '`' then "``" else [c];
    assert (e + tail)[|e|..] == tail;
  }

  /** A printed name is read back as it is, whatever it holds and whatever follows but a backtick. */
  lemma IdentRoundTrip(name: string, rest: string)
    requires !Peeks(rest, 0, '`')
    ensures ReadIdent(SafeQuoteIdentifier(name) + rest) == Some((name, rest))
  {
    var body := ReplaceAll(name, "`", "``");
    TickedBack(name, rest);
    assert SafeQuoteIdentifier(name) + rest == "`" + (body + ("`" + rest));
    assert ("`" + (body + ("`" + rest)))[1..] == body + ("`" + rest);
  }

  // ----- Cells -----

  datatype Datum = NullValue | TextValue(text: string) | BareValue(text: string)

  /** Unquoted text up to a comma or a closing parenthesis. */
  function BareUpTo(s: string): (r: string)
    ensures |r| <= |s|
  {
    if s == "" || s[0] == ',' || s[0] == ')' then "" else [s[0]] + BareUpTo(s[1..])
  }

  lemma {:induction false} LiteralIsShorter(s: string)
    ensures ReadLiteral(s).Some? ==> |ReadLiteral(s).value.1| < |s|
    decreases |s|
  {
    if s != "" {
      if |s| > 1 { LiteralIsShorter(s[2..]); }
      LiteralIsShorter(s[1..]);
    }
  }

  function ReadDatum(s: string): (r: Option<(Datum, string)>)
    ensures r.Some? ==> |r.value.1| <= |s|
  {
    if s == "" then None
    else if s[0] == '\'' then
      LiteralIsShorter(s[1..]);
      match ReadLiteral(s[1..])
      case None => None
      case Some((v, rest)) => Some((TextValue(v), rest))
    else
      var t := BareUpTo(s);
      Some((if t == "NULL" then NullValue else BareValue(t), s[|t|..]))
  }

  /** What the database holds for a cell. */
  function Value(c: Cell): Datum {
    match c
    case Null => NullValue
    case Chars(v) => TextValue(v)
    case Time(t) => TextValue(t)
    case Other(t) => BareValue(t)
  }

  /** Values in their default format, numbers for instance, are printed bare and must end where the list goes on. */
  predicate Legible(c: Cell) {
    CellOk(c) && (c.Other? ==> c.text != "" && c.text != "NULL" && Free(c.text, ',') && Free(c.text, ')'))
  }

  predicate LegibleRow(row: seq<Cell>) {
    forall i :: 0 <= i < |row| ==> Legible(row[i])
  }

  predicate LegibleRows(rows: seq<seq<Cell>>) {
    forall i :: 0 <= i < |rows| ==> LegibleRow(rows[i])
  }

  predicate Ends(rest: string) {
    Peeks(rest, 0, ',') || Peeks(rest, 0, ')')
  }

  lemma {:induction false} BareBack(t: string, rest: string)
    requires Free(t, ',') && Free(t, ')') && Ends(rest)
    ensures BareUpTo(t + rest) == t
  {
    if t == "" {
      assert t + rest == rest;
    } else {
      assert (t + rest)[0] == t[0] && (t + rest)[1..] == t[1..] + rest;
      BareBack(t[1..], rest);
    }
  }

  lemma BareDatum(t: string, rest: string)
    requires t != "" && t[0] != '\'' && Free(t, ',') && Free(t, ')') && Ends(rest)
    ensures ReadDatum(t + rest) == Some((if t == "NULL" then NullValue else BareValue(t), rest))
  {
    BareBack(t, rest);
    assert (t + rest)[0] == t[0] && (t + rest)[|t|..] == rest;
  }

  lemma LiteralDatum(v: string, rest: string)
    requires Ends(rest)
    ensures ReadDatum("'" + Escape(v) + "'" + rest) == Some((TextValue(v), rest))
  {
    LiteralRoundTrip(v, rest);
    var body := Escape(v) + "'" + rest;
    assert "'" + Escape(v) + "'" + rest == "'" + body && ("'" + body)[1..] == body;
  }

  /** A printed cell is read back as its value. */
  lemma CellBack(c: Cell, rest: string)
    requires Legible(c) && Ends(rest)
    ensures CellText(c) != "" && CellText(c)[0] != ')'
    ensures ReadDatum(CellText(c) + rest) == Some((Value(c), rest))
  {
    match c {
      case Null =>
        assert Free("NULL", ',') && Free("NULL", ')');
        BareDatum("NULL", rest);
      case Chars(v) => LiteralDatum(v, rest);
      case Time(t) =>
        PlainEscape(t);
        EscapeIsEach(t);
        LiteralDatum(t, rest);
      case Other(t) =>
        assert CalmAt(t, 0);
        BareDatum(t, rest);
    }
  }

  // ----- Lists -----

  function ReadCells(s: string): (r: Option<(seq<Datum>, string)>)
    ensures r.Some? ==> |r.value.1| <= |s|
    decreases |s|
  {
    if s != "" && s[0] == ')' then Some(([], s))
    else
      match ReadDatum(s)
      case None => None
      case Some((d, rest)) =>
        if ", " <= rest then
          match ReadCells(rest[2..])
          case None => None
          case Some((ds, end)) => Some(([d] + ds, end))
        else Some(([d], rest))
  }

  function Values(row: seq<Cell>): seq<Datum> {
    if row == [] then [] else [Value(row[0])] + Values(row[1..])
  }

  lemma {:induction false} CellsBack(row: seq<Cell>, rest: string)
    requires LegibleRow(row) && Peeks(rest, 0, ')')
    ensures ReadCells(Join(CellTexts(row), ", ") + rest) == Some((Values(row), rest))
    decreases |row|
  {
    if row == [] {
      assert "" + rest == rest;
    } else {
      var c, later := row[0], row[1..];
      assert Legible(c) && forall i :: 0 <= i < |later| ==> later[i] == row[i + 1];
      assert CellTexts(row)[1..] == CellTexts(later);
      if later == [] {
        CellBack(c, rest);
        assert (CellText(c) + rest)[0] == CellText(c)[0];
        assert [Value(c)] + [] == [Value(c)];
      } else {
        var tail := Join(CellTexts(later), ", ") + rest;
        CellsBack(later, rest);
        CellBack(c, ", " + tail);
        JoinedList(CellText(c), ", ", Join(CellTexts(later), ", "), rest);
        assert (CellText(c) + (", " + tail))[0] == CellText(c)[0];
        assert ", " <= ", " + tail && (", " + tail)[2..] == tail;
      }
    }
  }

  lemma JoinedList(a: string, sep: string, b: string, rest: string)
    ensures (a + sep + b) + rest == a + (sep + (b + rest))
  {
  }

  function ReadRow(s: string): (r: Option<(seq<Datum>, string)>)
    ensures r.Some? ==> |r.value.1| < |s|
  {
    if s == "" || s[0] != '(' then None
    else
      match ReadCells(s[1..])
      case None => None
      case Some((ds, rest)) => if rest != "" && rest[0] == ')' then Some((ds, rest[1..])) else None
  }

  function ReadRows(s: string): (r: Option<(seq<seq<Datum>>, string)>)
    decreases |s|
  {
    match ReadRow(s)
    case None => None
    case Some((row, rest)) =>
      if ",\n" <= rest then
        match ReadRows(rest[2..])
        case None => None
        case Some((rows, end)) => Some(([row] + rows, end))
      else Some(([row], rest))
  }

  function AllValues(rows: seq<seq<Cell>>): seq<seq<Datum>> {
    if rows == [] then [] else [Values(rows[0])] + AllValues(rows[1..])
  }

  lemma RowBack(row: seq<Cell>, rest: string)
    requires LegibleRow(row)
    ensures ReadRow(RowText(row) + rest) == Some((Values(row), rest))
  {
    var body := Join(CellTexts(row), ", ") + (")" + rest);
    CellsBack(row, ")" + rest);
    assert RowText(row) + rest == "(" + body && ("(" + body)[1..] == body;
    assert (")" + rest)[1..] == rest;
  }

  lemma {:induction false} RowsBack(rows: seq<seq<Cell>>)
    requires LegibleRows(rows) && rows != []
    ensures ReadRows(Join(RowTexts(rows), ",\n")) == Some((AllValues(rows), ""))
    decreases |rows|
  {
    var row, later := rows[0], rows[1..];
    assert LegibleRow(row) && forall i :: 0 <= i < |later| ==> later[i] == rows[i + 1];
    assert RowTexts(rows)[1..] == RowTexts(later);
    RowTextsLength(later);
    if later == [] {
      RowBack(row, "");
      assert RowText(row) + "" == RowText(row) && [Values(row)] + [] == [Values(row)];
    } else {
      var tail := Join(RowTexts(later), ",\n");
      RowsBack(later);
      RowBack(row, ",\n" + tail);
      Assoc(RowText(row), ",\n", tail);
      assert ",\n" <= ",\n" + tail && (",\n" + tail)[2..] == tail;
    }
  }

  function ReadCols(s: string): (r: Option<(seq<string>, string)>)
    decreases |s|
  {
    match ReadIdent(s)
    case None => Some(([], s))
    case Some((n, rest)) =>
      if ", " <= rest then
        match ReadCols(rest[2..])
        case None => None
        case Some((ns, end)) => Some(([n] + ns, end))
      else Some(([n], rest))
  }

  lemma {:induction false} ColsBack(cols: seq<string>, rest: string)
    requires Peeks(rest, 0, ')')
    ensures ReadCols(Join(QuotedCols(cols), ", ") + rest) == Some((cols, rest))
    decreases |cols|
  {
    if cols == [] {
      assert "" + rest == rest;
    } else {
      var later := cols[1..];
      assert QuotedCols(cols)[1..] == QuotedCols(later) && cols == [cols[0]] + later;
      if later == [] {
        IdentRoundTrip(cols[0], rest);
        assert QuotedCols(cols) == [SafeQuoteIdentifier(cols[0])] && cols == [cols[0]];
      } else {
        var tail := Join(QuotedCols(later), ", ") + rest;
        ColsBack(later, rest);
        IdentRoundTrip(cols[0], ", " + tail);
        JoinedList(SafeQuoteIdentifier(cols[0]), ", ", Join(QuotedCols(later), ", "), rest);
        assert ", " <= ", " + tail && (", " + tail)[2..] == tail;
      }
    }
  }

  // ----- INSERT -----

  datatype Insert = Insert(table: string, cols: seq<string>, rows: seq<seq<Datum>>)

  /** What follows a fixed text. */
  function Past(s: string, p: string): Option<string> {
    if p <= s then Some(s[|p|..]) else None
  }

  lemma PastIs(p: string, rest: string)
    ensures Past(p + rest, p) == Some(rest)
  {
  }

  function ReadInsert(s: string): Option<Insert> {
    match Past(s, "INSERT INTO ")
    case None => None
    case Some(a) =>
      match ReadIdent(a)
      case None => None
      case Some((table, b)) =>
        match Past(b, " (")
        case None => None
        case Some(c) => ReadInto(table, c)
  }

  /** The column list and the rows of an INSERT. */
  function ReadInto(table: string, s: string): Option<Insert> {
    match ReadCols(s)
    case None => None
    case Some((cols, a)) =>
      match Past(a, ") VALUES\n")
      case None => None
      case Some(b) =>
        match ReadRows(b)
        case None => None
        case Some((rows, end)) => if end == "" then Some(Insert(table, cols, rows)) else None
  }

  lemma IntoBack(table: string, cols: seq<string>, rows: seq<seq<Cell>>)
    requires LegibleRows(rows) && rows != []
    ensures ReadInto(table, Join(QuotedCols(cols), ", ") + (") VALUES\n" + Join(RowTexts(rows), ",\n"))) ==
            Some(Insert(table, cols, AllValues(rows)))
  {
    var v := Join(RowTexts(rows), ",\n");
    ColsBack(cols, ") VALUES\n" + v);
    PastIs(") VALUES\n", v);
    RowsBack(rows);
  }

  /** A printed INSERT is read back as its table, its columns and its rows. */
  lemma InsertRoundTrip(table: string, cols: seq<string>, rows: seq<seq<Cell>>)
    requires LegibleRows(rows) && rows != []
    ensures ReadInsert(InsertText(table, cols, RowTexts(rows))) == Some(Insert(table, cols, AllValues(rows)))
  {
    var q, c, v := SafeQuoteIdentifier(table), Join(QuotedCols(cols), ", "), Join(RowTexts(rows), ",\n");
    var into := c + (") VALUES\n" + v);
    InsertParts(q, c, v);
    PastIs("INSERT INTO ", q + (" (" + into));
    IdentRoundTrip(table, " (" + into);
    PastIs(" (", into);
    IntoBack(table, cols, rows);
  }

  // ----- What a list of statements does -----

  /** The rows the statements put into a table, in order. */
  function RowsInto(stmts: seq<string>, table: string): seq<seq<Datum>> {
    if stmts == [] then [] else RowsOf(stmts[0], table) + RowsInto(stmts[1..], table)
  }

  function RowsOf(stmt: string, table: string): seq<seq<Datum>> {
    match ReadInsert(stmt)
    case None => []
    case Some(i) => if i.table == table then i.rows else []
  }

  /** The tables the statements drop. */
  function DroppedBy(stmts: seq<string>): seq<string> {
    if stmts == [] then [] else DropOf(stmts[0]) + DroppedBy(stmts[1..])
  }

  function DropOf(stmt: string): seq<string> {
    match Past(stmt, "DROP TABLE IF EXISTS ")
    case None => []
    case Some(a) =>
      match ReadIdent(a)
      case None => []
      case Some((n, end)) => if end == "" then [n] else []
  }

  /** The CREATE statements among them. */
  function CreatesOf(stmts: seq<string>): seq<string> {
    if stmts == [] then [] else CreateOf(stmts[0]) + CreatesOf(stmts[1..])
  }

  function CreateOf(stmt: string): seq<string> {
    if "CREATE " <= stmt then [stmt] else []
  }

  lemma {:induction false} RowsAppend(a: seq<string>, b: seq<string>, table: string)
    ensures RowsInto(a + b, table) == RowsInto(a, table) + RowsInto(b, table)
  {
    if a == [] {
      assert a + b == b;
    } else {
      assert (a + b)[0] == a[0] && (a + b)[1..] == a[1..] + b;
      RowsAppend(a[1..], b, table);
      AssocOf(RowsOf(a[0], table), RowsInto(a[1..], table), RowsInto(b, table));
    }
  }

  lemma {:induction false} DropsAppend(a: seq<string>, b: seq<string>)
    ensures DroppedBy(a + b) == DroppedBy(a) + DroppedBy(b)
  {
    if a == [] {
      assert a + b == b;
    } else {
      assert (a + b)[0] == a[0] && (a + b)[1..] == a[1..] + b;
      DropsAppend(a[1..], b);
      AssocOf(DropOf(a[0]), DroppedBy(a[1..]), DroppedBy(b));
    }
  }

  lemma {:induction false} CreatesAppend(a: seq<string>, b: seq<string>)
    ensures CreatesOf(a + b) == CreatesOf(a) + CreatesOf(b)
  {
    if a == [] {
      assert a + b == b;
    } else {
      assert (a + b)[0] == a[0] && (a + b)[1..] == a[1..] + b;
      CreatesAppend(a[1..], b);
      AssocOf(CreateOf(a[0]), CreatesOf(a[1..]), CreatesOf(b));
    }
  }

  /** Two lists of statements, one after the other. */
  lemma EffectsAppend(a: seq<string>, b: seq<string>, table: string)
    ensures RowsInto(a + b, table) == RowsInto(a, table) + RowsInto(b, table)
    ensures DroppedBy(a + b) == DroppedBy(a) + DroppedBy(b)
    ensures CreatesOf(a + b) == CreatesOf(a) + CreatesOf(b)
  {
    RowsAppend(a, b, table);
    DropsAppend(a, b);
    CreatesAppend(a, b);
  }

  lemma EffectsOne(stmt: string, table: string)
    ensures RowsInto([stmt], table) == RowsOf(stmt, table) && DroppedBy([stmt]) == DropOf(stmt)
    ensures CreatesOf([stmt]) == if "CREATE " <= stmt then [stmt] else []
  {
    assert [stmt][1..] == [];
  }

  /** A statement that starts with none of the three keywords does none of the three things. */
  lemma NoEffect(stmt: string, table: string)
    requires stmt == "" || (stmt[0] != 'I' && stmt[0] != 'D' && stmt[0] != 'C')
    ensures RowsOf(stmt, table) == [] && DropOf(stmt) == [] && !("CREATE " <= stmt)
  {
  }

  lemma {:induction false} NoEffects(stmts: seq<string>, table: string)
    requires forall i :: 0 <= i < |stmts| ==> stmts[i] != "" && stmts[i][0] != 'I' && stmts[i][0] != 'D' && stmts[i][0] != 'C'
    ensures RowsInto(stmts, table) == [] && DroppedBy(stmts) == [] && CreatesOf(stmts) == []
  {
    if stmts != [] {
      NoEffect(stmts[0], table);
      NoEffects(stmts[1..], table);
    }
  }

  // ----- What the dump of a request does -----

  /** The values of the rows that scanned. */
  function Data(rows: seq<Option<seq<Cell>>>): seq<seq<Datum>> {
    if rows == [] then []
    else (if rows[0].Some? then [Values(rows[0].value)] else []) + Data(rows[1..])
  }

  /** Of rows that all scanned nothing is missing. */
  lemma {:induction false} DataIs(rows: seq<Option<seq<Cell>>>)
    requires forall i :: 0 <= i < |rows| ==> rows[i].Some?
    ensures |Data(rows)| == |rows|
    ensures forall i :: 0 <= i < |rows| ==> Data(rows)[i] == Values(rows[i].value)
  {
    if rows != [] { DataIs(rows[1..]); }
  }

  lemma {:induction false} ValuesAre(row: seq<Cell>)
    ensures |Values(row)| == |row| && forall i :: 0 <= i < |row| ==> Values(row)[i] == Value(row[i])
  {
    if row != [] { ValuesAre(row[1..]); }
  }

  /** The data of the tables with a name. */
  function DataOf(ts: seq<Table>, table: string): seq<seq<Datum>> {
    if ts == [] then []
    else (if ts[0].name == table && ts[0].data.Some? then Data(ts[0].data.value.rows) else []) + DataOf(ts[1..], table)
  }

  /** The names and the CREATE statements of the tables whose structure is known. */
  function Structured(ts: seq<Table>): seq<string> {
    if ts == [] then [] else (if ts[0].create.Some? then [ts[0].name] else []) + Structured(ts[1..])
  }

  function Definitions(ts: seq<Table>): seq<string> {
    if ts == [] then [] else (if ts[0].create.Some? then [Trim(ts[0].create.value)] else []) + Definitions(ts[1..])
  }

  /** Cells that can be read back, and definitions that are CREATE statements. */
  predicate LegibleTable(t: Table) {
    && (t.data.Some? ==> LegibleRows(Scanned(t.data.value.rows)))
    && (t.create.Some? ==> "CREATE " <= Trim(t.create.value))
  }

  predicate LegibleTables(ts: seq<Table>) {
    forall i :: 0 <= i < |ts| ==> LegibleTable(ts[i])
  }

  lemma {:induction false} ScannedData(rows: seq<Option<seq<Cell>>>)
    ensures AllValues(Scanned(rows)) == Data(rows)
  {
    if rows != [] {
      ScannedData(rows[1..]);
      var later := Scanned(rows[1..]);
      if rows[0].Some? {
        assert Scanned(rows)[1..] == later;
      } else {
        assert Scanned(rows) == later;
      }
    }
  }

  lemma {:induction false} AllValuesAppend(a: seq<seq<Cell>>, b: seq<seq<Cell>>)
    ensures AllValues(a + b) == AllValues(a) + AllValues(b)
  {
    if a == [] {
      assert a + b == b;
    } else {
      assert (a + b)[1..] == a[1..] + b;
      AllValuesAppend(a[1..], b);
    }
  }

  lemma InsertEffect(name: string, cols: seq<string>, rows: seq<seq<Cell>>, table: string)
    requires LegibleRows(rows) && rows != []
    ensures var stmt := InsertText(name, cols, RowTexts(rows));
            RowsOf(stmt, table) == (if name == table then AllValues(rows) else []) && DropOf(stmt) == [] && !("CREATE " <= stmt)
  {
    InsertRoundTrip(name, cols, rows);
    InsertParts(SafeQuoteIdentifier(name), Join(QuotedCols(cols), ", "), Join(RowTexts(rows), ",\n"));
    FirstIsI(InsertText(name, cols, RowTexts(rows)));
  }

  lemma FirstIsI(stmt: string)
    requires stmt != "" && stmt[0] == 'I'
    ensures DropOf(stmt) == [] && !("CREATE " <= stmt)
  {
  }

  predicate FullBatches(batches: seq<seq<seq<Cell>>>) {
    forall i :: 0 <= i < |batches| ==> batches[i] != [] && LegibleRows(batches[i])
  }

  lemma {:induction false} InsertsEffect(name: string, cols: seq<string>, batches: seq<seq<seq<Cell>>>, table: string)
    requires FullBatches(batches)
    ensures var stmts := Inserts(name, cols, batches);
            && RowsInto(stmts, table) == (if name == table then AllValues(Flatten(batches)) else [])
            && DroppedBy(stmts) == [] && CreatesOf(stmts) == []
  {
    if batches != [] {
      var later := batches[1..];
      assert batches[0] != [] && LegibleRows(batches[0]) && forall i :: 0 <= i < |later| ==> later[i] == batches[i + 1];
      InsertEffect(name, cols, batches[0], table);
      InsertsEffect(name, cols, later, table);
      AllValuesAppend(batches[0], Flatten(later));
    }
  }

  lemma {:induction false} BatchesAreLegible(rows: seq<seq<Cell>>)
    requires LegibleRows(rows)
    ensures FullBatches(Batches(rows))
    decreases |rows|
  {
    if |rows| >= BATCH {
      assert forall i :: 0 <= i < |rows[BATCH..]| ==> rows[BATCH..][i] == rows[i + BATCH];
      BatchesAreLegible(rows[BATCH..]);
    }
  }

  lemma DataEffect(t: Table, table: string)
    requires LegibleTable(t)
    ensures var stmts := DataStatements(t);
            && RowsInto(stmts, table) == (if t.name == table && t.data.Some? then Data(t.data.value.rows) else [])
            && DroppedBy(stmts) == [] && CreatesOf(stmts) == []
  {
    if t.data.Some? {
      var rows := Scanned(t.data.value.rows);
      BatchesAreLegible(rows);
      BatchesHoldTheRows(rows);
      InsertsEffect(t.name, t.data.value.cols, Batches(rows), table);
      ScannedData(t.data.value.rows);
    }
  }

  lemma DropEffect(name: string, table: string)
    ensures var stmt := "DROP TABLE IF EXISTS " + SafeQuoteIdentifier(name);
            RowsOf(stmt, table) == [] && DropOf(stmt) == [name] && !("CREATE " <= stmt)
  {
    var q := SafeQuoteIdentifier(name);
    var stmt := "DROP TABLE IF EXISTS " + q;
    PastIs("DROP TABLE IF EXISTS ", q);
    IdentRoundTrip(name, "");
    assert q + "" == q && stmt[0] == 'D';
  }

  lemma CreateEffect(stmt: string, table: string)
    requires "CREATE " <= stmt
    ensures RowsOf(stmt, table) == [] && DropOf(stmt) == []
  {
    assert stmt[0] == 'C';
  }

  lemma StructureEffect(t: Table, table: string)
    requires LegibleTable(t)
    ensures var stmts := StructureStatements(t);
            && RowsInto(stmts, table) == []
            && DroppedBy(stmts) == (if t.create.Some? then [t.name] else [])
            && CreatesOf(stmts) == (if t.create.Some? then [Trim(t.create.value)] else [])
  {
    if t.create.Some? {
      var a, b := "DROP TABLE IF EXISTS " + SafeQuoteIdentifier(t.name), Trim(t.create.value);
      DropEffect(t.name, table);
      CreateEffect(b, table);
      EffectsOne(a, table);
      EffectsOne(b, table);
      EffectsAppend([a], [b], table);
    }
  }

  lemma TableEffect(t: Table, r: Request, table: string)
    requires LegibleTable(t)
    ensures var stmts := TableStatements(t, r);
            && RowsInto(stmts, table) == (if r.includeData && t.name == table && t.data.Some? then Data(t.data.value.rows) else [])
            && DroppedBy(stmts) == (if r.includeStructure && t.create.Some? then [t.name] else [])
            && CreatesOf(stmts) == (if r.includeStructure && t.create.Some? then [Trim(t.create.value)] else [])
  {
    StructureEffect(t, table);
    DataEffect(t, table);
    EffectsAppend(if r.includeStructure then StructureStatements(t) else [], if r.includeData then DataStatements(t) else [], table);
  }

  lemma {:induction false} TablesEffect(ts: seq<Table>, r: Request, table: string)
    requires LegibleTables(ts)
    ensures var stmts := TablesStatements(ts, r);
            && RowsInto(stmts, table) == (if r.includeData then DataOf(ts, table) else [])
            && DroppedBy(stmts) == (if r.includeStructure then Structured(ts) else [])
            && CreatesOf(stmts) == (if r.includeStructure then Definitions(ts) else [])
  {
    if ts != [] {
      assert LegibleTable(ts[0]) && forall i :: 0 <= i < |ts[1..]| ==> ts[1..][i] == ts[i + 1];
      TableEffect(ts[0], r, table);
      TablesEffect(ts[1..], r, table);
      EffectsAppend(TableStatements(ts[0], r), TablesStatements(ts[1..], r), table);
    }
  }

  lemma SettingsDoNothing(table: string)
    ensures RowsInto(HeaderStatements(), table) == [] && DroppedBy(HeaderStatements()) == [] && CreatesOf(HeaderStatements()) == []
    ensures RowsInto(["SET FOREIGN_KEY_CHECKS = 1"], table) == [] && DroppedBy(["SET FOREIGN_KEY_CHECKS = 1"]) == []
    ensures CreatesOf(["SET FOREIGN_KEY_CHECKS = 1"]) == []
  {
    NoEffects(HeaderStatements(), table);
    NoEffects(["SET FOREIGN_KEY_CHECKS = 1"], table);
  }

  /**
   The statements of a dump put into each table exactly the rows that were read from it, in
   order, drop and define exactly the tables whose structure is asked for, and nothing else.
   */
  lemma DumpHoldsTheData(r: Request, table: string)
    requires LegibleTables(r.tables)
    ensures RowsInto(DumpStatements(r), table) == if r.includeData then DataOf(r.tables, table) else []
    ensures DroppedBy(DumpStatements(r)) == if r.includeStructure then Structured(r.tables) else []
    ensures CreatesOf(DumpStatements(r)) == if r.includeStructure then Definitions(r.tables) else []
  {
    var a, b, c := HeaderStatements(), TablesStatements(r.tables, r), ["SET FOREIGN_KEY_CHECKS = 1"];
    SettingsDoNothing(table);
    TablesEffect(r.tables, r, table);
    EffectsAppend(a, b, table);
    EffectsAppend(a + b, c, table);
  }

  lemma PreludeDoesNothing(tg: Target, table: string)
    ensures RowsInto(Prelude(tg), table) == [] && DroppedBy(Prelude(tg)) == [] && CreatesOf(Prelude(tg)) == []
  {
    var ls, p := HeaderLines(tg), Prelude(tg);
    BareHead(ls[0]);
    BareHead(ls[1]);
    BareHead(ls[2]);
    assert p == [Bare(ls[0]), Bare(ls[1]), Bare(ls[2]), "USE " + SafeQuoteIdentifier(tg.db)];
    NoEffects(p, table);
  }

  lemma PostludeDoesNothing(table: string)
    ensures RowsInto(Postlude(), table) == [] && DroppedBy(Postlude()) == [] && CreatesOf(Postlude()) == []
  {
    BareHead(FooterLines()[1]);
    BareHead(FooterLines()[2]);
    assert Postlude() == [Bare(FooterLines()[1]), Bare(FooterLines()[2])];
    NoEffects(Postlude(), table);
  }

  lemma BareHead(l: string)
    requires |l| > 1 && l[0] == '/'
    ensures Bare(l) != "" && Bare(l)[0] == '/'
  {
  }

  /**
   Export, rewrite and import, as far as the statements executed go: each table of the target is
   filled with exactly the rows read from the table of that name.
   */
  lemma ImportHoldsTheData(r: Request, db: string, size: nat, maxBytes: nat, table: string)
    requires RequestOk(r) && CreatesAreOrdinary(r.tables) && RequestFits(r, size) && |DumpText(r)| <= maxBytes
    requires LegibleTables(r.tables)
    ensures var stmts := Executed(Run(START, Sanitized(DumpText(r), size, db, maxBytes)), db);
            && RowsInto(stmts, table) == (if r.includeData then DataOf(r.tables, table) else [])
            && DroppedBy(stmts) == (if r.includeStructure then Structured(r.tables) else [])
            && CreatesOf(stmts) == (if r.includeStructure then Definitions(r.tables) else [])
  {
    ExportThenImport(r, db, size, maxBytes);
    FramedHolds(r, db, table, Executed(Run(START, Sanitized(DumpText(r), size, db, maxBytes)), db));
  }

  lemma FramedHolds(r: Request, db: string, table: string, stmts: seq<string>)
    requires LegibleTables(r.tables) && stmts == Prelude(TargetFor(db)) + DumpStatements(r) + Postlude()
    ensures RowsInto(stmts, table) == if r.includeData then DataOf(r.tables, table) else []
    ensures DroppedBy(stmts) == if r.includeStructure then Structured(r.tables) else []
    ensures CreatesOf(stmts) == if r.includeStructure then Definitions(r.tables) else []
  {
    var a, b, c := Prelude(TargetFor(db)), DumpStatements(r), Postlude();
    DumpHoldsTheData(r, table);
    PreludeDoesNothing(TargetFor(db), table);
    PostludeDoesNothing(table);
    EffectsAppend(a, b, table);
    EffectsAppend(a + b, c, table);
  }

  lemma BareIs(l: string, x: string)
    requires l == x + ";"
    ensures Bare(l) == x
  {
  }

  /**
   In front of a dump the session is set up and the target selected, behind it the checks are on
   again; the dump itself turns them off in front of its tables and on behind them.
   */
  lemma SettingsAround(r: Request, db: string)
    ensures Prelude(TargetFor(db)) ==
            ["/*!40101 SET NAMES utf8mb4 */", "/*!40014 SET FOREIGN_KEY_CHECKS=0 */", "/*!40101 SET UNIQUE_CHECKS=0 */",
             "USE `" + (ReplaceAll(db, "`", "``") + "`")]
    ensures Postlude() == ["/*!40014 SET FOREIGN_KEY_CHECKS=1 */", "/*!40101 SET UNIQUE_CHECKS=1 */"]
    ensures DumpStatements(r) ==
            ["SET NAMES utf8mb4", "SET FOREIGN_KEY_CHECKS = 0"] + TablesStatements(r.tables, r) + ["SET FOREIGN_KEY_CHECKS = 1"]
  {
    var ls := HeaderLines(TargetFor(db));
    BareIs(ls[0], "/*!40101 SET NAMES utf8mb4 */");
    BareIs(ls[1], "/*!40014 SET FOREIGN_KEY_CHECKS=0 */");
    BareIs(ls[2], "/*!40101 SET UNIQUE_CHECKS=0 */");
    BareIs(FooterLines()[1], "/*!40014 SET FOREIGN_KEY_CHECKS=1 */");
    BareIs(FooterLines()[2], "/*!40101 SET UNIQUE_CHECKS=1 */");
    UseQuoted(db);
  }

  lemma UseQuoted(db: string)
    ensures "USE " + SafeQuoteIdentifier(db) == "USE `" + (ReplaceAll(db, "`", "``") + "`")
  {
  }
}
