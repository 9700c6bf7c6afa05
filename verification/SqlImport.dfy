/**
 The import pipeline on the exporter's own dumps: sanitise, split, execute.
 */
module SqlImport {
  import opened Text
  import opened SqlScanner
  import opened SqlTokens
  import opened SqlExport
  import opened SqlDumpUnits
  import opened SqlRoundTrip
  import opened SqlSanitizer
  import opened SqlClosure

  // ----- Executing what was split -----

  /** A statement the importer sends as it stands. */
  predicate SentAsIs(q: string, db: string) {
    Classify(q) == Ordinary || (Classify(q) == UseDatabase && q == "USE " + SafeQuoteIdentifier(db))
  }

  predicate AllSentAsIs(qs: seq<string>, db: string) {
    forall i :: 0 <= i < |qs| ==> SentAsIs(qs[i], db)
  }

  lemma {:induction false} HitsSentAsIs(hits: seq<Hit>, db: string)
    requires AllSentAsIs(SplitTexts(hits), db)
    ensures HitQueries(hits, db) == SplitTexts(hits)
  {
    if hits != [] {
      var q, later := QueryText(hits[0]), SplitTexts(hits[1..]);
      var all := SplitTexts(hits);
      assert all == NonEmpty(q) + later;
      forall i | 0 <= i < |later|
        ensures SentAsIs(later[i], db)
      {
        assert later[i] == all[|NonEmpty(q)| + i];
      }
      if q != "" { assert all[0] == q; }
      HitsSentAsIs(hits[1..], db);
    }
  }

  lemma OrdinaryHead(q: string)
    requires q != "" && !IsSpace(q[0]) && q[0] != '/' && UpperChar(q[0]) != 'C' && UpperChar(q[0]) != 'U'
    ensures Classify(q) == Ordinary
  {
    ClassOfHead(q);
  }

  /** The create statements are what SHOW CREATE TABLE gives: nothing that creates or selects a database. */
  predicate CreatesAreOrdinary(ts: seq<Table>) {
    forall i :: 0 <= i < |ts| ==> (ts[i].create.Some? ==> Classify(Trim(ts[i].create.value)) == Ordinary)
  }

  lemma {:induction false} InsertsAreOrdinary(table: string, cols: seq<string>, batches: seq<seq<seq<Cell>>>, db: string)
    ensures AllSentAsIs(Inserts(table, cols, batches), db)
  {
    if batches != [] {
      InsertsAreOrdinary(table, cols, batches[1..], db);
      var q := InsertText(table, cols, RowTexts(batches[0]));
      assert q[0] == 'I';
      OrdinaryHead(q);
    }
  }

  lemma SentAppend(a: seq<string>, b: seq<string>, db: string)
    requires AllSentAsIs(a, db) && AllSentAsIs(b, db)
    ensures AllSentAsIs(a + b, db)
  {
  }

  lemma TableIsOrdinary(t: Table, r: Request, db: string)
    requires t.create.Some? ==> Classify(Trim(t.create.value)) == Ordinary
    ensures AllSentAsIs(TableStatements(t, r), db)
  {
    if t.create.Some? {
      var drop := "DROP TABLE IF EXISTS " + SafeQuoteIdentifier(t.name);
      assert drop[0] == 'D';
      OrdinaryHead(drop);
      SentAppend([drop], NonEmpty(Trim(t.create.value)), db);
    }
    if t.data.Some? {
      InsertsAreOrdinary(t.name, t.data.value.cols, Batches(Scanned(t.data.value.rows)), db);
    }
    SentAppend(if r.includeStructure then StructureStatements(t) else [], if r.includeData then DataStatements(t) else [], db);
  }

  lemma {:induction false} TablesAreOrdinary(ts: seq<Table>, r: Request, db: string)
    requires CreatesAreOrdinary(ts)
    ensures AllSentAsIs(TablesStatements(ts, r), db)
  {
    if ts != [] {
      TableIsOrdinary(ts[0], r, db);
      TablesAreOrdinary(ts[1..], r, db);
      SentAppend(TableStatements(ts[0], r), TablesStatements(ts[1..], r), db);
    }
  }

  lemma SettingsAreOrdinary(q: string, db: string)
    requires q == "SET NAMES utf8mb4" || q == "SET FOREIGN_KEY_CHECKS = 0" || q == "SET FOREIGN_KEY_CHECKS = 1"
    ensures SentAsIs(q, db)
  {
    OrdinaryHead(q);
  }

  lemma DumpIsOrdinary(r: Request, db: string)
    requires CreatesAreOrdinary(r.tables)
    ensures AllSentAsIs(DumpStatements(r), db)
  {
    var a, z := HeaderStatements(), ["SET FOREIGN_KEY_CHECKS = 1"];
    SettingsAreOrdinary(a[0], db);
    SettingsAreOrdinary(a[1], db);
    SettingsAreOrdinary(z[0], db);
    TablesAreOrdinary(r.tables, r, db);
    SentAppend(a, TablesStatements(r.tables, r), db);
    SentAppend(a + TablesStatements(r.tables, r), z, db);
  }

  lemma ExecutedIsSplit(t: Trace, statements: seq<string>, db: string)
    requires SplitTexts(t.hits) == statements && AllSentAsIs(statements, db) && Blank(t.last.stmt)
    ensures Executed(t, db) == statements
  {
    HitsSentAsIs(t.hits, db);
    TrimIsBlank(t.last.stmt);
  }

  /** Importing a dump without sanitising executes exactly the printed statements, in order. */
  lemma DumpExecutesItsStatements(r: Request, db: string)
    requires RequestOk(r) && CreatesAreOrdinary(r.tables)
    ensures Executed(Run(START, DumpText(r)), db) == DumpStatements(r)
  {
    DumpSplitsIntoItsStatements(r);
    DumpIsOrdinary(r, db);
    ExecutedIsSplit(Run(START, DumpText(r)), DumpStatements(r), db);
  }

  // ----- What the sanitiser leaves alone -----

  /** Every line ends with a line break, fits the buffer, is an ordinary statement line and has no carriage return at its end. */
  predicate Untouched(text: string, size: nat)
    decreases |text|
  {
    if text == "" then true
    else
      var k := NewlineAt(text);
      && k < |text| && k < size
      && DropReturn(text[..k]) == text[..k]
      && Classify(Trim(text[..k])) == Ordinary
      && Untouched(text[k + 1..], size)
  }

  lemma {:induction false} BodyIsIdentity(text: string, size: nat, tg: Target)
    requires size > 1 && Untouched(text, size)
    ensures Body(text, size, "", tg) == text
    decreases |text|
  {
    if text != "" {
      var k := NewlineAt(text);
      BodyIsIdentity(text[k + 1..], size, tg);
      LineApart(text, k);
    }
  }

  lemma LineApart(text: string, k: nat)
    requires k < |text| && text[k] == '\n'
    ensures text == text[..k] + "\n" + text[k + 1..]
  {
  }

  // ----- The sanitiser's own lines as units -----

  /** A conditional comment is kept whole. */
  lemma {:induction false} ConditionalBodyCloses(s: Scan, body: string)
    requires s.mode.Conditional? && '*' !in body
    ensures Closed(s, body + "*/")
    decreases |body|
  {
    var all := body + "*/";
    if body == "" {
      assert all == "*/" && all[2..] == "";
    } else {
      assert all[0] == body[0] && all[1..] == body[1..] + "*/";
      ConditionalBodyCloses(In(s, Conditional, all[..1]), body[1..]);
    }
  }

  lemma ConditionalCloses(text: string, body: string)
    requires text == "/*!" + body + "*/" && '*' !in body
    ensures Closed(START, text)
  {
    assert text[0] == '/' && text[1] == '*' && text[2] == '!';
    var more := "!" + body;
    assert text[2..] == more + "*/" && text[..2] == "/*";
    ConditionalBodyCloses(In(START, Conditional, "/*"), more);
    assert Step(START, text) == Keep(START, "/*", Conditional);
  }

  /** A fixed line without its delimiter. */
  function Bare(l: string): string {
    if l == "" then "" else l[..|l| - 1]
  }

  predicate Wrapped(l: string) {
    && |l| > 10 && l[0] == '/' && l[1] == '*' && l[2] == '!' && l[|l| - 3] == '*' && l[|l| - 2] == '/' && l[|l| - 1] == ';'
    && forall i :: 3 <= i < |l| - 3 ==> l[i] != '*'
  }

  lemma NamesWrapped(l: string)
    requires IsNames(l)
    ensures Wrapped(l) && "/*!40101 S" <= l
  {
  }

  lemma UniqueWrapped(l: string)
    requires IsUnique(l)
    ensures Wrapped(l) && "/*!40101 S" <= l
  {
  }

  lemma ForeignWrapped(l: string)
    requires IsForeign(l)
    ensures Wrapped(l) && "/*!40014 " <= l
  {
  }

  lemma SettingFacts(l: string)
    requires IsSetting(l)
    ensures Wrapped(l) && ("/*!40101 S" <= l || "/*!40014 " <= l)
  {
    if IsNames(l) {
      NamesWrapped(l);
    } else if IsUnique(l) {
      UniqueWrapped(l);
    } else {
      ForeignWrapped(l);
    }
  }

  lemma BareCloses(l: string)
    requires Wrapped(l)
    ensures l == Bare(l) + ";" && Closed(START, Bare(l)) && Trim(Bare(l)) == Bare(l) && Tight(Bare(l))
  {
    var b := Bare(l);
    assert b == "/*!" + l[3..|l| - 3] + "*/";
    ConditionalCloses(b, l[3..|l| - 3]);
    TightTrim(b);
  }

  lemma BareSession(l: string)
    requires Wrapped(l) && "/*!40101 S" <= l
    ensures "/*!40101 " <= Bare(l) && Bare(l)[9] == 'S'
  {
    assert l[9] == "/*!40101 S"[9] && Bare(l)[..9] == l[..9] && l[..9] == "/*!40101 ";
  }

  lemma BareForeign(l: string)
    requires Wrapped(l) && "/*!40014 " <= l
    ensures "/*!40014 " <= Bare(l)
  {
    assert Bare(l)[..9] == l[..9];
  }

  lemma BareFacts(l: string)
    requires Wrapped(l) && ("/*!40101 S" <= l || "/*!40014 " <= l)
    ensures l == Bare(l) + ";" && Closed(START, Bare(l)) && Trim(Bare(l)) == Bare(l) && Classify(Bare(l)) == Ordinary
  {
    var b := Bare(l);
    BareCloses(l);
    if "/*!40101 S" <= l {
      BareSession(l);
      Setting40101(b);
    } else {
      BareForeign(l);
      Setting40014(b);
    }
  }

  function SettingUnits(l: string): seq<Token> {
    [Create(Bare(l))] + [Semi, Space("\n")]
  }

  lemma SettingEmits(s: Scan, l: string)
    requires IsSetting(l) && Idle(s)
    ensures Emits(s, SettingUnits(l), [Bare(l)])
  {
    SettingFacts(l);
    BareFacts(l);
    assert Bare(l) != "";
    EmitsCreate(s, Bare(l), "\n");
  }

  lemma SettingShows(l: string)
    requires IsSetting(l)
    ensures Show(SettingUnits(l)) == l + "\n" && Classify(Bare(l)) == Ordinary
  {
    SettingFacts(l);
    BareFacts(l);
    ShowBare(l, Bare(l));
  }

  lemma ShowBare(l: string, b: string)
    requires l == b + ";"
    ensures Show([Create(b)] + [Semi, Space("\n")]) == l + "\n"
  {
    ShowOne(Create(b));
    ShowStatement([Create(b)], "\n");
    Assoc(b, ";", "\n");
  }

  // ----- The whole pipeline -----

  function UseUnits(db: string): seq<Token> {
    [Start("USE "), Ident(db)] + [Semi, Space("\n\n")]
  }

  lemma UseIsTight(db: string, q: string)
    requires q == "USE " + SafeQuoteIdentifier(db)
    ensures Trim(q) == q && q != "" && SentAsIs(q, db)
  {
    assert q[0] == 'U' && q[|q| - 1] == '`';
    TightTrim(q);
    var u := Upper(q);
    ClassOfText(q, u);
    assert u[0] == 'U' && u[1] == 'S' && u[2] == 'E' && u[3] == ' ';
    assert u[..4] == "USE ";
    HasPrefixIs(u, "USE ");
  }

  lemma UseLex(db: string, ts: seq<Token>)
    requires ts == [Start("USE "), Ident(db)]
    ensures LexOk(false, ts) && Filling(ts)
  {
    LexStart("USE ", [Ident(db)]);
    assert [Ident(db)][1..] == [] && ts == [Start("USE ")] + [Ident(db)];
  }

  lemma UseText(db: string, ts: seq<Token>)
    requires ts == [Start("USE "), Ident(db)]
    ensures Show(ts) == "USE " + SafeQuoteIdentifier(db)
  {
    assert ts == [Start("USE ")] + [Ident(db)];
    ShowCons(Start("USE "), [Ident(db)]);
    ShowOne(Ident(db));
  }

  lemma UseEmits(s: Scan, db: string)
    requires Idle(s)
    ensures Emits(s, UseUnits(db), ["USE " + SafeQuoteIdentifier(db)])
  {
    var ts := [Start("USE "), Ident(db)];
    UseLex(db, ts);
    UseText(db, ts);
    UseIsTight(db, "USE " + SafeQuoteIdentifier(db));
    EmitsStatement(s, ts, "\n\n");
  }

  lemma UseShows(db: string)
    ensures Show(UseUnits(db)) == TargetFor(db).useLine + "\n" + ("" + "\n")
  {
    var ts, q := [Start("USE "), Ident(db)], "USE " + SafeQuoteIdentifier(db);
    UseText(db, ts);
    ShowStatement(ts, "\n\n");
    UseLineEnds(q);
  }

  lemma UseLineEnds(q: string)
    ensures q + (";" + "\n\n") == q + ";" + "\n" + ("" + "\n")
  {
  }

  function PreludeUnits(tg: Target): seq<Token> {
    var ls := HeaderLines(tg);
    SettingUnits(ls[0]) + (SettingUnits(ls[1]) + (SettingUnits(ls[2]) + UseUnits(tg.db)))
  }

  /** The statements the sanitiser's first lines amount to. */
  function Prelude(tg: Target): seq<string> {
    var ls := HeaderLines(tg);
    [Bare(ls[0])] + ([Bare(ls[1])] + ([Bare(ls[2])] + ["USE " + SafeQuoteIdentifier(tg.db)]))
  }

  function PostludeUnits(): seq<Token> {
    [Space("\n")] + (SettingUnits(FooterLines()[1]) + SettingUnits(FooterLines()[2]))
  }

  function Postlude(): seq<string> {
    [Bare(FooterLines()[1])] + [Bare(FooterLines()[2])]
  }

  lemma PreludeEmits(s: Scan, tg: Target, ls: seq<string>)
    requires Idle(s) && ls == HeaderLines(tg)
    ensures Emits(s, PreludeUnits(tg), Prelude(tg))
  {
    var a, b, c, u := SettingUnits(ls[0]), SettingUnits(ls[1]), SettingUnits(ls[2]), UseUnits(tg.db);
    SettingEmits(s, ls[0]);
    var s1 := Feed(s, a).last;
    SettingEmits(s1, ls[1]);
    var s2 := Feed(s1, b).last;
    SettingEmits(s2, ls[2]);
    var s3 := Feed(s2, c).last;
    UseEmits(s3, tg.db);
    FourEmit(s, a, [Bare(ls[0])], b, [Bare(ls[1])], c, [Bare(ls[2])], u, ["USE " + SafeQuoteIdentifier(tg.db)]);
  }

  lemma PreludeIsSent(tg: Target, ls: seq<string>)
    requires ls == HeaderLines(tg)
    ensures AllSentAsIs(Prelude(tg), tg.db)
  {
    SettingShows(ls[0]);
    SettingShows(ls[1]);
    SettingShows(ls[2]);
    var q := "USE " + SafeQuoteIdentifier(tg.db);
    UseIsTight(tg.db, q);
    FourSent(Prelude(tg), Bare(ls[0]), Bare(ls[1]), Bare(ls[2]), q, tg.db);
  }

  lemma FourSent(qs: seq<string>, a: string, b: string, c: string, d: string, db: string)
    requires qs == [a] + ([b] + ([c] + [d]))
    requires SentAsIs(a, db) && SentAsIs(b, db) && SentAsIs(c, db) && SentAsIs(d, db)
    ensures AllSentAsIs(qs, db)
  {
  }

  lemma FourEmit(s: Scan, a: seq<Token>, w: seq<string>, b: seq<Token>, x: seq<string>,
                 c: seq<Token>, y: seq<string>, d: seq<Token>, z: seq<string>)
    requires Emits(s, a, w) && Emits(Feed(s, a).last, b, x) && Emits(Feed(Feed(s, a).last, b).last, c, y)
    requires Emits(Feed(Feed(Feed(s, a).last, b).last, c).last, d, z)
    ensures Emits(s, a + (b + (c + d)), w + (x + (y + z)))
  {
    var s1 := Feed(s, a).last;
    var s2 := Feed(s1, b).last;
    EmitsAppend(s2, c, y, d, z);
    EmitsAppend(s1, b, x, c + d, y + z);
    EmitsAppend(s, a, w, b + (c + d), x + (y + z));
  }

  lemma PostludeEmits(s: Scan, ls: seq<string>)
    requires Idle(s) && ls == FooterLines()
    ensures Emits(s, PostludeUnits(), Postlude())
  {
    var s0 := Fed(s, "\n");
    BlankConcat(s.stmt, "\n");
    SettingEmits(s0, ls[1]);
    SettingEmits(Feed(s0, SettingUnits(ls[1])).last, ls[2]);
    EmitsAppend(s0, SettingUnits(ls[1]), [Bare(ls[1])], SettingUnits(ls[2]), [Bare(ls[2])]);
    EmitsSpace(s, "\n", SettingUnits(ls[1]) + SettingUnits(ls[2]), Postlude());
  }

  lemma PostludeIsSent(db: string, ls: seq<string>)
    requires ls == FooterLines()
    ensures AllSentAsIs(Postlude(), db)
  {
    SettingShows(ls[1]);
    SettingShows(ls[2]);
    SentAppend([Bare(ls[1])], [Bare(ls[2])], db);
  }

  lemma ShowPrelude(tg: Target)
    requires tg == TargetFor(tg.db)
    ensures Show(PreludeUnits(tg)) == Unlines(HeaderLines(tg))
  {
    var ls := HeaderLines(tg);
    SettingShows(ls[0]);
    SettingShows(ls[1]);
    SettingShows(ls[2]);
    UseShows(tg.db);
    ShowFour(SettingUnits(ls[0]), SettingUnits(ls[1]), SettingUnits(ls[2]), UseUnits(tg.db));
    UnlinesFive(ls, ls[0], ls[1], ls[2], tg.useLine);
  }

  lemma ShowFour(a: seq<Token>, b: seq<Token>, c: seq<Token>, d: seq<Token>)
    ensures Show(a + (b + (c + d))) == Show(a) + (Show(b) + (Show(c) + Show(d)))
  {
    ShowAppend(c, d);
    ShowAppend(b, c + d);
    ShowAppend(a, b + (c + d));
  }

  lemma UnlinesCons(a: string, ls: seq<string>)
    ensures Unlines([a] + ls) == (a + "\n") + Unlines(ls)
  {
    assert ([a] + ls)[1..] == ls;
  }

  lemma UnlinesFive(ls: seq<string>, a: string, b: string, c: string, d: string)
    requires ls == [a, b, c, d, ""]
    ensures Unlines(ls) == (a + "\n") + ((b + "\n") + ((c + "\n") + (d + "\n" + ("" + "\n"))))
  {
    UnlinesCons("", []);
    assert [""] + [] == [""] && ("" + "\n") + "" == "" + "\n";
    UnlinesCons(d, [""]);
    UnlinesCons(c, [d] + [""]);
    UnlinesCons(b, [c] + ([d] + [""]));
    UnlinesCons(a, [b] + ([c] + ([d] + [""])));
    assert ls == [a] + ([b] + ([c] + ([d] + [""])));
  }

  lemma ShowPostlude()
    ensures Show(PostludeUnits()) == Unlines(FooterLines())
  {
    var ls := FooterLines();
    SettingShows(ls[1]);
    SettingShows(ls[2]);
    ShowCons(Space("\n"), SettingUnits(ls[1]) + SettingUnits(ls[2]));
    ShowAppend(SettingUnits(ls[1]), SettingUnits(ls[2]));
    UnlinesThree(ls, ls[1], ls[2]);
  }

  lemma UnlinesThree(ls: seq<string>, a: string, b: string)
    requires ls == ["", a, b]
    ensures Unlines(ls) == "\n" + ((a + "\n") + (b + "\n"))
  {
    UnlinesCons(b, []);
    assert [b] + [] == [b] && (b + "\n") + "" == b + "\n";
    UnlinesCons(a, [b]);
    UnlinesCons("", [a] + [b]);
    assert ls == [""] + ([a] + [b]) && "" + "\n" == "\n";
  }

  /**
   Export, then import: a dump whose lines the sanitiser leaves alone is executed on
   the target statement by statement as printed, between the session settings.
   */
  lemma UntouchedIsExecuted(r: Request, db: string, size: nat, maxBytes: nat)
    requires RequestOk(r) && CreatesAreOrdinary(r.tables)
    requires size > 1 && Untouched(DumpText(r), size) && |DumpText(r)| <= maxBytes
    ensures Executed(Run(START, Sanitized(DumpText(r), size, db, maxBytes)), db) ==
            Prelude(TargetFor(db)) + DumpStatements(r) + Postlude()
  {
    var tg := TargetFor(db);
    assert Limited(DumpText(r), maxBytes) == DumpText(r);
    BodyIsIdentity(DumpText(r), size, tg);
    ShowPrelude(tg);
    ShowDump(r);
    ShowPostlude();
    var a, b, c := PreludeUnits(tg), DumpTokens(r), PostludeUnits();
    ShowAppend(b, c);
    ShowAppend(a, b + c);
    Assoc(Show(a), Show(b), Show(c));
    PipelineRuns(r, db, a + (b + c));
  }

  lemma PipelineRuns(r: Request, db: string, ts: seq<Token>)
    requires RequestOk(r) && CreatesAreOrdinary(r.tables)
    requires ts == PreludeUnits(TargetFor(db)) + (DumpTokens(r) + PostludeUnits())
    ensures Executed(Run(START, Show(ts)), db) == Prelude(TargetFor(db)) + DumpStatements(r) + Postlude()
  {
    var tg := TargetFor(db);
    PreludeEmits(START, tg, HeaderLines(tg));
    PreludeIsSent(tg, HeaderLines(tg));
    var s1 := Feed(START, PreludeUnits(tg)).last;
    EmitsDumpFrom(s1, r);
    var s2 := Feed(s1, DumpTokens(r)).last;
    PostludeEmits(s2, FooterLines());
    PostludeIsSent(db, FooterLines());
    EmitsThree(START, PreludeUnits(tg), Prelude(tg), DumpTokens(r), DumpStatements(r), PostludeUnits(), Postlude());
    TokenRun(START, ts);
    DumpIsOrdinary(r, db);
    SentAppend(Prelude(tg), DumpStatements(r), db);
    SentAppend(Prelude(tg) + DumpStatements(r), Postlude(), db);
    ExecutedIsSplit(Run(START, Show(ts)), Prelude(tg) + DumpStatements(r) + Postlude(), db);
  }
}
