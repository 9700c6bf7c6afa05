/**
 What a line break in the name of the exported database does to the dump.
 */
module SqlNames {
  import opened Text
  import opened SqlScanner
  import opened SqlTokens
  import opened SqlExport
  import opened SqlDumpUnits
  import opened SqlRoundTrip
  import opened SqlCounter

  // ----- The text after the name -----

  function TailTokens(r: Request): seq<Token> {
    StampTokens(r) + (TablesTokens(r.tables, r) + FooterTokens())
  }

  /** What a dump holds from the time stamp on. */
  function TailText(r: Request): string {
    Show(TailTokens(r))
  }

  lemma DumpAroundName(r: Request)
    requires TablesOk(r.tables)
    ensures DumpText(r) == ("-- Hostvra Production Database Dump" + "\n") + (("-- Database: `" + r.dbName + "`" + "\n") + TailText(r))
  {
    ShowDump(r);
    TwoNotes("-- Hostvra Production Database Dump", "-- Database: `" + r.dbName + "`", StampTokens(r),
             TablesTokens(r.tables, r) + FooterTokens(), DumpTokens(r));
  }

  lemma TwoNotes(l1: string, l2: string, a: seq<Token>, b: seq<Token>, ts: seq<Token>)
    requires ts == ([Note(l1)] + ([Note(l2)] + a)) + b
    ensures Show(ts) == (l1 + "\n") + ((l2 + "\n") + Show(a + b))
  {
    assert ts == [Note(l1)] + ([Note(l2)] + (a + b));
    ShowCons(Note(l1), [Note(l2)] + (a + b));
    ShowCons(Note(l2), a + b);
  }

  /** The run over a dump whose name breaks its comment line starts over behind the break. */
  lemma NameRun(r: Request, a: string, b: string)
    requires TablesOk(r.tables) && r.dbName == a + ("\n" + b) && '\n' !in a
    ensures Run(START, DumpText(r)) == Run(START, b + ("`" + ("\n" + TailText(r))))
  {
    DumpAroundName(r);
    HeaderNotes("", "");
    OpenLine("-- Database: `", a);
    BreakParts("-- Database: `", a, b, TailText(r));
    NoteRun(START, "-- Hostvra Production Database Dump", ("-- Database: `" + r.dbName + "`" + "\n") + TailText(r));
    NoteRun(START, "-- Database: `" + a, b + ("`" + ("\n" + TailText(r))));
  }

  lemma BreakParts(l: string, a: string, b: string, tail: string)
    ensures (l + (a + ("\n" + b)) + "`" + "\n") + tail == ((l + a) + "\n") + (b + ("`" + ("\n" + tail)))
  {
  }

  lemma OpenLine(line: string, a: string)
    requires line == "-- Database: `" && '\n' !in a
    ensures NoteLine(line + a)
  {
  }

  // ----- The rest of the name, and the quote that closes it -----

  predicate InString(s: Scan) {
    s.mode.SingleQuote? || s.mode.DoubleQuote?
  }

  lemma TickStep(s: Scan, b: string, tail: string)
    requires b != "" && tail != "" && tail[0] == '`' && !Step(s, b).fate.Directive?
    requires !(InString(s) && b == "\\")
    ensures Step(s, b + tail) == Step(s, b) && Step(s, b).next.delim == s.delim
  {
    var all := b + tail;
    assert all[0] == b[0] && all[..1] == b[..1];
    if |b| > 1 { assert all[1] == b[1] && all[..2] == b[..2]; }
    if |b| > 2 { assert all[2] == b[2]; }
    TickDirective(b, tail);
  }

  lemma TickDirective(b: string, tail: string)
    requires b != "" && tail != "" && tail[0] == '`'
    ensures IsDirective(b + tail) <==> IsDirective(b)
  {
    var all := b + tail;
    assert all[0] == b[0];
    if |b| >= 10 {
      assert all[1..10] == b[1..10];
    } else if |all| >= 10 {
      assert all[1..10][|b| - 1] == '`';
      assert Upper(all[1..10])[|b| - 1] == '`';
      NoTick(|b| - 1);
    }
  }

  lemma NoTick(i: nat)
    requires i < 9
    ensures Upper("elimiter ")[i] != '`'
  {
  }

  /** The run over a text and the quote behind it: a backslash at the end of a string takes the quote with it. */
  lemma {:induction false} TickRun(s: Scan, b: string, r: string) returns (t: Scan, w: string)
    requires NoDirective(s, b)
    ensures var u := Run(s, b);
            && Run(s, b + ("`" + r)) == Then(u.hits, Run(t, w))
            && u.last.delim == s.delim
            && ((t == u.last && w == "`" + r) || (InString(u.last) && t == Fed(u.last, "`") && w == r))
    decreases |b|
  {
    var tail := "`" + r;
    if b == "" {
      t, w := s, tail;
      assert b + tail == tail && [] + Run(s, tail).hits == Run(s, tail).hits;
    } else if InString(s) && b == "\\" {
      t, w := Fed(Fed(s, "\\"), "`"), r;
      EscapedTick(s, b, r);
    } else {
      var m := TickOn(s, b, tail);
      t, w := TickRun(m.next, b[m.n..], r);
      ThenTwice(HitsOf(m), Run(m.next, b[m.n..]).hits, Run(t, w));
    }
  }

  function Then(hits: seq<Hit>, t: Trace): Trace {
    Trace(hits + t.hits, t.last)
  }

  /** A run is its first step and the run from there. */
  lemma RunFrom(s: Scan, rest: string, m: Move, later: string)
    requires rest != "" && m == Step(s, rest) && later == rest[m.n..]
    ensures Run(s, rest) == Then(HitsOf(m), Run(m.next, later))
  {
    RunStep(s, rest);
  }

  lemma FirstMove(s: Scan, b: string) returns (m: Move)
    requires b != "" && NoDirective(s, b)
    ensures m == Step(s, b) && 1 <= m.n <= |b| && !m.fate.Directive? && NoDirective(m.next, b[m.n..])
  {
    m := Step(s, b);
  }

  /** One step on, the same with and without the text behind. */
  lemma TickOn(s: Scan, b: string, tail: string) returns (m: Move)
    requires b != "" && tail != "" && tail[0] == '`' && NoDirective(s, b) && !(InString(s) && b == "\\")
    ensures 1 <= m.n <= |b| && m.next.delim == s.delim && NoDirective(m.next, b[m.n..])
    ensures Run(s, b) == Then(HitsOf(m), Run(m.next, b[m.n..]))
    ensures Run(s, b + tail) == Then(HitsOf(m), Run(m.next, b[m.n..] + tail))
  {
    m := FirstMove(s, b);
    TickStep(s, b, tail);
    assert (b + tail)[m.n..] == b[m.n..] + tail;
    RunFrom(s, b, m, b[m.n..]);
    RunFrom(s, b + tail, m, b[m.n..] + tail);
  }

  lemma ThenTwice(a: seq<Hit>, b: seq<Hit>, t: Trace)
    ensures Then(a, Then(b, t)) == Then(a + b, t)
  {
    AssocOf(a, b, t.hits);
  }

  lemma EscapedTick(s: Scan, b: string, r: string)
    requires InString(s) && b == "\\"
    ensures Run(s, b) == Trace([], Fed(s, b)) && Run(s, b + ("`" + r)) == Run(Fed(Fed(s, b), "`"), r)
  {
    assert b[..1] == b && b[1..] == "" && Step(s, b) == Keep(s, b, s.mode);
    RunStep(s, b);
    var two := b + "`";
    assert b + ("`" + r) == two + r && (two + r)[..2] == two;
    KeepRun(s, two, r, s.mode);
    FedTwice(s, b, "`");
  }

  // ----- Bytes that stay in the buffer -----

  lemma {:induction false} FirstHitHolds(s: Scan, rest: string, c: char)
    requires s.delim == ";" && c in s.stmt && !IsSpace(c)
    ensures var hits := Run(s, rest).hits; hits == [] || c in hits[0].body
    decreases |rest|
  {
    if rest != "" {
      var m := Step(s, rest);
      RunStep(s, rest);
      HeldByte(s, rest, c);
      if m.hit.None? { FirstHitHolds(m.next, rest[m.n..], c); }
    }
  }

  lemma HeldByte(s: Scan, rest: string, c: char)
    requires rest != "" && s.delim == ";" && c in s.stmt && !IsSpace(c)
    ensures var m := Step(s, rest);
            && (m.hit.None? ==> m.next.delim == ";" && c in m.next.stmt)
            && (m.hit.Some? ==> c in m.hit.value.body)
  {
    TrimIsBlank(s.stmt);
    var i :| 0 <= i < |s.stmt| && s.stmt[i] == c;
    assert Trim(s.stmt) != "";
    var stmt := s.stmt + [rest[0]];
    assert stmt[..|stmt| - 1] == s.stmt;
  }

  lemma TrimKeeps(body: string, c: char)
    requires c in body && !IsSpace(c)
    ensures c in Trim(body)
  {
    var p, q := TrimSplit(body);
    var i :| 0 <= i < |body| && body[i] == c;
    assert body == p + (Trim(body) + q) by { Assoc(p, Trim(body), q); }
    forall j | 0 <= j < |p| ensures IsSpace(body[j]) { assert body[j] == p[j]; }
    forall j | |p| + |Trim(body)| <= j < |body| ensures IsSpace(body[j]) { assert body[j] == q[j - |p| - |Trim(body)|]; }
    assert Trim(body)[i - |p|] == c;
  }

  /** The bytes that open a quoted or conditional stretch. */
  predicate IsOpener(c: char) {
    c == '`' || c == '\'' || c == '"' || c == '/'
  }

  /** A buffer that holds an opener can only give a first statement that holds it too. */
  lemma SpoiltSplits(s: Scan, rest: string, c: char, r: Request)
    requires s.delim == ";" && c in s.stmt && IsOpener(c)
    ensures SplitTexts(Run(s, rest).hits) != DumpStatements(r)
  {
    FirstHitHolds(s, rest, c);
    var hits := Run(s, rest).hits;
    var names := DumpStatements(r)[0];
    assert names == "SET NAMES utf8mb4" && !(c in names);
    if hits != [] {
      TrimKeeps(hits[0].body, c);
      var q := Trim(hits[0].body);
      assert SplitTexts(hits)[0] == q;
    }
  }

  /** Inside a quoted or conditional stretch its opener is in the buffer. */
  predicate Marked(s: Scan) {
    match s.mode
    case SingleQuote => '\'' in s.stmt
    case DoubleQuote => '"' in s.stmt
    case Backtick => '`' in s.stmt
    case Conditional => '/' in s.stmt
    case _ => true
  }

  lemma MarkedStep(s: Scan, rest: string)
    requires rest != "" && Marked(s)
    ensures Marked(Step(s, rest).next)
  {
  }

  lemma {:induction false} MarkedRun(s: Scan, rest: string)
    requires Marked(s)
    ensures Marked(Run(s, rest).last)
    decreases |rest|
  {
    if rest != "" {
      MarkedStep(s, rest);
      RunStep(s, rest);
      MarkedRun(Step(s, rest).next, rest[Step(s, rest).n..]);
    }
  }

  // ----- Where the name leaves the scanner -----

  /** In a quoted or conditional stretch, or in plain text, the name's closing quote ends up in the first statement. */
  lemma SpoiltByTick(u: Scan, t: Scan, w: string, rest: string, r: Request)
    requires u.delim == ";" && Marked(u) && !u.mode.LineComment? && !u.mode.BlockComment?
    requires (t == u && w == "`" + rest) || (InString(u) && t == Fed(u, "`") && w == rest)
    ensures SplitTexts(Run(t, w).hits) != DumpStatements(r)
  {
    match u.mode {
      case Plain =>
        OpenStep(u, rest);
        SpoiltSplits(In(u, Backtick, "`"), rest, '`', r);
      case Backtick => SpoiltSplits(t, w, '`', r);
      case SingleQuote => SpoiltSplits(t, w, '\'', r);
      case DoubleQuote => SpoiltSplits(t, w, '"', r);
      case Conditional => SpoiltSplits(t, w, '/', r);
    }
  }

  lemma {:induction false} CommentSwallows(s: Scan, rest: string)
    requires s.mode.BlockComment? && Free(rest, '*')
    ensures Run(s, rest).hits == []
    decreases |rest|
  {
    if rest != "" {
      assert Step(s, rest) == Drop(s, 1, BlockComment);
      RunStep(s, rest);
      CommentSwallows(Step(s, rest).next, rest[1..]);
    }
  }

  // ----- Behind a line comment -----

  /** The tokens after the first statement. */
  function LaterTokens(r: Request): seq<Token> {
    [Space("\n")] + ((([Start("SET FOREIGN_KEY_CHECKS = 0")] + [Semi, Space("\n\n")])) + (TablesTokens(r.tables, r) + FooterTokens()))
  }

  const NAMES := "SET NAMES utf8mb4"

  lemma TailShape(r: Request)
    ensures TailTokens(r) ==
            [Note("-- Generated at: " + r.stamp)] + ([Space("\n")] + ([Start(NAMES)] + ([Semi] + LaterTokens(r))))
  {
    var n, b := [Start(NAMES)] + [Semi, Space("\n")], [Start("SET FOREIGN_KEY_CHECKS = 0")] + [Semi, Space("\n\n")];
    var more := TablesTokens(r.tables, r) + FooterTokens();
    assert [Semi, Space("\n")] == [Semi] + [Space("\n")];
    TailRegroup([Note("-- Generated at: " + r.stamp)], [Space("\n")], [Start(NAMES)], [Semi], b, more);
  }

  lemma TailRegroup(a: seq<Token>, b: seq<Token>, n: seq<Token>, e: seq<Token>, c: seq<Token>, more: seq<Token>)
    ensures (a + (b + ((n + (e + b)) + c))) + more == a + (b + (n + (e + (b + (c + more)))))
  {
  }

  /** What was in the buffer before goes into the first statement, and only there. */
  lemma TailFeed(x: string, r: Request)
    ensures Feed(Scan(Plain, x, ";"), TailTokens(r)) ==
            Trace([Hit(x + "\n" + NAMES, ";")] + Feed(START, LaterTokens(r)).hits, Feed(START, LaterTokens(r)).last)
  {
    TailShape(r);
    var s := Scan(Plain, x, ";");
    var t4 := [Semi] + LaterTokens(r);
    var t3 := [Start(NAMES)] + t4;
    var t2 := [Space("\n")] + t3;
    assert t4[1..] == LaterTokens(r) && t3[1..] == t4 && t2[1..] == t3;
    assert ([Note("-- Generated at: " + r.stamp)] + t2)[1..] == t2;
    FeedHead(s, [Note("-- Generated at: " + r.stamp)] + t2);
    FeedHead(s, t2);
    FeedHead(Fed(s, "\n"), t3);
    FeedHead(Fed(Fed(s, "\n"), NAMES), t4);
    assert Fed(Fed(s, "\n"), NAMES).(stmt := "") == START;
  }

  lemma FeedHead(s: Scan, ts: seq<Token>)
    requires ts != []
    ensures ts[0].Note? ==> Feed(s, ts) == Feed(s, ts[1..])
    ensures ts[0].Semi? ==> Feed(s, ts) == Trace([Hit(s.stmt, ";")] + Feed(s.(stmt := ""), ts[1..]).hits, Feed(s.(stmt := ""), ts[1..]).last)
    ensures !ts[0].Note? && !ts[0].Semi? ==> Feed(s, ts) == Feed(Fed(s, TextOf(ts[0])), ts[1..])
  {
  }

  lemma EmitsTail(r: Request)
    requires TablesOk(r.tables) && '\n' !in r.stamp
    ensures Emits(START, TailTokens(r), DumpStatements(r))
  {
    EmitsStamp(START, r);
    var s1 := Feed(START, StampTokens(r)).last;
    EmitsTables(s1, r.tables, r);
    var s2 := Feed(s1, TablesTokens(r.tables, r)).last;
    SettingsAreCalm();
    EmitsSetting(s2, "SET FOREIGN_KEY_CHECKS = 1", "\n");
    assert FooterTokens() == [Start("SET FOREIGN_KEY_CHECKS = 1")] + [Semi, Space("\n")];
    EmitsThree(START, StampTokens(r), HeaderStatements(), TablesTokens(r.tables, r), TablesStatements(r.tables, r),
               FooterTokens(), ["SET FOREIGN_KEY_CHECKS = 1"]);
  }

  lemma TailLex(busy: bool, r: Request)
    requires LexOk(false, TailTokens(r))
    ensures LexOk(busy, TailTokens(r))
  {
    TailShape(r);
    LexThree(busy, "-- Generated at: " + r.stamp, NAMES, [Semi] + LaterTokens(r));
  }

  lemma LexThree(busy: bool, l: string, n: string, later: seq<Token>)
    requires LexOk(false, [Note(l)] + ([Space("\n")] + ([Start(n)] + later)))
    ensures LexOk(busy, [Note(l)] + ([Space("\n")] + ([Start(n)] + later)))
  {
    var t3 := [Start(n)] + later;
    var t2 := [Space("\n")] + t3;
    var t1 := [Note(l)] + t2;
    assert t1[0] == Note(l) && t1[1..] == t2 && t2[0] == Space("\n") && t2[1..] == t3 && t3[0] == Start(n) && t3[1..] == later;
    assert LexOk(false, t2) && LexOk(false, t3) && LexOk(true, later);
    assert LexOk(busy, t3) && LexOk(busy, t2);
  }

  lemma LongerThanNames(x: string, n: string)
    requires Tight(n) && n != ""
    ensures Trim(x + "\n" + n) == n <==> Blank(x)
    ensures Trim(x + "\n" + n) != ""
  {
    if Blank(x) {
      BlankConcat(x, "\n");
      assert x + "\n" + n + "" == x + "\n" + n;
      TrimPadded(x + "\n", n, "");
    } else {
      var p, q := TrimSplit(x);
      TrimIsBlank(x);
      var m := Trim(x) + q + "\n" + n;
      assert x + "\n" + n == p + m + "";
      assert m[0] == Trim(x)[0] && m[|m| - 1] == n[|n| - 1];
      TrimPadded(p, m, "");
    }
  }

  lemma NamesFacts(n: string)
    requires n == NAMES
    ensures Tight(n) && n != ""
  {
  }

  lemma BehindComment(x: string, r: Request)
    requires TablesOk(r.tables) && '\n' !in r.stamp
    ensures var t := Run(Scan(Plain, x, ";"), TailText(r));
            (SplitTexts(t.hits) == DumpStatements(r) <==> Blank(x)) && Blank(t.last.stmt)
  {
    EmitsTail(r);
    TailLex(!Blank(x), r);
    TokenRun(Scan(Plain, x, ";"), TailTokens(r));
    TailFeed(x, r);
    TailFeed("", r);
    var later := Feed(START, LaterTokens(r)).hits;
    NamesFacts(NAMES);
    LongerThanNames(x, NAMES);
    LongerThanNames("", NAMES);
    SplitHead(Hit(x + "\n" + NAMES, ";"), later);
    SplitHead(Hit("" + "\n" + NAMES, ";"), later);
    SameTails(Trim(x + "\n" + NAMES), NAMES, SplitTexts(later));
  }

  lemma SplitHead(hit: Hit, later: seq<Hit>)
    ensures SplitTexts([hit] + later) == NonEmpty(Trim(hit.body)) + SplitTexts(later)
  {
    assert ([hit] + later)[1..] == later;
  }

  lemma SameTails(a: string, b: string, later: seq<string>)
    ensures [a] + later == [b] + later <==> a == b
  {
    assert ([a] + later)[0] == a && ([b] + later)[0] == b;
  }

  // ----- Names with line breaks -----

  /** A run that cuts exactly the printed statements and leaves blanks. */
  predicate Cuts(t: Trace, r: Request) {
    SplitTexts(t.hits) == DumpStatements(r) && Blank(t.last.stmt)
  }

  /**
   A line break in the database name ends its comment line. When what follows the first break
   cuts no statement of its own and holds no DELIMITER line, the dump still splits into its
   statements exactly when that text, scanned by itself, ends inside a line comment with
   nothing but blanks before it.
   */
  lemma BrokenNameSplitsIff(r: Request, a: string, b: string)
    requires TablesOk(r.tables) && '\n' !in r.stamp && r.dbName == a + ("\n" + b) && '\n' !in a
    requires NoDirective(START, b) && SplitTexts(Run(START, b).hits) == []
    requires Run(START, b).last.mode.BlockComment? ==> Free(TailText(r), '*')
    ensures Cuts(Run(START, DumpText(r)), r) <==> Run(START, b).last.mode.LineComment? && Blank(Run(START, b).last.stmt)
  {
    NameRun(r, a, b);
    BehindBreakIff(r, b);
  }

  lemma BehindBreakIff(r: Request, b: string)
    requires TablesOk(r.tables) && '\n' !in r.stamp && NoDirective(START, b) && SplitTexts(Run(START, b).hits) == []
    requires Run(START, b).last.mode.BlockComment? ==> Free(TailText(r), '*')
    ensures Cuts(Run(START, b + ("`" + ("\n" + TailText(r)))), r) <==>
            Run(START, b).last.mode.LineComment? && Blank(Run(START, b).last.stmt)
  {
    var u, rest := Run(START, b), "\n" + TailText(r);
    var t, w := TickRun(START, b, rest);
    MarkedRun(START, b);
    NoneBefore(u.hits, Run(t, w));
    LeftAt(u.last, t, w, rest, r);
  }

  lemma LeftAt(u: Scan, t: Scan, w: string, rest: string, r: Request)
    requires u.delim == ";" && Marked(u) && rest == "\n" + TailText(r) && TablesOk(r.tables) && '\n' !in r.stamp
    requires u.mode.BlockComment? ==> Free(TailText(r), '*')
    requires (t == u && w == "`" + rest) || (InString(u) && t == Fed(u, "`") && w == rest)
    ensures u.mode.LineComment? && Blank(u.stmt) ==> Cuts(Run(t, w), r)
    ensures !(u.mode.LineComment? && Blank(u.stmt)) ==> SplitTexts(Run(t, w).hits) != DumpStatements(r)
  {
    if u.mode.LineComment? {
      CommentEnds(u, r);
    } else if u.mode.BlockComment? {
      CommentSwallows(u, w);
    } else {
      SpoiltByTick(u, t, w, rest, r);
    }
  }

  lemma NoneBefore(hits: seq<Hit>, t: Trace)
    requires SplitTexts(hits) == []
    ensures SplitTexts(Then(hits, t).hits) == SplitTexts(t.hits)
  {
    SplitAppend(hits, t.hits);
    assert [] + SplitTexts(t.hits) == SplitTexts(t.hits);
  }

  lemma CommentEnds(s: Scan, r: Request)
    requires s.mode.LineComment? && s.delim == ";" && TablesOk(r.tables) && '\n' !in r.stamp
    ensures var t := Run(s, "`" + ("\n" + TailText(r)));
            (SplitTexts(t.hits) == DumpStatements(r) <==> Blank(s.stmt)) && Blank(t.last.stmt)
  {
    Assoc("`", "\n", TailText(r));
    CommentBodyRun(s, "`", TailText(r));
    BehindComment(s.stmt, r);
  }

  // ----- A name that loses every statement -----

  lemma {:induction false} BacktickSwallows(s: Scan, rest: string)
    requires s.mode.Backtick? && Free(rest, '`')
    ensures Run(s, rest).hits == []
    decreases |rest|
  {
    if rest != "" {
      BacktickStep(s, rest[0], rest[1..]);
      assert [rest[0]] + rest[1..] == rest;
      BacktickSwallows(In(s, Backtick, [rest[0]]), rest[1..]);
    }
  }

  lemma StampIsFree(l: string)
    requires l == "-- Generated at: "
    ensures Free(l, '`')
  {
  }

  lemma NamesIsFree(l: string)
    requires l == "SET NAMES utf8mb4"
    ensures Free(l + (";" + "\n"), '`')
  {
  }

  lemma OffIsFree(l: string)
    requires l == "SET FOREIGN_KEY_CHECKS = 0"
    ensures Free(l + (";" + "\n\n"), '`')
  {
  }

  lemma OnIsFree(l: string)
    requires l == "SET FOREIGN_KEY_CHECKS = 1;\n"
    ensures Free(l, '`')
  {
  }

  lemma FixedTextIsFree(d: string, e: string)
    requires d == "SET NAMES utf8mb4;\nSET FOREIGN_KEY_CHECKS = 0;\n\n" && e == "SET FOREIGN_KEY_CHECKS = 1;\n"
    ensures Free(d, '`') && Free(e, '`')
  {
    NamesIsFree("SET NAMES utf8mb4");
    OffIsFree("SET FOREIGN_KEY_CHECKS = 0");
    OnIsFree(e);
    FreeConcat("SET NAMES utf8mb4" + (";" + "\n"), "SET FOREIGN_KEY_CHECKS = 0" + (";" + "\n\n"), '`');
    SettingLines();
  }

  lemma NoTicks(stamp: string, rest: string)
    requires Free(stamp, '`')
    requires rest == "\n" + (("-- Generated at: " + stamp + "\n\n") + "SET NAMES utf8mb4;\nSET FOREIGN_KEY_CHECKS = 0;\n\n" +
                     "SET FOREIGN_KEY_CHECKS = 1;\n")
    ensures Free(rest, '`')
  {
    var d, e := "SET NAMES utf8mb4;\nSET FOREIGN_KEY_CHECKS = 0;\n\n", "SET FOREIGN_KEY_CHECKS = 1;\n";
    FixedTextIsFree(d, e);
    StampIsFree("-- Generated at: ");
    FreeConcat("-- Generated at: ", stamp, '`');
    FreeConcat("-- Generated at: " + stamp, "\n\n", '`');
    FreeConcat("-- Generated at: " + stamp + "\n\n", d, '`');
    FreeConcat("-- Generated at: " + stamp + "\n\n" + d, e, '`');
    FreeConcat("\n", "-- Generated at: " + stamp + "\n\n" + d + e, '`');
  }

  lemma BrokenHeader(stamp: string, rest: string)
    requires rest == "\n" + (("-- Generated at: " + stamp + "\n\n") + "SET NAMES utf8mb4;\nSET FOREIGN_KEY_CHECKS = 0;\n\n" +
                     "SET FOREIGN_KEY_CHECKS = 1;\n")
    ensures DumpText(Request("\n", stamp, [], true, true)) ==
            ("-- Hostvra Production Database Dump" + "\n") + (("-- Database: `" + "\n") + ("`" + rest))
  {
    FirstLine();
    var a, g, d, e := "-- Hostvra Production Database Dump\n", "-- Generated at: " + stamp + "\n\n",
                      "SET NAMES utf8mb4;\nSET FOREIGN_KEY_CHECKS = 0;\n\n", "SET FOREIGN_KEY_CHECKS = 1;\n";
    BrokenParts(a, "-- Database: `", g, d, e);
  }

  lemma BrokenParts(a: string, b: string, g: string, d: string, e: string)
    ensures (a + (b + "\n" + "`\n") + g + d) + "" + e == a + ((b + "\n") + ("`" + ("\n" + (g + d + e))))
  {
    assert "`\n" == "`" + "\n";
  }

  /** A line break in the database name ends the comment early; its closing quote then swallows the whole dump. */
  lemma LineBreakInNameLosesEveryStatement(stamp: string)
    requires Free(stamp, '`')
    ensures var r := Request("\n", stamp, [], true, true);
            Run(START, DumpText(r)).hits == [] && |DumpStatements(r)| == 3
  {
    var rest := "\n" + (("-- Generated at: " + stamp + "\n\n") + "SET NAMES utf8mb4;\nSET FOREIGN_KEY_CHECKS = 0;\n\n" +
                "SET FOREIGN_KEY_CHECKS = 1;\n");
    NoTicks(stamp, rest);
    BrokenHeader(stamp, rest);
    HeaderNotes("", "");
    NoteRun(START, "-- Hostvra Production Database Dump", ("-- Database: `" + "\n") + ("`" + rest));
    OpenLine("-- Database: `", "");
    NoteRun(START, "-- Database: `", "`" + rest);
    OpenStep(START, rest);
    BacktickSwallows(In(START, Backtick, "`"), rest);
  }
}
