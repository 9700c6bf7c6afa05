/**
 The lexical units a dump is printed from, and the splitter's run over a text made
 of them: scanning the printed bytes is the same as walking the units.
 */
module SqlTokens {
  import opened Text
  import opened SqlScanner

  datatype Token =
    | Note(line: string)      // a "--" comment line
    | Space(blanks: string)
    | Start(text: string)     // the keywords that open a statement
    | Word(text: string)      // unquoted text inside a statement
    | Ident(name: string)
    | Literal(value: string)
    | Create(text: string)    // a CREATE TABLE statement taken from the server
    | Semi

  // ----- Escaping -----

  /** The exporter's escaping: four replacements, one after the other. */
  function Escape(s: string): string {
    ReplaceAll(ReplaceAll(ReplaceAll(ReplaceAll(s, "\\", "\\\\"), "'", "\\'"), "\n", "\\n"), "\r", "\\r")
  }

  function EscapeChar(c: char): string {
    if c == '\\' then "\\\\"
    else if c == '\'' then "\\'"
    else if c == '\n' then "\\n"
    else if c == '\r' then "\\r"
    else [c]
  }

  function EscapeEach(s: string): string {
    if s == [] then [] else EscapeChar(s[0]) + EscapeEach(s[1..])
  }

  function UnescapeChar(c: char): char {
    if c == 'n' then '\n' else if c == 'r' then '\r' else c
  }

  /**
   Reads a literal's body up to its closing quote: the value and what follows, or
   nothing if it never closes.  A doubled quote stands for one quote.
   */
  function ReadLiteral(s: string): Option<(string, string)> {
    if s == [] then None
    else if s[0] == '\'' && Peeks(s, 1, '\'') then
      match ReadLiteral(s[2..])
      case None => None
      case Some((v, rest)) => Some((['\''] + v, rest))
    else if s[0] == '\'' then Some(([], s[1..]))
    else if s[0] == '\\' then
      if |s| == 1 then None
      else
        match ReadLiteral(s[2..])
        case None => None
        case Some((v, rest)) => Some(([UnescapeChar(s[1])] + v, rest))
    else
      match ReadLiteral(s[1..])
      case None => None
      case Some((v, rest)) => Some(([s[0]] + v, rest))
  }

  /** Replacing one byte goes through a text byte by byte. */
  lemma {:induction false} ReplaceByteAppend(a: string, b: string, c: char, put: string)
    ensures ReplaceAll(a + b, [c], put) == ReplaceAll(a, [c], put) + ReplaceAll(b, [c], put)
  {
    if a == [] {
      assert a + b == b;
    } else {
      assert (a + b)[1..] == a[1..] + b;
      ReplaceByteAppend(a[1..], b, c, put);
      ReplaceByteHead(a, c, put);
      ReplaceByteHead(a + b, c, put);
    }
  }

  lemma ReplaceByteHead(s: string, c: char, put: string)
    requires s != []
    ensures ReplaceAll(s, [c], put) == (if s[0] == c then put else [s[0]]) + ReplaceAll(s[1..], [c], put)
  {
    assert [c] <= s <==> s[0] == c;
  }

  lemma ReplaceByteOne(d: char, c: char, put: string)
    ensures ReplaceAll([d], [c], put) == if d == c then put else [d]
  {
    ReplaceByteHead([d], c, put);
    assert [d][1..] == [];
    assert put + [] == put && [d] + [] == [d];
  }

  /** Two escaped bytes under a later replacement that touches neither. */
  lemma ReplaceByteTwo(d: char, e: char, c: char, put: string)
    requires d != c && e != c
    ensures ReplaceAll([d, e], [c], put) == [d, e]
  {
    ReplaceByteHead([d, e], c, put);
    assert [d, e][1..] == [e];
    ReplaceByteOne(e, c, put);
  }

  /** The four passes escape every byte once: the order of the passes keeps escapes from being escaped again. */
  lemma {:induction false} EscapeIsEach(s: string)
    ensures Escape(s) == EscapeEach(s)
  {
    if s != [] {
      var c, t := s[0], s[1..];
      EscapeIsEach(t);
      assert s == [c] + t;
      var p1, t1 := ReplaceAll([c], "\\", "\\\\"), ReplaceAll(t, "\\", "\\\\");
      ReplaceByteAppend([c], t, '\\', "\\\\");
      var p2, t2 := ReplaceAll(p1, "'", "\\'"), ReplaceAll(t1, "'", "\\'");
      ReplaceByteAppend(p1, t1, '\'', "\\'");
      var p3, t3 := ReplaceAll(p2, "\n", "\\n"), ReplaceAll(t2, "\n", "\\n");
      ReplaceByteAppend(p2, t2, '\n', "\\n");
      ReplaceByteAppend(p3, t3, '\r', "\\r");
      EscapeOne(c);
    }
  }

  lemma EscapeOne(c: char)
    ensures Escape([c]) == EscapeChar(c)
  {
    ReplaceByteOne(c, '\\', "\\\\");
    if c == '\\' {
      ReplaceByteTwo('\\', '\\', '\'', "\\'");
      ReplaceByteTwo('\\', '\\', '\n', "\\n");
      ReplaceByteTwo('\\', '\\', '\r', "\\r");
    } else {
      ReplaceByteOne(c, '\'', "\\'");
      if c == '\'' {
        ReplaceByteTwo('\\', '\'', '\n', "\\n");
        ReplaceByteTwo('\\', '\'', '\r', "\\r");
      } else {
        ReplaceByteOne(c, '\n', "\\n");
        if c == '\n' {
          ReplaceByteTwo('\\', 'n', '\r', "\\r");
        } else {
          ReplaceByteOne(c, '\r', "\\r");
        }
      }
    }
  }

  lemma {:induction false} ReadEscaped(v: string, rest: string)
    requires !Peeks(rest, 0, '\'')
    ensures ReadLiteral(EscapeEach(v) + "'" + rest) == Some((v, rest))
  {
    if v == [] {
      assert (EscapeEach(v) + "'" + rest)[1..] == rest;
    } else {
      var tail := EscapeEach(v[1..]) + "'" + rest;
      ReadEscaped(v[1..], rest);
      Assoc(EscapeChar(v[0]), EscapeEach(v[1..]), "'");
      Assoc(EscapeChar(v[0]), EscapeEach(v[1..]) + "'", rest);
      ReadEscapedByte(v[0], tail, v[1..], rest);
      assert v == [v[0]] + v[1..];
    }
  }

  lemma ReadEscapedByte(c: char, tail: string, v: string, rest: string)
    requires ReadLiteral(tail) == Some((v, rest))
    ensures ReadLiteral(EscapeChar(c) + tail) == Some(([c] + v, rest))
  {
    var e := EscapeChar(c);
    assert (e + tail)[|e|..] == tail;
  }

  /** A printed literal closes at its own end and decodes to the value, whatever follows but another quote. */
  lemma LiteralRoundTrip(v: string, rest: string)
    requires !Peeks(rest, 0, '\'')
    ensures ReadLiteral(Escape(v) + "'" + rest) == Some((v, rest))
  {
    EscapeIsEach(v);
    ReadEscaped(v, rest);
  }

  // ----- Runs over units -----

  function TextOf(t: Token): string {
    match t
    case Note(line) => line + "\n"
    case Space(blanks) => blanks
    case Start(text) => text
    case Word(text) => text
    case Ident(name) => SafeQuoteIdentifier(name)
    case Literal(value) => "'" + Escape(value) + "'"
    case Create(text) => text
    case Semi => ";"
  }

  function Show(ts: seq<Token>): string {
    if ts == [] then "" else TextOf(ts[0]) + Show(ts[1..])
  }

  /** A byte that opens nothing and ends nothing. */
  predicate Inert(c: char) {
    c != '-' && c != '#' && c != '/' && c != '\'' && c != '"' && c != '`' && c != ';'
  }

  predicate CalmAt(u: string, i: nat)
    requires i < |u|
  {
    Inert(u[i]) || (u[i] == '-' && i + 1 < |u| && u[i + 1] != '-')
  }

  /** Unquoted text without comment openers or delimiters; a dash must be followed by something else. */
  predicate Calm(u: string) {
    forall i :: 0 <= i < |u| ==> CalmAt(u, i)
  }

  /** Cannot be taken for the DELIMITER keyword. */
  predicate NotKeyword(u: string) {
    |u| > 1 && !IsSpace(u[0]) && ((u[0] != 'D' && u[0] != 'd') || UpperChar(u[1]) != 'E')
  }

  /** A statement text that is lexically closed: nothing in it is cut or dropped, and it ends outside quotes. */
  predicate Closed(s: Scan, u: string)
    decreases |u|
  {
    if u == [] then s.mode.Plain?
    else
      var m := Step(s, u);
      m.fate.Kept? && m.hit.None? && Closed(m.next, u[m.n..])
  }

  /** The side conditions under which units cannot be confused with each other; `busy` says a statement has begun. */
  predicate LexOk(busy: bool, ts: seq<Token>)
    decreases |ts|
  {
    ts == [] ||
    match ts[0]
    case Note(line) => Peeks(line, 0, '-') && Peeks(line, 1, '-') && '\n' !in line && LexOk(busy, ts[1..])
    case Space(blanks) => Blank(blanks) && LexOk(busy, ts[1..])
    case Start(text) => Calm(text) && NotKeyword(text) && LexOk(true, ts[1..])
    case Word(text) => busy && Calm(text) && LexOk(true, ts[1..])
    case Ident(_) => LexOk(true, ts[1..])
    case Literal(_) =>
      Show(ts[1..]) != "" && !Peeks(Show(ts[1..]), 0, '\'') && LexOk(true, ts[1..])
    case Create(text) =>
      !busy && Closed(START, text) && Peeks(Show(ts[1..]), 0, ';') && LexOk(!Blank(text), ts[1..])
    case Semi => LexOk(false, ts[1..])
  }

  function Fed(s: Scan, u: string): Scan {
    s.(stmt := s.stmt + u)
  }

  /** The run of the splitter, unit by unit. */
  function Feed(s: Scan, ts: seq<Token>): Trace
    decreases |ts|
  {
    if ts == [] then Trace([], s)
    else if ts[0].Note? then Feed(s, ts[1..])
    else if ts[0].Semi? then
      var t := Feed(s.(stmt := ""), ts[1..]);
      Trace([Hit(s.stmt, ";")] + t.hits, t.last)
    else Feed(Fed(s, TextOf(ts[0])), ts[1..])
  }

  /** A byte that is kept and leaves the scanner in plain mode. */
  predicate Stays(s: Scan, c: char, rest: string) {
    && s.mode.Plain? && s.delim == ";"
    && (Inert(c) || (c == '-' && !Peeks(rest, 0, '-')))
    && (Blank(s.stmt) ==> (c != 'D' && c != 'd') || (|rest| > 0 && UpperChar(rest[0]) != 'E'))
  }

  lemma ByteStep(s: Scan, c: char, rest: string)
    requires Stays(s, c, rest)
    ensures Step(s, [c] + rest) == Move(1, Kept, Fed(s, [c]), None)
  {
    TrimIsBlank(s.stmt);
    var all := [c] + rest;
    assert all[0] == c && all[1..] == rest;
    if Blank(s.stmt) && (c == 'D' || c == 'd') {
      NoDirectiveHere(all);
    }
  }

  lemma ByteRun(s: Scan, c: char, rest: string)
    requires Stays(s, c, rest)
    ensures Run(s, [c] + rest) == Run(Fed(s, [c]), rest)
  {
    ByteStep(s, c, rest);
    RunStep(s, [c] + rest);
    assert ([c] + rest)[1..] == rest;
    assert [] + Run(Fed(s, [c]), rest).hits == Run(Fed(s, [c]), rest).hits;
  }

  /** Chains a run over a first byte with the run over the text after it. */
  lemma ChainRun(s: Scan, u: string, rest: string)
    requires u != [] && Stays(s, u[0], u[1..] + rest)
    requires Run(Fed(s, [u[0]]), u[1..] + rest) == Run(Fed(Fed(s, [u[0]]), u[1..]), rest)
    ensures Run(s, u + rest) == Run(Fed(s, u), rest)
  {
    ByteRun(s, u[0], u[1..] + rest);
    HeadTail(u, rest);
    FedTwice(s, [u[0]], u[1..]);
  }

  lemma HeadTail(u: string, rest: string)
    requires u != []
    ensures [u[0]] + u[1..] == u && [u[0]] + (u[1..] + rest) == u + rest
  {
  }

  lemma FedTwice(s: Scan, u: string, v: string)
    ensures Fed(Fed(s, u), v) == Fed(s, u + v)
  {
    assert (s.stmt + u) + v == s.stmt + (u + v);
  }

  lemma EmptyRun(s: Scan, rest: string)
    ensures Run(s, "" + rest) == Run(Fed(s, ""), rest)
  {
    assert "" + rest == rest && s.stmt + "" == s.stmt;
  }

  lemma CalmHead(u: string, rest: string)
    requires u != [] && Calm(u)
    ensures Calm(u[1..]) && (Inert(u[0]) || (u[0] == '-' && !Peeks(u[1..] + rest, 0, '-')))
  {
    var v := u[1..];
    assert CalmAt(u, 0);
    forall i | 0 <= i < |v|
      ensures CalmAt(v, i)
    {
      assert CalmAt(u, i + 1);
    }
  }

  lemma {:induction false} CalmRun(s: Scan, u: string, rest: string)
    requires s.mode.Plain? && s.delim == ";" && Calm(u) && !Blank(s.stmt)
    ensures Run(s, u + rest) == Run(Fed(s, u), rest)
    decreases |u|
  {
    if u == [] {
      EmptyRun(s, rest);
    } else {
      CalmHead(u, rest);
      BlankConcat(s.stmt, [u[0]]);
      CalmRun(Fed(s, [u[0]]), u[1..], rest);
      ChainRun(s, u, rest);
    }
  }

  lemma StartRun(s: Scan, u: string, rest: string)
    requires s.mode.Plain? && s.delim == ";" && Calm(u) && NotKeyword(u)
    ensures Run(s, u + rest) == Run(Fed(s, u), rest)
  {
    CalmHead(u, rest);
    BlankConcat(s.stmt, [u[0]]);
    assert !IsSpace([u[0]][0]);
    CalmRun(Fed(s, [u[0]]), u[1..], rest);
    ChainRun(s, u, rest);
  }

  lemma NoDirectiveHere(u: string)
    requires |u| > 1 && UpperChar(u[1]) != 'E'
    ensures !IsDirective(u)
  {
    if |u| >= 10 {
      assert Upper(u[1..10])[0] == UpperChar(u[1]);
      assert Upper("elimiter ")[0] == 'E';
    }
  }

  lemma {:induction false} SpaceRun(s: Scan, u: string, rest: string)
    requires s.mode.Plain? && s.delim == ";" && Blank(u)
    ensures Run(s, u + rest) == Run(Fed(s, u), rest)
    decreases |u|
  {
    if u == [] {
      EmptyRun(s, rest);
    } else {
      assert IsSpace(u[0]);
      SpaceRun(Fed(s, [u[0]]), u[1..], rest);
      ChainRun(s, u, rest);
    }
  }

  lemma {:induction false} CommentBodyRun(s: Scan, body: string, rest: string)
    requires s.mode.LineComment? && '\n' !in body
    ensures Run(s, body + "\n" + rest) == Run(s.(mode := Plain), rest)
  {
    var all := body + "\n" + rest;
    if body == [] {
      assert all[0] == '\n' && all[1..] == rest;
      assert HitsOf(Step(s, all)) + Run(s.(mode := Plain), rest).hits == Run(s.(mode := Plain), rest).hits;
    } else {
      var more := body[1..] + "\n" + rest;
      assert all[0] == body[0] && all[1..] == more;
      CommentBodyRun(s, body[1..], rest);
      assert Step(s, all) == Drop(s, 1, LineComment);
      assert s.(mode := LineComment) == s;
      assert HitsOf(Step(s, all)) + Run(s, more).hits == Run(s, more).hits;
    }
  }

  /** A "--" comment is dropped together with its line break. */
  lemma NoteRun(s: Scan, line: string, rest: string)
    requires s.mode.Plain? && Peeks(line, 0, '-') && Peeks(line, 1, '-') && '\n' !in line
    ensures Run(s, (line + "\n") + rest) == Run(s, rest)
  {
    var all := (line + "\n") + rest;
    var more := line[2..] + "\n" + rest;
    assert all[0] == '-' && all[1] == '-' && all[2..] == more;
    var c := s.(mode := LineComment);
    assert forall i :: 0 <= i < |line[2..]| ==> line[2..][i] == line[i + 2];
    CommentBodyRun(c, line[2..], rest);
    assert c.(mode := Plain) == s;
    assert HitsOf(Step(s, all)) + Run(c, more).hits == Run(c, more).hits;
  }

  /** The delimiter cuts the buffer. */
  lemma SemiRun(s: Scan, rest: string)
    requires s.mode.Plain? && s.delim == ";"
    ensures var t := Run(s.(stmt := ""), rest);
            Run(s, ";" + rest) == Trace([Hit(s.stmt, ";")] + t.hits, t.last)
  {
    var all := ";" + rest;
    assert all[0] == ';' && all[1..] == rest;
    var stmt := s.stmt + ";";
    assert HasSuffix(stmt, ";") && stmt[..|stmt| - 1] == s.stmt;
  }

  // ----- Quoted units -----

  function In(s: Scan, mode: Mode, u: string): Scan {
    s.(mode := mode, stmt := s.stmt + u)
  }

  lemma InTwice(s: Scan, m: Mode, u: string, n: Mode, v: string)
    ensures In(In(s, m, u), n, v) == In(s, n, u + v)
  {
    assert (s.stmt + u) + v == s.stmt + (u + v);
  }

  /** A step that keeps what it reads. */
  lemma KeepRun(s: Scan, u: string, rest: string, mode: Mode)
    requires u != [] && Step(s, u + rest) == Keep(s, u, mode)
    ensures Run(s, u + rest) == Run(In(s, mode, u), rest)
  {
    RunStep(s, u + rest);
    assert (u + rest)[|u|..] == rest;
    assert [] + Run(In(s, mode, u), rest).hits == Run(In(s, mode, u), rest).hits;
  }

  /** Runs over two consecutive texts compose. */
  lemma Compose(s: Scan, u: string, m: Mode, v: string, n: Mode, rest: string)
    requires Run(s, u + (v + rest)) == Run(In(s, m, u), v + rest)
    requires Run(In(s, m, u), v + rest) == Run(In(In(s, m, u), n, v), rest)
    ensures Run(s, (u + v) + rest) == Run(In(s, n, u + v), rest)
  {
    InTwice(s, m, u, n, v);
    Assoc(u, v, rest);
  }

  lemma BacktickStep(s: Scan, c: char, rest: string)
    requires s.mode.Backtick?
    ensures Run(s, [c] + rest) == Run(In(s, if c == '`' then Plain else Backtick, [c]), rest)
  {
    BacktickStepIs(s, [c] + rest);
    assert ([c] + rest)[..1] == [c];
    KeepRun(s, [c], rest, if c == '`' then Plain else Backtick);
  }

  lemma BacktickStepIs(s: Scan, all: string)
    requires s.mode.Backtick? && all != []
    ensures Step(s, all) == Keep(s, all[..1], if all[0] == '`' then Plain else Backtick)
  {
  }

  lemma OpenStep(s: Scan, rest: string)
    requires s.mode.Plain?
    ensures Run(s, "`" + rest) == Run(In(s, Backtick, "`"), rest)
    ensures Run(s, "'" + rest) == Run(In(s, SingleQuote, "'"), rest)
  {
    KeepRun(s, "`", rest, Backtick);
    KeepRun(s, "'", rest, SingleQuote);
  }

  /** One byte of a quoted identifier, doubled when it is a backtick. */
  lemma NameByteRun(s: Scan, c: char, rest: string)
    requires s.mode.Backtick?
    ensures var e := if c == '`' then "``" else [c];
            Run(s, e + rest) == Run(In(s, Backtick, e), rest)
  {
    if c == '`' {
      BacktickStep(s, '`', "`" + rest);
      OpenStep(In(s, Plain, "`"), rest);
      Compose(s, "`", Plain, "`", Backtick, rest);
      assert "`" + "`" == "``";
    } else {
      BacktickStep(s, c, rest);
    }
  }

  lemma {:induction false} NameRun(s: Scan, name: string, rest: string)
    requires s.mode.Backtick?
    ensures var body := ReplaceAll(name, "`", "``") + "`";
            Run(s, body + rest) == Run(In(s, Plain, body), rest)
    decreases |name|
  {
    if name == [] {
      assert ReplaceAll(name, "`", "``") + "`" == "`";
      BacktickStep(s, '`', rest);
    } else {
      var c := name[0];
      var e, more := if c == '`' then "``" else [c], ReplaceAll(name[1..], "`", "``") + "`";
      ReplaceByteHead(name, '`', "``");
      assert ReplaceAll(name, "`", "``") + "`" == e + more;
      NameByteRun(s, c, more + rest);
      NameRun(In(s, Backtick, e), name[1..], rest);
      Compose(s, e, Backtick, more, Plain, rest);
    }
  }

  /** A quoted identifier is one unit, whatever its name. */
  lemma IdentRun(s: Scan, name: string, rest: string)
    requires s.mode.Plain?
    ensures Run(s, SafeQuoteIdentifier(name) + rest) == Run(Fed(s, SafeQuoteIdentifier(name)), rest)
  {
    var body := ReplaceAll(name, "`", "``") + "`";
    OpenStep(s, body + rest);
    NameRun(In(s, Backtick, "`"), name, rest);
    Compose(s, "`", Backtick, body, Plain, rest);
    assert SafeQuoteIdentifier(name) == "`" + body;
  }

  lemma ValueByteRun(s: Scan, c: char, rest: string)
    requires s.mode.SingleQuote?
    ensures Run(s, EscapeChar(c) + rest) == Run(In(s, SingleQuote, EscapeChar(c)), rest)
  {
    var e := EscapeChar(c);
    assert (e + rest)[..|e|] == e;
    KeepRun(s, e, rest, SingleQuote);
  }

  lemma {:induction false} ValueRun(s: Scan, v: string, rest: string)
    requires s.mode.SingleQuote? && !Peeks(rest, 0, '\'')
    ensures Run(s, (EscapeEach(v) + "'") + rest) == Run(In(s, Plain, EscapeEach(v) + "'"), rest)
    decreases |v|
  {
    if v == [] {
      assert EscapeEach(v) + "'" == "'";
      assert ("'" + rest)[..1] == "'";
      KeepRun(s, "'", rest, Plain);
    } else {
      var e, more := EscapeChar(v[0]), EscapeEach(v[1..]) + "'";
      assert EscapeEach(v) + "'" == e + more;
      ValueByteRun(s, v[0], more + rest);
      ValueRun(In(s, SingleQuote, e), v[1..], rest);
      Compose(s, e, SingleQuote, more, Plain, rest);
    }
  }

  /** An escaped literal is one unit, whatever its value, unless another quote follows. */
  lemma LiteralRun(s: Scan, v: string, rest: string)
    requires s.mode.Plain? && !Peeks(rest, 0, '\'')
    ensures var lit := "'" + Escape(v) + "'"; Run(s, lit + rest) == Run(Fed(s, lit), rest)
  {
    EscapeIsEach(v);
    var body := EscapeEach(v) + "'";
    OpenStep(s, body + rest);
    ValueRun(In(s, SingleQuote, "'"), v, rest);
    Compose(s, "'", SingleQuote, body, Plain, rest);
    Assoc("'", EscapeEach(v), "'");
  }

  // ----- Server-supplied statements -----

  /** The steps over a closed text do not depend on blanks before it nor on the delimiter after it. */
  lemma ClosedStep(s: Scan, p: string, u: string, rest: string)
    requires s.delim == ";" && Blank(p) && u != [] && Closed(s, u) && Peeks(rest, 0, ';')
    ensures var m := Step(s, u);
            Step(s.(stmt := p + s.stmt), u + rest) == Keep(s.(stmt := p + s.stmt), u[..m.n], m.next.mode)
    ensures Step(s, u).next == In(s, Step(s, u).next.mode, u[..Step(s, u).n])
  {
    if s.mode.Plain? {
      ClosedPlainStep(s, p, u, rest);
    } else {
      var m := Step(s, u);
      assert (u + rest)[..m.n] == u[..m.n];
      if |u| > 1 { assert (u + rest)[..2] == u[..2]; }
      if |u| == m.n { assert u[m.n..] == []; }
    }
  }

  lemma ClosedPlainStep(s: Scan, p: string, u: string, rest: string)
    requires s.mode.Plain? && s.delim == ";" && Blank(p) && u != [] && Closed(s, u) && Peeks(rest, 0, ';')
    ensures var m := Step(s, u);
            Step(s.(stmt := p + s.stmt), u + rest) == Keep(s.(stmt := p + s.stmt), u[..m.n], m.next.mode)
    ensures Step(s, u).next == In(s, Step(s, u).next.mode, u[..Step(s, u).n])
  {
    var all := u + rest;
    assert all[0] == u[0] && u[..1] == [u[0]];
    if |u| > 1 { assert all[1] == u[1] && all[..2] == u[..2]; }
    var c := u[0];
    if c != '\'' && c != '"' && c != '`' && !(c == '/' && Peeks(u, 1, '*')) {
      assert StepPlain(s, u) == StepText(s, u);
      ClosedTextStep(s, p, u, rest);
      assert StepPlain(s.(stmt := p + s.stmt), all) == StepText(s.(stmt := p + s.stmt), all);
    }
  }

  lemma ClosedTextStep(s: Scan, p: string, u: string, rest: string)
    requires s.mode.Plain? && s.delim == ";" && Blank(p) && u != [] && Peeks(rest, 0, ';')
    requires StepText(s, u).fate.Kept? && StepText(s, u).hit.None?
    ensures StepText(s, u) == Keep(s, [u[0]], Plain)
    ensures StepText(s.(stmt := p + s.stmt), u + rest) == Keep(s.(stmt := p + s.stmt), [u[0]], Plain)
  {
    TrimIsBlank(s.stmt);
    TrimIsBlank(p + s.stmt);
    BlankConcat(p, s.stmt);
    KeywordIgnoresDelimiter(u, rest);
    assert HasSuffix(s.stmt + [u[0]], ";") <==> u[0] == ';';
    assert HasSuffix((p + s.stmt) + [u[0]], ";") <==> u[0] == ';';
  }

  lemma KeywordIgnoresDelimiter(u: string, rest: string)
    requires u != [] && Peeks(rest, 0, ';')
    ensures IsDirective(u + rest) <==> IsDirective(u)
  {
    var all := u + rest;
    if |u| >= 10 {
      assert all[1..10] == u[1..10];
    } else if |all| >= 10 {
      assert all[1..10][|u| - 1] == ';';
      assert Upper(all[1..10])[|u| - 1] == ';';
      NoSemicolon(|u| - 1);
    }
  }

  lemma NoSemicolon(i: nat)
    requires i < 9
    ensures Upper("elimiter ")[i] != ';'
  {
  }

  lemma {:induction false} ClosedRun(s: Scan, p: string, u: string, rest: string)
    requires s.delim == ";" && Blank(p) && Closed(s, u) && Peeks(rest, 0, ';')
    ensures var s' := s.(stmt := p + s.stmt); Run(s', u + rest) == Run(In(s', Plain, u), rest)
    decreases |u|
  {
    var s' := s.(stmt := p + s.stmt);
    if u == [] {
      assert u + rest == rest && In(s', Plain, u) == s';
    } else {
      var m := Step(s, u);
      var a, b := u[..m.n], u[m.n..];
      assert u == a + b && (a + b) + rest == a + (b + rest);
      ClosedStep(s, p, u, rest);
      KeepRun(s', a, b + rest, m.next.mode);
      ClosedRun(m.next, p, b, rest);
      assert p + (s.stmt + a) == (p + s.stmt) + a;
      Compose(s', a, m.next.mode, b, Plain, rest);
    }
  }

  /** Scanning the printed units is walking them. */
  lemma {:induction false} TokenRun(s: Scan, ts: seq<Token>)
    requires s.mode.Plain? && s.delim == ";" && LexOk(!Blank(s.stmt), ts)
    ensures Run(s, Show(ts)) == Feed(s, ts)
    decreases |ts|
  {
    if ts != [] {
      var t, u, rest := ts[0], TextOf(ts[0]), Show(ts[1..]);
      match t {
        case Note(line) =>
          NoteRun(s, line, rest);
          TokenRun(s, ts[1..]);
        case Semi =>
          SemiRun(s, rest);
          TokenRun(s.(stmt := ""), ts[1..]);
        case Create(text) =>
          ClosedRun(START, s.stmt, text, rest);
          assert s.(stmt := s.stmt + "") == s;
          BlankConcat(s.stmt, text);
          TokenRun(Fed(s, u), ts[1..]);
        case _ =>
          UnitRun(s, t, rest);
          BlankConcat(s.stmt, u);
          TokenRun(Fed(s, u), ts[1..]);
      }
    }
  }

  lemma UnitRun(s: Scan, t: Token, rest: string)
    requires s.mode.Plain? && s.delim == ";"
    requires t.Space? || t.Start? || t.Word? || t.Ident? || t.Literal?
    requires t.Space? ==> Blank(t.blanks)
    requires t.Start? ==> Calm(t.text) && NotKeyword(t.text)
    requires t.Word? ==> Calm(t.text) && !Blank(s.stmt)
    requires t.Literal? ==> !Peeks(rest, 0, '\'')
    ensures Run(s, TextOf(t) + rest) == Run(Fed(s, TextOf(t)), rest)
    ensures t.Start? || t.Ident? || t.Literal? ==> !Blank(TextOf(t))
  {
    match t {
      case Space(blanks) => SpaceRun(s, blanks, rest);
      case Start(text) => StartRun(s, text, rest); assert !IsSpace(text[0]);
      case Word(text) => CalmRun(s, text, rest);
      case Ident(name) => IdentRun(s, name, rest); assert !IsSpace(SafeQuoteIdentifier(name)[0]);
      case Literal(v) => LiteralRun(s, v, rest); assert !IsSpace(TextOf(t)[0]);
    }
  }
}
