/**
 The splitter in the terms of its input: what comments, quotes, DELIMITER lines and delimiters
 do, which statements are let through, and what becomes of a statement nothing ends.
 */
module SqlLexing {
  import opened Text
  import opened SqlScanner
  import opened SqlTokens
  import opened SqlClosure

  // ----- Comments -----

  lemma NoHits(t: Trace)
    ensures Trace([] + t.hits, t.last) == t
  {
    assert [] + t.hits == t.hits;
  }

  /** A step that cuts nothing. */
  lemma SilentStep(s: Scan, u: string, rest: string, next: Scan)
    requires u != [] && Step(s, u + rest).n == |u| && Step(s, u + rest).next == next && Step(s, u + rest).hit.None?
    ensures Run(s, u + rest) == Run(next, rest)
  {
    RunStep(s, u + rest);
    assert (u + rest)[|u|..] == rest;
    NoHits(Run(next, rest));
  }

  /** A step that drops what it reads. */
  lemma DropRun(s: Scan, u: string, rest: string, mode: Mode)
    requires u != [] && Step(s, u + rest) == Drop(s, |u|, mode)
    ensures Run(s, u + rest) == Run(s.(mode := mode), rest)
  {
    SilentStep(s, u, rest, s.(mode := mode));
  }

  /** A comment that starts with two dashes or a hash is dropped to the end of its line, line break included. */
  lemma LineCommentDropped(s: Scan, open: string, x: string, rest: string)
    requires s.mode.Plain? && (open == "--" || open == "#") && '\n' !in x
    ensures Run(s, open + (x + "\n" + rest)) == Run(s, rest)
  {
    DropRun(s, open, x + "\n" + rest, LineComment);
    CommentBodyRun(s.(mode := LineComment), x, rest);
    assert s.(mode := LineComment).(mode := Plain) == s;
  }

  /** The end mark of a comment is nowhere in a text. */
  predicate NoEnd(x: string) {
    forall i :: 0 <= i < |x| - 1 ==> !(x[i] == '*' && x[i + 1] == '/')
  }

  lemma NoEndTail(x: string)
    requires x != "" && NoEnd(x)
    ensures NoEnd(x[1..]) && !(x[0] == '*' && Peeks(x, 1, '/'))
  {
    forall i | 0 <= i < |x[1..]| - 1 ensures !(x[1..][i] == '*' && x[1..][i + 1] == '/') {
      assert x[1..][i] == x[i + 1] && x[1..][i + 1] == x[i + 2];
    }
  }

  lemma {:induction false} BlockBodyRun(s: Scan, x: string, rest: string)
    requires s.mode.BlockComment? && NoEnd(x)
    ensures Run(s, x + ("*/" + rest)) == Run(s.(mode := Plain), rest)
    decreases |x|
  {
    if x == "" {
      assert "" + ("*/" + rest) == "*/" + rest;
      DropRun(s, "*/", rest, Plain);
    } else {
      var more := x[1..] + ("*/" + rest);
      NoEndTail(x);
      assert x + ("*/" + rest) == [x[0]] + more;
      assert more[0] == '/' ==> x[1..] != "" && more[0] == x[1];
      DropRun(s, [x[0]], more, BlockComment);
      assert s.(mode := BlockComment) == s;
      BlockBodyRun(s, x[1..], rest);
    }
  }

  /** A block comment is dropped. */
  lemma BlockCommentDropped(s: Scan, x: string, rest: string)
    requires s.mode.Plain? && NoEnd(x) && !Peeks(x, 0, '!')
    ensures Run(s, "/*" + (x + ("*/" + rest))) == Run(s, rest)
  {
    var tail := x + ("*/" + rest);
    assert tail[0] == if x == "" then '*' else x[0];
    DropRun(s, "/*", tail, BlockComment);
    BlockBodyRun(s.(mode := BlockComment), x, rest);
    assert s.(mode := BlockComment).(mode := Plain) == s;
  }

  lemma {:induction false} ConditionalBodyRun(s: Scan, x: string, rest: string)
    requires s.mode.Conditional? && NoEnd(x)
    ensures Run(s, (x + "*/") + rest) == Run(In(s, Plain, x + "*/"), rest)
    decreases |x|
  {
    if x == "" {
      assert "" + "*/" == "*/" && ("*/" + rest)[..2] == "*/";
      KeepRun(s, "*/", rest, Plain);
    } else {
      var more := x[1..] + "*/";
      NoEndTail(x);
      assert x + "*/" == [x[0]] + more && ([x[0]] + (more + rest))[..1] == [x[0]];
      assert (more + rest)[0] == '/' ==> x[1..] != "" && (more + rest)[0] == x[1];
      KeepRun(s, [x[0]], more + rest, Conditional);
      ConditionalBodyRun(In(s, Conditional, [x[0]]), x[1..], rest);
      Compose(s, [x[0]], Conditional, more, Plain, rest);
    }
  }

  /** A conditional comment is part of the statement. */
  lemma ConditionalKept(s: Scan, x: string, rest: string)
    requires s.mode.Plain? && NoEnd(x)
    ensures var u := "/*" + (("!" + x) + "*/"); Run(s, u + rest) == Run(Fed(s, u), rest)
  {
    var body := ("!" + x) + "*/";
    assert NoEnd("!" + x) by {
      forall i | 0 <= i < |"!" + x| - 1 ensures !(("!" + x)[i] == '*' && ("!" + x)[i + 1] == '/') {
        if i > 0 { assert ("!" + x)[i] == x[i - 1] && ("!" + x)[i + 1] == x[i]; }
      }
    }
    assert (body + rest)[0] == '!' && ("/*" + (body + rest))[..2] == "/*";
    KeepRun(s, "/*", body + rest, Conditional);
    ConditionalBodyRun(In(s, Conditional, "/*"), "!" + x, rest);
    Compose(s, "/*", Conditional, body, Plain, rest);
  }

  // ----- Quotes -----

  /** What may stand between quotes: a backslash takes the next byte with it, and a single quote may be doubled. */
  predicate QuotedBody(q: char, x: string)
    decreases |x|
  {
    if x == "" then true
    else if x[0] == '\\' then |x| > 1 && QuotedBody(q, x[2..])
    else if x[0] != q then QuotedBody(q, x[1..])
    else q == '\'' && Peeks(x, 1, q) && QuotedBody(q, x[2..])
  }

  lemma {:induction false} QuotedBodyRun(s: Scan, q: char, x: string, rest: string)
    requires (q == '\'' && s.mode.SingleQuote?) || (q == '"' && s.mode.DoubleQuote?)
    requires QuotedBody(q, x) && (q == '\'' ==> !Peeks(rest, 0, '\''))
    ensures Run(s, (x + [q]) + rest) == Run(In(s, Plain, x + [q]), rest)
    decreases |x|
  {
    if x == "" {
      assert "" + [q] == [q] && ([q] + rest)[..1] == [q];
      KeepRun(s, [q], rest, Plain);
    } else {
      var n := if x[0] == '\\' || x[0] == q then 2 else 1;
      var u, more := x[..n], x[n..] + [q];
      assert x + [q] == u + more && (u + (more + rest))[..n] == u;
      assert (u + (more + rest))[0] == x[0] && (n == 2 ==> (u + (more + rest))[1] == x[1]);
      KeepRun(s, u, more + rest, s.mode);
      QuotedBodyRun(In(s, s.mode, u), q, x[n..], rest);
      Compose(s, u, s.mode, more, Plain, rest);
    }
  }

  /** A quoted string is part of the statement, delimiters, comment marks and keywords in it included. */
  lemma QuotedKept(s: Scan, q: char, x: string, rest: string)
    requires s.mode.Plain? && (q == '\'' || q == '"') && QuotedBody(q, x) && (q == '\'' ==> !Peeks(rest, 0, '\''))
    ensures var u := [q] + (x + [q]); Run(s, u + rest) == Run(Fed(s, u), rest)
  {
    var mode := if q == '\'' then SingleQuote else DoubleQuote;
    KeepRun(s, [q], (x + [q]) + rest, mode);
    QuotedBodyRun(In(s, mode, [q]), q, x, rest);
    Compose(s, [q], mode, x + [q], Plain, rest);
  }

  /** So is a name in backticks. */
  lemma BacktickedKept(s: Scan, x: string, rest: string)
    requires s.mode.Plain? && Free(x, '`')
    ensures var u := "`" + (x + "`"); Run(s, u + rest) == Run(Fed(s, u), rest)
  {
    assert ReplaceAll(x, "`", "``") == x by { NoByte(x, "`"); ReplaceAbsent(x, "`", "``"); }
    IdentRun(s, x, rest);
    Assoc("`", x, "`");
  }

  // ----- DELIMITER -----

  lemma {:induction false} LineEndIs(text: string, i: nat, e: nat)
    requires i <= e <= |text| && (forall k :: i <= k < e ==> text[k] != '\n' && text[k] != '\r')
    requires e == |text| || text[e] == '\n' || text[e] == '\r'
    ensures LineEnd(text, i) == e
    decreases e - i
  {
    if i < e { LineEndIs(text, i + 1, e); }
  }

  /** At the start of a statement, in any letter case, the keyword and a blank set the delimiter for what follows. */
  lemma DelimiterLine(s: Scan, word: string, line: string, eol: char, rest: string)
    requires s.mode.Plain? && Blank(s.stmt) && |word| == 10 && EqualFold(word, "DELIMITER ")
    requires Free(line, '\n') && Free(line, '\r') && (eol == '\n' || eol == '\r')
    ensures Run(s, word + (line + ([eol] + rest))) ==
            Run(Scan(Plain, "", if Trim(line) == "" then s.delim else Trim(line)), rest)
  {
    var all := word + (line + ([eol] + rest));
    var next := Scan(Plain, "", if Trim(line) == "" then s.delim else Trim(line));
    KeywordBytes(word);
    DirectiveText(word, line, eol, rest);
    DirectiveStep(s, all, line, rest);
    assert [] + Run(next, rest).hits == Run(next, rest).hits;
  }

  /** Where the pieces of the line stand. */
  lemma DirectiveText(word: string, line: string, eol: char, rest: string)
    requires |word| == 10 && Free(line, '\n') && Free(line, '\r') && (eol == '\n' || eol == '\r')
    ensures var all := word + (line + ([eol] + rest));
            var e := 10 + |line|;
            && |all| > e && all[0] == word[0] && all[1..10] == word[1..10] && LineEnd(all, 10) == e
            && all[10..e] == line && all[e + 1..] == rest
  {
    var all := word + (line + ([eol] + rest));
    var e := 10 + |line|;
    assert all[..10] == word;
    forall k | 10 <= k < e ensures all[k] != '\n' && all[k] != '\r' { assert all[k] == line[k - 10]; }
    assert all[e] == eol;
    LineEndIs(all, 10, e);
  }

  lemma DirectiveStep(s: Scan, all: string, line: string, rest: string)
    requires s.mode.Plain? && Blank(s.stmt) && |all| > 10 + |line|
    requires (all[0] == 'D' || all[0] == 'd') && EqualFold(all[1..10], "elimiter ")
    requires var e := 10 + |line|; LineEnd(all, 10) == e && all[10..e] == line && all[e + 1..] == rest
    ensures Step(s, all) ==
            Move(11 + |line|, Directive, Scan(Plain, "", if Trim(line) == "" then s.delim else Trim(line)), None)
  {
    TrimIsBlank(s.stmt);
  }

  lemma KeywordBytes(word: string)
    requires |word| == 10 && EqualFold(word, "DELIMITER ")
    ensures (word[0] == 'D' || word[0] == 'd') && EqualFold(word[1..10], "elimiter ")
  {
    var u, k := Upper(word), Upper("DELIMITER ");
    assert u[0] == UpperChar(word[0]) && k[0] == 'D';
    forall i | 0 <= i < 9 ensures Upper(word[1..10])[i] == Upper("elimiter ")[i] {
      assert u[i + 1] == k[i + 1] == UpperChar("DELIMITER "[i + 1]);
      assert UpperChar("DELIMITER "[i + 1]) == UpperChar("elimiter "[i]);
    }
    assert Upper(word[1..10]) == Upper("elimiter ");
  }

  /** No quote or comment starts at the front. */
  predicate Quiet(text: string) {
    text != "" ==>
      && text[0] != '\'' && text[0] != '"' && text[0] != '`' && text[0] != '#'
      && !(text[0] == '-' && Peeks(text, 1, '-')) && !(text[0] == '/' && Peeks(text, 1, '*'))
  }

  /** No quote or comment starts within the first `n` bytes. */
  predicate QuietUpTo(text: string, n: nat)
    requires n <= |text|
  {
    forall i :: 0 <= i < n ==> Quiet(text[i..])
  }

  lemma QuietTail(text: string, n: nat)
    requires 0 < n <= |text| && QuietUpTo(text, n)
    ensures Quiet(text) && QuietUpTo(text[1..], n - 1)
  {
    assert text[0..] == text;
    forall i | 0 <= i < n - 1 ensures Quiet(text[1..][i..]) { assert text[1..][i..] == text[i + 1..]; }
  }

  /** The text ends with the delimiter at its end, and nowhere before. */
  predicate EndsOnlyAtEnd(text: string, d: string) {
    HasSuffix(text, d) && forall i :: 0 <= i < |text| ==> !HasSuffix(text[..i], d)
  }

  /** One byte of a statement: it goes to the buffer, and the last one cuts. */
  lemma StatementByte(d: string, done: string, u: string, rest: string)
    requires d != "" && u != "" && Quiet(u + rest) && EndsOnlyAtEnd(done + u, d)
    requires !Blank(done) || (!IsSpace(u[0]) && !IsDirective(u + rest))
    ensures u[1..] != "" ==>
              Run(Scan(Plain, done, d), u + rest) == Run(Scan(Plain, done + [u[0]], d), u[1..] + rest) && !Blank(done + [u[0]])
    ensures u[1..] == "" ==>
              Run(Scan(Plain, done, d), u + rest) == CutTrace(done + u, d, Run(Scan(Plain, "", d), rest))
  {
    var s, c, more := Scan(Plain, done, d), u[0], u[1..];
    HeadTail(u, rest);
    OrdinaryByte(s, u + rest);
    DoneGrows(done, u);
    if more == "" {
      CutAt(s, c, rest);
    } else {
      NowVisible(done, c);
      NotYet(done + [c], done + u, d);
      SilentStep(s, [c], more + rest, Scan(Plain, done + [c], d));
    }
  }

  function CutTrace(text: string, d: string, t: Trace): Trace
    requires HasSuffix(text, d)
  {
    Trace([Hit(text[..|text| - |d|], d)] + t.hits, t.last)
  }

  lemma {:induction false} StatementRun(d: string, done: string, u: string, rest: string)
    requires d != "" && u != "" && QuietUpTo(u + rest, |u|) && EndsOnlyAtEnd(done + u, d)
    requires !Blank(done) || (!IsSpace(u[0]) && !IsDirective(u + rest))
    ensures Run(Scan(Plain, done, d), u + rest) == CutTrace(done + u, d, Run(Scan(Plain, "", d), rest))
    decreases |u|
  {
    QuietTail(u + rest, |u|);
    HeadTail(u, rest);
    StatementByte(d, done, u, rest);
    if u[1..] != "" {
      DoneGrows(done, u);
      TailOf(u, rest);
      StatementRun(d, done + [u[0]], u[1..], rest);
    }
  }

  lemma TailOf(u: string, rest: string)
    requires u != ""
    ensures (u + rest)[1..] == u[1..] + rest
  {
  }

  lemma NowVisible(done: string, c: char)
    requires !Blank(done) || !IsSpace(c)
    ensures !Blank(done + [c])
  {
    BlankConcat(done, [c]);
    if Blank(done) { assert !IsSpace([c][0]); }
  }

  lemma DoneGrows(done: string, u: string)
    requires u != ""
    ensures (done + [u[0]]) + u[1..] == done + u
    ensures u[1..] == "" ==> done + [u[0]] == done + u
  {
  }

  lemma NotYet(next: string, whole: string, d: string)
    requires next <= whole && |next| < |whole| && EndsOnlyAtEnd(whole, d)
    ensures !HasSuffix(next, d)
  {
    assert whole[..|next|] == next;
  }

  lemma OrdinaryByte(s: Scan, all: string)
    requires s.mode.Plain? && all != "" && Quiet(all) && (!Blank(s.stmt) || !IsDirective(all))
    ensures Step(s, all) == StepByte(s, all[0])
  {
    TrimIsBlank(s.stmt);
  }

  lemma CutAt(s: Scan, c: char, rest: string)
    requires Step(s, [c] + rest) == StepByte(s, c) && HasSuffix(s.stmt + [c], s.delim)
    ensures Run(s, [c] + rest) == CutTrace(s.stmt + [c], s.delim, Run(s.(stmt := ""), rest))
  {
    var u := s.stmt + [c];
    CuttingStep(s, [c], rest, s.(stmt := ""), Hit(u[..|u| - |s.delim|], s.delim));
  }

  /** A step that cuts a statement. */
  lemma CuttingStep(s: Scan, u: string, rest: string, next: Scan, h: Hit)
    requires u != [] && Step(s, u + rest).n == |u| && Step(s, u + rest).next == next && Step(s, u + rest).hit == Some(h)
    ensures Run(s, u + rest) == Trace([h] + Run(next, rest).hits, Run(next, rest).last)
  {
    RunStep(s, u + rest);
    assert (u + rest)[|u|..] == rest;
  }

  /** Text without quotes and comments is cut at the first delimiter, whatever the delimiter is. */
  lemma StatementIsCut(d: string, u: string, rest: string)
    requires d != "" && u != "" && !IsSpace(u[0]) && !IsDirective((u + d) + rest)
    requires QuietUpTo((u + d) + rest, |u + d|) && EndsOnlyAtEnd(u + d, d)
    ensures var t := Run(Scan(Plain, "", d), rest);
            Run(Scan(Plain, "", d), (u + d) + rest) == Trace([Hit(u, d)] + t.hits, t.last)
  {
    assert "" + (u + d) == u + d && (u + d)[..|u|] == u && (u + d)[0] == u[0];
    StatementRun(d, "", u + d, rest);
  }

  // ----- Which statements are let through -----

  /** A text starts with a keyword, in any letter case. */
  predicate Starts(q: string, keyword: string) {
    |keyword| <= |q| && EqualFold(q[..|keyword|], keyword)
  }

  predicate Selects(q: string) {
    Starts(q, "USE ")
  }

  predicate Creates(q: string) {
    Starts(q, "CREATE DATABASE") || Starts(q, "CREATE SCHEMA")
  }

  lemma StartsIs(q: string, keyword: string)
    requires Upper(keyword) == keyword
    ensures HasPrefix(Upper(q), keyword) <==> Starts(q, keyword)
  {
    HasPrefixIs(Upper(q), keyword);
    if |keyword| <= |q| { assert Upper(q)[..|keyword|] == Upper(q[..|keyword|]); }
  }

  /** A trimmed statement that no comment opens is classified by the words it starts with. */
  lemma ClassInWords(q: string)
    requires q != "" && Tight(q) && q[0] != '/'
    ensures Classify(q) == UseDatabase <==> Selects(q)
    ensures Classify(q) == CreateDatabase <==> Creates(q)
  {
    TightTrim(q);
    ClassOfText(q, Upper(q));
    KeywordsUpper();
    StartsIs(q, "USE ");
    StartsIs(q, "CREATE DATABASE");
    StartsIs(q, "CREATE SCHEMA");
    if HasPrefix(Upper(q), "CREATE DATABASE") || HasPrefix(Upper(q), "CREATE SCHEMA") { CreateIsNotUse(Upper(q)); }
  }

  lemma KeywordsUpper()
    ensures Upper("USE ") == "USE " && Upper("CREATE DATABASE") == "CREATE DATABASE" && Upper("CREATE SCHEMA") == "CREATE SCHEMA"
  {
  }

  /** The comment openers a statement may be hidden behind. */
  predicate Opener(o: string) {
    o == "/*!40000 " || o == "/*!40101 " || o == "/*!32312 " || o == "/*!"
  }

  lemma OpenerFacts(o: string)
    requires Opener(o)
    ensures Upper(o) == o && |o| >= 3 && "/*!" <= o && (|o| > 3 ==> |o| == 9 && o[8] == ' ')
  {
    assert forall i :: 0 <= i < |o| ==> UpperChar(o[i]) == o[i];
    assert Upper(o) == o;
  }

  /** The four cuts, one after the other. */
  lemma FourCuts(x: string)
    ensures TrimPrefixes(x, OPENERS) ==
            TrimPrefix(TrimPrefix(TrimPrefix(TrimPrefix(x, "/*!40000 "), "/*!40101 "), "/*!32312 "), "/*!")
  {
    var a := TrimPrefix(x, "/*!40000 ");
    var b := TrimPrefix(a, "/*!40101 ");
    var c := TrimPrefix(b, "/*!32312 ");
    assert OPENERS[1..][0] == "/*!40101 " && OPENERS[1..][1..][0] == "/*!32312 " && OPENERS[1..][1..][1..][0] == "/*!";
    assert OPENERS[1..][1..][1..][1..] == [];
    assert TrimPrefixes(x, OPENERS) == TrimPrefixes(a, OPENERS[1..]);
    assert TrimPrefixes(a, OPENERS[1..]) == TrimPrefixes(b, OPENERS[1..][1..]);
    assert TrimPrefixes(b, OPENERS[1..][1..]) == TrimPrefixes(c, OPENERS[1..][1..][1..]);
  }

  lemma NoSlash(u: string, o: string)
    requires u != "" && u[0] != '/' && "/*!" <= o
    ensures TrimPrefix(u, o) == u
  {
    Mismatch(u, o, 0);
  }

  lemma OpenerIsCut(o: string, u: string)
    requires Opener(o) && u != "" && u[0] != '/' && !IsDigit(u[0])
    ensures TrimPrefixes(o + u, OPENERS) == u
  {
    var x := o + u;
    FourCuts(x);
    if o == "/*!40000 " {
      Match(o, u);
      NoSlash(u, "/*!40101 ");
      NoSlash(u, "/*!32312 ");
      NoSlash(u, "/*!");
    } else if o == "/*!40101 " {
      Mismatch(x, "/*!40000 ", 5);
      Match(o, u);
      NoSlash(u, "/*!32312 ");
      NoSlash(u, "/*!");
    } else if o == "/*!32312 " {
      Mismatch(x, "/*!40000 ", 3);
      Mismatch(x, "/*!40101 ", 3);
      Match(o, u);
      NoSlash(u, "/*!");
    } else {
      assert x[3] == u[0];
      Mismatch(x, "/*!40000 ", 3);
      Mismatch(x, "/*!40101 ", 3);
      Mismatch(x, "/*!32312 ", 3);
      Match(o, u);
    }
  }

  /** Behind an opener a statement is what it is without it. */
  lemma ClassBehindOpener(o: string, q: string)
    requires Opener(o) && q != "" && Tight(q) && q[0] != '/' && !IsDigit(q[0])
    ensures Classify(o + q) == Classify(q)
  {
    OpenerFacts(o);
    UpperConcat(o, q);
    assert Upper(q)[0] == UpperChar(q[0]);
    OpenerIsCut(o, Upper(q));
    NoOpener(Upper(q), OPENERS);
  }

  /** Words that are what the import itself sends to select its target. */
  predicate TargetUse(q: string, targetDB: string) {
    q == "USE " + SafeQuoteIdentifier(targetDB)
  }

  /** Nothing that is sent selects or creates a database, openly or behind a comment opener, but the target's own USE. */
  lemma NothingForeignIsSent(t: Trace, targetDB: string, o: string, q: string)
    requires (o == "" || Opener(o)) && o + q in Executed(t, targetDB) && !TargetUse(o + q, targetDB)
    requires q != "" && Tight(q) && q[0] != '/' && !IsDigit(q[0])
    ensures !Selects(q) && !Creates(q)
  {
    OnlyTheTargetIsSelected(t, targetDB, o + q);
    ClassInWords(q);
    if o == "" { assert o + q == q; } else { ClassBehindOpener(o, q); }
  }

  // ----- A statement nothing ends -----

  /** A DELIMITER line that runs up to the end of the input. */
  predicate OpenDirective(s: Scan, rest: string)
    requires rest != ""
  {
    s.mode.Plain? && IsDirective(rest) && Step(s, rest).fate.Directive? && LineEnd(rest, 10) == |rest|
  }

  /** A semicolon behind the input changes a step only where a DELIMITER line or a string runs up to the end. */
  lemma StepWithSemicolon(s: Scan, rest: string)
    requires rest != "" && !OpenDirective(s, rest)
    requires !(rest == "\\" && (s.mode.SingleQuote? || s.mode.DoubleQuote?))
    ensures Step(s, rest + ";") == Step(s, rest)
  {
    var all := rest + ";";
    assert all[0] == rest[0] && all[..1] == rest[..1];
    if |rest| > 1 { assert all[1] == rest[1] && all[..2] == rest[..2]; }
    if |rest| > 2 { assert all[2] == rest[2]; }
    if s.mode.Plain? {
      SameKeyword(rest);
      if IsDirective(rest) && LineEnd(rest, 10) < |rest| { DirectiveWithSemicolon(s, rest); }
    }
  }

  lemma SameKeyword(rest: string)
    requires rest != ""
    ensures IsDirective(rest + ";") <==> IsDirective(rest)
  {
    var all := rest + ";";
    assert all[0] == rest[0];
    if |rest| == 9 {
      assert Upper(all[1..10])[8] == UpperChar(all[9]) == ';' && Upper("elimiter ")[8] == ' ';
    } else if |rest| >= 10 {
      assert all[1..10] == rest[1..10];
    }
  }

  lemma DirectiveWithSemicolon(s: Scan, rest: string)
    requires rest != "" && IsDirective(rest) && IsDirective(rest + ";") && LineEnd(rest, 10) < |rest|
    ensures StepDirective(s, rest + ";") == StepDirective(s, rest)
  {
    LineEndSame(rest, 10);
    var e := LineEnd(rest, 10);
    SameSlice(rest, 10, e);
  }

  lemma SameSlice(rest: string, i: nat, e: nat)
    requires i <= e <= |rest|
    ensures (rest + ";")[i..e] == rest[i..e]
  {
  }

  lemma LineEndSame(rest: string, n: nat)
    requires n <= |rest| && LineEnd(rest, n) < |rest|
    ensures LineEnd(rest + ";", n) == LineEnd(rest, n)
  {
    var all, e := rest + ";", LineEnd(rest, n);
    assert all[e] == rest[e];
    forall k | n <= k < e ensures all[k] != '\n' && all[k] != '\r' { assert all[k] == rest[k]; }
    LineEndIs(all, n, e);
  }

  /** What a final semicolon does to a run: it cuts what is in the buffer, or belongs to a DELIMITER line. */
  ghost predicate Finished(t: Trace, u: Trace) {
    || (u.hits == t.hits + [Hit(t.last.stmt, ";")] && u.last.stmt == "")
    || (u.hits == t.hits && t.last.stmt == "" && u.last.stmt == "")
  }

  lemma FinishedLater(m: seq<Hit>, t: Trace, u: Trace)
    requires Finished(t, u)
    ensures Finished(Trace(m + t.hits, t.last), Trace(m + u.hits, u.last))
  {
    assert m + (t.hits + [Hit(t.last.stmt, ";")]) == (m + t.hits) + [Hit(t.last.stmt, ";")];
  }

  lemma DirectiveAtEnd(s: Scan, rest: string)
    requires rest != "" && OpenDirective(s, rest)
    ensures Finished(Run(s, rest), Run(s, rest + ";"))
  {
    var all, n := rest + ";", |rest|;
    SameKeyword(rest);
    forall k | 10 <= k < n + 1 ensures all[k] != '\n' && all[k] != '\r' { if k < n { assert all[k] == rest[k]; } }
    LineEndIs(all, 10, n + 1);
    assert all[0] == rest[0];
    assert Step(s, rest) == StepDirective(s, rest) && Step(s, all) == StepDirective(s, all);
    assert rest + "" == rest && all + "" == all;
    SilentStep(s, rest, "", Step(s, rest).next);
    SilentStep(s, all, "", Step(s, all).next);
  }

  lemma {:induction false} FinalSemicolon(s: Scan, rest: string)
    requires Run(s, rest).last.mode.Plain? && Run(s, rest).last.delim == ";"
    ensures Finished(Run(s, rest), Run(s, rest + ";"))
    decreases |rest|
  {
    if rest == "" {
      assert "" + ";" == ";" && ";" + "" == ";";
      SemiRun(s, "");
      assert [] + [Hit(s.stmt, ";")] == [Hit(s.stmt, ";")];
    } else if OpenDirective(s, rest) {
      DirectiveAtEnd(s, rest);
    } else {
      if rest == "\\" && (s.mode.SingleQuote? || s.mode.DoubleQuote?) { EndsInString(s, rest); }
      StepWithSemicolon(s, rest);
      var m := Step(s, rest);
      assert (rest + ";")[m.n..] == rest[m.n..] + ";";
      RunStep(s, rest);
      RunStep(s, rest + ";");
      FinalSemicolon(m.next, rest[m.n..]);
      FinishedLater(HitsOf(m), Run(m.next, rest[m.n..]), Run(m.next, rest[m.n..] + ";"));
    }
  }

  lemma EndsInString(s: Scan, rest: string)
    requires rest == "\\" && (s.mode.SingleQuote? || s.mode.DoubleQuote?)
    ensures !Run(s, rest).last.mode.Plain?
  {
    var m := Step(s, rest);
    assert rest[..1] == rest && rest[1..] == "";
    assert Run(m.next, "") == Trace([], m.next);
  }

  lemma {:induction false} HitQueriesAppend(a: seq<Hit>, b: seq<Hit>, targetDB: string)
    ensures HitQueries(a + b, targetDB) == HitQueries(a, targetDB) + HitQueries(b, targetDB)
  {
    if a == [] {
      assert a + b == b;
    } else {
      assert (a + b)[1..] == a[1..] + b;
      HitQueriesAppend(a[1..], b, targetDB);
    }
  }

  /** What a run leaves in its buffer is sent like a statement that was cut, unless it selects or creates a database. */
  lemma LastStatementIsSent(t: Trace, targetDB: string)
    ensures var q := Trim(t.last.stmt);
            Executed(t, targetDB) == HitQueries(t.hits, targetDB) + (if q != "" && Classify(q) == Ordinary then [q] else [])
  {
  }

  lemma OneHit(h: Hit, targetDB: string)
    ensures HitQueries([h], targetDB) == Queries(h, targetDB)
  {
    assert [h][1..] == [];
  }

  /**
   For input that ends outside quotes and comments, under the usual delimiter: a delimiter at its
   end makes no difference, exactly when what the input ends with does not select a database.
   */
  lemma FinalDelimiterIff(input: string, targetDB: string)
    requires Run(START, input).last.mode.Plain? && Run(START, input).last.delim == ";"
    ensures Executed(Run(START, input + ";"), targetDB) == Executed(Run(START, input), targetDB) <==>
            Classify(Trim(Run(START, input).last.stmt)) != UseDatabase
  {
    var t, u := Run(START, input), Run(START, input + ";");
    FinalSemicolon(START, input);
    EmptyClass();
    if u.hits != t.hits {
      var h := Hit(t.last.stmt, ";");
      HitQueriesAppend(t.hits, [h], targetDB);
      OneHit(h, targetDB);
    }
  }

  lemma EmptyClass()
    ensures Classify("") == Ordinary
  {
    EmptyStrip(OPENERS);
    assert Upper("") == "" && Trim("") == "";
  }
}
