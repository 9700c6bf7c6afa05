/**
 What the sanitiser guarantees about its output: no line creates a database, and
 every line that selects one selects the target.
 */
module SqlClosure {
  import opened Text
  import opened SqlScanner
  import opened SqlSanitizer

  // ----- Classification looks at the head of a statement only -----

  /** A statement that starts with a visible byte other than a slash is classified by that byte's letter. */
  lemma ClassOfHead(q: string)
    requires q != "" && !IsSpace(q[0]) && q[0] != '/'
    ensures UpperChar(q[0]) != 'C' ==> Classify(q) != CreateDatabase
    ensures UpperChar(q[0]) != 'U' ==> Classify(q) != UseDatabase
  {
    var u := Upper(q);
    assert u[0] == UpperChar(q[0]);
    NoOpener(u, OPENERS);
    HeadSurvives(u);
  }

  lemma {:induction false} NoOpener(u: string, openers: seq<string>)
    requires u != "" && u[0] != '/' && forall i :: 0 <= i < |openers| ==> openers[i] != "" && openers[i][0] == '/'
    ensures TrimPrefixes(u, openers) == u
    decreases |openers|
  {
    if openers != [] {
      assert !HasPrefix(u, openers[0]);
      NoOpener(u, openers[1..]);
    }
  }

  lemma HeadSurvives(u: string)
    requires u != "" && !IsSpace(u[0])
    ensures Trim(u) != "" && Trim(u)[0] == u[0]
  {
    VisibleHead("", u);
    assert "" + u == u;
  }

  /** Trimming a text whose tail is not blank keeps its head up to that tail. */
  lemma VisibleHead(p: string, r: string)
    requires !Blank(r) && (p == "" ==> r != "" && !IsSpace(r[0])) && (p != "" ==> !IsSpace(p[0]))
    ensures Trim(p + r) == p + TrimRight(r)
    ensures TrimRight(r) != "" && TrimRight(r)[0] == r[0]
  {
    assert TrimLeft(p + r) == p + r;
    TrimRightTail(p, r);
    var q := TrimRightSplit(r);
    BlankConcat(TrimRight(r), q);
  }

  lemma {:induction false} TrimRightTail(p: string, r: string)
    requires !Blank(r)
    ensures TrimRight(p + r) == p + TrimRight(r)
    decreases |r|
  {
    var n := |r| - 1;
    assert (p + r)[|p + r| - 1] == r[n];
    if IsSpace(r[n]) {
      assert (p + r)[..|p + r| - 1] == p + r[..n];
      assert r == r[..n] + [r[n]];
      BlankConcat(r[..n], [r[n]]);
      TrimRightTail(p, r[..n]);
    }
  }

  /** Text without the letters the classified keywords start with. */
  predicate Harmless(u: string) {
    forall i :: 0 <= i < |u| ==> u[i] != 'U' && u[i] != 'C'
  }

  predicate HarmlessOpeners(openers: seq<string>) {
    forall i :: 0 <= i < |openers| ==> Harmless(openers[i]) && '`' !in openers[i]
  }

  /** Removing an opener from a harmless head before a backtick leaves such a head. */
  lemma {:induction false} HarmlessStrip(u: string, w: string, openers: seq<string>) returns (left: string)
    requires Harmless(u) && w != "" && w[0] == '`' && HarmlessOpeners(openers)
    ensures TrimPrefixes(u + w, openers) == left + w && Harmless(left)
    decreases |openers|
  {
    left := u;
    if openers != [] {
      var o := openers[0];
      HasPrefixIs(u + w, o);
      if HasPrefix(u + w, o) {
        ShortOpener(u, w, o);
        assert (u + w)[|o|..] == u[|o|..] + w;
        left := HarmlessStrip(u[|o|..], w, openers[1..]);
      } else {
        left := HarmlessStrip(u, w, openers[1..]);
      }
    }
  }

  /** An opener holds no backtick, so it ends before one. */
  lemma ShortOpener(u: string, w: string, o: string)
    requires o <= u + w && w != "" && w[0] == '`' && '`' !in o
    ensures |o| <= |u|
  {
    forall i | 0 <= i < |o|
      ensures (u + w)[i] != '`'
    {
      assert (u + w)[i] == o[i];
    }
    assert (u + w)[|u|] == '`';
  }

  lemma HeadDecides(u: string, r: string, w: string, o: string)
    ensures |o| <= |u| ==> (o <= u + r <==> o <= u + w)
  {
    if |o| <= |u| {
      assert (u + r)[..|o|] == u[..|o|] && (u + w)[..|o|] == u[..|o|];
    }
  }

  /**
   Two texts with the same head, one going on with a backtick: removing openers
   either takes the same from both, or leaves the second with a harmless head.
   */
  lemma {:induction false} StripPair(u: string, r: string, w: string, openers: seq<string>) returns (left: string)
    requires w != "" && w[0] == '`' && HarmlessOpeners(openers)
    ensures TrimPrefixes(u + w, openers) == left + w
    ensures TrimPrefixes(u + r, openers) == left + r || Harmless(left)
    decreases |openers|
  {
    left := u;
    if openers != [] {
      var o := openers[0];
      HasPrefixIs(u + w, o);
      HasPrefixIs(u + r, o);
      if HasPrefix(u + w, o) {
        ShortOpener(u, w, o);
        assert (u + w)[|o|..] == u[|o|..] + w && (u + r)[|o|..] == u[|o|..] + r;
        assert o == (u + r)[..|o|];
        left := StripPair(u[|o|..], r, w, openers[1..]);
      } else if HasPrefix(u + r, o) {
        HeadDecides(u, r, w, o);
        assert forall i :: 0 <= i < |u| ==> u[i] == o[i];
        left := HarmlessStrip(u, w, openers[1..]);
      } else {
        left := StripPair(u, r, w, openers[1..]);
      }
    }
  }

  /** Keywords without backticks are found before the backtick or not at all. */
  lemma KeywordBeforeTick(p: string, r: string, w: string, keyword: string)
    requires w != "" && w[0] == '`' && '`' !in keyword && HasPrefix(p + w, keyword)
    ensures HasPrefix(p + r, keyword)
  {
    HasPrefixIs(p + w, keyword);
    ShortOpener(p, w, keyword);
    assert keyword == (p + r)[..|keyword|];
    HasPrefixIs(p + r, keyword);
  }

  lemma HarmlessKeyword(c: string)
    requires c != "" && c[0] != 'U' && c[0] != 'C'
    ensures Keyword(c) == Ordinary
  {
  }

  lemma Regrouped(u: string, s: string, p: string, w: string)
    requires u == s + p
    ensures u + w == s + (p + w)
  {
  }

  /** After cleaning, a head followed by a backtick says no more than the same head followed by anything visible. */
  lemma CleanedPair(u: string, r: string, w: string)
    requires w != "" && w[0] == '`' && !Blank(r)
    ensures Keyword(Trim(u + w)) == Ordinary || Keyword(Trim(u + w)) == Keyword(Trim(u + r))
  {
    var s := TrimLeftSplit(u);
    var p := TrimLeft(u);
    assert !Blank(w) by { assert !IsSpace(w[0]); }
    Regrouped(u, s, p, w);
    Regrouped(u, s, p, r);
    TrimLeftDrops(s, p + w);
    TrimLeftDrops(s, p + r);
    VisibleHead(p, w);
    if p == "" {
      HarmlessKeyword(Trim(u + w));
    } else {
      VisibleHead(p, r);
      KeywordsAgree(p, TrimRight(r), TrimRight(w));
    }
  }

  lemma KeywordsAgree(p: string, r: string, w: string)
    requires w != "" && w[0] == '`'
    ensures Keyword(p + w) == Ordinary || Keyword(p + w) == Keyword(p + r)
  {
    if HasPrefix(p + w, "USE ") {
      KeywordBeforeTick(p, r, w, "USE ");
    } else if HasPrefix(p + w, "CREATE DATABASE") {
      KeywordBeforeTick(p, r, w, "CREATE DATABASE");
      CreateIsNotUse(p + r);
    } else if HasPrefix(p + w, "CREATE SCHEMA") {
      KeywordBeforeTick(p, r, w, "CREATE SCHEMA");
      CreateIsNotUse(p + r);
    }
  }

  lemma CreateIsNotUse(c: string)
    requires HasPrefix(c, "CREATE DATABASE") || HasPrefix(c, "CREATE SCHEMA")
    ensures Keyword(c) == CreateDatabase
  {
    assert c[0] == 'C';
  }

  lemma HarmlessHead(u: string, w: string)
    requires Harmless(u) && w != "" && w[0] == '`'
    ensures Keyword(Trim(u + w)) == Ordinary
  {
    var s := TrimLeftSplit(u);
    var p := TrimLeft(u);
    assert !Blank(w) by { assert !IsSpace(w[0]); }
    Regrouped(u, s, p, w);
    TrimLeftDrops(s, p + w);
    VisibleHead(p, w);
    if p != "" { assert p[0] == u[|s|]; }
    HarmlessKeyword(Trim(u + w));
  }

  lemma OpenersAreHarmless()
    ensures HarmlessOpeners(OPENERS)
  {
  }

  /** Trimming a text with a visible tail. */
  lemma TrimTail(u: string, w: string)
    requires !Blank(w) && (TrimLeft(u) == "" ==> !IsSpace(w[0]))
    ensures Trim(u + w) == TrimLeft(u) + TrimRight(w)
    ensures TrimRight(w) != "" && TrimRight(w)[0] == w[0]
  {
    var s := TrimLeftSplit(u);
    Regrouped(u, s, TrimLeft(u), w);
    TrimLeftDrops(s, TrimLeft(u) + w);
    VisibleHead(TrimLeft(u), w);
  }

  /** Replacing the tail of a line by text that starts with a backtick never makes it a USE or CREATE DATABASE line. */
  lemma TickedTail(u: string, r: string, w: string)
    requires w != "" && w[0] == '`' && !Blank(r)
    ensures Classify(Trim(u + w)) == Ordinary || Classify(Trim(u + w)) == Classify(Trim(u + r))
  {
    assert !Blank(w) by { assert !IsSpace(w[0]); }
    TrimTail(u, w);
    if TrimLeft(u) == "" {
      assert "" + TrimRight(w) == TrimRight(w);
      ClassOfHead(TrimRight(w));
    } else {
      TrimTail(u, r);
      TickedTrimmed(TrimLeft(u), TrimRight(r), TrimRight(w), r);
    }
  }

  lemma TickedTrimmed(p: string, r: string, w: string, r0: string)
    requires w != "" && w[0] == '`' && !Blank(r0) && r == TrimRight(r0)
    ensures Classify(p + w) == Ordinary || Classify(p + w) == Classify(p + r)
  {
    UpperConcat(p, w);
    UpperConcat(p, r);
    OpenersAreHarmless();
    var uw, ur := Upper(w), Upper(r);
    assert uw[0] == '`';
    assert !Blank(ur) by {
      var q := TrimRightSplit(r0);
      BlankConcat(r, q);
      assert !IsSpace(r[|r| - 1]);
      assert !IsSpace(ur[|r| - 1]);
    }
    var left := StripPair(Upper(p), ur, uw, OPENERS);
    if Harmless(left) {
      HarmlessHead(left, uw);
    } else {
      CleanedPair(left, ur, uw);
    }
  }

  lemma UpperConcat(a: string, b: string)
    ensures Upper(a + b) == Upper(a) + Upper(b)
  {
  }

  // ----- Rewriting qualified names -----

  /** A replacement either changes nothing or starts at some first place. */
  lemma {:induction false} FirstReplaced(s: string, find: string, put: string) returns (u: string, r: string, w: string)
    requires find != ""
    ensures s == u + r && ReplaceAll(s, find, put) == u + w
    ensures (r == w == "") || (find <= r && put <= w)
  {
    HasPrefixIs(s, find);
    if |s| < |find| {
      u, r, w := s, "", "";
    } else if find <= s {
      u, r, w := "", s, ReplaceAll(s, find, put);
    } else {
      u, r, w := FirstReplaced(s[1..], find, put);
      u := [s[0]] + u;
      assert s == [s[0]] + s[1..];
    }
  }

  lemma ReplacedLine(s: string, find: string, put: string)
    requires find != "" && !Blank(find) && put != "" && put[0] == '`' && Classify(Trim(s)) == Ordinary
    ensures Classify(Trim(ReplaceAll(s, find, put))) == Ordinary
  {
    var u, r, w := FirstReplaced(s, find, put);
    if r != "" || w != "" {
      assert r == r[..|find|] + r[|find|..] && r[..|find|] == find;
      BlankConcat(find, r[|find|..]);
      assert w[0] == put[0];
      TickedTail(u, r, w);
    }
  }

  /** Redirecting qualified names cannot turn an ordinary line into one that selects or creates a database. */
  lemma QualifyKeepsOrdinary(line: string, detected: string, db: string)
    requires Classify(Trim(line)) == Ordinary
    ensures Classify(Trim(Qualify(line, detected, db))) == Ordinary
  {
    if detected != "" {
      var quoted, bare, put := "`" + detected + "`.", detected + ".", "`" + db + "`.";
      assert !IsSpace(quoted[0]) && !IsSpace(bare[|bare| - 1]);
      ReplacedLine(line, quoted, put);
      ReplacedLine(ReplaceAll(line, quoted, put), bare, put);
    }
  }

  // ----- The output, line by line -----

  /** A line the sanitiser may write: never a CREATE DATABASE, and only the target's USE. */
  predicate LineOk(l: string, tg: Target) {
    Classify(Trim(l)) != CreateDatabase && (Classify(Trim(l)) == UseDatabase ==> l == tg.useLine)
  }

  predicate GoodLine(l: string, tg: Target) {
    '\n' !in l && LineOk(l, tg)
  }

  predicate LinesOk(text: string, tg: Target) {
    forall i :: 0 <= i < |SplitOn(text, '\n')| ==> LineOk(SplitOn(text, '\n')[i], tg)
  }

  lemma {:induction false} SplitLine(l: string, rest: string)
    requires '\n' !in l
    ensures SplitOn(l + "\n" + rest, '\n') == [l] + SplitOn(rest, '\n')
    decreases |l|
  {
    var all := l + "\n" + rest;
    if l == "" {
      assert all[0] == '\n' && all[1..] == rest;
    } else {
      assert all[0] == l[0] && all[1..] == l[1..] + "\n" + rest;
      SplitLine(l[1..], rest);
      assert [l[0]] + l[1..] == l;
    }
  }

  lemma LinesCons(l: string, rest: string, tg: Target)
    requires '\n' !in l
    ensures LinesOk(l + "\n" + rest, tg) <==> LineOk(l, tg) && LinesOk(rest, tg)
  {
    SplitLine(l, rest);
    var lines := SplitOn(rest, '\n');
    assert ([l] + lines)[0] == l && forall i :: 0 <= i < |lines| ==> ([l] + lines)[i + 1] == lines[i];
    assert forall i :: 0 < i < |[l] + lines| ==> ([l] + lines)[i] == lines[i - 1];
  }

  /** Every line break comes within the read buffer, and so does the end of the last line. */
  predicate Fits(rest: string, size: nat)
    decreases |rest|
  {
    if rest == [] then true
    else
      var k := NewlineAt(rest);
      k < size && (k < |rest| ==> Fits(rest[k + 1..], size))
  }

  lemma {:induction false} ReplaceKeepsLine(s: string, find: string, put: string)
    requires find != "" && '\n' !in s && '\n' !in put
    ensures '\n' !in ReplaceAll(s, find, put)
  {
    if |s| >= |find| {
      if find <= s {
        assert forall i :: 0 <= i < |s[|find|..]| ==> s[|find|..][i] == s[i + |find|];
        ReplaceKeepsLine(s[|find|..], find, put);
      } else {
        assert forall i :: 0 <= i < |s[1..]| ==> s[1..][i] == s[i + 1];
        ReplaceKeepsLine(s[1..], find, put);
      }
    }
  }

  lemma QuotedName(db: string)
    requires '\n' !in db
    ensures '\n' !in SafeQuoteIdentifier(db)
  {
    ReplaceKeepsLine(db, "`", "``");
  }

  lemma UseLineOk(db: string)
    requires '\n' !in db
    ensures GoodLine(TargetFor(db).useLine, TargetFor(db))
  {
    QuotedName(db);
    HeadOfLine(TargetFor(db).useLine);
  }

  lemma SkippedLineOk(db: string)
    requires '\n' !in db
    ensures GoodLine(TargetFor(db).skippedLine, TargetFor(db))
  {
    QuotedName(db);
    Surrounded("-- [Hostvra] Preserved target schema: ", SafeQuoteIdentifier(db), " (skipped conflicting CREATE DATABASE)");
    HeadOfLine(TargetFor(db).skippedLine);
  }

  lemma Surrounded(a: string, q: string, b: string)
    requires '\n' !in a && '\n' !in q && '\n' !in b
    ensures '\n' !in a + q + b
  {
  }

  /** A line that starts with a visible byte other than a slash is classified by that byte. */
  lemma HeadOfLine(l: string)
    requires l != "" && !IsSpace(l[0]) && l[0] != '/'
    ensures UpperChar(l[0]) != 'C' ==> Classify(Trim(l)) != CreateDatabase
    ensures UpperChar(l[0]) != 'U' ==> Classify(Trim(l)) != UseDatabase
  {
    HeadSurvives(l);
    ClassOfHead(Trim(l));
  }

  lemma LineTextOk(line: string, detected: string, tg: Target)
    requires '\n' !in line && '\n' !in tg.db && tg == TargetFor(tg.db)
    ensures '\n' !in LineText(line, detected, tg) && LineOk(LineText(line, detected, tg), tg)
  {
    UseLineOk(tg.db);
    SkippedLineOk(tg.db);
    if Classify(Trim(line)).Ordinary? {
      QualifyKeepsOrdinary(line, detected, tg.db);
      if detected != "" {
        var quoted, put := "`" + detected + "`.", "`" + tg.db + "`.";
        ReplaceKeepsLine(line, quoted, put);
        ReplaceKeepsLine(ReplaceAll(line, quoted, put), detected + ".", put);
      }
    }
  }

  lemma {:induction false} BodyLinesOk(rest: string, size: nat, detected: string, tg: Target, tail: string)
    requires size > 1 && Fits(rest, size) && '\n' !in tg.db && tg == TargetFor(tg.db) && LinesOk(tail, tg)
    ensures LinesOk(Body(rest, size, detected, tg) + tail, tg)
    decreases |rest|
  {
    if rest == [] {
      assert Body(rest, size, detected, tg) + tail == tail;
    } else {
      var c := ReadLine(rest, size);
      var text, later := LineText(c.line, detected, tg), Body(rest[c.n..], size, DetectedAfter(c.line, detected, tg), tg);
      WholeLine(rest, size);
      BodyLinesOk(rest[c.n..], size, DetectedAfter(c.line, detected, tg), tg, tail);
      LineTextOk(c.line, detected, tg);
      LinesCons(text, later + tail, tg);
      Assoc(text + "\n", later, tail);
    }
  }

  lemma WholeLine(rest: string, size: nat)
    requires size > 1 && rest != [] && Fits(rest, size)
    ensures var c := ReadLine(rest, size); !c.isPrefix && '\n' !in c.line && Fits(rest[c.n..], size)
  {
    var k := NewlineAt(rest);
    if k == |rest| { assert rest[..k] == rest; }
  }

  // The five fixed lines are conditional comments whose content is a SET.

  lemma StripStep(u: string, openers: seq<string>)
    requires openers != []
    ensures TrimPrefixes(u, openers) == TrimPrefixes(TrimPrefix(u, openers[0]), openers[1..])
  {
  }

  lemma Mismatch(u: string, o: string, i: nat)
    requires i < |u| && i < |o| && u[i] != o[i]
    ensures TrimPrefix(u, o) == u
  {
    HasPrefixIs(u, o);
  }

  lemma Match(o: string, u: string)
    ensures TrimPrefix(o + u, o) == u
  {
    HasPrefixIs(o + u, o);
    assert (o + u)[|o|..] == u;
  }

  /** A 40101 comment is cleaned down to its content. */
  lemma Strip40101(u: string)
    requires u != "" && u[0] != '/'
    ensures TrimPrefixes("/*!40101 " + u, OPENERS) == u
  {
    var x := "/*!40101 " + u;
    StripStep(x, OPENERS);
    Mismatch(x, "/*!40000 ", 5);
    StripStep(x, OPENERS[1..]);
    Match("/*!40101 ", u);
    NoOpener(u, OPENERS[1..][1..]);
  }

  /** A 40014 comment only loses its three opening bytes. */
  lemma Strip40014(x: string)
    requires |x| > 6 && "/*!" <= x && x[3] == '4' && x[5] == '0' && x[6] == '1'
    ensures TrimPrefixes(x, OPENERS) == x[3..]
  {
    StripStep(x, OPENERS);
    Mismatch(x, "/*!40000 ", 6);
    StripStep(x, OPENERS[1..]);
    Mismatch(x, "/*!40101 ", 5);
    StripStep(x, OPENERS[1..][1..]);
    Mismatch(x, "/*!32312 ", 3);
    StripStep(x, OPENERS[1..][1..][1..]);
    Match("/*!", x[3..]);
    assert x == "/*!" + x[3..];
  }

  /** A tight line whose cleaned text starts with a harmless byte. */
  lemma HarmlessLine(l: string, r: string)
    requires Tight(l) && TrimPrefixes(Upper(l), OPENERS) == r
    requires r != "" && !IsSpace(r[0]) && r[0] != 'U' && r[0] != 'C'
    ensures Classify(Trim(l)) == Ordinary
  {
    TrimPadded("", l, "");
    assert "" + l + "" == l;
    HeadSurvives(r);
    HarmlessKeyword(Trim(r));
  }

  lemma Setting40101(l: string)
    requires "/*!40101 " <= l && |l| > 9 && l[9] == 'S' && Tight(l)
    ensures Classify(Trim(l)) == Ordinary
  {
    var u := Upper(l);
    UpperOpener(l, u);
    Strip40101(u[9..]);
    HarmlessLine(l, u[9..]);
  }

  lemma UpperOpener(l: string, u: string)
    requires "/*!40101 " <= l && |l| > 9 && l[9] == 'S' && u == Upper(l)
    ensures u == "/*!40101 " + u[9..] && u[9] == 'S'
  {
    assert u[9] == UpperChar(l[9]);
    forall i | 0 <= i < 9
      ensures u[i] == "/*!40101 "[i]
    {
      assert u[i] == UpperChar(l[i]) && l[i] == "/*!40101 "[i];
    }
  }

  lemma Setting40014(l: string)
    requires "/*!40014 " <= l && Tight(l)
    ensures Classify(Trim(l)) == Ordinary
  {
    var u := Upper(l);
    assert u[0] == '/' && u[1] == '*' && u[2] == '!' && u[3] == '4' && u[5] == '0' && u[6] == '1';
    Strip40014(u);
    HarmlessLine(l, u[3..]);
  }

  lemma {:induction false} UnlinesOk(lines: seq<string>, tail: string, tg: Target)
    requires forall i :: 0 <= i < |lines| ==> GoodLine(lines[i], tg)
    ensures LinesOk(Unlines(lines) + tail, tg) <==> LinesOk(tail, tg)
  {
    if lines == [] {
      assert "" + tail == tail;
    } else {
      assert GoodLine(lines[0], tg);
      UnlinesOk(lines[1..], tail, tg);
      LinesCons(lines[0], Unlines(lines[1..]) + tail, tg);
      Assoc(lines[0] + "\n", Unlines(lines[1..]), tail);
    }
  }

  predicate IsNames(l: string) { l == "/*!40101 SET NAMES utf8mb4 */;" }

  predicate IsUnique(l: string) {
    l == "/*!40101 SET UNIQUE_CHECKS=0 */;" || l == "/*!40101 SET UNIQUE_CHECKS=1 */;"
  }

  predicate IsForeign(l: string) {
    l == "/*!40014 SET FOREIGN_KEY_CHECKS=0 */;" || l == "/*!40014 SET FOREIGN_KEY_CHECKS=1 */;"
  }

  predicate IsSetting(l: string) { IsNames(l) || IsUnique(l) || IsForeign(l) }

  predicate Shaped(l: string) {
    && Tight(l) && '\n' !in l
    && (("/*!40101 " <= l && |l| > 9 && l[9] == 'S') || "/*!40014 " <= l)
  }

  lemma NamesShaped(l: string)
    requires IsNames(l)
    ensures Shaped(l)
  {
  }

  lemma UniqueShaped(l: string)
    requires IsUnique(l)
    ensures Shaped(l)
  {
  }

  lemma ForeignShaped(l: string)
    requires IsForeign(l)
    ensures Shaped(l)
  {
  }

  lemma SettingLine(l: string, tg: Target)
    requires IsSetting(l)
    ensures GoodLine(l, tg)
  {
    if IsNames(l) {
      NamesShaped(l);
    } else if IsUnique(l) {
      UniqueShaped(l);
    } else {
      ForeignShaped(l);
    }
    if "/*!40101 " <= l {
      Setting40101(l);
    } else {
      Setting40014(l);
    }
  }

  lemma BlankLineOk(tg: Target)
    ensures GoodLine("", tg) && LinesOk("", tg)
  {
    assert Trim("") == "" && Upper("") == "";
    assert TrimPrefixes("", OPENERS) == "" by { EmptyStrip(OPENERS); }
  }

  lemma {:induction false} EmptyStrip(openers: seq<string>)
    ensures TrimPrefixes("", openers) == ""
    decreases |openers|
  {
    if openers != [] {
      EmptyStrip(openers[1..]);
    }
  }

  lemma FiveLines(ls: seq<string>, a: string, b: string, c: string, d: string, e: string, tail: string, tg: Target)
    requires ls == [a, b, c, d, e]
    requires GoodLine(a, tg) && GoodLine(b, tg) && GoodLine(c, tg) && GoodLine(d, tg) && GoodLine(e, tg)
    ensures LinesOk(Unlines(ls) + tail, tg) <==> LinesOk(tail, tg)
  {
    UnlinesOk(ls, tail, tg);
  }

  lemma ThreeLines(ls: seq<string>, a: string, b: string, c: string, tg: Target)
    requires ls == [a, b, c] && GoodLine(a, tg) && GoodLine(b, tg) && GoodLine(c, tg)
    ensures LinesOk(Unlines(ls), tg)
  {
    BlankLineOk(tg);
    UnlinesOk(ls, "", tg);
    assert Unlines(ls) + "" == Unlines(ls);
  }

  lemma HeaderOk(tg: Target, tail: string)
    requires '\n' !in tg.db && tg == TargetFor(tg.db)
    ensures LinesOk(Unlines(HeaderLines(tg)) + tail, tg) <==> LinesOk(tail, tg)
  {
    var ls := HeaderLines(tg);
    SettingLine(ls[0], tg);
    SettingLine(ls[1], tg);
    SettingLine(ls[2], tg);
    UseLineOk(tg.db);
    BlankLineOk(tg);
    FiveLines(ls, ls[0], ls[1], ls[2], ls[3], ls[4], tail, tg);
  }

  lemma FooterOk(tg: Target)
    ensures LinesOk(Unlines(FooterLines()), tg)
  {
    var ls := FooterLines();
    BlankLineOk(tg);
    SettingLine(ls[1], tg);
    SettingLine(ls[2], tg);
    ThreeLines(ls, ls[0], ls[1], ls[2], tg);
  }

  /**
   Closure: for input whose lines fit the read buffer and a target name without line
   breaks, no line of the sanitised copy is classified as CREATE DATABASE, and every
   line classified as USE is exactly the target's.
   */
  lemma SanitizedLinesAreSafe(input: string, size: nat, db: string, maxBytes: nat)
    requires size > 1 && Fits(Limited(input, maxBytes), size) && '\n' !in db
    ensures LinesOk(Sanitized(input, size, db, maxBytes), TargetFor(db))
  {
    var tg := TargetFor(db);
    FooterOk(tg);
    BodyLinesOk(Limited(input, maxBytes), size, "", tg, Unlines(FooterLines()));
    HeaderOk(tg, Body(Limited(input, maxBytes), size, "", tg) + Unlines(FooterLines()));
    Assoc(Unlines(HeaderLines(tg)), Body(Limited(input, maxBytes), size, "", tg), Unlines(FooterLines()));
  }

  lemma TightTrim(q: string)
    requires Tight(q)
    ensures Trim(q) == q
  {
    TrimPadded("", q, "");
    assert "" + q + "" == q;
  }

  /** A visible text without openers is classified by its own upper-case form. */
  lemma ClassOfText(q: string, u: string)
    requires q != "" && Tight(q) && q[0] != '/' && u == Upper(q)
    ensures Classify(Trim(q)) == Keyword(u)
  {
    TightTrim(q);
    assert u[0] == UpperChar(q[0]) && u[|u| - 1] == UpperChar(q[|q| - 1]);
    NoOpener(u, OPENERS);
    TightTrim(u);
  }

  lemma ShortCreate(q: string)
    requires q == "CREATE D"
    ensures Tight(q) && Upper(q) == q && Keyword(q) == Ordinary && '\n' !in q
  {
    HasPrefixIs(q, "CREATE DATABASE");
    HasPrefixIs(q, "CREATE SCHEMA");
    assert q[7] == 'D';
  }

  lemma WholeCreate(q: string)
    requires q == "CREATE DATABASE x"
    ensures Tight(q) && q[0] == 'C' && '\n' !in q && HasPrefix(Upper(q), "CREATE DATABASE")
  {
    assert Upper(q)[..15] == "CREATE DATABASE";
    HasPrefixIs(Upper(q), "CREATE DATABASE");
  }

  // ----- Lines longer than the buffer -----

  /** The pieces a line is read in; a carriage return that would end a full piece is left for the next one. */
  function Pieces(line: string, size: nat): seq<string>
    requires size > 1
    decreases |line|
  {
    if |line| < size then [DropReturn(line)]
    else
      var n := if line[size - 1] == '\r' then size - 1 else size;
      [line[..n]] + Pieces(line[n..], size)
  }

  /** Every piece looks ordinary and names nothing that is redirected. */
  predicate Unremarkable(pieces: seq<string>, detected: string, tg: Target) {
    forall i :: 0 <= i < |pieces| ==> Classify(Trim(pieces[i])) == Ordinary && Qualify(pieces[i], detected, tg.db) == pieces[i]
  }

  lemma UnremarkableCons(head: string, later: seq<string>, detected: string, tg: Target)
    requires Unremarkable([head] + later, detected, tg)
    ensures Classify(Trim(head)) == Ordinary && Qualify(head, detected, tg.db) == head && Unremarkable(later, detected, tg)
  {
    assert ([head] + later)[0] == head && forall i :: 0 <= i < |later| ==> ([head] + later)[i + 1] == later[i];
  }

  lemma DropReturnTail(line: string, n: nat)
    requires n < |line|
    ensures DropReturn(line) == line[..n] + DropReturn(line[n..])
  {
    assert line[n..][|line| - n - 1] == line[|line| - 1];
    assert line == line[..n] + line[n..];
  }

  /** A line whose pieces are all unremarkable is written whole, however many there are. */
  lemma {:induction false} PiecesCopied(line: string, rest: string, size: nat, detected: string, tg: Target)
    requires size > 1 && '\n' !in line && Unremarkable(Pieces(line, size), detected, tg)
    ensures Body(line + "\n" + rest, size, detected, tg) == DropReturn(line) + "\n" + Body(rest, size, detected, tg)
    decreases |line|
  {
    var all := line + "\n" + rest;
    FirstBreak(line, rest);
    if |line| < size {
      assert all[..|line|] == line && all[|line| + 1..] == rest;
      assert [DropReturn(line)][0] == DropReturn(line);
    } else {
      var n := if line[size - 1] == '\r' then size - 1 else size;
      assert all[size - 1] == line[size - 1];
      var piece, left := line[..n], line[n..];
      assert all[..n] == piece && all[n..] == left + "\n" + rest;
      UnremarkableCons(piece, Pieces(left, size), detected, tg);
      PiecesCopied(left, rest, size, detected, tg);
      PieceThenLine(line, n, Body(rest, size, detected, tg));
    }
  }

  lemma PieceThenLine(line: string, n: nat, later: string)
    requires n <= |line| && (n == |line| ==> line == "" || line[n - 1] != '\r')
    ensures line[..n] + "" + (DropReturn(line[n..]) + "\n" + later) == DropReturn(line) + "\n" + later
  {
    if n < |line| {
      DropReturnTail(line, n);
    } else {
      assert line[..n] == line && line[n..] == "";
    }
    assert line[..n] + "" == line[..n];
    assert line[..n] + (DropReturn(line[n..]) + "\n" + later) == (line[..n] + DropReturn(line[n..])) + "\n" + later;
  }

  lemma TrimReturn(l: string)
    ensures Trim(DropReturn(l)) == Trim(l)
  {
    if l != "" && l[|l| - 1] == '\r' {
      var d := l[..|l| - 1];
      assert "" + d + "\r" == l;
      TrimAbsorbs("", d, "\r");
    }
  }

  lemma WholeInput(line: string, maxBytes: nat)
    requires |line| <= maxBytes
    ensures Limited(line + "\n", maxBytes) == line + "\n" + ""
  {
    assert line + "\n" + "" == line + "\n";
    assert |line + "\n"| == |line| + 1;
  }

  lemma SanitizedOneLine(line: string, size: nat, db: string, maxBytes: nat)
    requires size > 1 && '\n' !in line && '\n' !in db && |line| <= maxBytes
    requires Unremarkable(Pieces(line, size), "", TargetFor(db))
    ensures Sanitized(line + "\n", size, db, maxBytes) ==
            Unlines(HeaderLines(TargetFor(db))) + (DropReturn(line) + "\n" + Unlines(FooterLines()))
  {
    var tg := TargetFor(db);
    WholeInput(line, maxBytes);
    PiecesCopied(line, "", size, "", tg);
    var l := DropReturn(line) + "\n";
    assert l + "" == l;
    Assoc(Unlines(HeaderLines(tg)), l, Unlines(FooterLines()));
  }

  /**
   A line of any length whose pieces are unremarkable leaves the copy safe exactly when the
   whole line is ordinary, or is the target's own USE.
   */
  lemma LongLineIsSafeIff(line: string, size: nat, db: string, maxBytes: nat)
    requires size > 1 && '\n' !in line && '\n' !in db && |line| <= maxBytes
    requires Unremarkable(Pieces(line, size), "", TargetFor(db))
    ensures LinesOk(Sanitized(line + "\n", size, db, maxBytes), TargetFor(db)) <==>
            Classify(Trim(line)) == Ordinary || DropReturn(line) == TargetFor(db).useLine
  {
    var tg := TargetFor(db);
    SanitizedOneLine(line, size, db, maxBytes);
    HeaderOk(tg, DropReturn(line) + "\n" + Unlines(FooterLines()));
    LinesCons(DropReturn(line), Unlines(FooterLines()), tg);
    FooterOk(tg);
    TrimReturn(line);
    UseLineOk(tg.db);
  }

  function Blanks(n: nat): string {
    if n == 0 then "" else " " + Blanks(n - 1)
  }

  lemma {:induction false} BlanksAre(n: nat)
    ensures |Blanks(n)| == n && Blank(Blanks(n)) && '\n' !in Blanks(n)
  {
    if n > 0 { BlanksAre(n - 1); }
  }

  /** A line led by blanks so that the buffer is full in the middle of the keyword. */
  function Indented(size: nat): string
    requires size >= 8
  {
    Blanks(size - 8) + "CREATE DATABASE x"
  }

  lemma CreateHalves(q: string)
    requires q == "CREATE DATABASE x"
    ensures |q| == 17 && q[..8] == "CREATE D" && q[8..] == "ATABASE x"
  {
  }

  lemma HalvesOrdinary(p: string, a: string, b: string)
    requires Blank(p) && a == "CREATE D" && b == "ATABASE x"
    ensures Classify(Trim(p + a)) == Ordinary && Classify(Trim(b)) == Ordinary && Classify(Trim("")) == Ordinary
  {
    ShortCreate(a);
    assert p + a + "" == p + a;
    TrimAbsorbs(p, a, "");
    ClassOfText(a, Upper(a));
    HeadOfLine(b);
    NothingOrdinary();
  }

  lemma NothingOrdinary()
    ensures Classify(Trim("")) == Ordinary
  {
    BlankLineOk(TargetFor(""));
    assert Trim("") == "" && Upper("") == "";
    EmptyStrip(OPENERS);
    NoKeyword("");
  }

  lemma NoKeyword(q: string)
    requires q == ""
    ensures Keyword(q) == Ordinary
  {
  }

  /** A full first piece, and a second one that fills the buffer too or is the last. */
  lemma TwoPieces(line: string, h: string, b: string, size: nat)
    requires line == h + b && 1 < size == |h| && 0 < |b| <= size && h[size - 1] != '\r' && b[|b| - 1] != '\r'
    ensures Pieces(line, size) == [h] + (if |b| == size then [b] + [""] else [b])
  {
    assert line[..size] == h && line[size..] == b && line[size - 1] == h[size - 1];
    assert DropReturn(b) == b && DropReturn("") == "";
    if |b| == size {
      assert b[..size] == b && b[size..] == "";
      assert Pieces("", size) == [""];
    }
  }

  lemma ThreeUnremarkable(a: string, b: string, c: string, tg: Target)
    requires Classify(Trim(a)) == Ordinary && Classify(Trim(b)) == Ordinary && Classify(Trim(c)) == Ordinary
    ensures Unremarkable([a] + [b], "", tg) && Unremarkable([a] + ([b] + [c]), "", tg)
  {
  }

  lemma HalvesUnremarkable(p: string, a: string, b: string, size: nat, tg: Target)
    requires Blank(p) && |p| + 8 == size > 8 && a == "CREATE D" && b == "ATABASE x"
    ensures Unremarkable(Pieces((p + a) + b, size), "", tg)
  {
    HalvesEnd(p, a, b);
    HalvesOrdinary(p, a, b);
    TwoPieces((p + a) + b, p + a, b, size);
    ThreeUnremarkable(p + a, b, "", tg);
  }

  lemma IndentedPieces(size: nat, p: string, q: string, tg: Target)
    requires size > 8 && p == Blanks(size - 8) && q == "CREATE DATABASE x"
    ensures Unremarkable(Pieces(p + q, size), "", tg)
  {
    BlanksAre(size - 8);
    CreateHalves(q);
    HalvesUnremarkable(p, q[..8], q[8..], size, tg);
    assert p + q == (p + q[..8]) + q[8..];
  }

  lemma HalvesEnd(p: string, a: string, b: string)
    requires a == "CREATE D" && b == "ATABASE x"
    ensures |a| == 8 && |b| == 9 && b[8] != '\r' && (p + a)[|p + a| - 1] != '\r'
  {
    assert (p + a)[|p + a| - 1] == a[7];
  }

  /** For every buffer there is a CREATE DATABASE line that gets through. */
  lemma LongLinesEscape(size: nat, db: string, maxBytes: nat)
    requires size > 8 && '\n' !in db && size + 9 <= maxBytes
    ensures Classify(Trim(Indented(size))) == CreateDatabase
    ensures !LinesOk(Sanitized(Indented(size) + "\n", size, db, maxBytes), TargetFor(db))
  {
    var p, q := Blanks(size - 8), "CREATE DATABASE x";
    BlanksAre(size - 8);
    CreateHalves(q);
    WholeCreate(q);
    assert p + q + "" == p + q;
    TrimAbsorbs(p, q, "");
    ClassOfText(q, Upper(q));
    CreateIsNotUse(Upper(q));
    IndentedPieces(size, p, q, TargetFor(db));
    LongLineIsSafeIff(p + q, size, db, maxBytes);
    EndsInX(p, q);
    UseLineOk(db);
  }

  lemma EndsInX(p: string, q: string)
    requires q == "CREATE DATABASE x"
    ensures DropReturn(p + q) == p + q
  {
    assert q[16] == 'x' && (p + q)[|p + q| - 1] == q[16];
  }
}
