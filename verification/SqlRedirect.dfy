/**
 What the sanitiser does to names qualified by another database, once a USE or CREATE DATABASE
 line has told its name.
 */
module SqlRedirect {
  import opened Text
  import opened Words
  import opened SqlScanner
  import opened SqlSanitizer
  import opened SqlClosure
  import opened SqlLexing

  // ----- Names -----

  predicate NameChar(c: char) {
    'a' <= c <= 'z' || 'A' <= c <= 'Z' || IsDigit(c) || c == '_'
  }

  /** A name of letters, digits and underscores. */
  predicate Name(s: string) {
    s != "" && forall i :: 0 <= i < |s| ==> NameChar(s[i])
  }

  function Quoted(name: string): string {
    "`" + name + "`."
  }

  function Bare(name: string): string {
    name + "."
  }

  // ----- Occurrences -----

  /** Text without the pattern goes through a replacement unchanged. */
  lemma ReplaceNowhere(s: string, p: string, put: string)
    requires p != "" && Nowhere(s, p)
    ensures ReplaceAll(s, p, put) == s
  {
    NowhereIsAbsent(s, p);
    ReplaceAbsent(s, p, put);
  }

  lemma ReplaceHere(p: string, w: string, put: string)
    requires p != "" && Nowhere(w, p)
    ensures ReplaceAll(p + w, p, put) == put + w
  {
    assert (p + w)[|p|..] == w && p <= p + w;
    ReplaceNowhere(w, p, put);
  }

  lemma ReplaceLater(c: char, t: string, p: string, put: string)
    requires p != "" && !(p <= [c] + t)
    ensures ReplaceAll([c] + t, p, put) == [c] + ReplaceAll(t, p, put)
  {
    assert ([c] + t)[1..] == t;
  }

  /** Elsewhere the pattern would occur a second time. */
  ghost predicate OnlyAt(s: string, n: nat, p: string) {
    forall i: nat :: At(s, i, p) ==> i == n
  }

  lemma OnlyInTail(c: char, t: string, n: nat, p: string)
    requires OnlyAt([c] + t, n + 1, p)
    ensures OnlyAt(t, n, p) && !(p <= [c] + t)
  {
    var s := [c] + t;
    assert p <= s ==> At(s, 0, p);
    forall i: nat | At(t, i, p) ensures i == n {
      assert t[i..i + |p|] == s[i + 1..i + 1 + |p|];
      assert At(s, i + 1, p);
    }
  }

  lemma NoneBehind(p: string, w: string)
    requires p != "" && OnlyAt(p + w, 0, p)
    ensures Nowhere(w, p)
  {
    forall i: nat ensures !At(w, i, p) {
      if At(w, i, p) {
        assert (p + w)[i + |p|..i + |p| + |p|] == w[i..i + |p|];
        assert At(p + w, i + |p|, p);
      }
    }
  }

  /** The only occurrence is replaced. */
  lemma {:induction false} ReplaceOnly(u: string, p: string, w: string, put: string)
    requires p != "" && OnlyAt(u + (p + w), |u|, p)
    ensures ReplaceAll(u + (p + w), p, put) == u + (put + w)
    decreases |u|
  {
    if u == "" {
      assert "" + (p + w) == p + w && "" + (put + w) == put + w;
      NoneBehind(p, w);
      ReplaceHere(p, w, put);
    } else {
      var t := u[1..] + (p + w);
      HeadThen(u, p + w);
      HeadThen(u, put + w);
      OnlyInTail(u[0], t, |u| - 1, p);
      ReplaceOnly(u[1..], p, w, put);
      ReplaceLater(u[0], t, p, put);
    }
  }

  lemma HeadThen(u: string, v: string)
    requires u != ""
    ensures u + v == [u[0]] + (u[1..] + v)
  {
  }

  // ----- Where the two patterns can stand -----

  lemma Mismatched(s: string, i: nat, p: string, k: nat)
    requires k < |p| && (i + |p| <= |s| ==> s[i + k] != p[k])
    ensures !At(s, i, p)
  {
    if i + |p| <= |s| { assert s[i..i + |p|][k] == s[i + k]; }
  }

  lemma NotLeft(u: string, v: string, i: nat, p: string)
    requires !At(u, i, p) && i + |p| <= |u|
    ensures !At(u + v, i, p)
  {
    assert (u + v)[i..i + |p|] == u[i..i + |p|];
  }

  lemma NotRight(u: string, q: string, w: string, i: nat, p: string)
    requires Nowhere(w, p) && i >= |u| + |q|
    ensures !At(u + (q + w), i, p)
  {
    var s, j := u + (q + w), i - |u| - |q|;
    assert !At(w, j, p);
    if i + |p| <= |s| { assert s[i..i + |p|] == w[j..j + |p|]; }
  }

  lemma Middle(u: string, q: string, w: string)
    ensures var s := u + (q + w); |s| == |u| + |q| + |w| && forall j :: |u| <= j < |u| + |q| ==> s[j] == q[j - |u|]
  {
  }

  lemma QuotedBytes(name: string)
    requires Name(name)
    ensures var p, n := Quoted(name), |name|;
            && |p| == n + 3 && p[0] == '`' && p[n + 1] == '`' && p[n + 2] == '.'
            && forall k :: 1 <= k <= n ==> NameChar(p[k])
  {
    var p := Quoted(name);
    assert forall k :: 1 <= k <= |name| ==> p[k] == name[k - 1];
  }

  lemma BareBytes(name: string)
    requires Name(name)
    ensures var p, n := Bare(name), |name|; |p| == n + 1 && p[n] == '.' && forall k :: 0 <= k < n ==> NameChar(p[k])
  {
    var p := Bare(name);
    assert forall k :: 0 <= k < |name| ==> p[k] == name[k];
  }

  /** Between text that does not hold it, a quoted name occurs just there. */
  lemma QuotedOnce(u: string, name: string, w: string, i: nat)
    requires Name(name) && Nowhere(u, Quoted(name)) && Nowhere(w, Quoted(name)) && i != |u|
    ensures !At(u + (Quoted(name) + w), i, Quoted(name))
  {
    var p, n := Quoted(name), |name|;
    var s := u + (p + w);
    QuotedBytes(name);
    Middle(u, p, w);
    if i + |p| <= |u| {
      NotLeft(u, p + w, i, p);
    } else if i >= |u| + |p| {
      NotRight(u, p, w, i, p);
    } else if i < |u| {
      Mismatched(s, i, p, if |u| - i == n + 1 then n + 2 else |u| - i);
    } else {
      Mismatched(s, i, p, if i - |u| == n + 1 then 1 else 0);
    }
  }

  /** Between text that does not hold it, a bare qualified name occurs just there. */
  lemma BareOnce(u: string, name: string, w: string, i: nat)
    requires Name(name) && Nowhere(u, Bare(name)) && Nowhere(w, Bare(name)) && i != |u|
    ensures !At(u + (Bare(name) + w), i, Bare(name))
  {
    var p, n := Bare(name), |name|;
    var s := u + (p + w);
    BareBytes(name);
    Middle(u, p, w);
    if i + |p| <= |u| {
      NotLeft(u, p + w, i, p);
    } else if i >= |u| + |p| {
      NotRight(u, p, w, i, p);
    } else if i < |u| {
      Mismatched(s, i, p, n);
    } else {
      Mismatched(s, i, p, |u| + n - i);
    }
  }

  /** A quoted name does not occur across a bare one. */
  lemma NoQuotedAcross(u: string, name: string, w: string, i: nat)
    requires Name(name) && Nowhere(u, Quoted(name)) && Nowhere(w, Quoted(name))
    ensures !At(u + (Bare(name) + w), i, Quoted(name))
  {
    var p, q, n := Quoted(name), Bare(name), |name|;
    var s := u + (q + w);
    QuotedBytes(name);
    BareBytes(name);
    Middle(u, q, w);
    if i + |p| <= |u| {
      NotLeft(u, q + w, i, p);
    } else if i >= |u| + |q| {
      NotRight(u, q, w, i, p);
    } else if i >= |u| {
      Mismatched(s, i, p, 0);
    } else if i + 2 >= |u| {
      Mismatched(s, i, p, if i + 2 == |u| then n + 1 else |u| + n - i);
    } else {
      Mismatched(s, i, p, n + 2);
    }
  }

  /** A bare name does not occur across the target's quoted one. */
  lemma NoBareAcross(u: string, name: string, target: string, w: string, i: nat)
    requires Name(name) && Name(target) && Nowhere(u, Bare(name)) && Nowhere(w, Bare(name))
    ensures !At(u + (Quoted(target) + w), i, Bare(name))
  {
    var p, q, n, m := Bare(name), Quoted(target), |name|, |target|;
    var s, tick := u + (q + w), |u| + m + 1;
    QuotedBytes(target);
    BareBytes(name);
    Middle(u, q, w);
    if i + |p| <= |u| {
      NotLeft(u, q + w, i, p);
    } else if i >= |u| + |q| {
      NotRight(u, q, w, i, p);
    } else if i <= |u| {
      Mismatched(s, i, p, |u| - i);
    } else if i > tick {
      Mismatched(s, i, p, 0);
    } else if tick <= i + n {
      Mismatched(s, i, p, tick - i);
    } else {
      Mismatched(s, i, p, n);
    }
  }

  // ----- One line -----

  /** A name qualified with backticks is redirected. */
  lemma QuotedRedirected(u: string, db: string, w: string, target: string)
    requires Name(db) && Name(target)
    requires Nowhere(u, Quoted(db)) && Nowhere(w, Quoted(db)) && Nowhere(u, Bare(db)) && Nowhere(w, Bare(db))
    ensures Qualify(u + (Quoted(db) + w), db, target) == u + (Quoted(target) + w)
  {
    forall i: nat | At(u + (Quoted(db) + w), i, Quoted(db)) ensures i == |u| {
      if i != |u| { QuotedOnce(u, db, w, i); }
    }
    ReplaceOnly(u, Quoted(db), w, Quoted(target));
    forall i: nat ensures !At(u + (Quoted(target) + w), i, Bare(db)) { NoBareAcross(u, db, target, w, i); }
    ReplaceNowhere(u + (Quoted(target) + w), Bare(db), Quoted(target));
  }

  /** So is a bare one. */
  lemma BareRedirected(u: string, db: string, w: string, target: string)
    requires Name(db)
    requires Nowhere(u, Quoted(db)) && Nowhere(w, Quoted(db)) && Nowhere(u, Bare(db)) && Nowhere(w, Bare(db))
    ensures Qualify(u + (Bare(db) + w), db, target) == u + (Quoted(target) + w)
  {
    forall i: nat ensures !At(u + (Bare(db) + w), i, Quoted(db)) { NoQuotedAcross(u, db, w, i); }
    ReplaceNowhere(u + (Bare(db) + w), Quoted(db), Quoted(target));
    forall i: nat | At(u + (Bare(db) + w), i, Bare(db)) ensures i == |u| {
      if i != |u| { BareOnce(u, db, w, i); }
    }
    ReplaceOnly(u, Bare(db), w, Quoted(target));
  }

  /** A line with neither is copied. */
  lemma OthersCopied(line: string, db: string, target: string)
    requires Nowhere(line, Quoted(db)) && Nowhere(line, Bare(db))
    ensures Qualify(line, db, target) == line
  {
    if db != "" {
      ReplaceNowhere(line, Quoted(db), Quoted(target));
      ReplaceNowhere(line, Bare(db), Quoted(target));
    }
  }

  /** Two different names differ at some place within the quotes. */
  lemma DifferentNames(db: string, target: string) returns (k: nat)
    requires Name(db) && Name(target) && db != target
    ensures k < |Quoted(db)| && k < |Quoted(target)| && Quoted(db)[k] != Quoted(target)[k]
  {
    QuotedBytes(db);
    QuotedBytes(target);
    if |db| < |target| {
      k := |db| + 1;
    } else if |target| < |db| {
      k := |target| + 1;
    } else {
      var i :| 0 <= i < |db| && db[i] != target[i];
      k := i + 1;
    }
  }

  lemma FrontIs(s: string, p: string)
    ensures p <= s <==> At(s, 0, p)
  {
  }

  lemma NotInTarget(db: string, target: string, w: string, i: nat)
    requires Name(db) && Name(target) && db != target && Nowhere(w, Quoted(db))
    ensures !At(Quoted(target) + w, i, Quoted(db))
  {
    var p, q, m := Quoted(db), Quoted(target), |target|;
    var s := q + w;
    QuotedBytes(db);
    QuotedBytes(target);
    assert "" + (q + w) == s;
    Middle("", q, w);
    if i >= |q| {
      NotRight("", q, w, i, p);
    } else if i == 0 {
      var k := DifferentNames(db, target);
      Mismatched(s, 0, p, k);
    } else {
      Mismatched(s, i, p, if i == m + 1 then 1 else 0);
    }
  }

  /** The front of a rewritten text is not the pattern if that of the text was not. */
  lemma NotAtFront(s: string, find: string, db: string, target: string)
    requires Name(db) && Name(target) && find != "" && !(find <= s) && !(Quoted(db) <= s)
    ensures !(Quoted(db) <= ReplaceAll(s, find, Quoted(target)))
  {
    var p, n := Quoted(db), |db|;
    var u, r, w := FirstReplaced(s, find, Quoted(target));
    QuotedBytes(db);
    QuotedBytes(target);
    if |u| >= |p| {
      assert (u + w)[..|p|] == u[..|p|] == (u + r)[..|p|];
    } else if w != "" {
      var k := if |u| == n + 1 then n + 2 else |u|;
      assert (u + w)[k] == Quoted(target)[k - |u|];
      Mismatched(u + w, 0, p, k);
      FrontIs(u + w, p);
    } else {
      assert u + w == u;
    }
  }

  /** A replacement by the target's quoted name brings about no other quoted name. */
  lemma {:induction false} Cleared(s: string, find: string, db: string, target: string)
    requires Name(db) && Name(target) && db != target && find != "" && (find == Quoted(db) || Nowhere(s, Quoted(db)))
    ensures Nowhere(ReplaceAll(s, find, Quoted(target)), Quoted(db))
    decreases |s|
  {
    var p := Quoted(db);
    if |s| < |find| {
    } else if find <= s {
      var w := ReplaceAll(s[|find|..], find, Quoted(target));
      if find != p { SuffixNowhere(s, |find|, p); }
      Cleared(s[|find|..], find, db, target);
      forall i: nat ensures !At(Quoted(target) + w, i, p) { NotInTarget(db, target, w, i); }
    } else {
      if find != p { NowhereTail(s, p); }
      Cleared(s[1..], find, db, target);
      NotAtFront(s, find, db, target);
      var r := ReplaceAll(s, find, Quoted(target));
      assert r[1..] == ReplaceAll(s[1..], find, Quoted(target));
      NowhereTail(r, p);
    }
  }

  lemma SuffixNowhere(s: string, n: nat, p: string)
    requires n <= |s| && Nowhere(s, p)
    ensures Nowhere(s[n..], p)
  {
    forall i: nat ensures !At(s[n..], i, p) {
      assert !At(s, n + i, p);
      if n + i + |p| <= |s| { assert s[n..][i..i + |p|] == s[n + i..n + i + |p|]; }
    }
  }

  /** After the rewriting no name is qualified by the other database in backticks. */
  lemma NoneLeft(line: string, db: string, target: string)
    requires Name(db) && Name(target) && db != target
    ensures Nowhere(Qualify(line, db, target), Quoted(db))
  {
    Cleared(line, Quoted(db), db, target);
    Cleared(ReplaceAll(line, Quoted(db), Quoted(target)), Bare(db), db, target);
  }

  // ----- The name a line tells -----

  lemma {:induction false} IndexOfFirst(p: string, c: char, e: string)
    requires Free(p, c)
    ensures IndexByte(p + ([c] + e), c) == Some(|p|)
  {
    var s := p + ([c] + e);
    if p == "" {
      assert s == [c] + e;
    } else {
      assert s[0] == p[0] && s[1..] == p[1..] + ([c] + e);
      IndexOfFirst(p[1..], c, e);
    }
  }

  lemma {:induction false} IndexOfNone(s: string, c: char)
    requires Free(s, c)
    ensures IndexByte(s, c) == None
  {
    if s != "" { IndexOfNone(s[1..], c); }
  }

  lemma NameIsFree(db: string, c: char)
    requires Name(db) && !NameChar(c)
    ensures Free(db, c)
  {
  }

  /** A name in backticks is found behind whatever keywords. */
  lemma TickedName(p: string, db: string, e: string)
    requires Free(p, '`') && Name(db)
    ensures ExtractDBName(p + ("`" + (db + ("`" + e)))) == db
  {
    var after := db + ("`" + e);
    var line := p + ("`" + after);
    IndexOfFirst(p, '`', after);
    assert line[|p| + 1..] == after;
    NameIsFree(db, '`');
    IndexOfFirst(db, '`', e);
    assert after[..|db|] == db;
  }

  lemma TrimmedName(db: string)
    requires Name(db)
    ensures TrimSet(db + ";") == db
  {
    var s := db + ";";
    assert s[0] == db[0] && NameChar(db[0]) && NameChar(db[|db| - 1]);
    CutsetFacts();
    assert TrimSetLeft(s) == s;
    assert s[..|s| - 1] == db;
    assert TrimSetRight(s) == TrimSetRight(db) == db;
  }

  lemma CutsetFacts()
    ensures ';' in CUTSET && forall c :: NameChar(c) ==> c !in CUTSET
  {
    assert CUTSET[1] == ';';
    forall c | NameChar(c) ensures c !in CUTSET {
      forall i | 0 <= i < |CUTSET| ensures CUTSET[i] != c {}
    }
  }

  lemma WordOfName(db: string)
    requires Name(db)
    ensures IsWord(db + ";") && Free(db + ";", '`')
  {
  }

  /** A bare name behind USE. */
  lemma UsedName(db: string)
    requires Name(db)
    ensures ExtractDBName("USE " + (db + ";")) == db
  {
    var word := db + ";";
    var line := "USE " + word;
    WordOfName(db);
    assert Free("USE ", '`');
    FreeConcat("USE ", word, '`');
    IndexOfNone(line, '`');
    TwoWords("USE", word);
    assert "USE" + " " + word == line;
    TrimmedName(db);
  }

  lemma TwoWords(a: string, b: string)
    requires IsWord(a) && IsWord(b)
    ensures Fields(a + " " + b) == [a, b]
  {
    FieldsOfJoin([a, b]);
    assert [a, b][1..] == [b];
  }

  /** Not one of the words of IF NOT EXISTS. */
  predicate NoClause(db: string) {
    !EqualFold(db, "IF") && !EqualFold(db, "NOT") && !EqualFold(db, "EXISTS")
  }

  lemma ClauseWords()
    ensures TrimSet("IF") == "IF" && TrimSet("NOT") == "NOT" && TrimSet("EXISTS") == "EXISTS"
  {
    CutsetFacts();
    TightSet("IF");
    TightSet("NOT");
    TightSet("EXISTS");
  }

  lemma TightSet(w: string)
    requires Name(w)
    ensures TrimSet(w) == w
  {
    CutsetFacts();
    assert NameChar(w[0]) && NameChar(w[|w| - 1]);
  }

  lemma NamePastClause(word: string, db: string)
    requires TrimSet(word) == db && Name(db) && NoClause(db)
    ensures FirstCandidate(["IF", "NOT", "EXISTS", word]) == Some(db)
  {
    ClauseWords();
    assert ["IF", "NOT", "EXISTS", word][1..] == ["NOT", "EXISTS", word];
    assert ["NOT", "EXISTS", word][1..] == ["EXISTS", word] && ["EXISTS", word][1..] == [word];
    NameIsFree(db, '/');
    NoSlashStar(db);
    assert FirstCandidate([word]) == Some(db);
    assert FirstCandidate(["EXISTS", word]) == FirstCandidate([word]);
    assert FirstCandidate(["NOT", "EXISTS", word]) == FirstCandidate(["EXISTS", word]);
  }

  lemma {:induction false} NoSlashStar(db: string)
    requires Free(db, '/')
    ensures !Contains(db, "/*")
  {
    HasPrefixIs(db, "/*");
    if db != "" { NoSlashStar(db[1..]); }
  }

  /** A bare name behind CREATE DATABASE IF NOT EXISTS. */
  lemma CreatedName(db: string)
    requires Name(db) && NoClause(db)
    ensures ExtractDBName("CREATE DATABASE IF NOT EXISTS " + (db + ";")) == db
  {
    var word := db + ";";
    var ws := ["CREATE", "DATABASE", "IF", "NOT", "EXISTS", word];
    var line := "CREATE DATABASE IF NOT EXISTS " + word;
    WordOfName(db);
    assert Free("CREATE DATABASE IF NOT EXISTS ", '`');
    FreeConcat("CREATE DATABASE IF NOT EXISTS ", word, '`');
    IndexOfNone(line, '`');
    SixWords(word);
    TrimmedName(db);
    assert ws[1..] == ["DATABASE", "IF", "NOT", "EXISTS", word] && ws[1..][1..] == ["IF", "NOT", "EXISTS", word];
    NamePastClause(word, db);
    CreateIsNoUse();
    assert NameAmong(ws) == NameAmong(ws[1..]);
  }

  lemma CreateIsNoUse()
    ensures !EqualFold("CREATE", "USE") && !EqualFold("CREATE", "DATABASE") && !EqualFold("CREATE", "SCHEMA")
    ensures !EqualFold("DATABASE", "USE")
  {
    assert Upper("CREATE")[0] == 'C' && Upper("DATABASE")[0] == 'D' && Upper("SCHEMA")[0] == 'S';
    assert |Upper("USE")| == 3 && |Upper("CREATE")| == 6 && |Upper("DATABASE")| == 8;
  }

  lemma JoinOn(w: string, ws: seq<string>)
    requires ws != []
    ensures Join([w] + ws, " ") == w + " " + Join(ws, " ")
  {
    assert ([w] + ws)[1..] == ws;
  }

  lemma Prepended(w: string, tail: string, whole: string, word: string)
    requires w + " " + tail == whole
    ensures w + " " + (tail + word) == whole + word
  {
  }

  lemma LiteralJoins()
    ensures "NOT" + " " + "EXISTS " == "NOT EXISTS "
    ensures "IF" + " " + "NOT EXISTS " == "IF NOT EXISTS "
    ensures "DATABASE" + " " + "IF NOT EXISTS " == "DATABASE IF NOT EXISTS "
    ensures "CREATE" + " " + "DATABASE IF NOT EXISTS " == "CREATE DATABASE IF NOT EXISTS "
  {
  }

  lemma LiteralWords()
    ensures IsWord("CREATE") && IsWord("DATABASE") && IsWord("IF") && IsWord("NOT") && IsWord("EXISTS")
  {
  }

  lemma SixWords(word: string)
    requires IsWord(word)
    ensures Fields("CREATE DATABASE IF NOT EXISTS " + word) == ["CREATE", "DATABASE", "IF", "NOT", "EXISTS", word]
  {
    var ws := ["CREATE", "DATABASE", "IF", "NOT", "EXISTS", word];
    SixJoined(word);
    LiteralWords();
    FieldsOfJoin(ws);
  }

  lemma SixJoined(word: string)
    ensures Join(["CREATE", "DATABASE", "IF", "NOT", "EXISTS", word], " ") == "CREATE DATABASE IF NOT EXISTS " + word
  {
    var a := [word];
    var b := ["EXISTS"] + a;
    var c := ["NOT"] + b;
    var d := ["IF"] + c;
    var e := ["DATABASE"] + d;
    JoinOn("EXISTS", a);
    JoinOn("NOT", b);
    JoinOn("IF", c);
    JoinOn("DATABASE", d);
    JoinOn("CREATE", e);
    LiteralJoins();
    assert "EXISTS" + " " + word == "EXISTS " + word;
    Prepended("NOT", "EXISTS ", "NOT EXISTS ", word);
    Prepended("IF", "NOT EXISTS ", "IF NOT EXISTS ", word);
    Prepended("DATABASE", "IF NOT EXISTS ", "DATABASE IF NOT EXISTS ", word);
    Prepended("CREATE", "DATABASE IF NOT EXISTS ", "CREATE DATABASE IF NOT EXISTS ", word);
    assert ["CREATE"] + e == ["CREATE", "DATABASE", "IF", "NOT", "EXISTS", word];
  }

  // ----- A whole copy -----

  /** The lines that tell the name of a database: with USE or CREATE DATABASE, in backticks or bare. */
  datatype Telling = UseBare | UseTicked | CreateTicked | CreateBare

  function Keywords(k: Telling): string {
    match k
    case UseBare => "USE "
    case UseTicked => "USE "
    case CreateTicked => "CREATE DATABASE "
    case CreateBare => "CREATE DATABASE IF NOT EXISTS "
  }

  function NamePart(k: Telling, db: string): string {
    if k.UseTicked? || k.CreateTicked? then "`" + (db + ("`" + ";")) else db + ";"
  }

  function TellingLine(k: Telling, db: string): string {
    Keywords(k) + NamePart(k, db)
  }

  /** A bare name behind IF NOT EXISTS must be none of these words. */
  predicate Tells(k: Telling, db: string) {
    Name(db) && (k.CreateBare? ==> NoClause(db))
  }

  predicate IsUse(k: Telling) {
    k.UseBare? || k.UseTicked?
  }

  /** What stands in for it. */
  function StandIn(k: Telling, target: string): string {
    if IsUse(k) then "USE " + ("`" + target + "`") + ";"
    else "-- [Hostvra] Preserved target schema: " + ("`" + target + "`") + " (skipped conflicting CREATE DATABASE)"
  }

  lemma PlainQuote(target: string)
    requires Name(target)
    ensures SafeQuoteIdentifier(target) == "`" + target + "`"
  {
    NameIsFree(target, '`');
    NoByte(target, "`");
    ReplaceAbsent(target, "`", "``");
  }

  lemma TightWords(p: string, e: string)
    requires p != "" && !IsSpace(p[0]) && e != "" && !IsSpace(e[|e| - 1])
    ensures Tight(p + e) && p + e != "" && (p + e)[0] == p[0] && Trim(p + e) == p + e
  {
    TightTrim(p + e);
  }

  lemma PrefixStarts(p: string, e: string, keyword: string)
    requires keyword <= p
    ensures Starts(p + e, keyword)
  {
    assert (p + e)[..|keyword|] == keyword;
  }

  lemma StartsOnce(p: string, e: string)
    requires p != "" && (p[0] == 'U' || p[0] == 'C')
    ensures p[0] == 'U' ==> !Creates(p + e)
    ensures p[0] == 'C' ==> !Selects(p + e)
  {
    var q := p + e;
    if Selects(q) { assert Upper(q[..4])[0] == UpperChar(q[0]) && Upper("USE ")[0] == 'U'; }
    if Starts(q, "CREATE DATABASE") { assert Upper(q[..15])[0] == UpperChar(q[0]) && Upper("CREATE DATABASE")[0] == 'C'; }
    if Starts(q, "CREATE SCHEMA") { assert Upper(q[..13])[0] == UpperChar(q[0]) && Upper("CREATE SCHEMA")[0] == 'C'; }
  }

  lemma KeywordFacts(k: Telling)
    ensures var p := Keywords(k);
            && p != "" && !IsSpace(p[0]) && p[0] != '/' && Free(p, '\n') && Free(p, '`')
            && (if IsUse(k) then "USE " <= p && p[0] == 'U' else "CREATE DATABASE" <= p && p[0] == 'C')
  {
  }

  lemma NamePartFacts(k: Telling, db: string)
    requires Name(db)
    ensures var e := NamePart(k, db); e != "" && e[|e| - 1] == ';' && Free(e, '\n')
  {
    NameIsFree(db, '\n');
  }

  /** The name told. */
  lemma ToldName(k: Telling, db: string)
    requires Tells(k, db)
    ensures ExtractDBName(TellingLine(k, db)) == db
  {
    match k {
      case UseBare => UsedName(db);
      case CreateBare => CreatedName(db);
      case _ =>
        KeywordFacts(k);
        TickedName(Keywords(k), db, ";");
    }
  }

  /** The class of such a line. */
  lemma ToldClass(k: Telling, db: string)
    requires Name(db)
    ensures var first := TellingLine(k, db);
            && Trim(first) == first && first != "" && Classify(first) == (if IsUse(k) then UseDatabase else CreateDatabase)
            && Free(first, '\n') && DropReturn(first) == first
  {
    var p, e := Keywords(k), NamePart(k, db);
    KeywordFacts(k);
    NamePartFacts(k, db);
    TightWords(p, e);
    FreeConcat(p, e, '\n');
    ClassInWords(p + e);
    StartsOnce(p, e);
    if IsUse(k) {
      PrefixStarts(p, e, "USE ");
    } else {
      PrefixStarts(p, e, "CREATE DATABASE");
    }
  }

  /** A line that is copied or redirected: it fits the buffer and neither selects nor creates a database. */
  predicate Copied(l: string, size: nat) {
    '\n' !in l && |l| < size && DropReturn(l) == l && Classify(Trim(l)) == Ordinary
  }

  predicate AllCopied(lines: seq<string>, size: nat) {
    forall i :: 0 <= i < |lines| ==> Copied(lines[i], size)
  }

  function Redirected(lines: seq<string>, db: string, target: string): seq<string> {
    if lines == [] then [] else [Qualify(lines[0], db, target)] + Redirected(lines[1..], db, target)
  }

  lemma {:induction false} RedirectedAt(lines: seq<string>, db: string, target: string)
    ensures |Redirected(lines, db, target)| == |lines|
    ensures forall i :: 0 <= i < |lines| ==> Redirected(lines, db, target)[i] == Qualify(lines[i], db, target)
  {
    if lines != [] { RedirectedAt(lines[1..], db, target); }
  }

  lemma OneLine(l: string, rest: string, size: nat)
    requires size > 1 && '\n' !in l && |l| < size && DropReturn(l) == l
    ensures l + "\n" + rest != "" && ReadLine(l + "\n" + rest, size) == Chunk(l, false, |l| + 1)
    ensures (l + "\n" + rest)[|l| + 1..] == rest
  {
    var all := l + "\n" + rest;
    FirstBreak(l, rest);
    assert all[..|l|] == l;
  }

  lemma {:induction false} LinesRedirected(lines: seq<string>, size: nat, db: string, tg: Target)
    requires size > 1 && AllCopied(lines, size)
    ensures Body(Unlines(lines), size, db, tg) == Unlines(Redirected(lines, db, tg.db))
    decreases |lines|
  {
    if lines != [] {
      var l, later := lines[0], lines[1..];
      assert Copied(l, size) && forall i :: 0 <= i < |later| ==> later[i] == lines[i + 1];
      assert Unlines(lines) == l + "\n" + Unlines(later);
      OneLine(l, Unlines(later), size);
      LinesRedirected(later, size, db, tg);
      assert Redirected(lines, db, tg.db)[1..] == Redirected(later, db, tg.db);
    }
  }

  /** The line qualifies one name by the database, in backticks or bare, and says nothing else about it. */
  ghost predicate Qualifies(line: string, db: string, u: string, w: string) {
    && (line == u + (Quoted(db) + w) || line == u + (Bare(db) + w))
    && Nowhere(u, Quoted(db)) && Nowhere(w, Quoted(db)) && Nowhere(u, Bare(db)) && Nowhere(w, Bare(db))
  }

  /**
   The copy of a script that first tells the name of another database: the telling line is
   replaced, every line behind it that qualifies a name by that database has the target there
   instead, nothing in the copy is qualified by it in backticks any more, and lines that do not
   mention it are as they were.
   */
  lemma CopyIsRedirected(k: Telling, lines: seq<string>, db: string, target: string, size: nat, maxBytes: nat)
    returns (outs: seq<string>)
    requires Tells(k, db) && Name(target) && !EqualFold(db, target) && AllCopied(lines, size)
    requires |TellingLine(k, db)| < size && |TellingLine(k, db) + "\n" + Unlines(lines)| <= maxBytes + 1
    ensures Sanitized(TellingLine(k, db) + "\n" + Unlines(lines), size, target, maxBytes) ==
            Unlines(HeaderLines(TargetFor(target))) + (StandIn(k, target) + "\n" + Unlines(outs)) + Unlines(FooterLines())
    ensures |outs| == |lines| && forall i :: 0 <= i < |outs| ==> Nowhere(outs[i], Quoted(db))
    ensures forall i, u, w :: 0 <= i < |lines| && Qualifies(lines[i], db, u, w) ==> outs[i] == u + (Quoted(target) + w)
    ensures forall i :: 0 <= i < |lines| && Nowhere(lines[i], Quoted(db)) && Nowhere(lines[i], Bare(db)) ==> outs[i] == lines[i]
  {
    outs := Redirected(lines, db, target);
    RedirectedAt(lines, db, target);
    BodyIsRedirected(k, lines, db, target, size);
    var input := TellingLine(k, db) + "\n" + Unlines(lines);
    assert input[..|input|] == input;
    forall i | 0 <= i < |outs| ensures Nowhere(outs[i], Quoted(db)) { NoneLeft(lines[i], db, target); }
    forall i, u, w | 0 <= i < |lines| && Qualifies(lines[i], db, u, w) ensures outs[i] == u + (Quoted(target) + w) {
      QualifiedBecomes(lines[i], db, target, u, w);
    }
    forall i | 0 <= i < |lines| && Nowhere(lines[i], Quoted(db)) && Nowhere(lines[i], Bare(db)) ensures outs[i] == lines[i] {
      OthersCopied(lines[i], db, target);
    }
  }

  lemma QualifiedBecomes(line: string, db: string, target: string, u: string, w: string)
    requires Name(db) && Name(target) && Qualifies(line, db, u, w)
    ensures Qualify(line, db, target) == u + (Quoted(target) + w)
  {
    if line == u + (Quoted(db) + w) { QuotedRedirected(u, db, w, target); } else { BareRedirected(u, db, w, target); }
  }

  lemma BodyIsRedirected(k: Telling, lines: seq<string>, db: string, target: string, size: nat)
    requires Tells(k, db) && Name(target) && !EqualFold(db, target) && size > 1 && AllCopied(lines, size) && |TellingLine(k, db)| < size
    ensures Body(TellingLine(k, db) + "\n" + Unlines(lines), size, "", TargetFor(target)) ==
            StandIn(k, target) + "\n" + Unlines(Redirected(lines, db, target))
  {
    ToldClass(k, db);
    OneLine(TellingLine(k, db), Unlines(lines), size);
    LinesRedirected(lines, size, db, TargetFor(target));
    StandsIn(k, db, target);
  }

  lemma TargetTexts(k: Telling, target: string)
    requires Name(target)
    ensures StandIn(k, target) == if IsUse(k) then TargetFor(target).useLine else TargetFor(target).skippedLine
  {
    PlainQuote(target);
  }

  lemma StandsIn(k: Telling, db: string, target: string)
    requires Tells(k, db) && Name(target) && !EqualFold(db, target)
    ensures var first := TellingLine(k, db);
            && LineText(first, "", TargetFor(target)) == StandIn(k, target)
            && DetectedAfter(first, "", TargetFor(target)) == db && Classify(Trim(first)) != Ordinary
  {
    ToldName(k, db);
    ToldClass(k, db);
    TargetTexts(k, target);
    Replaced(TellingLine(k, db), db, IsUse(k), TargetFor(target));
  }

  lemma Replaced(first: string, db: string, use: bool, tg: Target)
    requires Trim(first) == first && ExtractDBName(first) == db && db != "" && !EqualFold(db, tg.db)
    requires Classify(first) == if use then UseDatabase else CreateDatabase
    ensures LineText(first, "", tg) == if use then tg.useLine else tg.skippedLine
    ensures DetectedAfter(first, "", tg) == db && Classify(Trim(first)) != Ordinary
  {
  }

  /** Of an input above the limit one byte more than the limit is read, of any other all; nothing else depends on the limit. */
  lemma LimitIs(input: string, size: nat, target: string, maxBytes: nat, other: nat)
    requires size > 1 && other >= |input|
    ensures |input| <= maxBytes ==> Sanitized(input, size, target, maxBytes) == Sanitized(input, size, target, other)
    ensures |input| > maxBytes ==> Sanitized(input, size, target, maxBytes) == Sanitized(input[..maxBytes + 1], size, target, other)
  {
    assert input[..|input|] == input;
    if |input| > maxBytes { assert input[..maxBytes + 1][..maxBytes + 1] == input[..maxBytes + 1]; }
  }
}
