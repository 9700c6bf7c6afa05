/**
 The laws of the php.ini editor: what was put is read back, nothing else changes, and
 putting twice is putting once.
 */
module IniLens {
  import opened Text
  import opened Ini

  // ----- Blanks at the ends -----

  lemma {:induction false} SkipAll(p: string, x: string)
    requires AllWs(p)
    ensures SkipWs(p + x) == SkipWs(x)
  {
    if p == "" {
      assert p + x == x;
    } else {
      assert (p + x)[1..] == p[1..] + x;
      SkipAll(p[1..], x);
    }
  }

  lemma {:induction false} DropAll(x: string, q: string)
    requires AllWs(q)
    ensures DropWs(x + q) == DropWs(x)
  {
    if q == "" {
      assert x + q == x;
    } else {
      assert (x + q)[..|x + q| - 1] == x + q[..|q| - 1];
      DropAll(x, q[..|q| - 1]);
    }
  }

  lemma {:induction false} SkipKeeps(x: string, q: string)
    requires AllWs(q)
    ensures SkipWs(x + q) == if SkipWs(x) == "" then "" else SkipWs(x) + q
  {
    if x == "" {
      assert x + q == q;
      SkipAll(q, "");
      assert q + "" == q;
    } else {
      assert (x + q)[0] == x[0] && (x + q)[1..] == x[1..] + q;
      if IsWs(x[0]) { SkipKeeps(x[1..], q); }
    }
  }

  function TrimWs(s: string): string {
    DropWs(SkipWs(s))
  }

  lemma TrimWsDrops(x: string, q: string)
    requires AllWs(q)
    ensures TrimWs(x + q) == TrimWs(x)
  {
    SkipKeeps(x, q);
    DropAll(SkipWs(x), q);
  }

  // ----- The pattern under a change at the end -----

  lemma {:induction false} BeforeSemiTail(x: string, q: string)
    requires Free(q, ';')
    ensures BeforeSemi(x + q) == if FromSemi(x) == "" then BeforeSemi(x) + q else BeforeSemi(x)
  {
    if x == "" {
      assert x + q == q && "" + q == q;
      BeforeSemiFree(q);
    } else {
      assert (x + q)[0] == x[0] && (x + q)[1..] == x[1..] + q;
      if x[0] != ';' {
        BeforeSemiTail(x[1..], q);
        assert [x[0]] + (BeforeSemi(x[1..]) + q) == ([x[0]] + BeforeSemi(x[1..])) + q;
      }
    }
  }

  lemma {:induction false} BeforeSemiFree(x: string)
    requires Free(x, ';')
    ensures BeforeSemi(x) == x && FromSemi(x) == ""
  {
    if x != "" {
      BeforeSemiFree(x[1..]);
      assert x == [x[0]] + x[1..];
    }
  }

  /** Where a line has a directive, it has that key whatever follows. */
  lemma DirectiveKey(s: string, q: string)
    requires DirectiveAt(s).Some?
    ensures DirectiveAt(s + q).Some? && DirectiveAt(s + q).value.key == DirectiveAt(s).value.key
  {
    var a := AfterKey(s);
    var rest := SkipWs(a);
    KeyApart(s, q);
    SkipApart(a, q);
    assert (rest + q)[0] == rest[0];
  }

  lemma {:induction false} KeyApart(s: string, q: string)
    requires AfterKey(s) != ""
    ensures KeyRun(s + q) == KeyRun(s) && AfterKey(s + q) == AfterKey(s) + q
  {
    assert (s + q)[0] == s[0] && (s + q)[1..] == s[1..] + q;
    if IsKeyChar(s[0]) { KeyApart(s[1..], q); }
  }

  lemma {:induction false} SkipApart(x: string, q: string)
    requires SkipWs(x) != ""
    ensures SkipWs(x + q) == SkipWs(x) + q
  {
    assert (x + q)[0] == x[0] && (x + q)[1..] == x[1..] + q;
    if IsWs(x[0]) { SkipApart(x[1..], q); }
  }

  // ----- Trimmed lines -----

  lemma TrimDropReturn(l: string)
    ensures Trim(DropReturn(l)) == Trim(l)
  {
    if l != "" && l[|l| - 1] == '\r' {
      var d := l[..|l| - 1];
      assert "" + d + "\r" == l;
      TrimAbsorbs("", d, "\r");
    }
  }

  /** A line whose leading blanks hold a vertical tab: trimming drops it, the rewriting pattern does not skip it. */
  predicate TabLed(line: string) {
    var s := SkipWs(line);
    s != "" && s[0] == '\U{0B}'
  }

  lemma {:induction false} SkipBlanks(p: string, x: string)
    requires Blank(p) && x != "" && !IsSpace(x[0])
    ensures SkipWs(p + x) == x || TabLed(p + x)
  {
    if p == "" {
      assert p + x == x;
    } else {
      assert (p + x)[0] == p[0] && (p + x)[1..] == p[1..] + x;
      if IsWs(p[0]) { SkipBlanks(p[1..], x); }
    }
  }

  /** A line that starts with a visible byte starts with it after trimming. */
  lemma TrimHead(line: string)
    requires line != "" && !IsSpace(line[0])
    ensures Trim(line) != "" && Trim(line)[0] == line[0]
  {
    var q := TrimRightSplit(line);
    var t := Trim(line);
    assert t == TrimRight(line) && line == t + q;
    assert t == "" ==> line == q;
  }

  lemma SemiLine(l: string)
    requires l != "" && l[0] == ';'
    ensures Reading(l) == None
  {
    TrimDropReturn(l);
    TrimHead(l);
  }

  /** A line that is read is held by the pattern that rewrites, under the same key, unless a vertical tab leads it. */
  lemma ReadIsHeld(line: string)
    requires Reading(line).Some?
    ensures !Section(line)
    ensures !TabLed(line) ==> Held(line).Some? && Held(line).value.key == Reading(line).value.0
  {
    TrimDropReturn(line);
    var p, q := TrimSplit(line);
    var t := Trim(line);
    Assoc(p, t, q);
    assert (t + q)[0] == t[0];
    SkipBlanks(p, t + q);
    DirectiveKey(t, q);
  }

  lemma TabLedIsNotHeld(line: string)
    requires TabLed(line)
    ensures Held(line) == None
  {
  }

  // ----- Written lines -----

  predicate Comment(c: string) {
    c == "" || c[0] == ';'
  }

  function Tail(c: string): string {
    if c == "" then "" else " " + c
  }

  lemma {:induction false} KeyThen(k: string, y: string)
    requires forall i :: 0 <= i < |k| ==> IsKeyChar(k[i])
    requires y != "" && !IsKeyChar(y[0])
    ensures KeyRun(k + y) == k && AfterKey(k + y) == y
  {
    if k == "" {
      assert k + y == y;
    } else {
      assert (k + y)[0] == k[0] && (k + y)[1..] == k[1..] + y;
      KeyThen(k[1..], y);
      assert k == [k[0]] + k[1..];
    }
  }

  lemma DirectiveOf(k: string, y: string)
    requires ValidKey(k)
    ensures DirectiveAt(k + (" =" + y)) == Some(Directive(k, y))
  {
    var z := " =" + y;
    KeyThen(k, z);
    assert z[0] == ' ' && z[1..][0] == '=' && z[1..][1..] == y;
    assert SkipWs(z) == z[1..];
  }

  lemma {:induction false} FromSemiSkips(x: string, c: string)
    requires Free(x, ';')
    ensures FromSemi(x + c) == FromSemi(c)
  {
    if x == "" {
      assert x + c == c;
    } else {
      assert (x + c)[0] == x[0] && (x + c)[1..] == x[1..] + c;
      FromSemiSkips(x[1..], c);
    }
  }

  lemma {:induction false} BeforeSemiCut(x: string, c: string)
    requires Comment(c)
    ensures BeforeSemi(x + c) == BeforeSemi(x)
  {
    if x == "" {
      assert x + c == c;
    } else {
      assert (x + c)[0] == x[0] && (x + c)[1..] == x[1..] + c;
      if x[0] != ';' { BeforeSemiCut(x[1..], c); }
    }
  }

  /** What a written value is read as: without a comment behind it, trimming the line trims it too. */
  function ReadAs(v: string, c: string): string {
    Unquote(TrimWs(BeforeSemi(if c == "" then TrimRight(v) else v)))
  }

  lemma ValueOfWritten(k: string, v: string, c: string)
    requires ValidKey(k) && Comment(c)
    ensures var d := Directive(k, " " + (v + Tail(c)));
            d.Value() == TrimWs(BeforeSemi(v))
  {
    var y := v + Tail(c);
    var a := " " + y;
    assert a[0] == ' ' && a[1..] == y;
    var b := BeforeSemi(y);
    SkipAll(" ", b);
    assert TrimWs(" " + b) == TrimWs(b);
    if c == "" {
      assert y == v;
    } else {
      assert y == (v + " ") + c;
      BeforeSemiCut(v + " ", c);
      BeforeSemiTail(v, " ");
      TrimWsDrops(BeforeSemi(v), " ");
    }
  }

  lemma WrittenComment(v: string, c: string)
    requires Free(v, ';') && Comment(c)
    ensures FromSemi(" " + (v + Tail(c))) == c
  {
    if c == "" {
      assert " " + (v + Tail(c)) == " " + v;
      BeforeSemiFree(" " + v);
    } else {
      assert " " + (v + Tail(c)) == (" " + v + " ") + c;
      FromSemiSkips(" " + v + " ", c);
    }
  }

  lemma WrittenHead(k: string, v: string, c: string)
    requires ValidKey(k) && Comment(c)
    ensures var w := Written(k, v, c);
            && w != "" && w[0] == k[0] && !IsSpace(w[0]) && w[0] != ';' && w[0] != '#' && w[0] != '['
            && DirectiveAt(w) == Some(Directive(k, " " + (v + Tail(c)))) && Trim(w) != "" && Trim(w)[0] == k[0]
  {
    DirectiveOf(k, " " + (v + Tail(c)));
    assert Written(k, v, c) == k + (" =" + (" " + (v + Tail(c))));
    TrimHead(Written(k, v, c));
  }

  lemma TrimCommented(k: string, v: string, c: string) returns (short: string)
    requires ValidKey(k) && Comment(c) && c != ""
    ensures Comment(short) && short != "" && Trim(Written(k, v, c)) == Written(k, v, short)
  {
    var w := Written(k, v, c);
    WrittenHead(k, v, c);
    var a, b := k + (" = " + (v + " ;")), c[1..];
    assert c == ";" + b;
    CommentRegroup(k, v, b);
    assert a[|a| - 1] == ';';
    TrimRightAfter(a, b);
    short := ";" + TrimRight(b);
    CommentRegroup(k, v, TrimRight(b));
  }

  lemma CommentRegroup(k: string, v: string, b: string)
    ensures k + (" = " + (v + (" " + (";" + b)))) == (k + (" = " + (v + " ;"))) + b
  {
  }

  lemma TrimBlankLed(v: string)
    ensures TrimRight(" " + v) == if Blank(v) then "" else " " + TrimRight(v)
    ensures Blank(v) ==> TrimRight(v) == ""
  {
    var q := TrimRightSplit(v);
    var t := TrimRight(v);
    if Blank(v) {
      assert "" + v == v && "" + (" " + v) == " " + v;
      TrimRightDrops("", v);
      TrimRightDrops("", " " + v);
    } else {
      assert t + q == v && (t == "" ==> v == q);
      assert " " + v == (" " + t) + q;
      TrimRightDrops(" " + t, q);
      assert (" " + t)[|" " + t| - 1] == t[|t| - 1];
    }
  }

  lemma TrimBare(k: string, v: string)
    requires ValidKey(k)
    ensures Trim(Written(k, v, "")) == k + (" =" + TrimRight(" " + v))
  {
    WrittenHead(k, v, "");
    var a := k + " =";
    assert Written(k, v, "") == a + (" " + v) by { assert v + "" == v; }
    assert a[|a| - 1] == '=';
    TrimRightAfter(a, " " + v);
    assert a + TrimRight(" " + v) == k + (" =" + TrimRight(" " + v));
  }

  lemma BareValue(v: string)
    ensures TrimWs(BeforeSemi(TrimRight(" " + v))) == TrimWs(BeforeSemi(TrimRight(v)))
  {
    TrimBlankLed(v);
    if !Blank(v) {
      var x := " " + TrimRight(v);
      assert x[0] == ' ' && x[1..] == TrimRight(v);
      SkipAll(" ", BeforeSemi(TrimRight(v)));
    }
  }

  lemma ReadTrimmed(w: string, t: string, d: Directive)
    requires t == Trim(w) && t != "" && t[0] != ';' && t[0] != '#' && t[0] != '[' && DirectiveAt(t) == Some(d)
    ensures Reading(w) == Some((d.key, Unquote(d.Value())))
  {
    TrimDropReturn(w);
  }

  /** A written line is read under its key, with the value as far as it can be read back. */
  lemma WrittenIsRead(k: string, v: string, c: string)
    requires ValidKey(k) && Comment(c)
    ensures Reading(Written(k, v, c)) == Some((k, ReadAs(v, c)))
  {
    var w := Written(k, v, c);
    WrittenHead(k, v, c);
    if c == "" {
      TrimBare(k, v);
      DirectiveOf(k, TrimRight(" " + v));
      BareValue(v);
      ReadTrimmed(w, Trim(w), Directive(k, TrimRight(" " + v)));
    } else {
      var short := TrimCommented(k, v, c);
      WrittenHead(k, v, short);
      ValueOfWritten(k, v, short);
      ReadTrimmed(w, Trim(w), Directive(k, " " + (v + Tail(short))));
    }
  }

  /** A written line is held again, with the same comment if its value holds no semicolon. */
  lemma WrittenIsHeld(k: string, v: string, c: string)
    requires ValidKey(k) && Comment(c)
    ensures var w := Written(k, v, c);
            !Section(w) && Held(w).Some? && Held(w).value.key == k && Held(w).value.Comment() == FromSemi(" " + (v + Tail(c)))
    ensures Free(v, ';') ==> Held(Written(k, v, c)).value.Comment() == c
  {
    WrittenHead(k, v, c);
    if Free(v, ';') { WrittenComment(v, c); }
  }

  // ----- The values that can be written -----

  predicate IsQuote(c: char) { c == '"' || c == '\'' }

  /**
   A value that comes back from in front of a comment: no semicolon, no blank and no quote at
   either end. Without a comment a vertical tab at the end is lost as well.
   */
  predicate Clean(v: string, c: string) {
    && Free(v, ';')
    && (v == "" || (!IsWs(v[0]) && !IsWs(v[|v| - 1]) && !IsQuote(v[0]) && !IsQuote(v[|v| - 1])))
    && (c == "" && v != "" ==> !IsSpace(v[|v| - 1]))
  }

  lemma {:induction false} SkipWsShape(s: string)
    ensures (|SkipWs(s)| < |s| || SkipWs(s) == s) && (SkipWs(s) == s <==> s == "" || !IsWs(s[0]))
  {
    if s != "" && IsWs(s[0]) { SkipWsShape(s[1..]); }
  }

  lemma {:induction false} DropWsShape(s: string)
    ensures (|DropWs(s)| < |s| || DropWs(s) == s) && (DropWs(s) == s <==> s == "" || !IsWs(s[|s| - 1]))
  {
    if s != "" && IsWs(s[|s| - 1]) { DropWsShape(s[..|s| - 1]); }
  }

  lemma {:induction false} CutLeftShape(s: string)
    ensures (|CutQuotesLeft(s)| < |s| || CutQuotesLeft(s) == s) && (CutQuotesLeft(s) == s <==> s == "" || !IsQuote(s[0]))
  {
    if s != "" && IsQuote(s[0]) { CutLeftShape(s[1..]); }
  }

  lemma {:induction false} CutRightShape(s: string)
    ensures (|CutQuotesRight(s)| < |s| || CutQuotesRight(s) == s) && (CutQuotesRight(s) == s <==> s == "" || !IsQuote(s[|s| - 1]))
  {
    if s != "" && IsQuote(s[|s| - 1]) { CutRightShape(s[..|s| - 1]); }
  }

  lemma {:induction false} BeforeSemiShape(s: string)
    ensures (|BeforeSemi(s)| < |s| || BeforeSemi(s) == s) && (BeforeSemi(s) == s <==> Free(s, ';'))
  {
    if s != "" && s[0] != ';' {
      BeforeSemiShape(s[1..]);
      assert s == [s[0]] + s[1..];
    }
  }

  lemma {:induction false} TrimRightShape(s: string)
    ensures (|TrimRight(s)| < |s| || TrimRight(s) == s) && (TrimRight(s) == s <==> s == "" || !IsSpace(s[|s| - 1]))
  {
    if s != "" && IsSpace(s[|s| - 1]) { TrimRightShape(s[..|s| - 1]); }
  }

  /** Reading a written value gives it back exactly when it is clean. */
  lemma ReadsBackIff(v: string, c: string)
    ensures ReadAs(v, c) == v <==> Clean(v, c)
  {
    var u := if c == "" then TrimRight(v) else v;
    var b := BeforeSemi(u);
    var s := SkipWs(b);
    var d := DropWs(s);
    var l := CutQuotesLeft(d);
    TrimRightShape(v);
    BeforeSemiShape(u);
    SkipWsShape(b);
    DropWsShape(s);
    CutLeftShape(d);
    CutRightShape(l);
  }

  // ----- One line under an update -----

  predicate ValidUpdates(updates: map<string, string>) {
    forall k :: k in updates ==> ValidKey(k) && Free(updates[k], '\n')
  }

  /** What a line gives for one key. */
  function Gives(line: string, k: string): Option<string> {
    match Reading(line)
    case None => None
    case Some(kv) => if kv.0 == k then Some(kv.1) else None
  }

  lemma {:induction false} FromSemiPart(s: string)
    ensures Comment(FromSemi(s)) && |FromSemi(s)| <= |s| && FromSemi(s) == s[|s| - |FromSemi(s)|..]
  {
    if s != "" && s[0] != ';' { FromSemiPart(s[1..]); }
  }

  lemma {:induction false} AfterKeyPart(s: string)
    ensures |AfterKey(s)| <= |s| && AfterKey(s) == s[|s| - |AfterKey(s)|..]
  {
    if s != "" && IsKeyChar(s[0]) { AfterKeyPart(s[1..]); }
  }

  lemma FreePart(s: string, n: nat, c: char)
    requires Free(s, c) && n <= |s|
    ensures Free(s[n..], c)
  {
  }

  lemma DirectivePart(s: string, c: char)
    requires Free(s, c) && DirectiveAt(s).Some?
    ensures Free(DirectiveAt(s).value.Comment(), c) && Comment(DirectiveAt(s).value.Comment())
  {
    AfterKeyPart(s);
    var a := AfterKey(s);
    FreePart(s, |s| - |a|, c);
    SkipWsSuffix(a);
    var b := SkipWs(a);
    FreePart(a, |a| - |b|, c);
    FreePart(b, 1, c);
    FromSemiPart(b[1..]);
    FreePart(b[1..], |b[1..]| - |FromSemi(b[1..])|, c);
  }

  /** A comment is a part of its line. */
  lemma HeldPart(line: string, c: char)
    requires Free(line, c) && Held(line).Some?
    ensures Free(Held(line).value.Comment(), c) && Comment(Held(line).value.Comment())
  {
    SkipWsSuffix(line);
    var s := SkipWs(line);
    FreePart(line, |line| - |s|, c);
    if s != "" && s[0] == ';' {
      FreePart(s, 1, c);
      SkipWsSuffix(s[1..]);
      FreePart(s[1..], |s[1..]| - |SkipWs(s[1..])|, c);
      DirectivePart(SkipWs(s[1..]), c);
    } else {
      DirectivePart(s, c);
    }
  }

  lemma WrittenFree(k: string, v: string, t: string)
    requires ValidKey(k) && Free(v, '\n') && Free(t, '\n')
    ensures Free(Written(k, v, t), '\n')
  {
  }

  lemma EditedFree(line: string, updates: map<string, string>)
    requires ValidUpdates(updates) && Free(line, '\n')
    ensures Free(Edited(line, updates), '\n')
  {
    var t := Target(line, updates);
    if t.Some? {
      HeldPart(line, '\n');
      WrittenFree(t.value, updates[t.value], Held(line).value.Comment());
    }
  }

  /** The line that decides an updated key: one rewritten, in front of its comment, or one a vertical tab keeps from being. */
  datatype Source = Rewritten(comment: string) | Tabbed(value: string)

  /** What a source gives for a key with a new value. */
  function Given(src: Source, v: string): string {
    match src
    case Rewritten(c) => ReadAs(v, c)
    case Tabbed(kept) => kept
  }

  /** What a line decides about an updated key. */
  function SourceOf(line: string, updates: map<string, string>, k: string): Option<Source> {
    if Target(line, updates) == Some(k) then Some(Rewritten(Held(line).value.Comment()))
    else if TabLed(line) && Gives(line, k).Some? then Some(Tabbed(Gives(line, k).value))
    else None
  }

  /** A rewritten line gives the new value of its own key; every other line gives what it gave. */
  lemma EditedGives(line: string, updates: map<string, string>, k: string)
    requires ValidUpdates(updates)
    ensures k in updates ==>
              Gives(Edited(line, updates), k) ==
              match SourceOf(line, updates, k) case None => None case Some(src) => Some(Given(src, updates[k]))
    ensures k !in updates ==> Gives(Edited(line, updates), k) == Gives(line, k)
  {
    var t := Target(line, updates);
    if Reading(line).Some? { ReadIsHeld(line); }
    if TabLed(line) { TabLedIsNotHeld(line); }
    if t.Some? {
      FromSemiPart(Held(line).value.after);
      WrittenIsRead(t.value, updates[t.value], Held(line).value.Comment());
    }
  }

  // ----- All lines -----

  /** Every line fits the scanner. */
  predicate Fits(lines: seq<string>) {
    forall i :: 0 <= i < |lines| ==> |lines[i]| < MAX_LINE
  }

  /** The last value the lines give for a key. */
  function Last(lines: seq<string>, k: string): Option<string> {
    if lines == [] then None
    else
      var later := Last(lines[1..], k);
      if later.Some? then later else Gives(lines[0], k)
  }

  function Lookup(m: map<string, string>, k: string): Option<string> {
    if k in m then Some(m[k]) else None
  }

  lemma {:induction false} NotedLast(lines: seq<string>, acc: map<string, string>, k: string)
    requires Fits(lines)
    ensures Lookup(Noted(lines, acc), k) == if Last(lines, k).Some? then Last(lines, k) else Lookup(acc, k)
  {
    if lines != [] {
      assert |lines[0]| < MAX_LINE;
      NotedLast(lines[1..], Note(acc, lines[0]), k);
    }
  }

  lemma {:induction false} LastAppend(a: seq<string>, b: seq<string>, k: string)
    ensures Last(a + b, k) == if Last(b, k).Some? then Last(b, k) else Last(a, k)
  {
    if a == [] {
      assert a + b == b;
    } else {
      assert (a + b)[1..] == a[1..] + b;
      LastAppend(a[1..], b, k);
    }
  }

  /** The source of the last line that decides an updated key. */
  function LastSource(lines: seq<string>, updates: map<string, string>, k: string): Option<Source> {
    if lines == [] then None
    else
      var later := LastSource(lines[1..], updates, k);
      if later.Some? then later else SourceOf(lines[0], updates, k)
  }

  lemma {:induction false} LastEdited(lines: seq<string>, updates: map<string, string>, k: string)
    requires ValidUpdates(updates)
    ensures k !in updates ==> Last(EditedAll(lines, updates), k) == Last(lines, k)
    ensures k in updates ==>
              Last(EditedAll(lines, updates), k) ==
              match LastSource(lines, updates, k) case None => None case Some(src) => Some(Given(src, updates[k]))
  {
    if lines != [] {
      EditedGives(lines[0], updates, k);
      LastEdited(lines[1..], updates, k);
      EditedTail(lines, updates);
    }
  }

  lemma EditedTail(lines: seq<string>, updates: map<string, string>)
    requires lines != []
    ensures EditedAll(lines, updates)[0] == Edited(lines[0], updates) && EditedAll(lines, updates)[1..] == EditedAll(lines[1..], updates)
  {
  }

  lemma {:induction false} TargetsHaveSource(lines: seq<string>, updates: map<string, string>, k: string)
    ensures k in Targets(lines, updates) ==> LastSource(lines, updates, k).Some?
  {
    if lines != [] { TargetsHaveSource(lines[1..], updates, k); }
  }

  /** The source that decides an updated key in the whole file: keys no line is rewritten for are appended without comment. */
  function Deciding(lines: seq<string>, updates: map<string, string>, k: string): Source {
    TargetsHaveSource(lines, updates, k);
    if k in Targets(lines, updates) then LastSource(lines, updates, k).value else Rewritten("")
  }

  /** A line led by a vertical tab gives the key, and no later line is rewritten for it or does so too. */
  predicate HidesAt(lines: seq<string>, updates: map<string, string>, k: string, i: int) {
    && 0 <= i < |lines| && TabLed(lines[i]) && Gives(lines[i], k).Some?
    && forall j :: i < j < |lines| ==> SourceOf(lines[j], updates, k).None?
  }

  lemma TabbedSource(line: string, updates: map<string, string>, k: string)
    ensures SourceOf(line, updates, k).Some? && SourceOf(line, updates, k).value.Tabbed? <==> TabLed(line) && Gives(line, k).Some?
  {
    if TabLed(line) { TabLedIsNotHeld(line); }
  }

  lemma {:induction false} LastIsTabbedIff(lines: seq<string>, updates: map<string, string>, k: string)
    ensures LastSource(lines, updates, k).Some? && LastSource(lines, updates, k).value.Tabbed? <==>
            exists i :: HidesAt(lines, updates, k, i)
    ensures LastSource(lines, updates, k).None? <==> forall j :: 0 <= j < |lines| ==> SourceOf(lines[j], updates, k).None?
  {
    if lines != [] {
      LastIsTabbedIff(lines[1..], updates, k);
      TabbedSource(lines[0], updates, k);
      HidesSplit(lines, updates, k);
    }
  }

  lemma HidesSplit(lines: seq<string>, updates: map<string, string>, k: string)
    requires lines != []
    ensures (exists i :: HidesAt(lines, updates, k, i)) <==>
            (exists i :: HidesAt(lines[1..], updates, k, i)) || HidesAt(lines, updates, k, 0)
    ensures (forall j :: 0 <= j < |lines| ==> SourceOf(lines[j], updates, k).None?) <==>
            SourceOf(lines[0], updates, k).None? && forall j :: 0 <= j < |lines[1..]| ==> SourceOf(lines[1..][j], updates, k).None?
    ensures HidesAt(lines, updates, k, 0) <==>
            TabLed(lines[0]) && Gives(lines[0], k).Some? && forall j :: 0 <= j < |lines[1..]| ==> SourceOf(lines[1..][j], updates, k).None?
  {
    var later := lines[1..];
    assert forall j :: 0 < j < |lines| ==> lines[j] == later[j - 1];
    forall i | HidesAt(later, updates, k, i) ensures HidesAt(lines, updates, k, i + 1) {
      forall j | i + 1 < j < |lines| ensures SourceOf(lines[j], updates, k).None? { assert lines[j] == later[j - 1]; }
    }
    forall i | HidesAt(lines, updates, k, i) && i > 0 ensures HidesAt(later, updates, k, i - 1) {
      forall j | i - 1 < j < |later| ensures SourceOf(later[j], updates, k).None? { assert later[j] == lines[j + 1]; }
    }
    forall j | 0 <= j < |later| ensures later[j] == lines[j + 1] {}
  }

  /**
   The old value stays on exactly when the key has a line that is rewritten and, after the
   last such line, one led by a vertical tab: no line rewritten for the key comes later.
   */
  lemma TabHidesIff(lines: seq<string>, updates: map<string, string>, k: string)
    ensures Deciding(lines, updates, k).Tabbed? <==>
            k in Targets(lines, updates) && exists i :: HidesAt(lines, updates, k, i)
  {
    TargetsHaveSource(lines, updates, k);
    LastIsTabbedIff(lines, updates, k);
  }

  lemma {:induction false} LastMissing(order: seq<string>, updates: map<string, string>, seen: set<string>, k: string)
    requires ValidUpdates(updates) && forall i :: 0 <= i < |order| ==> order[i] in updates
    ensures Last(Missing(order, updates, seen), k) ==
            if k in order && k !in seen then Some(ReadAs(updates[k], "")) else None
  {
    if order != [] {
      var later := Missing(order[1..], updates, seen);
      LastMissing(order[1..], updates, seen, k);
      if order[0] in seen {
        assert [] + later == later;
      } else {
        var w := Written(order[0], updates[order[0]], "");
        WrittenIsRead(order[0], updates[order[0]], "");
        assert ([w] + later)[1..] == later;
      }
    }
  }

  lemma LastAppended(missing: seq<string>, header: string, k: string)
    requires header == CUSTOM_HEADER
    ensures Last(Appended(missing), k) == Last(missing, k)
  {
    if missing != [] {
      var a := ["", header] + missing;
      assert header[0] == ';';
      SemiLine(header);
      assert a[1..] == [header] + missing && a[1..][1..] == missing;
      assert Reading("") == None;
    }
  }

  // ----- The lens laws -----

  lemma {:induction false} EditedAllFree(lines: seq<string>, updates: map<string, string>)
    requires ValidUpdates(updates) && AllFree(lines, '\n')
    ensures AllFree(EditedAll(lines, updates), '\n') && |EditedAll(lines, updates)| == |lines|
  {
    if lines != [] {
      EditedFree(lines[0], updates);
      EditedAllFree(lines[1..], updates);
    }
  }

  lemma {:induction false} MissingFree(order: seq<string>, updates: map<string, string>, seen: set<string>)
    requires ValidUpdates(updates) && forall i :: 0 <= i < |order| ==> order[i] in updates
    ensures AllFree(Missing(order, updates, seen), '\n')
  {
    if order != [] {
      MissingFree(order[1..], updates, seen);
      WrittenFree(order[0], updates[order[0]], "");
    }
  }

  lemma HeaderFree(header: string)
    requires header == CUSTOM_HEADER
    ensures Free(header, '\n')
  {
  }

  /** The updated text splits into exactly the updated lines. */
  lemma UpdatedSplits(content: string, updates: map<string, string>, order: seq<string>)
    requires KeyOrder(order, updates) && ValidUpdates(updates)
    ensures SplitOn(Updated(content, updates, order), '\n') == UpdatedLines(SplitOn(content, '\n'), updates, order)
  {
    WalkIn(order, updates);
    var lines := SplitOn(content, '\n');
    JoinSplit(content, '\n');
    EditedAllFree(lines, updates);
    MissingFree(order, updates, Targets(lines, updates));
    HeaderFree(CUSTOM_HEADER);
    SplitJoin(UpdatedLines(lines, updates, order), '\n');
  }

  lemma UpdatedLast(content: string, updates: map<string, string>, order: seq<string>, k: string)
    requires KeyOrder(order, updates) && ValidUpdates(updates)
    requires Fits(SplitOn(Updated(content, updates, order), '\n'))
    ensures Lookup(Directives(Updated(content, updates, order)), k) ==
            if k in updates then Some(Given(Deciding(SplitOn(content, '\n'), updates, k), updates[k])) else Last(SplitOn(content, '\n'), k)
  {
    WalkIn(order, updates);
    var lines := SplitOn(content, '\n');
    var seen := Targets(lines, updates);
    var missing := Missing(order, updates, seen);
    UpdatedSplits(content, updates, order);
    NotedLast(UpdatedLines(lines, updates, order), map[], k);
    LastAppend(EditedAll(lines, updates), Appended(missing), k);
    LastAppended(missing, CUSTOM_HEADER, k);
    LastEdited(lines, updates, k);
    TargetsHaveSource(lines, updates, k);
    LastMissing(order, updates, seen, k);
  }

  /**
   An updated key is read back with its new value exactly when the line that decides it is a
   rewritten or appended one and the value is clean there, or a hiding line happens to say the same.
   */
  lemma PutThenGet(content: string, updates: map<string, string>, order: seq<string>, k: string)
    requires KeyOrder(order, updates) && ValidUpdates(updates) && k in updates
    requires Fits(SplitOn(Updated(content, updates, order), '\n'))
    ensures k in Directives(Updated(content, updates, order))
    ensures Directives(Updated(content, updates, order))[k] == updates[k] <==>
            match Deciding(SplitOn(content, '\n'), updates, k)
            case Rewritten(c) => Clean(updates[k], c)
            case Tabbed(kept) => kept == updates[k]
  {
    UpdatedLast(content, updates, order, k);
    var src := Deciding(SplitOn(content, '\n'), updates, k);
    if src.Rewritten? { ReadsBackIff(updates[k], src.comment); }
  }

  /** Every other key keeps what it had, or stays absent. */
  lemma PutLeavesOthers(content: string, updates: map<string, string>, order: seq<string>, k: string)
    requires KeyOrder(order, updates) && ValidUpdates(updates) && k !in updates
    requires Fits(SplitOn(content, '\n')) && Fits(SplitOn(Updated(content, updates, order), '\n'))
    ensures Lookup(Directives(Updated(content, updates, order)), k) == Lookup(Directives(content), k)
  {
    UpdatedLast(content, updates, order, k);
    NotedLast(SplitOn(content, '\n'), map[], k);
  }

  // ----- Putting twice -----

  predicate SemiFree(updates: map<string, string>) {
    forall k :: k in updates ==> Free(updates[k], ';')
  }

  lemma EditedTwice(line: string, updates: map<string, string>)
    requires ValidUpdates(updates) && SemiFree(updates)
    ensures Edited(Edited(line, updates), updates) == Edited(line, updates)
    ensures Target(Edited(line, updates), updates) == Target(line, updates)
  {
    var t := Target(line, updates);
    if t.Some? {
      FromSemiPart(Held(line).value.after);
      WrittenIsHeld(t.value, updates[t.value], Held(line).value.Comment());
    }
  }

  lemma {:induction false} EditedAllTwice(lines: seq<string>, updates: map<string, string>)
    requires ValidUpdates(updates) && SemiFree(updates)
    ensures EditedAll(EditedAll(lines, updates), updates) == EditedAll(lines, updates)
    ensures Targets(EditedAll(lines, updates), updates) == Targets(lines, updates)
  {
    if lines != [] {
      EditedTwice(lines[0], updates);
      EditedAllTwice(lines[1..], updates);
      assert EditedAll(lines, updates)[1..] == EditedAll(lines[1..], updates);
    }
  }

  lemma {:induction false} EditedAppend(a: seq<string>, b: seq<string>, updates: map<string, string>)
    ensures EditedAll(a + b, updates) == EditedAll(a, updates) + EditedAll(b, updates)
    ensures Targets(a + b, updates) == Targets(a, updates) + Targets(b, updates)
  {
    if a == [] {
      assert a + b == b;
    } else {
      assert (a + b)[1..] == a[1..] + b;
      EditedAppend(a[1..], b, updates);
    }
  }

  /** A line written for a key is rewritten to itself. */
  lemma WrittenAgain(k: string, updates: map<string, string>)
    requires ValidUpdates(updates) && SemiFree(updates) && k in updates
    ensures var w := Written(k, updates[k], ""); Edited(w, updates) == w && Target(w, updates) == Some(k)
  {
    WrittenIsHeld(k, updates[k], "");
  }

  lemma {:induction false} MissingAgain(order: seq<string>, updates: map<string, string>, seen: set<string>)
    requires ValidUpdates(updates) && SemiFree(updates) && forall i :: 0 <= i < |order| ==> order[i] in updates
    ensures var m := Missing(order, updates, seen);
            EditedAll(m, updates) == m && forall k :: k in order && k !in seen ==> k in Targets(m, updates)
  {
    if order != [] {
      MissingAgain(order[1..], updates, seen);
      var later := Missing(order[1..], updates, seen);
      if order[0] in seen {
        assert [] + later == later;
      } else {
        WrittenAgain(order[0], updates);
        var w := Written(order[0], updates[order[0]], "");
        assert ([w] + later)[1..] == later;
      }
    }
  }

  /** The separator lines hold no directive. */
  lemma HeaderIsNoTarget(header: string, updates: map<string, string>)
    requires header == CUSTOM_HEADER
    ensures Target("", updates) == None && Target(header, updates) == None
  {
    assert header[0] == ';' && header[1] == ' ' && header[2] == '-';
    NoHeld(header);
  }

  lemma NoHeld(l: string)
    requires |l| > 2 && l[0] == ';' && l[1] == ' ' && l[2] == '-'
    ensures Held(l) == None
  {
    assert SkipWs(l) == l && l[1..][0] == ' ' && l[1..][1..] == l[2..];
    assert SkipWs(l[1..]) == l[2..];
  }

  lemma AppendedAgain(missing: seq<string>, updates: map<string, string>, header: string)
    requires header == CUSTOM_HEADER && EditedAll(missing, updates) == missing
    ensures EditedAll(Appended(missing), updates) == Appended(missing)
    ensures Targets(missing, updates) <= Targets(Appended(missing), updates)
  {
    if missing != [] {
      HeaderIsNoTarget(header, updates);
      var a := ["", header] + missing;
      assert a[1..] == [header] + missing && ([header] + missing)[1..] == missing;
      assert a == [""] + ([header] + missing);
    }
  }

  lemma {:induction false} NothingMissing(order: seq<string>, updates: map<string, string>, seen: set<string>)
    requires forall i :: 0 <= i < |order| ==> order[i] in updates && order[i] in seen
    ensures Missing(order, updates, seen) == []
  {
    if order != [] { NothingMissing(order[1..], updates, seen); }
  }

  lemma SettledTwice(content: string, updates: map<string, string>, order: seq<string>, again: seq<string>)
    requires KeyOrder(order, updates) && KeyOrder(again, updates) && ValidUpdates(updates) && SemiFree(updates)
    ensures Updated(Updated(content, updates, order), updates, again) == Updated(content, updates, order)
  {
    WalkIn(order, updates);
    WalkIn(again, updates);
    var lines := SplitOn(content, '\n');
    var seen := Targets(lines, updates);
    var missing := Missing(order, updates, seen);
    var a, b := EditedAll(lines, updates), Appended(missing);
    UpdatedSplits(content, updates, order);
    EditedAllTwice(lines, updates);
    MissingAgain(order, updates, seen);
    AppendedAgain(missing, updates, CUSTOM_HEADER);
    EditedAppend(a, b, updates);
    NothingMissing(again, updates, Targets(a + b, updates));
    assert a + b + [] == a + b;
  }

  lemma {:induction false} SemiGrows(x: string, c: string)
    requires !Free(x, ';')
    ensures |FromSemi(x + c)| > |c|
  {
    assert x != "" && (x + c)[0] == x[0] && (x + c)[1..] == x[1..] + c;
    if x[0] != ';' {
      assert exists i :: 1 <= i < |x| && x[i] == ';';
      assert forall i :: 1 <= i < |x| ==> x[i] == x[1..][i - 1];
      SemiGrows(x[1..], c);
    }
  }

  /** A line written with a semicolon in its value takes part of the value for a comment, and writes it once more. */
  lemma WrittenGrows(k: string, updates: map<string, string>, c: string)
    requires ValidUpdates(updates) && k in updates && !Free(updates[k], ';') && Comment(c)
    ensures |Edited(Written(k, updates[k], c), updates)| > |Written(k, updates[k], c)|
  {
    var v := updates[k];
    WrittenIsHeld(k, v, c);
    WrittenLength(k, v, c);
    Assoc(" ", v, Tail(c));
    assert (" " + v)[1..] == v;
    SemiGrows(" " + v, Tail(c));
    WrittenLength(k, v, FromSemi(" " + (v + Tail(c))));
  }

  lemma WrittenLength(k: string, v: string, c: string)
    ensures |Written(k, v, c)| == |k| + 3 + |v| + |Tail(c)| && (c != "" ==> |Tail(c)| == |c| + 1)
  {
  }

  lemma {:induction false} EditedAt(lines: seq<string>, updates: map<string, string>, i: nat)
    requires i < |lines|
    ensures i < |EditedAll(lines, updates)| && EditedAll(lines, updates)[i] == Edited(lines[i], updates)
  {
    if i > 0 { EditedAt(lines[1..], updates, i - 1); }
  }

  lemma {:induction false} TargetAt(lines: seq<string>, updates: map<string, string>, k: string) returns (i: nat)
    requires k in Targets(lines, updates)
    ensures i < |lines| && Target(lines[i], updates) == Some(k)
  {
    if Target(lines[0], updates) == Some(k) {
      i := 0;
    } else {
      i := TargetAt(lines[1..], updates, k);
      i := i + 1;
    }
  }

  lemma {:induction false} MissingAt(order: seq<string>, updates: map<string, string>, seen: set<string>, k: string) returns (i: nat)
    requires (forall j :: 0 <= j < |order| ==> order[j] in updates) && k in order && k !in seen
    ensures i < |Missing(order, updates, seen)| && Missing(order, updates, seen)[i] == Written(k, updates[k], "")
  {
    if order[0] == k {
      i := 0;
    } else {
      i := MissingAt(order[1..], updates, seen, k);
      if order[0] !in seen { i := i + 1; }
    }
  }

  /** Every updated key is written on some line. */
  lemma KeyIsWritten(lines: seq<string>, updates: map<string, string>, order: seq<string>, k: string) returns (i: nat, c: string)
    requires KeyOrder(order, updates) && k in updates
    ensures i < |UpdatedLines(lines, updates, order)| && Comment(c)
    ensures UpdatedLines(lines, updates, order)[i] == Written(k, updates[k], c)
  {
    WalkIn(order, updates);
    var seen := Targets(lines, updates);
    var missing := Missing(order, updates, seen);
    var a, b := EditedAll(lines, updates), Appended(missing);
    if k in seen {
      i := TargetAt(lines, updates, k);
      EditedAt(lines, updates, i);
      c := Held(lines[i]).value.Comment();
      FromSemiPart(Held(lines[i]).value.after);
      assert (a + b)[i] == a[i];
    } else {
      var j := MissingAt(order, updates, seen, k);
      assert b == ["", CUSTOM_HEADER] + missing;
      i, c := |a| + 2 + j, "";
      assert (a + b)[i] == b[2 + j];
    }
  }

  /**
   Applying the same update twice is applying it once, whatever the file and whatever orders the
   update map is walked in, exactly when no value holds a semicolon.
   */
  lemma PutTwiceIff(content: string, updates: map<string, string>, order: seq<string>, again: seq<string>)
    requires KeyOrder(order, updates) && KeyOrder(again, updates) && ValidUpdates(updates)
    ensures Updated(Updated(content, updates, order), updates, again) == Updated(content, updates, order) <==> SemiFree(updates)
  {
    if SemiFree(updates) {
      SettledTwice(content, updates, order, again);
    } else {
      var k :| k in updates && !Free(updates[k], ';');
      var lines := UpdatedLines(SplitOn(content, '\n'), updates, order);
      var i, c := KeyIsWritten(SplitOn(content, '\n'), updates, order, k);
      UpdatedSplits(content, updates, order);
      UpdatedSplits(Updated(content, updates, order), updates, again);
      WrittenGrows(k, updates, c);
      EditedAt(lines, updates, i);
      WalkIn(again, updates);
      assert UpdatedLines(lines, updates, again)[i] == EditedAll(lines, updates)[i];
    }
  }

  // ----- A vertical tab that hides an update -----

  lemma ShortLine(t: string)
    requires |t| == 3 && t[0] == 'k' && t[1] == '=' && t[2] == '1'
    ensures Trim(t) == t && DirectiveAt(t) == Some(Directive("k", t[2..])) && ReadAs(t[2..], ";") == t[2..]
  {
    assert "" + t + "" == t;
    TrimPadded("", t, "");
    var rest := t[1..];
    assert t == "k" + rest && rest[0] == '=' && rest[1..] == t[2..];
    KeyThen("k", rest);
    assert SkipWs(rest) == rest;
    ReadsBackIff(t[2..], ";");
  }

  /** A line led by a vertical tab is read but never rewritten. */
  lemma TabbedLine(v: string, t: string, updates: map<string, string>)
    requires v == ['\U{0B}'] + t && |t| == 3 && t[0] == 'k' && t[1] == '=' && t[2] == '1'
    ensures Reading(v) == Some(("k", t[2..])) && Target(v, updates) == None
  {
    ShortLine(t);
    TrimDropReturn(v);
    assert Blank(['\U{0B}']) && v == ['\U{0B}'] + t + "";
    TrimAbsorbs(['\U{0B}'], t, "");
    assert SkipWs(v) == v && KeyRun(v) == "";
  }

  /** What a two-line file becomes when only its first line is a target. */
  lemma TwoLines(first: string, v: string, updates: map<string, string>)
    requires Target(first, updates) == Some("k") && Target(v, updates) == None
    requires KeyOrder(["k"], updates)
    ensures UpdatedLines([first] + [v], updates, ["k"]) == [Edited(first, updates)] + [v]
  {
    WalkIn(["k"], updates);
    var lines := [first] + [v];
    assert lines[1..] == [v] && [v][1..] == [] && ["k"][1..] == [];
    assert EditedAll([v], updates) == [v] + EditedAll([], updates) == [v];
    assert Targets([v], updates) == {} + Targets([], updates) == {};
    assert EditedAll(lines, updates) == [Edited(first, updates)] + [v];
    assert Targets(lines, updates) == {"k"} + {} == {"k"};
    assert Missing(["k"], updates, {"k"}) == [] + Missing([], updates, {"k"}) == [];
    assert [Edited(first, updates)] + [v] + [] == [Edited(first, updates)] + [v];
  }

  /** Placed after another line of the same key, it hides the new value. */
  lemma VerticalTabHidesTheUpdate(t: string, first: string, updates: map<string, string>)
    requires |t| == 3 && t[0] == 'k' && t[1] == '=' && t[2] == '1'
    requires Target(first, updates) == Some("k") && Free(first, '\n')
    requires ValidUpdates(updates) && KeyOrder(["k"], updates) && |Edited(first, updates)| < MAX_LINE
    ensures var content := first + (['\n'] + (['\U{0B}'] + t));
            Lookup(Directives(Updated(content, updates, ["k"])), "k") == Some(t[2..])
  {
    var v := ['\U{0B}'] + t;
    var content := first + (['\n'] + v);
    SplitPiece(first, '\n', v);
    SplitWhole(v, '\n');
    TabbedLine(v, t, updates);
    UpdatedSplits(content, updates, ["k"]);
    TwoLines(first, v, updates);
    LastOfTwo(Edited(first, updates), v, t[2..]);
  }

  lemma LastOfTwo(e: string, v: string, x: string)
    requires |e| < MAX_LINE && |v| < MAX_LINE && Gives(v, "k") == Some(x)
    ensures Lookup(Noted([e] + [v], map[]), "k") == Some(x)
  {
    assert ([e] + [v])[1..] == [v] && [v][1..] == [];
    assert Last([v], "k") == Some(x);
    NotedLast([e] + [v], map[], "k");
  }
}
