/**
 How the php.ini editor reads and rewrites a line, said of the text of the line.
 */
module IniMeaning {
  import opened Text
  import opened Ini
  import opened IniLens

  predicate AllQuotes(s: string) {
    forall i :: 0 <= i < |s| ==> IsQuote(s[i])
  }

  /** Blanks between the key and the sign. */
  lemma KeyThenSign(k: string, w: string, y: string)
    requires ValidKey(k) && AllWs(w)
    ensures DirectiveAt(k + (w + ("=" + y))) == Some(Directive(k, y))
  {
    var z := w + ("=" + y);
    SkipAll(w, "=" + y);
    assert z[0] == if w == "" then '=' else w[0];
    KeyThen(k, z);
    assert ("=" + y)[0] == '=' && ("=" + y)[1..] == y;
  }

  lemma {:induction false} CutQuotesBefore(a: string, x: string)
    requires AllQuotes(a)
    ensures CutQuotesLeft(a + x) == CutQuotesLeft(x)
  {
    if a == "" {
      assert a + x == x;
    } else {
      assert (a + x)[0] == a[0] && (a + x)[1..] == a[1..] + x;
      CutQuotesBefore(a[1..], x);
    }
  }

  lemma {:induction false} CutQuotesBehind(x: string, b: string)
    requires AllQuotes(b)
    ensures CutQuotesRight(x + b) == CutQuotesRight(x)
  {
    if b == "" {
      assert x + b == x;
    } else {
      assert (x + b)[|x + b| - 1] == b[|b| - 1] && (x + b)[..|x + b| - 1] == x + b[..|b| - 1];
      CutQuotesBehind(x, b[..|b| - 1]);
    }
  }

  lemma UnquotedIs(a: string, v: string, b: string)
    requires AllQuotes(a) && AllQuotes(b) && (v == "" || (!IsQuote(v[0]) && !IsQuote(v[|v| - 1])))
    ensures Unquote(a + v + b) == v
  {
    assert a + v + b == a + (v + b);
    CutQuotesBefore(a, v + b);
    if v == "" {
      assert v + b == b + "";
      CutQuotesBefore(b, "");
    } else {
      CutQuotesBehind(v, b);
    }
  }

  /** The value between the blanks and in front of the comment. */
  lemma ValueIs(k: string, w: string, u: string, q: string, c: string)
    requires AllWs(w) && AllWs(q) && Comment(c) && Free(u, ';') && (u == "" || (!IsWs(u[0]) && !IsWs(u[|u| - 1])))
    ensures Directive(k, (w + (u + q)) + c).Value() == u
  {
    var x := w + (u + q);
    BeforeSemiCut(x, c);
    assert Free(x, ';');
    BeforeSemiFree(x);
    SkipAll(w, u + q);
    TrimWsDrops(u, q);
    SkipWsShape(u);
    DropWsShape(u);
  }

  /**
   Padding, a key, a sign, a value that may be quoted, a comment: the line gives the key this
   value, without the quotes and without the blanks around it.
   */
  lemma LineIsRead(p: string, k: string, w: string, x: string, a: string, v: string, b: string, q: string, c: string, r: string)
    requires Blank(p) && Blank(r) && ValidKey(k) && AllWs(w) && AllWs(x) && AllWs(q) && Comment(c)
    requires AllQuotes(a) && AllQuotes(b) && (v == "" || (!IsQuote(v[0]) && !IsQuote(v[|v| - 1])))
    requires var u := a + v + b; Free(u, ';') && (u == "" || (!IsWs(u[0]) && !IsWs(u[|u| - 1])))
    requires Tight(k + (w + ("=" + ((x + ((a + v + b) + q)) + c))))
    ensures Reading(p + (k + (w + ("=" + ((x + ((a + v + b) + q)) + c)))) + r) == Some((k, v))
  {
    var y := (x + ((a + v + b) + q)) + c;
    var core := k + (w + ("=" + y));
    KeyThenSign(k, w, y);
    ValueIs(k, x, a + v + b, q, c);
    UnquotedIs(a, v, b);
    TrimPadded(p, core, r);
    assert core[0] == k[0];
    ReadTrimmed(p + core + r, core, Directive(k, y));
  }

  /** Empty lines, comments and section headings give nothing, nor does a line without a sign. */
  lemma LineIsIgnored(line: string)
    requires Trim(line) == "" || Trim(line)[0] == ';' || Trim(line)[0] == '#' || Trim(line)[0] == '[' || Free(line, '=')
    ensures Reading(line) == None
  {
    TrimDropReturn(line);
    if Free(line, '=') {
      var p, q := TrimSplit(line);
      forall i | 0 <= i < |Trim(line)| ensures Trim(line)[i] != '=' { assert line[|p| + i] == Trim(line)[i]; }
      NoSign(Trim(line));
    }
  }

  lemma NoSign(s: string)
    requires Free(s, '=')
    ensures DirectiveAt(s) == None
  {
    AfterKeyPart(s);
    SkipWsSuffix(AfterKey(s));
    var rest := SkipWs(AfterKey(s));
    if rest != "" {
      assert rest[0] == s[|s| - |rest|];
    }
  }

  /** In front of the key: blanks, and perhaps a semicolon and more blanks. */
  predicate Opening(m: string) {
    m == "" || (m[0] == ';' && AllWs(m[1..]))
  }

  /** The directive of a line, commented out or not. */
  lemma HeldIs(p: string, m: string, k: string, w: string, y: string)
    requires AllWs(p) && Opening(m) && ValidKey(k) && AllWs(w)
    ensures var line := p + (m + (k + (w + ("=" + y)))); !Section(line) && Held(line) == Some(Directive(k, y))
  {
    var d := k + (w + ("=" + y));
    var z := m + d;
    KeyThenSign(k, w, y);
    SkipAll(p, z);
    assert d[0] == k[0];
    if m == "" {
      assert z == d;
    } else {
      assert z[0] == ';' && z[1..] == m[1..] + d;
      SkipAll(m[1..], d);
    }
    assert p + z + "" == p + z;
    TrimAbsorbs(p, z, "");
    assert SkipWs(z) == z && z != "" && !IsSpace(z[0]);
    TrimHead(z);
  }

  /** A line of an updated key, commented out or not, becomes key, sign, new value and the old comment. */
  lemma LineIsRewritten(p: string, m: string, k: string, w: string, x: string, c: string, updates: map<string, string>)
    requires AllWs(p) && Opening(m) && ValidKey(k) && AllWs(w) && Free(x, ';') && Comment(c) && k in updates
    ensures Edited(p + (m + (k + (w + ("=" + (x + c))))), updates) == k + (" = " + (updates[k] + (if c == "" then "" else " " + c)))
  {
    HeldIs(p, m, k, w, x + c);
    FromSemiSkips(x, c);
  }

  /** Lines of other keys, section headings and lines without a sign stay byte for byte. */
  lemma LineIsKept(p: string, m: string, k: string, w: string, y: string, line: string, updates: map<string, string>)
    requires Free(line, '=') || (Trim(line) != "" && Trim(line)[0] == '[') ||
             (AllWs(p) && Opening(m) && ValidKey(k) && AllWs(w) && line == p + (m + (k + (w + ("=" + y)))) && k !in updates)
    ensures Edited(line, updates) == line
  {
    if Free(line, '=') {
      var s := SkipWs(line);
      SkipWsSuffix(line);
      FreePart(line, |line| - |s|, '=');
      if s != "" && s[0] == ';' {
        SkipWsSuffix(s[1..]);
        FreePart(s, 1, '=');
        FreePart(s[1..], |s[1..]| - |SkipWs(s[1..])|, '=');
        NoSign(SkipWs(s[1..]));
      } else {
        NoSign(s);
      }
    } else if Trim(line) == "" || Trim(line)[0] != '[' {
      HeldIs(p, m, k, w, y);
    }
  }

  // ----- The whole file -----

  /** The updated keys no line is rewritten for. */
  function Unheld(lines: seq<string>, updates: map<string, string>): set<string> {
    set k | k in updates && forall i :: 0 <= i < |lines| ==> Target(lines[i], updates) != Some(k)
  }

  lemma {:induction false} TargetsAre(lines: seq<string>, updates: map<string, string>, k: string)
    ensures k in Targets(lines, updates) <==> exists i :: 0 <= i < |lines| && Target(lines[i], updates) == Some(k)
  {
    if lines != [] {
      TargetsAre(lines[1..], updates, k);
      if i :| 0 <= i < |lines| && Target(lines[i], updates) == Some(k) {
        if i > 0 { assert lines[1..][i - 1] == lines[i]; }
      }
      if k in Targets(lines, updates) && Target(lines[0], updates) != Some(k) {
        var j :| 0 <= j < |lines[1..]| && Target(lines[1..][j], updates) == Some(k);
        assert lines[j + 1] == lines[1..][j];
      }
    }
  }

  lemma {:induction false} MissingCount(order: seq<string>, updates: map<string, string>, seen: set<string>)
    requires forall i :: 0 <= i < |order| ==> order[i] in updates
    requires forall i, j :: 0 <= i < j < |order| ==> order[i] != order[j]
    ensures |Missing(order, updates, seen)| == |set k | k in order && k !in seen|
  {
    var all := set k | k in order && k !in seen;
    if order == [] {
      assert all == {};
    } else {
      var k, rest := order[0], order[1..];
      assert forall x :: x in order <==> x == k || x in rest;
      assert forall i :: 0 <= i < |rest| ==> rest[i] == order[i + 1];
      MissingCount(rest, updates, seen);
      var later := set x | x in rest && x !in seen;
      assert k !in rest;
      assert all == if k in seen then later else later + {k};
    }
  }

  /**
   An update keeps the lines in their places, each rewritten or as it was, and appends the keys
   without a line of their own behind an empty line and the heading, each once; nothing else.
   */
  lemma UpdateIs(content: string, updates: map<string, string>, order: seq<string>)
    requires KeyOrder(order, updates) && ValidUpdates(updates)
    ensures var lines, out := SplitOn(content, '\n'), SplitOn(Updated(content, updates, order), '\n');
            var added := Unheld(lines, updates);
            && |out| == |lines| + (if added == {} then 0 else 2 + |added|)
            && (forall i :: 0 <= i < |lines| ==> out[i] == Edited(lines[i], updates))
            && (added != {} ==> out[|lines|] == "" && out[|lines| + 1] == CUSTOM_HEADER)
            && (forall k :: k in added ==> k + (" = " + updates[k]) in out[|lines|..])
  {
    var lines := SplitOn(content, '\n');
    UpdatedSplits(content, updates, order);
    AppendedIs(lines, updates, order);
    EditedCount(lines, updates);
    forall i | 0 <= i < |lines| ensures EditedAll(lines, updates)[i] == Edited(lines[i], updates) { EditedAt(lines, updates, i); }
  }

  lemma {:induction false} EditedCount(lines: seq<string>, updates: map<string, string>)
    ensures |EditedAll(lines, updates)| == |lines|
  {
    if lines != [] { EditedCount(lines[1..], updates); }
  }

  lemma AppendedIs(lines: seq<string>, updates: map<string, string>, order: seq<string>)
    requires KeyOrder(order, updates)
    ensures forall i :: 0 <= i < |order| ==> order[i] in updates
    ensures var b := Appended(Missing(order, updates, Targets(lines, updates)));
            var added := Unheld(lines, updates);
            && |b| == (if added == {} then 0 else 2 + |added|)
            && (added != {} ==> b[0] == "" && b[1] == CUSTOM_HEADER)
            && (forall k :: k in added ==> k + (" = " + updates[k]) in b)
  {
    WalkIn(order, updates);
    var seen := Targets(lines, updates);
    var added := Unheld(lines, updates);
    forall k ensures k in updates && k !in seen <==> k in added { TargetsAre(lines, updates, k); }
    MissingCount(order, updates, seen);
    assert (set k | k in order && k !in seen) == added;
    var missing := Missing(order, updates, seen);
    forall k | k in added ensures k + (" = " + updates[k]) in Appended(missing) {
      var i := MissingAt(order, updates, seen, k);
      assert updates[k] + "" == updates[k];
      assert Appended(missing)[2 + i] == missing[i];
    }
  }

  /** Without updates the text stays byte for byte. */
  lemma NothingToUpdate(content: string)
    ensures Updated(content, map[], []) == content
  {
    var lines := SplitOn(content, '\n');
    NoneEdited(lines);
    JoinSplit(content, '\n');
    assert lines + [] == lines;
  }

  lemma {:induction false} NoneEdited(lines: seq<string>)
    ensures EditedAll(lines, map[]) == lines
  {
    if lines != [] {
      NoneEdited(lines[1..]);
      assert [lines[0]] + lines[1..] == lines;
    }
  }
}
