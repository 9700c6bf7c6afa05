/**
 Search and replace over text that holds PHP-serialized strings `s:<length>:"<value>";`.
 A first pass rewrites each serialized string and recomputes its length, a second pass
 replaces every occurrence left in the whole text.
 */
module Serialized {
  import opened Text

  // ----- Serialized strings in a text -----

  datatype Token = Token(digits: string, value: string)

  predicate TokenOk(t: Token) {
    t.digits != "" && AllDigits(t.digits) && Free(t.value, '"')
  }

  function TokenText(t: Token): string {
    "s:" + (t.digits + (":\"" + (t.value + "\";")))
  }

  /** A value already entered runs up to a quote followed by a semicolon. */
  predicate Closes(s: string) {
    s != "" && (if s[0] == '"' then |s| >= 2 && s[1] == ';' else Closes(s[1..]))
  }

  /** Digits (at least one, `seen` counting those already read), then a colon, an opening quote and a value. */
  predicate Numbers(s: string, seen: bool) {
    && s != ""
    && (if IsDigit(s[0]) then Numbers(s[1..], true)
        else seen && |s| >= 2 && s[0] == ':' && s[1] == '"' && Closes(s[2..]))
  }

  /** A serialized string starts here. */
  predicate Starts(s: string) {
    |s| >= 2 && s[0] == 's' && s[1] == ':' && Numbers(s[2..], false)
  }

  function Digits(s: string): string {
    if s != "" && IsDigit(s[0]) then [s[0]] + Digits(s[1..]) else ""
  }

  function PastDigits(s: string): string {
    if s != "" && IsDigit(s[0]) then PastDigits(s[1..]) else s
  }

  function Unquoted(s: string): string {
    if s != "" && s[0] != '"' then [s[0]] + Unquoted(s[1..]) else ""
  }

  function FromQuote(s: string): string {
    if s != "" && s[0] != '"' then FromQuote(s[1..]) else s
  }

  lemma {:induction false} NumbersSplit(s: string, seen: bool)
    requires Numbers(s, seen)
    ensures s == Digits(s) + PastDigits(s) && AllDigits(Digits(s)) && (seen || Digits(s) != "")
    ensures |PastDigits(s)| >= 2 && PastDigits(s)[0] == ':' && PastDigits(s)[1] == '"' && Closes(PastDigits(s)[2..])
  {
    if IsDigit(s[0]) {
      NumbersSplit(s[1..], true);
      ConsSplit(s, Digits(s[1..]), PastDigits(s[1..]));
    }
  }

  lemma ConsSplit(s: string, d: string, rest: string)
    requires s != "" && s[1..] == d + rest
    ensures s == ([s[0]] + d) + rest
  {
    assert s == [s[0]] + s[1..];
  }

  lemma {:induction false} ClosesSplit(s: string)
    requires Closes(s)
    ensures s == Unquoted(s) + FromQuote(s) && Free(Unquoted(s), '"')
    ensures |FromQuote(s)| >= 2 && FromQuote(s)[0] == '"' && FromQuote(s)[1] == ';'
  {
    if s[0] != '"' {
      ClosesSplit(s[1..]);
      assert s == [s[0]] + s[1..];
    }
  }

  function TokenAt(s: string): (t: Token)
    requires Starts(s)
    ensures TokenOk(t)
  {
    NumbersSplit(s[2..], false);
    var body := PastDigits(s[2..])[2..];
    ClosesSplit(body);
    Token(Digits(s[2..]), Unquoted(body))
  }

  /** What follows the serialized string. */
  function PastToken(s: string): (r: string)
    requires Starts(s)
    ensures |r| < |s|
  {
    NumbersSplit(s[2..], false);
    var body := PastDigits(s[2..])[2..];
    ClosesSplit(body);
    FromQuote(body)[2..]
  }

  lemma TokenSplits(s: string)
    requires Starts(s)
    ensures s == TokenText(TokenAt(s)) + PastToken(s)
  {
    NumbersSplit(s[2..], false);
    var a := PastDigits(s[2..]);
    ClosesSplit(a[2..]);
    var b := FromQuote(a[2..]);
    assert b == "\";" + b[2..];
    assert a == ":\"" + a[2..];
    assert s == "s:" + s[2..];
    FivePieces(Digits(s[2..]), Unquoted(a[2..]), b[2..]);
  }

  lemma FivePieces(d: string, v: string, rest: string)
    ensures "s:" + (d + (":\"" + (v + ("\";" + rest)))) == TokenText(Token(d, v)) + rest
  {
  }

  lemma {:induction false} ClosesJoin(v: string, rest: string)
    requires Free(v, '"')
    ensures var s := v + ("\";" + rest);
            Closes(s) && Unquoted(s) == v && FromQuote(s) == "\";" + rest
  {
    var s := v + ("\";" + rest);
    if v == "" {
      assert s == "\";" + rest;
    } else {
      assert s[0] == v[0] && s[1..] == v[1..] + ("\";" + rest);
      ClosesJoin(v[1..], rest);
    }
  }

  lemma {:induction false} NumbersJoin(d: string, body: string, seen: bool)
    requires AllDigits(d) && (seen || d != "") && Closes(body)
    ensures var s := d + (":\"" + body);
            Numbers(s, seen) && Digits(s) == d && PastDigits(s) == ":\"" + body
  {
    var s := d + (":\"" + body);
    if d == "" {
      assert s == ":\"" + body && s[2..] == body;
    } else {
      assert s[0] == d[0] && s[1..] == d[1..] + (":\"" + body);
      NumbersJoin(d[1..], body, true);
    }
  }

  /** A well-formed token is found again, whatever follows it. */
  lemma TokenStarts(t: Token, rest: string)
    requires TokenOk(t)
    ensures var s := TokenText(t) + rest; Starts(s) && TokenAt(s) == t && PastToken(s) == rest
  {
    var body := t.value + ("\";" + rest);
    var s := TokenText(t) + rest;
    FivePieces(t.digits, t.value, rest);
    ClosesJoin(t.value, rest);
    NumbersJoin(t.digits, body, false);
    assert s[2..] == t.digits + (":\"" + body);
    assert (":\"" + body)[2..] == body && ("\";" + rest)[2..] == rest;
  }

  /** The serialized strings of a text, scanned left to right without overlap. */
  function TokensOf(s: string): seq<Token>
    decreases |s|
  {
    if s == "" then []
    else if Starts(s) then [TokenAt(s)] + TokensOf(PastToken(s))
    else TokensOf(s[1..])
  }

  // ----- The two passes -----

  /** What the first pass makes of one serialized string. */
  function Rewritten(t: Token, find: string, put: string): Token
    requires find != ""
  {
    if Contains(t.value, find) then
      var v := ReplaceAll(t.value, find, put);
      Token(Decimal(|v|), v)
    else t
  }

  function FirstPass(s: string, find: string, put: string): string
    requires find != ""
    decreases |s|
  {
    if s == "" then ""
    else if Starts(s) then TokenText(Rewritten(TokenAt(s), find, put)) + FirstPass(PastToken(s), find, put)
    else [s[0]] + FirstPass(s[1..], find, put)
  }

  function ReplaceSerializedStrings(data: string, find: string, put: string): string {
    if find == "" || put == "" || find == put then data
    else ReplaceAll(FirstPass(data, find, put), find, put)
  }

  // ----- What is meant: one pass, token by token -----

  /** One serialized string after both passes: the second pass sees the value again, but not the length. */
  function Final(t: Token, find: string, put: string): Token
    requires find != ""
  {
    var r := Rewritten(t, find, put);
    Token(r.digits, ReplaceAll(r.value, find, put))
  }

  function FinalAll(ts: seq<Token>, find: string, put: string): seq<Token>
    requires find != ""
  {
    if ts == [] then [] else [Final(ts[0], find, put)] + FinalAll(ts[1..], find, put)
  }

  /** A single left-to-right pass that replaces inside each serialized string and between them, never across. */
  function OnePass(s: string, find: string, put: string): string
    requires find != ""
    decreases |s|
  {
    if s == "" then ""
    else if Starts(s) then TokenText(Final(TokenAt(s), find, put)) + OnePass(PastToken(s), find, put)
    else if find <= s then put + OnePass(s[|find|..], find, put)
    else [s[0]] + OnePass(s[1..], find, put)
  }

  // ----- Which search texts cannot touch a frame -----

  /** A beginning of `digits:`, `seen` saying that a digit came before. */
  predicate Partial(x: string, seen: bool) {
    x == "" || (IsDigit(x[0]) && Partial(x[1..], true)) || (seen && x == ":")
  }

  /** A beginning of the frame `s:digits:`. */
  predicate OpensFrame(x: string) {
    x == "s" || (|x| >= 2 && x[0] == 's' && x[1] == ':' && Partial(x[2..], false))
  }

  /** Lies inside the frame `s:digits:` after its first byte. */
  predicate InFrame(x: string) {
    x != "" && ((x[0] == ':' && Partial(x[1..], false)) || (IsDigit(x[0]) && Partial(x, true)))
  }

  predicate NeverOpens(x: string) {
    forall i :: 0 <= i < |x| ==> !OpensFrame(x[i..])
  }

  /** Occurrences of `x` stay clear of every `s:digits:"` and every `";`. */
  predicate FrameFree(x: string) {
    x != "" && Free(x, '"') && x[0] != ';' && !InFrame(x) && NeverOpens(x)
  }

  lemma {:induction false} PartialOf(x: string, d: string, y: string, seen: bool)
    requires Free(x, '"') && AllDigits(d) && (seen || d != "") && x <= d + (":\"" + y)
    ensures Partial(x, seen)
    decreases |x|
  {
    if x != "" {
      var s := d + (":\"" + y);
      assert x[0] == s[0];
      if d == "" {
        assert s == ":\"" + y;
        assert s[1] == '"' && forall i :: 0 <= i < |x| ==> x[i] == s[i];
      } else {
        assert s[1..] == d[1..] + (":\"" + y) && x[1..] <= s[1..];
        PartialOf(x[1..], d[1..], y, true);
      }
    }
  }

  lemma OpensOf(x: string, d: string, y: string)
    requires x != "" && Free(x, '"') && AllDigits(d) && d != "" && x <= "s:" + (d + (":\"" + y))
    ensures OpensFrame(x)
  {
    var s := "s:" + (d + (":\"" + y));
    assert x[0] == s[0];
    if |x| >= 2 {
      assert x[1] == s[1] && x[2..] <= s[2..] && s[2..] == d + (":\"" + y);
      PartialOf(x[2..], d, y, false);
    }
  }

  lemma StartsOpens(x: string, w: string)
    requires x != "" && Free(x, '"') && Starts(x + w)
    ensures OpensFrame(x)
  {
    var s := x + w;
    TokenSplits(s);
    var t := TokenAt(s);
    var y := t.value + ("\";" + PastToken(s));
    FivePieces(t.digits, t.value, PastToken(s));
    OpensOf(x, t.digits, y);
  }

  lemma DropNever(x: string)
    requires x != "" && NeverOpens(x)
    ensures NeverOpens(x[1..]) && !OpensFrame(x)
  {
    assert x[0..] == x;
    forall i | 0 <= i < |x| - 1 ensures !OpensFrame(x[1..][i..]) { assert x[1..][i..] == x[i + 1..]; }
  }

  // ----- The second pass respects the frames -----

  lemma {:induction false} QuoteBarrier(a: string, b: string, find: string, put: string)
    requires find != "" && Free(find, '"')
    ensures ReplaceAll(a + ("\"" + b), find, put) == ReplaceAll(a, find, put) + ("\"" + ReplaceAll(b, find, put))
    decreases |a|
  {
    var s := a + ("\"" + b);
    if find <= s {
      assert forall i :: 0 <= i < |find| ==> find[i] == s[i];
      assert s[|a|] == '"';
      assert find <= a && s[|find|..] == a[|find|..] + ("\"" + b);
      QuoteBarrier(a[|find|..], b, find, put);
      Assoc(put, ReplaceAll(a[|find|..], find, put), "\"" + ReplaceAll(b, find, put));
    } else if a == "" {
      assert s == "\"" + b && s[1..] == b;
      assert ReplaceAll(s, find, put) == ["\""[0]] + ReplaceAll(b, find, put) by {
        if |s| < |find| { ReplaceShort(b, find, put); }
      }
    } else {
      assert find <= a ==> find <= s;
      assert s[0] == a[0] && s[1..] == a[1..] + ("\"" + b);
      QuoteBarrier(a[1..], b, find, put);
      ReplaceSkips(s, find, put);
      ReplaceSkips(a, find, put);
      Assoc([a[0]], ReplaceAll(a[1..], find, put), "\"" + ReplaceAll(b, find, put));
    }
  }

  lemma {:induction false} DigitsStay(d: string, y: string, find: string, put: string)
    requires FrameFree(find) && AllDigits(d)
    ensures ReplaceAll(d + (":\"" + y), find, put) == d + (":\"" + ReplaceAll(y, find, put))
    decreases |d|
  {
    var s := d + (":\"" + y);
    var r := ReplaceAll(y, find, put);
    if d == "" {
      assert s[0] == ':' && s[1] == '"' && s[1..] == "\"" + y && s[1..][1..] == y && s[1..][0] == '"';
      PrefixHead(find, s);
      PrefixHead(find[1..], s[1..]);
      ReplaceSkips(s, find, put);
      PrefixHead(find, s[1..]);
      ReplaceSkips(s[1..], find, put);
      assert [':'] + (['"'] + r) == "" + (":\"" + r);
    } else {
      assert s[0] == d[0] && s[1..] == d[1..] + (":\"" + y);
      PrefixHead(find, s);
      if find <= s {
        PartialOf(find, d, y, true);
      }
      ReplaceSkips(s, find, put);
      DigitsStay(d[1..], y, find, put);
      Assoc([d[0]], d[1..], ":\"" + r);
      assert d == [d[0]] + d[1..];
    }
  }

  lemma FrameStays(d: string, y: string, find: string, put: string)
    requires FrameFree(find) && AllDigits(d) && d != ""
    ensures ReplaceAll("s:" + (d + (":\"" + y)), find, put) == "s:" + (d + (":\"" + ReplaceAll(y, find, put)))
  {
    var z := d + (":\"" + y);
    var s := "s:" + z;
    var r := d + (":\"" + ReplaceAll(y, find, put));
    assert find[0..] == find;
    if find <= s { OpensOf(find, d, y); }
    ReplaceSkips(s, find, put);
    var c := s[1..];
    assert c == ":" + z && c[0] == ':' && c[1..] == z;
    PrefixHead(find, c);
    if find <= c { PartialOf(find[1..], d, y, false); }
    ReplaceSkips(c, find, put);
    DigitsStay(d, y, find, put);
    assert ['s'] + ([':'] + r) == "s:" + r;
  }

  lemma TokenStays(t: Token, rest: string, find: string, put: string)
    requires TokenOk(t) && FrameFree(find)
    ensures ReplaceAll(TokenText(t) + rest, find, put) ==
            TokenText(Token(t.digits, ReplaceAll(t.value, find, put))) + ReplaceAll(rest, find, put)
  {
    var v, after := ReplaceAll(t.value, find, put), ReplaceAll(rest, find, put);
    FivePieces(t.digits, t.value, rest);
    FrameStays(t.digits, t.value + ("\";" + rest), find, put);
    assert "\";" + rest == "\"" + (";" + rest);
    QuoteBarrier(t.value, ";" + rest, find, put);
    var s := ";" + rest;
    assert s[0] == ';' && s[1..] == rest;
    PrefixHead(find, s);
    ReplaceSkips(s, find, put);
    assert "\"" + ([';'] + after) == "\";" + after;
    FivePieces(t.digits, v, after);
  }

  // ----- The first pass copies what holds no token -----

  lemma {:induction false} FirstCopies(x: string, w: string, find: string, put: string)
    requires find != "" && Free(x, '"') && NeverOpens(x)
    ensures FirstPass(x + w, find, put) == x + FirstPass(w, find, put)
    decreases |x|
  {
    if x == "" {
      assert x + w == w;
    } else {
      var s := x + w;
      DropNever(x);
      if Starts(s) { StartsOpens(x, w); }
      assert s[0] == x[0] && s[1..] == x[1..] + w;
      FirstCopies(x[1..], w, find, put);
      Assoc([x[0]], x[1..], FirstPass(w, find, put));
      assert x == [x[0]] + x[1..];
    }
  }

  lemma RewrittenOk(t: Token, find: string, put: string)
    requires TokenOk(t) && find != "" && Free(put, '"')
    ensures TokenOk(Rewritten(t, find, put)) && TokenOk(Final(t, find, put))
  {
    var v := ReplaceAll(t.value, find, put);
    DecimalIsRead(|v|);
    StaysFree(t.value, find, put);
    StaysFree(v, find, put);
  }

  lemma {:induction false} StaysFree(v: string, find: string, put: string)
    requires Free(v, '"') && find != "" && Free(put, '"')
    ensures Free(ReplaceAll(v, find, put), '"')
    decreases |v|
  {
    if |v| < |find| {
    } else if find <= v {
      StaysFree(v[|find|..], find, put);
    } else {
      StaysFree(v[1..], find, put);
    }
  }

  /** The first pass creates no occurrence of `find` that was not there. */
  lemma {:induction false} FirstCreatesNone(x: string, s: string, find: string, put: string)
    requires find != "" && Free(put, '"') && Free(x, '"') && NeverOpens(x) && x <= FirstPass(s, find, put)
    ensures x <= s
    decreases |x|
  {
    if x != "" && s != "" {
      DropNever(x);
      if Starts(s) {
        var t, after := Rewritten(TokenAt(s), find, put), FirstPass(PastToken(s), find, put);
        RewrittenOk(TokenAt(s), find, put);
        FivePieces(t.digits, t.value, after);
        OpensOf(x, t.digits, t.value + ("\";" + after));
      } else {
        var r := FirstPass(s[1..], find, put);
        assert x[0] == ([s[0]] + r)[0] && x[1..] <= ([s[0]] + r)[1..];
        FirstCreatesNone(x[1..], s[1..], find, put);
        assert s == [s[0]] + s[1..] && x == [x[0]] + x[1..];
      }
    }
  }

  /** The two passes amount to one pass, token by token. */
  lemma {:induction false} TwoPassesAreOne(s: string, find: string, put: string)
    requires FrameFree(find) && Free(put, '"')
    ensures ReplaceAll(FirstPass(s, find, put), find, put) == OnePass(s, find, put)
    decreases |s|
  {
    if s == "" {
    } else if Starts(s) {
      var t := TokenAt(s);
      RewrittenOk(t, find, put);
      TokenStays(Rewritten(t, find, put), FirstPass(PastToken(s), find, put), find, put);
      TwoPassesAreOne(PastToken(s), find, put);
    } else if find <= s {
      var w := s[|find|..];
      assert s == find + w;
      FirstCopies(find, w, find, put);
      ReplaceHit(find, FirstPass(w, find, put), put);
      TwoPassesAreOne(w, find, put);
    } else {
      var p := FirstPass(s, find, put);
      if find <= p { FirstCreatesNone(find, s, find, put); }
      assert p[0] == s[0] && p[1..] == FirstPass(s[1..], find, put);
      ReplaceSkips(p, find, put);
      TwoPassesAreOne(s[1..], find, put);
    }
  }

  // ----- The tokens of the result -----

  lemma {:induction false} TokensSkip(x: string, w: string)
    requires Free(x, '"') && NeverOpens(x)
    ensures TokensOf(x + w) == TokensOf(w)
    decreases |x|
  {
    if x == "" {
      assert x + w == w;
    } else {
      DropNever(x);
      if Starts(x + w) { StartsOpens(x, w); }
      assert (x + w)[1..] == x[1..] + w;
      TokensSkip(x[1..], w);
    }
  }

  predicate Apart(find: string, put: string) {
    FrameFree(find) && FrameFree(put)
  }

  lemma {:induction false} ClosesSkips(x: string, w: string)
    requires Free(x, '"')
    ensures Closes(x + w) == Closes(w)
    decreases |x|
  {
    if x == "" {
      assert x + w == w;
    } else {
      assert (x + w)[0] == x[0] && (x + w)[1..] == x[1..] + w;
      ClosesSkips(x[1..], w);
    }
  }

  lemma HeadBack(v: string, find: string, put: string)
    requires find != "" && put != "" && put[0] != ';'
    ensures ReplaceAll(v, find, put) != "" && ReplaceAll(v, find, put)[0] == ';' ==> v != "" && v[0] == ';'
  {
  }

  /** What the single pass puts first. */
  lemma PassHead(s: string, find: string, put: string)
    requires Apart(find, put) && s != ""
    ensures var p := OnePass(s, find, put);
            p != "" && (p[0] == 's' || p[0] == put[0] || (p == [s[0]] + OnePass(s[1..], find, put) && !Starts(s) && !(find <= s)))
  {
  }

  lemma {:induction false} ClosesBack(s: string, find: string, put: string)
    requires Apart(find, put) && Closes(OnePass(s, find, put))
    ensures Closes(s)
    decreases |s|
  {
    if Starts(s) {
      var t, rest := TokenAt(s), PastToken(s);
      var f, after := Final(t, find, put), OnePass(rest, find, put);
      TokenSplits(s);
      RewrittenOk(t, find, put);
      TokenClosing(f, after);
      TokenClosing(t, rest);
      HeadBack(Rewritten(t, find, put).value, find, put);
      HeadBack(t.value, find, put);
    } else if find <= s {
      var w := s[|find|..];
      ClosesSkips(put, OnePass(w, find, put));
      ClosesBack(w, find, put);
      assert s == find + w;
      ClosesSkips(find, w);
    } else if s[0] == '"' {
      PassHead(s[1..], find, put);
    } else {
      ClosesBack(s[1..], find, put);
    }
  }

  /** Reading a token as part of a longer value closes at its own opening quote or not at all. */
  lemma TokenClosing(t: Token, rest: string)
    requires TokenOk(t)
    ensures Closes(TokenText(t) + rest) <==> t.value != "" && t.value[0] == ';'
  {
    var y := t.value + ("\";" + rest);
    var q := "\"" + y;
    FivePieces(t.digits, t.value, rest);
    var head := "s:" + t.digits + ":";
    assert "s:" + (t.digits + (":\"" + y)) == head + q;
    ClosesSkips(head, q);
    assert q[0] == '"' && q[1] == y[0];
  }

  lemma PutAtNumbers(x: string, p: string, seen: bool)
    requires x != "" && Free(x, '"') && x <= p && Numbers(p, seen)
    ensures InFrame(x)
  {
    NumbersSplit(p, seen);
    var d, a := Digits(p), PastDigits(p);
    assert a == ":\"" + a[2..];
    assert x[0] == p[0];
    if IsDigit(p[0]) {
      PartialOf(x, d, a[2..], true);
    } else {
      assert p[1] == '"' && forall i :: 0 <= i < |x| ==> x[i] == p[i];
    }
  }

  lemma {:induction false} NumbersBack(s: string, seen: bool, find: string, put: string)
    requires Apart(find, put) && Numbers(OnePass(s, find, put), seen)
    ensures Numbers(s, seen)
    decreases |s|
  {
    var p := OnePass(s, find, put);
    PassHead(s, find, put);
    if !Starts(s) && find <= s {
      PutAtNumbers(put, p, seen);
    } else if IsDigit(s[0]) {
      NumbersBack(s[1..], true, find, put);
    } else {
      assert p[1..] == OnePass(s[1..], find, put);
      PassHead(s[1..], find, put);
      assert p[2..] == p[1..][1..] == OnePass(s[2..], find, put);
      ClosesBack(s[2..], find, put);
    }
  }

  /** The single pass creates no serialized string. */
  lemma StartsBack(s: string, find: string, put: string)
    requires Apart(find, put) && s != "" && !Starts(s) && !(find <= s)
    ensures !Starts(OnePass(s, find, put))
  {
    var p, q := OnePass(s, find, put), OnePass(s[1..], find, put);
    assert p == [s[0]] + q && p[1..] == q;
    if Starts(p) {
      assert q[0] == ':' && q[1..] == p[2..];
      PassHead(s[1..], find, put);
      if !Starts(s[1..]) && find <= s[1..] {
        PutAfterColon(put, q);
      } else {
        NumbersBack(s[2..], false, find, put);
      }
    }
  }

  lemma PutAfterColon(x: string, q: string)
    requires x != "" && Free(x, '"') && x <= q && q[0] == ':' && Numbers(q[1..], false)
    ensures InFrame(x)
  {
    var y := q[1..];
    NumbersSplit(y, false);
    var a := PastDigits(y);
    assert a == ":\"" + a[2..];
    assert x[0] == q[0] && x[1..] <= y;
    PartialOf(x[1..], Digits(y), a[2..], false);
  }

  /** The serialized strings of the result are those of the input, each with its own replacement. */
  lemma {:induction false} TokensOfOnePass(s: string, find: string, put: string)
    requires Apart(find, put)
    ensures TokensOf(OnePass(s, find, put)) == FinalAll(TokensOf(s), find, put)
    decreases |s|
  {
    if s == "" {
    } else if Starts(s) {
      var t, rest := TokenAt(s), PastToken(s);
      var f, after := Final(t, find, put), OnePass(rest, find, put);
      RewrittenOk(t, find, put);
      TokenStarts(f, after);
      TokensOfOnePass(rest, find, put);
      assert ([t] + TokensOf(rest))[1..] == TokensOf(rest);
    } else if find <= s {
      var w := s[|find|..];
      assert s == find + w;
      TokensSkip(find, w);
      TokensSkip(put, OnePass(w, find, put));
      TokensOfOnePass(w, find, put);
    } else {
      StartsBack(s, find, put);
      TokensOfOnePass(s[1..], find, put);
      assert OnePass(s, find, put)[1..] == OnePass(s[1..], find, put);
    }
  }

  /**
   The replacement acts token by token: the text is that of the single pass, and its
   serialized strings are those of the input, one for one and in order.
   */
  lemma ReplacesTokenwise(data: string, find: string, put: string)
    requires Apart(find, put) && find != put
    ensures ReplaceSerializedStrings(data, find, put) == OnePass(data, find, put)
    ensures TokensOf(ReplaceSerializedStrings(data, find, put)) == FinalAll(TokensOf(data), find, put)
  {
    TwoPassesAreOne(data, find, put);
    TokensOfOnePass(data, find, put);
  }

  /** Nothing is done for an empty text on either side, nor for equal ones. */
  lemma NothingToReplace(data: string, find: string, put: string)
    requires find == "" || put == "" || find == put
    ensures ReplaceSerializedStrings(data, find, put) == data
  {
  }

  lemma {:induction false} FirstPassWithoutTokens(s: string, find: string, put: string)
    requires find != "" && TokensOf(s) == []
    ensures FirstPass(s, find, put) == s
  {
    if s != "" {
      FirstPassWithoutTokens(s[1..], find, put);
      assert s == [s[0]] + s[1..];
    }
  }

  /** Text without serialized strings has every occurrence replaced, left to right. */
  lemma PlainTextIsReplaced(data: string, find: string, put: string)
    requires find != "" && put != "" && find != put && TokensOf(data) == []
    ensures ReplaceSerializedStrings(data, find, put) == ReplaceAll(data, find, put)
  {
    FirstPassWithoutTokens(data, find, put);
  }

  /**
   A serialized string in front: without the old text it stays byte for byte, with it the value
   is replaced and the length written anew in decimal; then the rest is gone on with.
   */
  lemma StringIsReplaced(t: Token, rest: string, find: string, put: string)
    requires Apart(find, put) && NoOverlap(find, put) && find != put && TokenOk(t)
    ensures var v := ReplaceAll(t.value, find, put);
            ReplaceSerializedStrings("s:" + (t.digits + (":\"" + (t.value + ("\";" + rest)))), find, put) ==
            "s:" + ((if Contains(t.value, find) then Decimal(|v|) else t.digits) +
                    (":\"" + (v + ("\";" + ReplaceSerializedStrings(rest, find, put)))))
  {
    var v := ReplaceAll(t.value, find, put);
    FivePieces(t.digits, t.value, rest);
    TokenStarts(t, rest);
    ReplacesTokenwise(TokenText(t) + rest, find, put);
    ReplacesTokenwise(rest, find, put);
    NothingLeft(t.value, find, put);
    ReplaceAbsent(v, find, put);
    if !Contains(t.value, find) { ReplaceAbsent(t.value, find, put); }
    assert OnePass(TokenText(t) + rest, find, put) == TokenText(Final(t, find, put)) + OnePass(rest, find, put);
    FivePieces(Final(t, find, put).digits, v, ReplaceSerializedStrings(rest, find, put));
  }

  // ----- When the lengths stay right -----

  predicate LengthRight(t: Token) {
    AllDigits(t.digits) && NumberOf(t.digits) == |t.value|
  }

  predicate LengthsRight(ts: seq<Token>) {
    forall i :: 0 <= i < |ts| ==> LengthRight(ts[i])
  }

  /** Replacing once leaves nothing to replace, in every serialized string. */
  predicate Settled(ts: seq<Token>, find: string, put: string)
    requires find != ""
  {
    forall i :: 0 <= i < |ts| ==> !Contains(ReplaceAll(ts[i].value, find, put), find)
  }

  /** A replacement of another length changes the length as soon as there is something to replace. */
  lemma {:induction false} LengthMoves(v: string, find: string, put: string)
    requires find != ""
    ensures |find| < |put| ==> |ReplaceAll(v, find, put)| >= |v|
    ensures |find| > |put| ==> |ReplaceAll(v, find, put)| <= |v|
    ensures |find| == |put| ==> |ReplaceAll(v, find, put)| == |v|
    ensures |find| != |put| && Contains(v, find) ==> |ReplaceAll(v, find, put)| != |v|
    decreases |v|
  {
    HasPrefixIs(v, find);
    if |v| < |find| {
      TooShort(v, find);
    } else if find <= v {
      LengthMoves(v[|find|..], find, put);
    } else {
      LengthMoves(v[1..], find, put);
    }
  }

  lemma {:induction false} TooShort(v: string, find: string)
    requires |v| < |find|
    ensures !Contains(v, find)
  {
    HasPrefixIs(v, find);
    if v != "" { TooShort(v[1..], find); }
  }

  lemma FinalLength(t: Token, find: string, put: string)
    requires find != "" && LengthRight(t)
    ensures LengthRight(Final(t, find, put)) <==> |find| == |put| || !Contains(ReplaceAll(t.value, find, put), find)
  {
    var v := ReplaceAll(t.value, find, put);
    DecimalIsRead(|v|);
    if Contains(t.value, find) {
      LengthMoves(v, find, put);
      if !Contains(v, find) { ReplaceAbsent(v, find, put); }
    } else {
      ReplaceAbsent(t.value, find, put);
    }
  }

  lemma {:induction false} FinalAt(ts: seq<Token>, find: string, put: string)
    requires find != ""
    ensures |FinalAll(ts, find, put)| == |ts|
    ensures forall i :: 0 <= i < |ts| ==> FinalAll(ts, find, put)[i] == Final(ts[i], find, put)
  {
    if ts != [] { FinalAt(ts[1..], find, put); }
  }

  /**
   When every serialized string of the input states its length, every one of the result does
   exactly if the two texts have the same length or no rewritten value still holds the search text.
   */
  lemma LengthsStayRightIff(data: string, find: string, put: string)
    requires Apart(find, put) && find != put && LengthsRight(TokensOf(data))
    ensures LengthsRight(TokensOf(ReplaceSerializedStrings(data, find, put))) <==>
            |find| == |put| || Settled(TokensOf(data), find, put)
  {
    ReplacesTokenwise(data, find, put);
    var ts := TokensOf(data);
    FinalAt(ts, find, put);
    forall i | 0 <= i < |ts|
      ensures LengthRight(Final(ts[i], find, put)) <==> |find| == |put| || !Contains(ReplaceAll(ts[i].value, find, put), find)
    {
      FinalLength(ts[i], find, put);
    }
  }

  // ----- When nothing is replaced twice -----

  /** No occurrence of `find` can share a byte with an inserted `put`. */
  predicate NoOverlap(find: string, put: string) {
    && !Contains(put, find)
    && (forall i :: 0 < i < |find| ==> !(find[i..] <= put) && !(put <= find[i..]))
    && (forall j :: 0 <= j < |put| ==> !(put[j..] <= find))
  }

  /** Any tail of `find` at the front of a replaced text was there before. */
  lemma {:induction false} TailBack(find: string, i: nat, v: string, put: string)
    requires NoOverlap(find, put) && 0 < i <= |find| && find[i..] <= ReplaceAll(v, find, put)
    ensures find[i..] <= v
    decreases |v|
  {
    if i == |find| || |v| < |find| {
    } else {
      var r := ReplaceAll(v, find, put);
      if find <= v {
        EitherPrefix(find[i..], put, r);
      } else {
        assert find[i..][0] == r[0] == v[0] && find[i..][1..] == find[i + 1..] && r[1..] == ReplaceAll(v[1..], find, put);
        PrefixHead(find[i..], r);
        TailBack(find, i + 1, v[1..], put);
        assert find[i..] == [v[0]] + find[i + 1..] && v == [v[0]] + v[1..];
      }
    }
  }

  lemma EitherPrefix(a: string, b: string, s: string)
    requires a <= s && b <= s
    ensures a <= b || b <= a
  {
  }

  lemma {:induction false} InsertedHoldsNone(find: string, put: string, j: nat, y: string)
    requires find != "" && NoOverlap(find, put) && j <= |put| && !Contains(y, find)
    ensures !Contains(put[j..] + y, find)
    decreases |put| - j
  {
    var s := put[j..] + y;
    if j == |put| {
      assert s == y;
    } else {
      HasPrefixIs(s, find);
      assert put[j..] <= s;
      if find <= s {
        EitherPrefix(find, put[j..], s);
        ContainsInside(put, j, find);
      }
      assert s[1..] == put[j + 1..] + y;
      InsertedHoldsNone(find, put, j + 1, y);
    }
  }

  lemma ContainsInside(s: string, j: nat, p: string)
    requires j <= |s|
    ensures p <= s[j..] ==> Contains(s, p)
  {
    HasPrefixIs(s[j..], p);
    if p <= s[j..] { ContainsDrop(s, j, p); }
  }

  lemma ConsPrefix(x: string, s: string)
    requires x != "" && s != ""
    ensures x[0] == s[0] && x[1..] <= s[1..] ==> x <= s
  {
    assert x == [x[0]] + x[1..] && s == [s[0]] + s[1..];
  }

  /** Without overlap, replacing leaves no occurrence behind. */
  lemma {:induction false} NothingLeft(v: string, find: string, put: string)
    requires find != "" && NoOverlap(find, put)
    ensures !Contains(ReplaceAll(v, find, put), find)
    decreases |v|
  {
    var r := ReplaceAll(v, find, put);
    HasPrefixIs(r, find);
    if |v| < |find| {
      TooShort(v, find);
    } else if find <= v {
      NothingLeft(v[|find|..], find, put);
      assert put[0..] == put;
      InsertedHoldsNone(find, put, 0, ReplaceAll(v[|find|..], find, put));
    } else {
      NothingLeft(v[1..], find, put);
      PrefixHead(find, r);
      ConsPrefix(find, v);
      if find <= r {
        assert r[1..] == ReplaceAll(v[1..], find, put);
        TailBack(find, 1, v[1..], put);
      }
    }
  }

  /**
   For texts that overlap neither the frames nor each other: each serialized string has
   its value replaced once, every length stays right, and no occurrence is left anywhere.
   */
  lemma SearchAndReplace(data: string, find: string, put: string)
    requires Apart(find, put) && NoOverlap(find, put) && LengthsRight(TokensOf(data))
    ensures var r := ReplaceSerializedStrings(data, find, put);
            && LengthsRight(TokensOf(r)) && !Contains(r, find)
            && |TokensOf(r)| == |TokensOf(data)|
            && forall i :: 0 <= i < |TokensOf(r)| ==> TokensOf(r)[i] == Rewritten(TokensOf(data)[i], find, put)
  {
    ContainsInside(put, 0, find);
    assert put[0..] == put;
    LengthsStayRightIff(data, find, put);
    ReplacesTokenwise(data, find, put);
    var ts := TokensOf(data);
    FinalAt(ts, find, put);
    forall i | 0 <= i < |ts|
      ensures !Contains(ReplaceAll(ts[i].value, find, put), find) && Final(ts[i], find, put) == Rewritten(ts[i], find, put)
    {
      NothingLeft(ts[i].value, find, put);
      RewrittenSettled(ts[i], find, put);
    }
    NothingLeft(FirstPass(data, find, put), find, put);
  }

  lemma RewrittenSettled(t: Token, find: string, put: string)
    requires find != "" && !Contains(ReplaceAll(t.value, find, put), find)
    ensures Final(t, find, put) == Rewritten(t, find, put)
  {
    if Contains(t.value, find) {
      ReplaceAbsent(ReplaceAll(t.value, find, put), find, put);
    } else {
      ReplaceAbsent(t.value, find, put);
    }
  }

  // ----- When the new text holds the old one -----

  lemma {:induction false} StillThere(v: string, find: string, put: string)
    requires find != "" && Contains(put, find) && Contains(v, find)
    ensures Contains(ReplaceAll(v, find, put), find)
    decreases |v|
  {
    HasPrefixIs(v, find);
    if |v| < |find| {
      TooShort(v, find);
    } else if find <= v {
      ContainsAppend(put, ReplaceAll(v[|find|..], find, put), find);
    } else {
      StillThere(v[1..], find, put);
      ContainsAppend([v[0]], ReplaceAll(v[1..], find, put), find);
    }
  }

  /**
   When the new text holds the old one, as a staging sub-domain does, every serialized string
   that mentions the old text ends up with a wrong length.
   */
  lemma SubdomainBreaksLengths(data: string, find: string, put: string, i: nat)
    requires Apart(find, put) && find != put && Contains(put, find) && LengthsRight(TokensOf(data))
    requires i < |TokensOf(data)| && Contains(TokensOf(data)[i].value, find)
    ensures !LengthsRight(TokensOf(ReplaceSerializedStrings(data, find, put)))
  {
    LengthsStayRightIff(data, find, put);
    StillThere(TokensOf(data)[i].value, find, put);
    HoldsLonger(put, find);
  }

  lemma {:induction false} HoldsLonger(s: string, p: string)
    requires Contains(s, p)
    ensures |s| > |p| || s == p
  {
    HasPrefixIs(s, p);
    if !(p <= s) { HoldsLonger(s[1..], p); }
  }

  // ----- When the old text touches a frame -----

  lemma {:induction false} NoDigitsAhead(v: string, tail: string, find: string)
    requires find != "" && AllDigits(find) && !Contains(v, find) && tail == "\";"
    ensures !Contains(v + tail, find)
  {
    var s := v + tail;
    HasPrefixIs(s, find);
    PrefixHead(find, tail);
    if find <= s {
      assert s[|v|] == '"' && forall i :: 0 <= i < |find| ==> find[i] == s[i];
      assert find <= v;
      HasPrefixIs(v, find);
    }
    if v == "" {
      assert s == tail;
      NoByteDigits(tail, find);
    } else {
      assert s[1..] == v[1..] + tail;
      NoDigitsAhead(v[1..], tail, find);
    }
  }

  lemma {:induction false} NoByteDigits(s: string, find: string)
    requires find != "" && AllDigits(find) && forall i :: 0 <= i < |s| ==> !IsDigit(s[i])
    ensures !Contains(s, find)
  {
    HasPrefixIs(s, find);
    PrefixHead(find, s);
    if s != "" { NoByteDigits(s[1..], find); }
  }

  lemma DigitsReplaced(find: string, put: string, v: string)
    requires find != "" && AllDigits(find) && !Contains(v, find)
    ensures ReplaceAll(TokenText(Token(find, v)), find, put) == TokenText(Token(put, v))
  {
    var y := v + "\";";
    NoDigitsAhead(v, "\";", find);
    var after := ":\"" + y;
    PrefixHead(find, after);
    PrefixHead(find, after[1..]);
    assert after[1..][0] == '"' && after[1..][1..] == y;
    HasPrefixIs(after, find);
    HasPrefixIs(after[1..], find);
    ReplaceAbsent(after, find, put);
    ReplaceHit(find, after, put);
    var c := ":" + (find + after);
    PrefixHead(find, c);
    ReplaceSkips(c, find, put);
    assert c[1..] == find + after;
    var s := "s" + c;
    PrefixHead(find, s);
    ReplaceSkips(s, find, put);
    assert s[1..] == c && s == TokenText(Token(find, v));
    assert ['s'] + ([':'] + (put + after)) == TokenText(Token(put, v));
  }

  /** The frame condition matters: a run of digits is also replaced in the length of a string it does not occur in. */
  lemma DigitsTouchTheFrame(find: string, put: string, v: string)
    requires find != "" && AllDigits(find) && put != "" && AllDigits(put) && find != put
    requires Free(v, '"') && !Contains(v, find) && NumberOf(find) == |v| && NumberOf(put) != |v|
    ensures var data := TokenText(Token(find, v));
            LengthsRight(TokensOf(data)) && !LengthsRight(TokensOf(ReplaceSerializedStrings(data, find, put)))
  {
    var t, u := Token(find, v), Token(put, v);
    assert TokenText(t) + "" == TokenText(t) && TokenText(u) + "" == TokenText(u);
    TokenStarts(t, "");
    TokenStarts(u, "");
    assert TokensOf(TokenText(t)) == [t] + TokensOf("") == [t];
    assert TokensOf(TokenText(u)) == [u] + TokensOf("") == [u];
    assert FirstPass(TokenText(t), find, put) == TokenText(t);
    DigitsReplaced(find, put, v);
    assert !LengthRight([u][0]);
  }

  // ----- The documented use -----

  lemma {:induction false} ContainsSomewhere(s: string, p: string) returns (j: nat)
    requires Contains(s, p)
    ensures j <= |s| && p <= s[j..]
  {
    HasPrefixIs(s, p);
    if p <= s {
      j := 0;
      assert s[0..] == s;
    } else {
      var k := ContainsSomewhere(s[1..], p);
      j := k + 1;
      assert s[1..][k..] == s[j..];
    }
  }

  lemma OpensElsewhere(find: string, put: string, j: nat)
    requires find != "" && j <= |put| && find <= put[j..]
    ensures j == 0 ==> find <= put
    ensures j < |put| && put[j] == find[0]
  {
    PrefixHead(find, put[j..]);
    assert j == 0 ==> put[j..] == put;
  }

  /** A byte that only opens a text keeps that text from overlapping another that it also only opens. */
  lemma DistinctOpeners(find: string, put: string)
    requires find != "" && put != "" && !(find <= put) && !(put <= find)
    requires forall i :: 0 < i < |find| ==> find[i] != put[0]
    requires forall j :: 0 < j < |put| ==> put[j] != find[0]
    ensures NoOverlap(find, put)
  {
    if Contains(put, find) {
      var j := ContainsSomewhere(put, find);
      OpensElsewhere(find, put, j);
    }
    forall i | 0 < i < |find| ensures !(find[i..] <= put) && !(put <= find[i..]) {
      PrefixHead(find[i..], put);
      PrefixHead(put, find[i..]);
    }
    forall j | 0 <= j < |put| ensures !(put[j..] <= find) {
      PrefixHead(put[j..], find);
      assert j == 0 ==> put[j..] == put;
    }
  }

  /** Enough for a text to stay clear of the frames: each `s` in it is followed by a byte no frame has there. */
  predicate Plain(x: string) {
    && x != "" && Free(x, '"') && x[0] != ';' && x[0] != ':' && !IsDigit(x[0])
    && forall i :: 0 <= i < |x| && x[i] == 's' ==>
        i + 2 < |x| && (x[i + 1] != ':' || (x[i + 2] != ':' && !IsDigit(x[i + 2])))
  }

  lemma PlainIsFrameFree(x: string)
    requires Plain(x)
    ensures FrameFree(x)
  {
    forall i | 0 <= i < |x| ensures !OpensFrame(x[i..]) {
      var y := x[i..];
      assert y[0] == x[i];
      if x[i] == 's' {
        assert y[1] == x[i + 1] && y[2..][0] == y[2] == x[i + 2];
      }
    }
  }

  lemma LiveAddress(x: string)
    requires x == "https://example.com"
    ensures Plain(x) && x[0] == 'h' && x[8] == 'e' && |x| == 19 && forall i :: 0 < i < |x| ==> x[i] != 'h'
  {
  }

  lemma StagingAddress(x: string)
    requires x == "https://staging.example.com"
    ensures Plain(x) && x[0] == 'h' && x[8] == 's' && |x| == 27 && forall i :: 0 < i < |x| ==> x[i] != 'h'
  {
  }

  lemma LivePair(find: string, put: string)
    requires Plain(find) && Plain(put) && find[0] == put[0] == 'h' && |find| > 8 && |put| > 8 && find[8] != put[8]
    requires forall i :: 0 < i < |find| ==> find[i] != 'h'
    requires forall i :: 0 < i < |put| ==> put[i] != 'h'
    ensures Apart(find, put) && NoOverlap(find, put)
  {
    PlainIsFrameFree(find);
    PlainIsFrameFree(put);
    DistinctOpeners(find, put);
  }

  /** Replacing the live address by the staging address, scheme included, is safe for every text. */
  lemma StagingAddressIsSafe(data: string, find: string, put: string)
    requires find == "https://example.com" && put == "https://staging.example.com"
    requires LengthsRight(TokensOf(data))
    ensures var r := ReplaceSerializedStrings(data, find, put);
            LengthsRight(TokensOf(r)) && !Contains(r, find) && |TokensOf(r)| == |TokensOf(data)|
  {
    LiveAddress(find);
    StagingAddress(put);
    LivePair(find, put);
    SearchAndReplace(data, find, put);
  }

  lemma BareNames(find: string, put: string)
    requires find == "example.com" && put == "staging.example.com"
    ensures Plain(find) && Plain(put) && |put| == 19 && |find| == 11 && put[8..] == find
  {
  }

  lemma SubdomainBreaks(data: string, find: string, put: string, k: nat, i: nat)
    requires Plain(find) && Plain(put) && 0 < k <= |put| && put[k..] == find
    requires LengthsRight(TokensOf(data)) && i < |TokensOf(data)| && Contains(TokensOf(data)[i].value, find)
    ensures !LengthsRight(TokensOf(ReplaceSerializedStrings(data, find, put)))
  {
    PlainIsFrameFree(find);
    PlainIsFrameFree(put);
    ContainsInside(put, k, find);
    SubdomainBreaksLengths(data, find, put, i);
  }

  /** The bare domain names the staging commands pass break every length they touch. */
  lemma StagingDomainIsUnsafe(data: string, find: string, put: string, i: nat)
    requires find == "example.com" && put == "staging.example.com"
    requires LengthsRight(TokensOf(data)) && i < |TokensOf(data)| && Contains(TokensOf(data)[i].value, find)
    ensures !LengthsRight(TokensOf(ReplaceSerializedStrings(data, find, put)))
  {
    BareNames(find, put);
    SubdomainBreaks(data, find, put, 8, i);
  }
}
