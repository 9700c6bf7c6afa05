/**
 ASCII text helpers shared by every component: trimming, case folding, prefixes,
 replacement, splitting and joining.  A `char` stands for one byte.
 */
module Text {

  datatype Option<+T> = None | Some(value: T)

  /** The six ASCII white-space bytes. */
  predicate IsSpace(c: char) {
    c == ' ' || c == '\t' || c == '\n' || c == '\r' || c == '\U{0B}' || c == '\U{0C}'
  }

  predicate Blank(s: string) {
    forall i :: 0 <= i < |s| ==> IsSpace(s[i])
  }

  function TrimLeft(s: string): string {
    if s != [] && IsSpace(s[0]) then TrimLeft(s[1..]) else s
  }

  function TrimRight(s: string): string {
    if s != [] && IsSpace(s[|s| - 1]) then TrimRight(s[..|s| - 1]) else s
  }

  function Trim(s: string): string {
    TrimRight(TrimLeft(s))
  }

  /** No white space at either end. */
  predicate Tight(s: string) {
    s == [] || (!IsSpace(s[0]) && !IsSpace(s[|s| - 1]))
  }

  function UpperChar(c: char): char {
    if 'a' <= c <= 'z' then (c as int - 32) as char else c
  }

  function Upper(s: string): (r: string)
    ensures |r| == |s|
    ensures forall i :: 0 <= i < |s| ==> r[i] == UpperChar(s[i])
  {
    seq(|s|, i requires 0 <= i < |s| => UpperChar(s[i]))
  }

  predicate EqualFold(a: string, b: string) {
    Upper(a) == Upper(b)
  }

  predicate HasPrefix(s: string, p: string)
    decreases |s|
  {
    p == [] || (s != [] && s[0] == p[0] && HasPrefix(s[1..], p[1..]))
  }

  lemma {:induction false} HasPrefixIs(s: string, p: string)
    ensures HasPrefix(s, p) <==> p <= s
    decreases |s|
  {
    if p != [] && s != [] {
      HasPrefixIs(s[1..], p[1..]);
      assert p <= s <==> s[0] == p[0] && p[1..] <= s[1..] by {
        assert s == [s[0]] + s[1..] && p == [p[0]] + p[1..];
      }
    }
  }

  lemma PrefixHead(x: string, s: string)
    ensures x <= s && x != "" ==> s != "" && x[0] == s[0] && x[1..] <= s[1..]
  {
  }

  predicate HasSuffix(s: string, p: string) {
    |p| <= |s| && s[|s| - |p|..] == p
  }

  function TrimPrefix(s: string, p: string): string {
    if HasPrefix(s, p) then HasPrefixIs(s, p); s[|p|..] else s
  }

  function ReplaceAll(s: string, find: string, put: string): string
    requires find != []
  {
    if |s| < |find| then s
    else if find <= s then put + ReplaceAll(s[|find|..], find, put)
    else [s[0]] + ReplaceAll(s[1..], find, put)
  }

  /** Whether `p` occurs in `s`. */
  predicate Contains(s: string, p: string) {
    HasPrefix(s, p) || (s != [] && Contains(s[1..], p))
  }

  lemma {:induction false} ReplaceAbsent(s: string, find: string, put: string)
    requires find != [] && !Contains(s, find)
    ensures ReplaceAll(s, find, put) == s
  {
    HasPrefixIs(s, find);
    if |s| >= |find| {
      ReplaceAbsent(s[1..], find, put);
      assert s == [s[0]] + s[1..];
    }
  }

  /** The pieces between occurrences of a byte; always at least one. */
  function SplitOn(s: string, c: char): (r: seq<string>)
    ensures r != []
  {
    if s == [] then [""]
    else if s[0] == c then [""] + SplitOn(s[1..], c)
    else
      var r := SplitOn(s[1..], c);
      [[s[0]] + r[0]] + r[1..]
  }

  /** The maximal runs of non-blank bytes. */
  function Fields(s: string): seq<string>
    decreases |s|
  {
    if s == [] then []
    else if IsSpace(s[0]) then Fields(s[1..])
    else
      var n := WordEnd(s);
      [s[..n]] + Fields(s[n..])
  }

  /** Length of the leading run of non-blank bytes. */
  function WordEnd(s: string): (n: nat)
    ensures n <= |s|
    ensures s != [] && !IsSpace(s[0]) ==> n > 0
  {
    if s == [] || IsSpace(s[0]) then 0 else 1 + WordEnd(s[1..])
  }

  function Join(parts: seq<string>, sep: string): string {
    if parts == [] then ""
    else if |parts| == 1 then parts[0]
    else parts[0] + sep + Join(parts[1..], sep)
  }

  predicate IsDigit(c: char) { '0' <= c <= '9' }

  predicate AllDigits(s: string) {
    forall i :: 0 <= i < |s| ==> IsDigit(s[i])
  }

  /** The usual decimal numeral, without leading zeros. */
  function Decimal(n: nat): string {
    if n < 10 then [('0' as int + n) as char] else Decimal(n / 10) + [('0' as int + n % 10) as char]
  }

  /** The number a run of digits stands for. */
  function NumberOf(s: string): nat
    requires AllDigits(s)
  {
    if s == "" then 0 else 10 * NumberOf(s[..|s| - 1]) + (s[|s| - 1] as int - '0' as int)
  }

  lemma {:induction false} DecimalIsRead(n: nat)
    ensures Decimal(n) != "" && AllDigits(Decimal(n)) && NumberOf(Decimal(n)) == n
  {
    var last := ('0' as int + n % 10) as char;
    if n >= 10 {
      DecimalIsRead(n / 10);
      assert Decimal(n)[..|Decimal(n)| - 1] == Decimal(n / 10);
    } else {
      assert Decimal(n)[..|Decimal(n)| - 1] == "";
    }
  }

  const MAX_INT := 0x7FFF_FFFF_FFFF_FFFF

  /** A decimal integer with an optional sign, within 64 bits. */
  function Atoi(s: string): Option<int> {
    var digits := if s != "" && (s[0] == '+' || s[0] == '-') then s[1..] else s;
    if digits == "" || !AllDigits(digits) then None
    else
      var n: int := NumberOf(digits);
      if s[0] == '-' then (if n <= MAX_INT + 1 then Some(-n) else None)
      else if n <= MAX_INT then Some(n)
      else None
  }

  /** The decimal form of an integer. */
  function IntText(n: int): string {
    if n < 0 then "-" + Decimal(-n) else Decimal(n)
  }

  predicate Int64(n: int) { -MAX_INT - 1 <= n <= MAX_INT }

  lemma IntIsRead(n: int)
    requires Int64(n)
    ensures Atoi(IntText(n)) == Some(n)
    ensures forall i :: 0 <= i < |IntText(n)| ==> IsDigit(IntText(n)[i]) || IntText(n)[i] == '-'
  {
    var m := if n < 0 then -n else n;
    DecimalIsRead(m);
    if n < 0 { assert ("-" + Decimal(m))[1..] == Decimal(m); }
  }

  function Min(a: nat, b: nat): nat {
    if a < b then a else b
  }

  /** TrimLeft removes exactly the leading blanks. */
  lemma {:induction false} TrimLeftSplit(s: string) returns (p: string)
    ensures s == p + TrimLeft(s) && Blank(p)
    ensures TrimLeft(s) == [] || !IsSpace(TrimLeft(s)[0])
  {
    if s != [] && IsSpace(s[0]) {
      var q := TrimLeftSplit(s[1..]);
      p := [s[0]] + q;
      assert s == [s[0]] + s[1..];
    } else {
      p := [];
    }
  }

  /** TrimRight removes exactly the trailing blanks. */
  lemma {:induction false} TrimRightSplit(s: string) returns (p: string)
    ensures s == TrimRight(s) + p && Blank(p)
    ensures TrimRight(s) == [] || !IsSpace(TrimRight(s)[|TrimRight(s)| - 1])
  {
    if s != [] && IsSpace(s[|s| - 1]) {
      var q := TrimRightSplit(s[..|s| - 1]);
      p := q + [s[|s| - 1]];
      assert s == s[..|s| - 1] + [s[|s| - 1]];
    } else {
      p := [];
    }
  }

  /** Trim removes blanks at both ends and nothing else. */
  lemma TrimSplit(s: string) returns (p: string, q: string)
    ensures s == p + Trim(s) + q && Blank(p) && Blank(q) && Tight(Trim(s))
  {
    p := TrimLeftSplit(s);
    var l := TrimLeft(s);
    q := TrimRightSplit(l);
    var r := TrimRight(l);
    assert p + (r + q) == p + r + q;
    if r != [] { assert r[0] == l[0]; }
  }

  lemma TrimIsBlank(s: string)
    ensures Trim(s) == [] <==> Blank(s)
  {
    var p, q := TrimSplit(s);
    BlankConcat(p, Trim(s));
    BlankConcat(p + Trim(s), q);
    if Trim(s) != [] { assert !IsSpace(Trim(s)[0]); }
  }

  lemma {:induction false} TrimLeftDrops(p: string, s: string)
    requires Blank(p)
    ensures TrimLeft(p + s) == TrimLeft(s)
  {
    if p == [] {
      assert p + s == s;
    } else {
      assert (p + s)[1..] == p[1..] + s;
      TrimLeftDrops(p[1..], s);
    }
  }

  lemma {:induction false} TrimRightDrops(s: string, p: string)
    requires Blank(p)
    ensures TrimRight(s + p) == TrimRight(s)
  {
    if p == [] {
      assert s + p == s;
    } else {
      assert (s + p)[..|s + p| - 1] == s + p[..|p| - 1];
      TrimRightDrops(s, p[..|p| - 1]);
    }
  }

  lemma {:induction false} TrimRightAfter(a: string, b: string)
    requires a != "" && !IsSpace(a[|a| - 1])
    ensures TrimRight(a + b) == a + TrimRight(b)
    decreases |b|
  {
    if b == "" {
      assert a + b == a && a + "" == a;
    } else {
      var n := |b| - 1;
      assert (a + b)[|a + b| - 1] == b[n] && (a + b)[..|a + b| - 1] == a + b[..n];
      if IsSpace(b[n]) { TrimRightAfter(a, b[..n]); }
    }
  }

  /** A tight text survives any blank padding. */
  lemma TrimPadded(p: string, s: string, q: string)
    requires Blank(p) && Blank(q) && Tight(s)
    ensures Trim(p + s + q) == s
  {
    assert p + s + q == p + (s + q);
    TrimLeftDrops(p, s + q);
    if s == [] {
      assert s + q == q + [];
      TrimLeftDrops(q, []);
    } else {
      assert TrimLeft(s + q) == s + q;
      TrimRightDrops(s, q);
    }
  }

  /** Blank padding never changes what Trim returns. */
  lemma TrimAbsorbs(p: string, s: string, q: string)
    requires Blank(p) && Blank(q)
    ensures Trim(p + s + q) == Trim(s)
  {
    var x, y := TrimSplit(s);
    var r := Trim(s);
    BlankConcat(p, x);
    BlankConcat(y, q);
    Regroup(p, x, r, y, q);
    TrimPadded(p + x, r, y + q);
  }

  lemma Regroup(p: string, x: string, r: string, y: string, q: string)
    ensures p + (x + r + y) + q == (p + x) + r + (y + q)
  {
  }

  lemma BlankConcat(a: string, b: string)
    ensures Blank(a + b) <==> Blank(a) && Blank(b)
  {
    if Blank(a + b) {
      forall i | 0 <= i < |a| ensures IsSpace(a[i]) { assert (a + b)[i] == a[i]; }
      forall i | 0 <= i < |b| ensures IsSpace(b[i]) { assert (a + b)[|a| + i] == b[i]; }
    }
  }

  lemma {:induction false} ContainsDrop(s: string, n: nat, p: string)
    requires n <= |s| && Contains(s[n..], p)
    ensures Contains(s, p)
    decreases n
  {
    if n == 0 {
      assert s[0..] == s;
    } else {
      assert s[1..][n - 1..] == s[n..];
      ContainsDrop(s[1..], n - 1, p);
    }
  }

  lemma {:induction false} ContainsAppend(a: string, b: string, p: string)
    requires Contains(a, p) || Contains(b, p)
    ensures Contains(a + b, p)
    decreases |a|
  {
    HasPrefixIs(a, p);
    HasPrefixIs(a + b, p);
    if a == "" {
      assert a + b == b;
    } else if p <= a {
      assert p <= a + b;
    } else {
      assert (a + b)[1..] == a[1..] + b;
      ContainsAppend(a[1..], b, p);
    }
  }

  // ----- Blanks of the pattern language -----

  /** The blanks of the pattern language: vertical tab is not one of them. */
  predicate IsWs(c: char) {
    IsSpace(c) && c != '\U{0B}'
  }

  predicate AllWs(s: string) {
    forall i :: 0 <= i < |s| ==> IsWs(s[i])
  }

  function SkipWs(s: string): string {
    if s != "" && IsWs(s[0]) then SkipWs(s[1..]) else s
  }

  lemma {:induction false} SkipWsSuffix(x: string)
    ensures |SkipWs(x)| <= |x| && SkipWs(x) == x[|x| - |SkipWs(x)|..]
  {
    if x != "" && IsWs(x[0]) { SkipWsSuffix(x[1..]); }
  }

  // ----- Lines and other delimited pieces -----

  /** Where the first line ends. */
  function NewlineAt(s: string): (k: nat)
    ensures k <= |s|
    ensures k < |s| ==> s[k] == '\n'
    ensures '\n' !in s[..k]
  {
    if s == [] || s[0] == '\n' then 0
    else
      var k := NewlineAt(s[1..]);
      assert s[..1 + k] == [s[0]] + s[1..][..k];
      1 + k
  }

  lemma {:induction false} FirstBreak(l: string, rest: string)
    requires '\n' !in l
    ensures NewlineAt(l + "\n" + rest) == |l|
  {
    var all := l + "\n" + rest;
    if l != "" {
      assert all[0] == l[0] && all[1..] == l[1..] + "\n" + rest;
      FirstBreak(l[1..], rest);
    }
  }

  /** A line without the carriage return that may end it. */
  function DropReturn(s: string): string {
    if s != [] && s[|s| - 1] == '\r' then s[..|s| - 1] else s
  }

  predicate Free(s: string, c: char) {
    forall i :: 0 <= i < |s| ==> s[i] != c
  }

  lemma FreeConcat(a: string, b: string, c: char)
    requires Free(a, c) && Free(b, c)
    ensures Free(a + b, c)
  {
  }

  /** A walk over a map whose order the language leaves open: every key once. */
  predicate KeyOrder(order: seq<string>, m: map<string, string>) {
    && (forall k :: k in order ==> k in m)
    && (forall k :: k in m ==> k in order)
    && (forall i, j :: 0 <= i < j < |order| ==> order[i] != order[j])
  }

  lemma AbsentIsFree(s: string, c: char)
    requires c !in s
    ensures Free(s, c)
  {
    forall i | 0 <= i < |s| ensures s[i] != c { assert s[i] in s; }
  }

  /** Cutting off the first line. */
  lemma FirstLineSplit(rest: string, k: nat)
    requires k == NewlineAt(rest)
    ensures k < |rest| ==> SplitOn(rest, '\n') == [rest[..k]] + SplitOn(rest[k + 1..], '\n')
    ensures k == |rest| ==> SplitOn(rest, '\n') == [rest[..k]]
  {
    AbsentIsFree(rest[..k], '\n');
    if k < |rest| {
      LineThenRest(rest, k);
      SplitPiece(rest[..k], '\n', rest[k + 1..]);
    } else {
      assert rest == rest[..k];
      SplitWhole(rest, '\n');
    }
  }

  lemma LineThenRest(rest: string, k: nat)
    requires k < |rest| && rest[k] == '\n'
    ensures rest == rest[..k] + (['\n'] + rest[k + 1..])
  {
  }

  lemma StartsWithByte(s: string, p: string)
    requires |p| == 1
    ensures HasPrefix(s, p) <==> s != "" && s[0] == p[0]
  {
    HasPrefixIs(s, p);
  }

  lemma {:induction false} SplitPiece(a: string, c: char, b: string)
    requires Free(a, c)
    ensures SplitOn(a + ([c] + b), c) == [a] + SplitOn(b, c)
  {
    var s := a + ([c] + b);
    if a == "" {
      assert s == [c] + b && s[1..] == b;
    } else {
      assert s[0] == a[0] && s[1..] == a[1..] + ([c] + b);
      SplitPiece(a[1..], c, b);
      assert a == [a[0]] + a[1..];
    }
  }

  lemma {:induction false} SplitWhole(a: string, c: char)
    requires Free(a, c)
    ensures SplitOn(a, c) == [a]
  {
    if a != "" {
      SplitWhole(a[1..], c);
      assert a == [a[0]] + a[1..];
    }
  }

  predicate AllFree(pieces: seq<string>, c: char) {
    forall i :: 0 <= i < |pieces| ==> Free(pieces[i], c)
  }

  /** Splitting and joining at the same byte are inverse. */
  lemma {:induction false} SplitJoin(pieces: seq<string>, c: char)
    requires pieces != [] && AllFree(pieces, c)
    ensures SplitOn(Join(pieces, [c]), c) == pieces
  {
    if |pieces| == 1 {
      SplitWhole(pieces[0], c);
    } else {
      var later := Join(pieces[1..], [c]);
      SplitJoin(pieces[1..], c);
      SplitPiece(pieces[0], c, later);
      assert pieces[0] + [c] + later == pieces[0] + ([c] + later);
    }
  }

  lemma {:induction false} JoinSplit(s: string, c: char)
    ensures AllFree(SplitOn(s, c), c) && Join(SplitOn(s, c), [c]) == s
  {
    if s != "" {
      var r := SplitOn(s[1..], c);
      JoinSplit(s[1..], c);
      assert s == [s[0]] + s[1..];
      if s[0] == c {
        assert ([""] + r)[1..] == r;
      } else {
        var q := [[s[0]] + r[0]] + r[1..];
        assert q[1..] == r[1..];
        if |r| > 1 {
          assert [s[0]] + (r[0] + [c] + Join(r[1..], [c])) == ([s[0]] + r[0]) + [c] + Join(r[1..], [c]);
        }
      }
    }
  }

  lemma Assoc(a: string, b: string, c: string)
    ensures a + (b + c) == a + b + c
  {
  }

  /** The same of sequences that are not texts. */
  lemma AssocOf<T>(a: seq<T>, b: seq<T>, c: seq<T>)
    ensures a + (b + c) == a + b + c
  {
  }

  lemma {:induction false} NoByte(s: string, p: string)
    requires |p| == 1 && Free(s, p[0])
    ensures !Contains(s, p)
  {
    HasPrefixIs(s, p);
    PrefixHead(p, s);
    if s != "" { NoByte(s[1..], p); }
  }

  /** Replacing one byte by another goes byte by byte. */
  lemma {:induction false} ReplaceByte(s: string, find: string, put: string)
    requires |find| == |put| == 1
    ensures var r := ReplaceAll(s, find, put);
            |r| == |s| && forall i :: 0 <= i < |s| ==> r[i] == if s[i] == find[0] then put[0] else s[i]
  {
    if s != "" {
      ReplaceByte(s[1..], find, put);
      assert find <= s <==> s[0] == find[0];
      assert find <= s ==> s[|find|..] == s[1..];
    }
  }

  // ----- Occurrences -----

  /** The pattern starts at place `i`. */
  predicate At(s: string, i: nat, p: string) {
    i + |p| <= |s| && s[i..i + |p|] == p
  }

  ghost predicate Nowhere(s: string, p: string) {
    forall i: nat :: !At(s, i, p)
  }

  lemma NowhereTail(s: string, p: string)
    requires s != "" && p != ""
    ensures Nowhere(s, p) <==> !(p <= s) && Nowhere(s[1..], p)
  {
    assert At(s, 0, p) <==> p <= s;
    forall i: nat ensures At(s[1..], i, p) <==> At(s, i + 1, p) {
      if i + 1 + |p| <= |s| { assert s[1..][i..i + |p|] == s[i + 1..i + 1 + |p|]; }
    }
    if Nowhere(s[1..], p) && !(p <= s) {
      forall i: nat ensures !At(s, i, p) {
        if i > 0 { assert !At(s[1..], i - 1, p); }
      }
    }
  }

  lemma {:induction false} NowhereIsAbsent(s: string, p: string)
    requires p != ""
    ensures Nowhere(s, p) <==> !Contains(s, p)
  {
    HasPrefixIs(s, p);
    if s == "" {
      forall i: nat ensures !At(s, i, p) {}
    } else {
      NowhereTail(s, p);
      NowhereIsAbsent(s[1..], p);
    }
  }

  lemma ReplaceHit(find: string, w: string, put: string)
    requires find != ""
    ensures ReplaceAll(find + w, find, put) == put + ReplaceAll(w, find, put)
  {
    assert (find + w)[|find|..] == w;
  }

  lemma ReplaceShort(s: string, find: string, put: string)
    requires find != "" && |s| < |find|
    ensures ReplaceAll(s, find, put) == s
  {
  }

  /** A byte at which no occurrence begins is copied. */
  lemma ReplaceSkips(s: string, find: string, put: string)
    requires find != "" && s != "" && !(find <= s)
    ensures ReplaceAll(s, find, put) == [s[0]] + ReplaceAll(s[1..], find, put)
  {
    if |s| < |find| {
      ReplaceShort(s[1..], find, put);
      assert s == [s[0]] + s[1..];
    }
  }

  /** The pattern occurs nowhere in front of place `n`. */
  ghost predicate NotBefore(s: string, n: nat, p: string) {
    forall i: nat :: At(s, i, p) ==> i >= n
  }

  lemma NotBeforeTail(c: char, t: string, n: nat, p: string)
    requires NotBefore([c] + t, n + 1, p)
    ensures NotBefore(t, n, p) && !(p <= [c] + t)
  {
    var s := [c] + t;
    assert p <= s ==> At(s, 0, p);
    forall i: nat | At(t, i, p) ensures i >= n {
      assert t[i..i + |p|] == s[i + 1..i + 1 + |p|];
      assert At(s, i + 1, p);
    }
  }

  /** Replacing copies what is in front of the first occurrence, puts in the new text, and goes on behind it. */
  lemma {:induction false} ReplaceFirst(a: string, find: string, b: string, put: string)
    requires find != "" && NotBefore(a + (find + b), |a|, find)
    ensures ReplaceAll(a + (find + b), find, put) == a + (put + ReplaceAll(b, find, put))
    decreases |a|
  {
    var s := a + (find + b);
    if a == "" {
      assert s == find + b;
      ReplaceHit(find, b, put);
    } else {
      var t := a[1..] + (find + b);
      assert s == [a[0]] + t && s[1..] == t;
      NotBeforeTail(a[0], t, |a| - 1, find);
      ReplaceSkips(s, find, put);
      ReplaceFirst(a[1..], find, b, put);
      Assoc([a[0]], a[1..], put + ReplaceAll(b, find, put));
    }
  }
}
