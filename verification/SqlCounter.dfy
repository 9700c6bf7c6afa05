/**
 The statement counter used after a native import, and its agreement with the
 splitter: two different automata that cut the same text at the same places.
 */
module SqlCounter {
  import opened Text
  import opened SqlScanner

  datatype Where = Code | Quoted(quote: char) | LineNote | BlockNote

  datatype Stride = Stride(n: nat, next: Where, hit: bool)

  function CountStep(w: Where, rest: string): (m: Stride)
    requires rest != []
    ensures 1 <= m.n <= |rest|
  {
    var b := rest[0];
    match w
    case LineNote => Stride(1, if b == '\n' then Code else LineNote, false)
    case BlockNote => if b == '*' && Peeks(rest, 1, '/') then Stride(2, Code, false) else Stride(1, BlockNote, false)
    case Quoted(q) =>
      if b == '\\' then Stride(Min(2, |rest|), w, false)
      else Stride(1, if b == q then Code else w, false)
    case Code =>
      if b == '\'' || b == '"' || b == '`' then Stride(1, Quoted(b), false)
      else if (b == '-' && Peeks(rest, 1, '-')) || b == '#' then Stride(1, LineNote, false)
      else if b == '/' && Peeks(rest, 1, '*') then Stride(2, BlockNote, false)
      else Stride(1, Code, b == ';')
  }

  function Count(w: Where, rest: string): nat
    decreases |rest|
  {
    if rest == [] then 0
    else
      var m := CountStep(w, rest);
      (if m.hit then 1 else 0) + Count(m.next, rest[m.n..])
  }

  /** Estimates the number of statements of a file; an unreadable file counts zero. */
  method CountStatements(file: Option<string>) returns (count: nat)
    ensures count == if file.Some? then Count(Code, file.value) else 0
  {
    count := 0;
    if file.None? {
      return;
    }
    var input := file.value;
    var i := 0;
    var inQuote, quoteChar := false, '\'';
    var inLineComment, inBlockComment := false, false;
    ghost var w := Code;
    assert input[0..] == input;
    while i < |input|
      invariant i <= |input|
      invariant inLineComment == w.LineNote? && inBlockComment == w.BlockNote?
      invariant inQuote == w.Quoted? && (inQuote ==> quoteChar == w.quote)
      invariant Count(Code, input) == count + Count(w, input[i..])
      decreases |input| - i
    {
      ghost var rest := input[i..];
      ghost var m := CountStep(w, rest);
      ghost var next := i + m.n;
      assert input[next..] == rest[m.n..];
      w := m.next;
      var b := input[i];
      i := i + 1;
      if inLineComment {
        if b == '\n' {
          inLineComment := false;
        }
      } else if inBlockComment {
        if b == '*' && i < |input| && input[i] == '/' {
          i := i + 1;
          inBlockComment := false;
        }
      } else if inQuote {
        if b == '\\' {
          if i < |input| {
            i := i + 1;
          }
        } else if b == quoteChar {
          inQuote := false;
        }
      } else if b == '\'' || b == '"' || b == '`' {
        inQuote := true;
        quoteChar := b;
      } else if b == '-' && i < |input| && input[i] == '-' {
        inLineComment := true;
      } else if b == '#' {
        inLineComment := true;
      } else if b == '/' && i < |input| && input[i] == '*' {
        i := i + 1;
        inBlockComment := true;
      } else if b == ';' {
        count := count + 1;
      }
      assert i == next;
    }
  }

  /** The splitter meets no DELIMITER line on its way. */
  predicate NoDirective(s: Scan, rest: string)
    decreases |rest|
  {
    if rest == [] then true
    else
      var m := Step(s, rest);
      !m.fate.Directive? && NoDirective(m.next, rest[m.n..])
  }

  /** The counter never skips a closing backtick as if it were escaped. */
  predicate NoEscapedBacktick(w: Where, rest: string)
    decreases |rest|
  {
    if rest == [] then true
    else
      var m := CountStep(w, rest);
      !(w == Quoted('`') && rest[0] == '\\' && Peeks(rest, 1, '`')) && NoEscapedBacktick(m.next, rest[m.n..])
  }

  /** The counter's state that matches a splitter mode; a conditional comment is a plain comment to it. */
  function View(mode: Mode): Where {
    match mode
    case Plain => Code
    case LineComment => LineNote
    case BlockComment => BlockNote
    case Conditional => BlockNote
    case SingleQuote => Quoted('\'')
    case DoubleQuote => Quoted('"')
    case Backtick => Quoted('`')
  }

  /** Two counter steps at once, for the places where the splitter reads two bytes. */
  lemma CountTwice(w: Where, rest: string)
    requires |rest| >= 2 && CountStep(w, rest).n == 1
    ensures var m := CountStep(w, rest);
            var m' := CountStep(m.next, rest[1..]);
            && Count(w, rest) == (if m.hit then 1 else 0) + (if m'.hit then 1 else 0) + Count(m'.next, rest[1 + m'.n..])
            && (NoEscapedBacktick(w, rest) ==> NoEscapedBacktick(m'.next, rest[1 + m'.n..]))
  {
    var m := CountStep(w, rest);
    var m' := CountStep(m.next, rest[1..]);
    assert rest[1..][m'.n..] == rest[1 + m'.n..];
    assert NoEscapedBacktick(w, rest) ==> NoEscapedBacktick(m.next, rest[1..]);
  }

  /** Two splitter steps at once, for the places where the counter reads two bytes. */
  lemma RunTwice(s: Scan, rest: string)
    requires |rest| >= 2 && Step(s, rest).n == 1
    ensures var m := Step(s, rest);
            var m' := Step(m.next, rest[1..]);
            && |Run(s, rest).hits| == |HitsOf(m)| + |HitsOf(m')| + |Run(m'.next, rest[1 + m'.n..]).hits|
            && (NoDirective(s, rest) ==> NoDirective(m'.next, rest[1 + m'.n..]))
  {
    var m := Step(s, rest);
    var m' := Step(m.next, rest[1..]);
    assert rest[1..][m'.n..] == rest[1 + m'.n..];
    assert NoDirective(s, rest) ==> NoDirective(m.next, rest[1..]);
  }

  /** In matching states the two automata have the same number of statements still to come. */
  lemma {:induction false} Simulation(s: Scan, rest: string)
    requires s.delim == ";" && NoDirective(s, rest) && NoEscapedBacktick(View(s.mode), rest)
    ensures |Run(s, rest).hits| == Count(View(s.mode), rest)
    decreases |rest|
  {
    if rest == [] {
      return;
    }
    if s.mode.SingleQuote? && rest[0] == '\'' && Peeks(rest, 1, '\'') {
      CountTwice(View(s.mode), rest);
      Simulation(Step(s, rest).next, rest[2..]);
    } else if s.mode.Plain? && rest[0] == '-' && Peeks(rest, 1, '-') {
      CountTwice(View(s.mode), rest);
      Simulation(Step(s, rest).next, rest[2..]);
    } else if s.mode.Backtick? && rest[0] == '\\' && |rest| > 1 {
      BacktickSkip(s, rest);
      Simulation(s.(stmt := s.stmt + rest[..1] + rest[1..][..1]), rest[2..]);
    } else {
      StepsAgree(s, rest);
      Simulation(Step(s, rest).next, rest[Step(s, rest).n..]);
    }
  }

  /** A backslash and the byte after it inside backticks: one counter step, two splitter steps. */
  lemma BacktickSkip(s: Scan, rest: string)
    requires s.mode.Backtick? && |rest| > 1 && rest[0] == '\\' && rest[1] != '`' && NoDirective(s, rest)
    ensures var s' := s.(stmt := s.stmt + rest[..1] + rest[1..][..1]);
            |Run(s, rest).hits| == |Run(s', rest[2..]).hits| && NoDirective(s', rest[2..])
    ensures CountStep(View(s.mode), rest) == Stride(2, View(s.mode), false)
  {
    RunTwice(s, rest);
  }

  /** Everywhere else one step of each reads the same bytes. */
  lemma StepsAgree(s: Scan, rest: string)
    requires rest != [] && s.delim == ";" && !Step(s, rest).fate.Directive?
    requires !(s.mode.SingleQuote? && rest[0] == '\'' && Peeks(rest, 1, '\''))
    requires !(s.mode.Plain? && rest[0] == '-' && Peeks(rest, 1, '-'))
    requires !(s.mode.Backtick? && rest[0] == '\\' && |rest| > 1)
    ensures var m, c := Step(s, rest), CountStep(View(s.mode), rest);
            m.n == c.n && View(m.next.mode) == c.next && m.next.delim == ";" && |HitsOf(m)| == if c.hit then 1 else 0
  {
  }

  /** The counter returns exactly the number of statements the splitter cuts, so it executes at most one more. */
  lemma CounterMatchesSplitter(input: string, targetDB: string)
    requires NoDirective(START, input) && NoEscapedBacktick(Code, input)
    ensures Count(Code, input) == |Run(START, input).hits|
    ensures |Executed(Run(START, input), targetDB)| <= Count(Code, input) + 1
  {
    Simulation(START, input);
    AtMostOnePerHit(Run(START, input).hits, targetDB);
  }

  lemma {:induction false} AtMostOnePerHit(hits: seq<Hit>, targetDB: string)
    ensures |HitQueries(hits, targetDB)| <= |hits|
  {
    if hits != [] {
      AtMostOnePerHit(hits[1..], targetDB);
    }
  }

  /** Neither condition needs a run to be checked: no keyword and no backslash before a backtick anywhere suffice. */
  lemma PlainDumpsQualify(input: string)
    requires KeywordFree(input)
    requires forall i :: 0 <= i < |input| - 1 ==> !(input[i] == '\\' && input[i + 1] == '`')
    ensures NoDirective(START, input) && NoEscapedBacktick(Code, input)
  {
    assert input[0..] == input;
    NoKeyword(START, input);
    NoEscape(Code, input, 0);
  }

  lemma OnlyKeywordsDirect(s: Scan, rest: string)
    requires rest != [] && !IsDirective(rest)
    ensures !Step(s, rest).fate.Directive?
  {
  }

  predicate NoKeywordAt(text: string, k: nat)
    requires k <= |text|
  {
    !IsDirective(text[k..])
  }

  predicate KeywordFree(text: string) {
    forall k :: 0 <= k < |text| ==> NoKeywordAt(text, k)
  }

  lemma KeywordFreeTail(text: string, n: nat)
    requires n <= |text| && KeywordFree(text)
    ensures KeywordFree(text[n..])
  {
    forall k | 0 <= k < |text[n..]|
      ensures NoKeywordAt(text[n..], k)
    {
      assert NoKeywordAt(text, n + k);
      assert text[n..][k..] == text[n + k..];
    }
  }

  lemma {:induction false} NoKeyword(s: Scan, rest: string)
    requires KeywordFree(rest)
    ensures NoDirective(s, rest)
    decreases |rest|
  {
    if rest != [] {
      assert NoKeywordAt(rest, 0) && rest[0..] == rest;
      OnlyKeywordsDirect(s, rest);
      var m := Step(s, rest);
      KeywordFreeTail(rest, m.n);
      NoKeyword(m.next, rest[m.n..]);
    }
  }

  lemma {:induction false} NoEscape(w: Where, input: string, i: nat)
    requires i <= |input|
    requires forall k :: 0 <= k < |input| - 1 ==> !(input[k] == '\\' && input[k + 1] == '`')
    ensures NoEscapedBacktick(w, input[i..])
    decreases |input| - i
  {
    if i < |input| {
      var m := CountStep(w, input[i..]);
      assert input[i..][m.n..] == input[i + m.n..];
      NoEscape(m.next, input, i + m.n);
    }
  }

  // ----- Escaped backticks -----

  /**
   Behind the first closing backtick that the counter takes for an escaped one: the state of the
   splitter, which has left the quotes there, and the text still to come.
   */
  datatype Slip = Slip(scan: Scan, rest: string)

  /** The first such place, if no DELIMITER line comes before it. */
  function FirstSlip(s: Scan, rest: string): Option<Slip>
    decreases |rest|
  {
    if rest == [] then None
    else if s.mode.Backtick? && rest[0] == '\\' && |rest| > 1 then
      var t := s.(stmt := s.stmt + rest[..1] + rest[1..][..1]);
      if rest[1] == '`' then Some(Slip(t.(mode := Plain), rest[2..])) else FirstSlip(t, rest[2..])
    else
      var m := Step(s, rest);
      if m.fate.Directive? then None else FirstSlip(m.next, rest[m.n..])
  }

  /** Up to the first slip both have counted the same; from there the counter reads on inside its quotes. */
  lemma {:induction false} UpToSlip(s: Scan, rest: string) returns (k: nat)
    requires s.delim == ";" && FirstSlip(s, rest).Some?
    ensures var b := FirstSlip(s, rest).value;
            && |Run(s, rest).hits| == k + |Run(b.scan, b.rest).hits|
            && Count(View(s.mode), rest) == k + Count(Quoted('`'), b.rest)
    decreases |rest|
  {
    if s.mode.SingleQuote? && rest[0] == '\'' && Peeks(rest, 1, '\'') {
      CountTwice(View(s.mode), rest);
      k := UpToSlip(Step(s, rest).next, rest[2..]);
    } else if s.mode.Plain? && rest[0] == '-' && Peeks(rest, 1, '-') {
      CountTwice(View(s.mode), rest);
      k := UpToSlip(Step(s, rest).next, rest[2..]);
    } else if s.mode.Backtick? && rest[0] == '\\' && |rest| > 1 {
      RunTwice(s, rest);
      if rest[1] == '`' {
        k := 0;
      } else {
        k := UpToSlip(s.(stmt := s.stmt + rest[..1] + rest[1..][..1]), rest[2..]);
      }
    } else {
      OneOfEach(s, rest);
      k := UpToSlip(Step(s, rest).next, rest[Step(s, rest).n..]);
      k := k + |HitsOf(Step(s, rest))|;
    }
  }

  lemma OneOfEach(s: Scan, rest: string)
    requires rest != [] && s.delim == ";" && !Step(s, rest).fate.Directive?
    requires !(s.mode.SingleQuote? && rest[0] == '\'' && Peeks(rest, 1, '\''))
    requires !(s.mode.Plain? && rest[0] == '-' && Peeks(rest, 1, '-'))
    requires !(s.mode.Backtick? && rest[0] == '\\' && |rest| > 1)
    ensures var m := Step(s, rest);
            && m.next.delim == ";"
            && |Run(s, rest).hits| == |HitsOf(m)| + |Run(m.next, rest[m.n..]).hits|
            && Count(View(s.mode), rest) == |HitsOf(m)| + Count(View(m.next.mode), rest[m.n..])
  {
    StepsAgree(s, rest);
  }

  /** Without a slip the counter never skips a closing backtick. */
  lemma {:induction false} NoSlip(s: Scan, rest: string)
    requires s.delim == ";" && NoDirective(s, rest) && FirstSlip(s, rest).None?
    ensures NoEscapedBacktick(View(s.mode), rest)
    decreases |rest|
  {
    if rest == [] {
      return;
    }
    if s.mode.SingleQuote? && rest[0] == '\'' && Peeks(rest, 1, '\'') {
      EscapedTwice(View(s.mode), rest);
      NoSlip(Step(s, rest).next, rest[2..]);
    } else if s.mode.Plain? && rest[0] == '-' && Peeks(rest, 1, '-') {
      EscapedTwice(View(s.mode), rest);
      NoSlip(Step(s, rest).next, rest[2..]);
    } else if s.mode.Backtick? && rest[0] == '\\' && |rest| > 1 {
      BacktickSkip(s, rest);
      NoSlip(s.(stmt := s.stmt + rest[..1] + rest[1..][..1]), rest[2..]);
    } else {
      StepsAgree(s, rest);
      NoSlip(Step(s, rest).next, rest[Step(s, rest).n..]);
    }
  }

  lemma EscapedTwice(w: Where, rest: string)
    requires |rest| >= 2 && CountStep(w, rest).n == 1 && rest[0] != '\\' && rest[1] != '\\'
    ensures var m := CountStep(w, rest);
            var m' := CountStep(m.next, rest[1..]);
            NoEscapedBacktick(m'.next, rest[1 + m'.n..]) ==> NoEscapedBacktick(w, rest)
  {
    var m := CountStep(w, rest);
    var m' := CountStep(m.next, rest[1..]);
    assert rest[1..][m'.n..] == rest[1 + m'.n..];
    assert NoEscapedBacktick(m'.next, rest[1..][m'.n..]) ==> NoEscapedBacktick(m.next, rest[1..]);
  }

  /** Inside backticks, with none to come, nothing is counted. */
  lemma {:induction false} NothingCounted(rest: string)
    requires Free(rest, '`')
    ensures Count(Quoted('`'), rest) == 0
    decreases |rest|
  {
    if rest != [] {
      var m := CountStep(Quoted('`'), rest);
      assert Free(rest[m.n..], '`');
      NothingCounted(rest[m.n..]);
    }
  }

  /**
   For input without DELIMITER lines and with no backtick behind its first escaped one, the two
   agree exactly when there is no escaped one, or the splitter cuts nothing behind it.
   */
  lemma CountsAgreeIff(input: string)
    requires NoDirective(START, input)
    requires var b := FirstSlip(START, input); b.Some? ==> Free(b.value.rest, '`')
    ensures var b := FirstSlip(START, input);
            Count(Code, input) == |Run(START, input).hits| <==> b.None? || Run(b.value.scan, b.value.rest).hits == []
  {
    var b := FirstSlip(START, input);
    if b.None? {
      NoSlip(START, input);
      Simulation(START, input);
    } else {
      var k := UpToSlip(START, input);
      NothingCounted(b.value.rest);
    }
  }

  /** A quoted name that ends in a backslash is the first slip. */
  lemma {:induction false} SlipBehindName(stmt: string, name: string, rest: string)
    requires Free(name, '`') && Free(name, '\\')
    ensures FirstSlip(Scan(Backtick, stmt, ";"), name + ("\\`" + rest)) ==
            Some(Slip(Scan(Plain, stmt + (name + "\\`"), ";"), rest))
    decreases |name|
  {
    var text := name + ("\\`" + rest);
    if name == "" {
      assert text[0] == '\\' && text[1] == '`' && text[2..] == rest;
      assert stmt + text[..1] + text[1..][..1] == stmt + (name + "\\`");
    } else {
      assert text[0] == name[0] && text[1..] == name[1..] + ("\\`" + rest) && text[..1] == [name[0]];
      SlipBehindName(stmt + [name[0]], name[1..], rest);
      assert (stmt + [name[0]]) + (name[1..] + "\\`") == stmt + (name + "\\`");
    }
  }

  /**
   After an identifier that ends in a backslash the counter never leaves the quotes and counts
   nothing, so it agrees with the splitter exactly when that cuts nothing behind the identifier.
   */
  lemma EscapedBacktickMiscounts(name: string, rest: string)
    requires Free(name, '`') && Free(name, '\\') && Free(rest, '`')
    ensures var input := "`" + (name + ("\\`" + rest));
            && Count(Code, input) == 0
            && (Count(Code, input) == |Run(START, input).hits| <==>
                Run(Scan(Plain, "`" + (name + "\\`"), ";"), rest).hits == [])
  {
    var tail := name + ("\\`" + rest);
    var input := "`" + tail;
    assert input[0] == '`' && input[1..] == tail;
    assert Step(START, input) == Move(1, Kept, Scan(Backtick, "`", ";"), None) by { assert "" + "`" == "`"; }
    SlipBehindName("`", name, rest);
    assert FirstSlip(START, input) == FirstSlip(Scan(Backtick, "`", ";"), tail);
    var k := UpToSlip(START, input);
    NothingCounted(rest);
    CountThroughName(name, rest);
  }

  /** The counter goes through the name and its backslash without leaving the quotes. */
  lemma {:induction false} CountThroughName(name: string, rest: string)
    requires Free(name, '`') && Free(name, '\\')
    ensures Count(Quoted('`'), name + ("\\`" + rest)) == Count(Quoted('`'), rest)
    decreases |name|
  {
    var text := name + ("\\`" + rest);
    if name == "" {
      assert text[0] == '\\' && text[2..] == rest;
    } else {
      assert text[0] == name[0] && text[1..] == name[1..] + ("\\`" + rest);
      CountThroughName(name[1..], rest);
    }
  }
}
