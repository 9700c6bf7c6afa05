/**
 The streaming SQL splitter: the byte scanner as a step function, the runs it
 makes over a whole input, and the imperative importer proved against them.
 */
module SqlScanner {
  import opened Text

  datatype Mode = Plain | LineComment | BlockComment | Conditional | SingleQuote | DoubleQuote | Backtick

  /** The scanner between two reads: its mode, the statement buffer and the current delimiter. */
  datatype Scan = Scan(mode: Mode, stmt: string, delim: string)

  /** A statement cut from the buffer: everything buffered before the delimiter, and the delimiter. */
  datatype Hit = Hit(body: string, delim: string)

  /** What became of the bytes one step read. */
  datatype Fate = Kept | Comment | Directive

  /** One scanner step: how many bytes it read, what they became, the new state and a statement it completed. */
  datatype Move = Move(n: nat, fate: Fate, next: Scan, hit: Option<Hit>)

  datatype Trace = Trace(hits: seq<Hit>, last: Scan)

  const START := Scan(Plain, "", ";")

  predicate Peeks(rest: string, at: nat, c: char) {
    at < |rest| && rest[at] == c
  }

  function Drop(s: Scan, n: nat, mode: Mode): Move {
    Move(n, Comment, s.(mode := mode), None)
  }

  function Keep(s: Scan, text: string, mode: Mode): Move {
    Move(|text|, Kept, s.(mode := mode, stmt := s.stmt + text), None)
  }

  /** Inside a quoted string that honours backslash escapes. */
  function StepString(s: Scan, rest: string, quote: char): Move
    requires rest != []
  {
    if rest[0] == '\\' then Keep(s, rest[..Min(2, |rest|)], s.mode)
    else if rest[0] != quote then Keep(s, rest[..1], s.mode)
    else if quote == '\'' && Peeks(rest, 1, quote) then Keep(s, rest[..2], s.mode)
    else Keep(s, rest[..1], Plain)
  }

  /** The DELIMITER keyword, its blank and the rest of its line. */
  predicate IsDirective(rest: string) {
    |rest| >= 10 && (rest[0] == 'D' || rest[0] == 'd') && EqualFold(rest[1..10], "elimiter ")
  }

  /** Index of the first line break at or after `i`, or the length of the text. */
  function LineEnd(text: string, i: nat): (e: nat)
    requires i <= |text|
    ensures i <= e <= |text|
    ensures forall k :: i <= k < e ==> text[k] != '\n' && text[k] != '\r'
    ensures e < |text| ==> text[e] == '\n' || text[e] == '\r'
    decreases |text| - i
  {
    if i == |text| || text[i] == '\n' || text[i] == '\r' then i else LineEnd(text, i + 1)
  }

  lemma {:induction false} LineEndShift(text: string, i: nat, k: nat)
    requires i + k <= |text|
    ensures LineEnd(text[i..], k) + i == LineEnd(text, i + k)
    decreases |text| - k
  {
    if i + k < |text| && text[i + k] != '\n' && text[i + k] != '\r' {
      LineEndShift(text, i, k + 1);
    }
  }

  function StepDirective(s: Scan, rest: string): Move
    requires IsDirective(rest)
  {
    var e := LineEnd(rest, 10);
    var d := Trim(rest[10..e]);
    Move(Min(e + 1, |rest|), Directive, Scan(Plain, "", if d == "" then s.delim else d), None)
  }

  /** The DELIMITER step seen from the whole input instead of its remainder. */
  lemma DirectiveAt(s: Scan, input: string, i: nat)
    requires i + 10 <= |input|
    ensures IsDirective(input[i..]) <==>
            (input[i] == 'D' || input[i] == 'd') && EqualFold(input[i + 1..i + 10], "elimiter ")
  {
    assert input[i..][1..10] == input[i + 1..i + 10];
  }

  lemma StepDirectiveAt(s: Scan, input: string, i: nat)
    requires i + 10 <= |input| && IsDirective(input[i..])
    ensures var e := LineEnd(input, i + 10);
            var d := Trim(input[i + 10..e]);
            StepDirective(s, input[i..]) ==
            Move(Min(e + 1, |input|) - i, Directive, Scan(Plain, "", if d == "" then s.delim else d), None)
  {
    LineEndShift(input, i, 10);
    var e := LineEnd(input[i..], 10);
    assert input[i..][10..e] == input[i + 10..i + e];
  }

  /** An ordinary byte: buffer it, and cut a statement when the buffer now ends with the delimiter. */
  function StepByte(s: Scan, b: char): Move
  {
    var stmt := s.stmt + [b];
    if HasSuffix(stmt, s.delim) then Move(1, Kept, s.(stmt := ""), Some(Hit(stmt[..|stmt| - |s.delim|], s.delim)))
    else Move(1, Kept, s.(stmt := stmt), None)
  }

  /** Text outside quotes and comments: the DELIMITER keyword at the start of a statement, or one byte. */
  function StepText(s: Scan, rest: string): Move
    requires rest != []
  {
    if Trim(s.stmt) == "" && IsDirective(rest) then StepDirective(s, rest) else StepByte(s, rest[0])
  }

  function StepPlain(s: Scan, rest: string): Move
    requires rest != []
  {
    var b := rest[0];
    if b == '-' && Peeks(rest, 1, '-') then Drop(s, 2, LineComment)
    else if b == '#' then Drop(s, 1, LineComment)
    else if b == '/' && Peeks(rest, 1, '*') then
      if Peeks(rest, 2, '!') then Keep(s, rest[..2], Conditional) else Drop(s, 2, BlockComment)
    else if b == '\'' then Keep(s, [b], SingleQuote)
    else if b == '"' then Keep(s, [b], DoubleQuote)
    else if b == '`' then Keep(s, [b], Backtick)
    else StepText(s, rest)
  }

  function Step(s: Scan, rest: string): (m: Move)
    requires rest != []
    ensures 1 <= m.n <= |rest|
    ensures s.delim != "" ==> m.next.delim != ""
  {
    match s.mode
    case LineComment => Drop(s, 1, if rest[0] == '\n' then Plain else LineComment)
    case BlockComment =>
      if rest[0] == '*' && Peeks(rest, 1, '/') then Drop(s, 2, Plain) else Drop(s, 1, BlockComment)
    case Conditional =>
      if rest[0] == '*' && Peeks(rest, 1, '/') then Keep(s, rest[..2], Plain) else Keep(s, rest[..1], Conditional)
    case SingleQuote => StepString(s, rest, '\'')
    case DoubleQuote => StepString(s, rest, '"')
    case Backtick => Keep(s, rest[..1], if rest[0] == '`' then Plain else Backtick)
    case Plain => StepPlain(s, rest)
  }

  function HitsOf(m: Move): seq<Hit> {
    if m.hit.Some? then [m.hit.value] else []
  }

  /** The whole run of the scanner over the remaining input. */
  function Run(s: Scan, rest: string): Trace
    decreases |rest|
  {
    if rest == [] then Trace([], s)
    else
      var m := Step(s, rest);
      var t := Run(m.next, rest[m.n..]);
      Trace(HitsOf(m) + t.hits, t.last)
  }

  // ----- What is sent to the database -----

  datatype Class = UseDatabase | CreateDatabase | Ordinary

  /** The conditional-comment openers a statement may start with, removed one after the other in this order. */
  const OPENERS: seq<string> := ["/*!40000 ", "/*!40101 ", "/*!32312 ", "/*!"]

  function TrimPrefixes(s: string, prefixes: seq<string>): string
    decreases |prefixes|
  {
    if prefixes == [] then s else TrimPrefixes(TrimPrefix(s, prefixes[0]), prefixes[1..])
  }

  function CleanUpper(query: string): string {
    Trim(TrimPrefixes(Upper(query), OPENERS))
  }

  /** The kind of statement a cleaned text starts with. */
  function Keyword(clean: string): Class {
    if HasPrefix(clean, "USE ") then UseDatabase
    else if HasPrefix(clean, "CREATE DATABASE") || HasPrefix(clean, "CREATE SCHEMA") then CreateDatabase
    else Ordinary
  }

  function Classify(query: string): Class {
    Keyword(CleanUpper(query))
  }

  function SafeQuoteIdentifier(name: string): string {
    "`" + ReplaceAll(name, "`", "``") + "`"
  }

  /** The text of a cut statement without its delimiter. */
  function QueryText(h: Hit): string {
    Trim(h.body)
  }

  /** The query a cut statement becomes: nothing for a blank one or a CREATE DATABASE, the target for a USE. */
  function Queries(h: Hit, targetDB: string): seq<string> {
    var q := QueryText(h);
    if q == "" then []
    else match Classify(q)
      case UseDatabase => ["USE " + SafeQuoteIdentifier(targetDB)]
      case CreateDatabase => []
      case Ordinary => [q]
  }

  /** The text left in the buffer at end of input; an undelimited USE is not executed at all. */
  function TrailingQueries(stmt: string): seq<string> {
    var q := Trim(stmt);
    if q != "" && Classify(q).Ordinary? then [q] else []
  }

  function HitQueries(hits: seq<Hit>, targetDB: string): seq<string> {
    if hits == [] then [] else Queries(hits[0], targetDB) + HitQueries(hits[1..], targetDB)
  }

  function Executed(t: Trace, targetDB: string): seq<string> {
    HitQueries(t.hits, targetDB) + TrailingQueries(t.last.stmt)
  }

  // ----- The import result -----

  datatype Tally = Tally(successful: nat, failed: nat, errors: seq<string>)

  function Describe(err: string, query: string): string {
    err + " (query: " + (if |query| > 100 then query[..100] + "..." else query) + ")"
  }

  function Record(t: Tally, query: string, reply: Option<string>): Tally {
    match reply
    case None => t.(successful := t.successful + 1)
    case Some(err) =>
      t.(failed := t.failed + 1,
         errors := if |t.errors| < 20 then t.errors + [Describe(err, query)] else t.errors)
  }

  /** The reply to the k-th query of a connection: an error text, or none; a query past the list succeeds. */
  function Reply(replies: seq<Option<string>>, k: nat): Option<string> {
    if k < |replies| then replies[k] else None
  }

  function RecordAll(t: Tally, replies: seq<Option<string>>, k: nat, queries: seq<string>): Tally {
    if queries == [] then t
    else
      var n := |queries| - 1;
      Record(RecordAll(t, replies, k, queries[..n]), queries[n], Reply(replies, k + n))
  }

  /** A database connection: the log of what it was asked, and the replies it gives. */
  class Connection {
    var executed: seq<string>
    const replies: seq<Option<string>>

    constructor (replies: seq<Option<string>>)
      ensures executed == [] && this.replies == replies
    {
      executed := [];
      this.replies := replies;
    }

    method Exec(query: string) returns (err: Option<string>)
      modifies this
      ensures executed == old(executed) + [query]
      ensures err == Reply(replies, |old(executed)|)
    {
      err := Reply(replies, |executed|);
      executed := executed + [query];
    }
  }

  class ImportResult {
    var successful: nat
    var failed: nat
    var errors: seq<string>

    constructor ()
      ensures View() == Tally(0, 0, [])
    {
      successful, failed, errors := 0, 0, [];
    }

    function View(): Tally
      reads this
    {
      Tally(successful, failed, errors)
    }
  }

  /** Sends one query and records its outcome. */
  method ExecuteQuery(query: string, conn: Connection, res: ImportResult)
    modifies conn, res
    ensures conn.executed == old(conn.executed) + [query]
    ensures res.View() == Record(old(res.View()), query, Reply(conn.replies, |old(conn.executed)|))
  {
    var err := conn.Exec(query);
    if err.Some? {
      res.failed := res.failed + 1;
      if |res.errors| < 20 {
        res.errors := res.errors + [Describe(err.value, query)];
      }
    } else {
      res.successful := res.successful + 1;
    }
  }

  lemma RecordOne(t: Tally, replies: seq<Option<string>>, k: nat, query: string)
    ensures RecordAll(t, replies, k, [query]) == Record(t, query, Reply(replies, k))
  {
    assert [query][..0] == [];
  }

  /** The work done at a delimiter hit. */
  method ExecuteHit(hit: Hit, conn: Connection, targetDB: string, res: ImportResult)
    modifies conn, res
    ensures conn.executed == old(conn.executed) + Queries(hit, targetDB)
    ensures res.View() == RecordAll(old(res.View()), conn.replies, |old(conn.executed)|, Queries(hit, targetDB))
  {
    var query := QueryText(hit);
    if query != "" {
      match Classify(query) {
        case UseDatabase => query := "USE " + SafeQuoteIdentifier(targetDB);
        case CreateDatabase => return;
        case Ordinary =>
      }
      RecordOne(res.View(), conn.replies, |conn.executed|, query);
      ExecuteQuery(query, conn, res);
    }
  }

  /** The statement left in the buffer when the input ends. */
  method ExecuteTrailing(stmt: string, conn: Connection, res: ImportResult)
    modifies conn, res
    ensures conn.executed == old(conn.executed) + TrailingQueries(stmt)
    ensures res.View() == RecordAll(old(res.View()), conn.replies, |old(conn.executed)|, TrailingQueries(stmt))
  {
    var query := Trim(stmt);
    if query != "" && Classify(query).Ordinary? {
      RecordOne(res.View(), conn.replies, |conn.executed|, query);
      ExecuteQuery(query, conn, res);
    }
  }

  lemma {:induction false} RecordAllAppend(t: Tally, replies: seq<Option<string>>, k: nat, a: seq<string>, b: seq<string>)
    ensures RecordAll(t, replies, k, a + b) == RecordAll(RecordAll(t, replies, k, a), replies, k + |a|, b)
  {
    if b == [] {
      assert a + b == a;
    } else {
      var n := |b| - 1;
      assert (a + b)[..|a + b| - 1] == a + b[..n];
      RecordAllAppend(t, replies, k, a, b[..n]);
    }
  }

  /**
   The scanner's working variables: the read position, the statement buffer, the
   delimiter and one flag per non-plain mode.
   */
  class Splitter {
    const input: string
    var pos: nat
    var stmt: string
    var delimiter: string
    var inSingleQuote: bool
    var inDoubleQuote: bool
    var inBacktick: bool
    var inLineComment: bool
    var inBlockComment: bool
    var isConditional: bool

    constructor (input: string)
      ensures Valid() && this.input == input && pos == 0 && State() == START
    {
      this.input := input;
      pos, stmt, delimiter := 0, "", ";";
      inSingleQuote, inDoubleQuote, inBacktick := false, false, false;
      inLineComment, inBlockComment, isConditional := false, false, false;
    }

    /** At most one mode flag is set, and the delimiter is never empty. */
    ghost predicate Valid()
      reads this
    {
      && pos <= |input| && delimiter != ""
      && inSingleQuote == State().mode.SingleQuote?
      && inDoubleQuote == State().mode.DoubleQuote?
      && inBacktick == State().mode.Backtick?
      && inLineComment == State().mode.LineComment?
      && inBlockComment == State().mode.BlockComment?
      && isConditional == State().mode.Conditional?
    }

    ghost function State(): Scan
      reads this
    {
      Scan(if inLineComment then LineComment
           else if inBlockComment then BlockComment
           else if isConditional then Conditional
           else if inSingleQuote then SingleQuote
           else if inDoubleQuote then DoubleQuote
           else if inBacktick then Backtick
           else Plain, stmt, delimiter)
    }

    ghost function Next(): Move
      requires pos < |input|
      reads this
    {
      Step(State(), input[pos..])
    }

    predicate Peek(c: char)
      reads this
    {
      pos < |input| && input[pos] == c
    }

    method ReadByte() returns (b: char)
      requires pos < |input|
      modifies this`pos
      ensures b == input[old(pos)] && pos == old(pos) + 1
    {
      b := input[pos];
      pos := pos + 1;
    }

    method LineCommentByte()
      requires Valid() && pos < |input| && inLineComment
      modifies this
      ensures Valid() && State() == old(Next().next) && pos == old(pos + Next().n) && old(Next().hit) == None
    {
      var b := ReadByte();
      if b == '\n' {
        inLineComment := false;
      }
    }

    method BlockCommentByte()
      requires Valid() && pos < |input| && inBlockComment
      modifies this
      ensures Valid() && State() == old(Next().next) && pos == old(pos + Next().n) && old(Next().hit) == None
    {
      var b := ReadByte();
      if b == '*' && Peek('/') {
        var _ := ReadByte();
        inBlockComment := false;
      }
    }

    method ConditionalByte()
      requires Valid() && pos < |input| && isConditional
      modifies this
      ensures Valid() && State() == old(Next().next) && pos == old(pos + Next().n) && old(Next().hit) == None
    {
      var b := ReadByte();
      stmt := stmt + [b];
      if b == '*' && Peek('/') {
        var slash := ReadByte();
        stmt := stmt + [slash];
        isConditional := false;
      }
    }

    method SingleQuoteByte()
      requires Valid() && pos < |input| && inSingleQuote
      modifies this
      ensures Valid() && State() == old(Next().next) && pos == old(pos + Next().n) && old(Next().hit) == None
    {
      var b := ReadByte();
      stmt := stmt + [b];
      if b == '\\' {
        if pos < |input| {
          var nextByte := ReadByte();
          stmt := stmt + [nextByte];
        }
        return;
      }
      if b == '\'' {
        if Peek('\'') {
          var nextQuote := ReadByte();
          stmt := stmt + [nextQuote];
          return;
        }
        inSingleQuote := false;
      }
    }

    method DoubleQuoteByte()
      requires Valid() && pos < |input| && inDoubleQuote
      modifies this
      ensures Valid() && State() == old(Next().next) && pos == old(pos + Next().n) && old(Next().hit) == None
    {
      var b := ReadByte();
      stmt := stmt + [b];
      if b == '\\' {
        if pos < |input| {
          var nextByte := ReadByte();
          stmt := stmt + [nextByte];
        }
        return;
      }
      if b == '"' {
        inDoubleQuote := false;
      }
    }

    method BacktickByte()
      requires Valid() && pos < |input| && inBacktick
      modifies this
      ensures Valid() && State() == old(Next().next) && pos == old(pos + Next().n) && old(Next().hit) == None
    {
      var b := ReadByte();
      stmt := stmt + [b];
      if b == '`' {
        inBacktick := false;
      }
    }

    /** Comment openers, string openers, or else a byte of the statement. */
    method PlainByte() returns (hit: Option<Hit>)
      requires Valid() && pos < |input| && State().mode.Plain?
      modifies this
      ensures Valid() && State() == old(Next().next) && pos == old(pos + Next().n) && hit == old(Next().hit)
    {
      hit := None;
      var b := ReadByte();
      if b == '-' && Peek('-') {
        var _ := ReadByte();
        inLineComment := true;
      } else if b == '#' {
        inLineComment := true;
      } else if b == '/' && Peek('*') {
        var _ := ReadByte();
        if Peek('!') {
          isConditional := true;
          stmt := stmt + "/*";
        } else {
          inBlockComment := true;
        }
      } else if b == '\'' {
        inSingleQuote := true;
        stmt := stmt + [b];
      } else if b == '"' {
        inDoubleQuote := true;
        stmt := stmt + [b];
      } else if b == '`' {
        inBacktick := true;
        stmt := stmt + [b];
      } else {
        hit := KeywordOrByte(b);
      }
    }

    /** The DELIMITER keyword at the start of a statement, or a byte of the statement; `b` has just been read. */
    method KeywordOrByte(b: char) returns (hit: Option<Hit>)
      requires Valid() && 0 < pos && b == input[pos - 1] && State().mode.Plain?
      modifies this`pos, this`stmt, this`delimiter
      ensures Valid()
      ensures var m := old(StepText(State(), input[pos - 1..]));
              State() == m.next && pos == old(pos) - 1 + m.n && hit == m.hit
    {
      hit := None;
      if pos + 9 <= |input| {
        DirectiveAt(State(), input, pos - 1);
        if IsDirective(input[pos - 1..]) {
          StepDirectiveAt(State(), input, pos - 1);
        }
      }
      if Trim(stmt) == "" && (b == 'D' || b == 'd') && pos + 9 <= |input| && EqualFold(input[pos..pos + 9], "elimiter ") {
        pos := pos + 9;
        ReadDelimiter();
      } else {
        hit := StatementByte(b);
      }
    }

    /** Reads the rest of a DELIMITER line, its line break included. */
    method ReadDelimiter()
      requires pos <= |input|
      modifies this`pos, this`stmt, this`delimiter
      ensures stmt == ""
      ensures var e := LineEnd(input, old(pos));
              && pos == Min(e + 1, |input|)
              && delimiter == if Trim(input[old(pos)..e]) == "" then old(delimiter) else Trim(input[old(pos)..e])
    {
      var newDelim := "";
      ghost var start := pos;
      while pos < |input|
        invariant start <= pos <= |input|
        invariant newDelim == input[start..pos]
        invariant LineEnd(input, start) == LineEnd(input, pos)
        invariant delimiter == old(delimiter)
      {
        var b := ReadByte();
        if b == '\n' || b == '\r' {
          break;
        }
        newDelim := newDelim + [b];
      }
      if Trim(newDelim) != "" {
        delimiter := Trim(newDelim);
      }
      stmt := "";
    }

    /** Buffers one byte and cuts the statement when the buffer ends with the current delimiter. */
    method StatementByte(b: char) returns (hit: Option<Hit>)
      requires delimiter != ""
      modifies this`stmt
      ensures var m := StepByte(old(State()), b); State() == m.next && hit == m.hit
    {
      hit := None;
      stmt := stmt + [b];
      if |delimiter| == 1 {
        if b == delimiter[0] {
          hit := Some(Hit(stmt[..|stmt| - 1], delimiter));
          stmt := "";
        }
      } else if b == delimiter[|delimiter| - 1] && |stmt| >= |delimiter| {
        if HasSuffix(stmt, delimiter) {
          hit := Some(Hit(stmt[..|stmt| - |delimiter|], delimiter));
          stmt := "";
        }
      }
    }

    method Advance() returns (hit: Option<Hit>)
      requires Valid() && pos < |input|
      modifies this
      ensures Valid() && State() == old(Next().next) && pos == old(pos + Next().n) && hit == old(Next().hit)
    {
      hit := None;
      if inLineComment {
        LineCommentByte();
      } else if inBlockComment {
        BlockCommentByte();
      } else if isConditional {
        ConditionalByte();
      } else if inSingleQuote {
        SingleQuoteByte();
      } else if inDoubleQuote {
        DoubleQuoteByte();
      } else if inBacktick {
        BacktickByte();
      } else {
        hit := PlainByte();
      }
    }
  }

  /** The log and the tally once every query due has been sent. */
  function Outcome(log: seq<string>, t: Tally, replies: seq<Option<string>>, due: seq<string>): (seq<string>, Tally) {
    (log + due, RecordAll(t, replies, |log|, due))
  }

  lemma OutcomeSplit(log: seq<string>, t: Tally, replies: seq<Option<string>>, due: seq<string>,
                     now: seq<string>, later: seq<string>, log': seq<string>, t': Tally)
    requires due == now + later && log' == log + now && t' == RecordAll(t, replies, |log|, now)
    ensures Outcome(log, t, replies, due) == Outcome(log', t', replies, later)
  {
    RecordAllAppend(t, replies, |log|, now, later);
    assert log + due == log' + later;
  }

  /** One more step appends its hit to the run so far. */
  lemma RunStep(s: Scan, rest: string)
    requires rest != []
    ensures var m := Step(s, rest);
            Run(s, rest) == Trace(HitsOf(m) + Run(m.next, rest[m.n..]).hits, Run(m.next, rest[m.n..]).last)
  {
  }

  function MoveQueries(hit: Option<Hit>, targetDB: string): seq<string> {
    if hit.Some? then Queries(hit.value, targetDB) else []
  }

  lemma ExecutedStep(s: Scan, rest: string, m: Move, targetDB: string)
    requires rest != [] && m == Step(s, rest)
    ensures Executed(Run(s, rest), targetDB) ==
            MoveQueries(m.hit, targetDB) + Executed(Run(m.next, rest[m.n..]), targetDB)
  {
    RunStep(s, rest);
    var t := Run(m.next, rest[m.n..]);
    if m.hit.Some? {
      assert ([m.hit.value] + t.hits)[1..] == t.hits;
    } else {
      assert HitsOf(m) + t.hits == t.hits;
    }
  }

  /** Once a step's query is sent, the outcome of the run is that of what is left to send. */
  lemma StillDue(s: Scan, rest: string, m: Move, targetDB: string, log: seq<string>, t: Tally,
                 replies: seq<Option<string>>, s': Scan, rest': string, log': seq<string>, t': Tally)
    requires rest != [] && m == Step(s, rest) && s' == m.next && rest' == rest[m.n..]
    requires log' == log + MoveQueries(m.hit, targetDB)
    requires t' == RecordAll(t, replies, |log|, MoveQueries(m.hit, targetDB))
    ensures Outcome(log, t, replies, Executed(Run(s, rest), targetDB)) ==
            Outcome(log', t', replies, Executed(Run(s', rest'), targetDB))
  {
    ExecutedStep(s, rest, m, targetDB);
    OutcomeSplit(log, t, replies, Executed(Run(s, rest), targetDB), MoveQueries(m.hit, targetDB),
                 Executed(Run(s', rest'), targetDB), log', t');
  }

  /** One scanner step, and the query it completed, if any. */
  method Pump(sp: Splitter, conn: Connection, targetDB: string, res: ImportResult) returns (ghost m: Move)
    requires sp.Valid() && sp.pos < |sp.input|
    modifies sp, conn, res
    ensures m == old(sp.Next())
    ensures sp.Valid() && sp.State() == m.next && sp.pos == old(sp.pos) + m.n
    ensures conn.executed == old(conn.executed) + MoveQueries(m.hit, targetDB)
    ensures res.View() == RecordAll(old(res.View()), conn.replies, |old(conn.executed)|, MoveQueries(m.hit, targetDB))
  {
    m := sp.Next();
    var hit := sp.Advance();
    if hit.Some? {
      ExecuteHit(hit.value, conn, targetDB, res);
    }
  }

  /** The streaming importer: executes exactly the queries of the scanner's run and tallies every reply. */
  method ParseAndExecuteSQL(input: string, conn: Connection, targetDB: string, res: ImportResult)
    modifies conn, res
    ensures conn.executed == old(conn.executed) + Executed(Run(START, input), targetDB)
    ensures res.View() ==
            RecordAll(old(res.View()), conn.replies, |old(conn.executed)|, Executed(Run(START, input), targetDB))
  {
    var sp := new Splitter(input);
    assert input[0..] == input;
    ghost var goal := Outcome(conn.executed, res.View(), conn.replies, Executed(Run(START, input), targetDB));
    while sp.pos < |input|
      invariant sp.Valid() && sp.input == input && fresh(sp)
      invariant goal == Outcome(conn.executed, res.View(), conn.replies,
                                Executed(Run(sp.State(), input[sp.pos..]), targetDB))
      decreases |input| - sp.pos
    {
      ghost var s, rest, log, view := sp.State(), input[sp.pos..], conn.executed, res.View();
      ghost var m := Pump(sp, conn, targetDB, res);
      assert input[sp.pos..] == rest[m.n..];
      StillDue(s, rest, m, targetDB, log, view, conn.replies, sp.State(), input[sp.pos..], conn.executed, res.View());
    }
    ExecuteTrailing(sp.stmt, conn, res);
  }

  // ----- What an import guarantees -----

  /** The outcome texts of the queries that failed, in order. */
  function Failures(replies: seq<Option<string>>, k: nat, queries: seq<string>): seq<string> {
    if queries == [] then []
    else
      var n := |queries| - 1;
      Failures(replies, k, queries[..n]) +
      (match Reply(replies, k + n) case None => [] case Some(err) => [Describe(err, queries[n])])
  }

  /**
   Every executed query is counted once, as a success or a failure, and the recorded
   errors are those of the first twenty failures.
   */
  lemma {:induction false} TallyCountsEveryQuery(replies: seq<Option<string>>, k: nat, queries: seq<string>)
    ensures var t, f := RecordAll(Tally(0, 0, []), replies, k, queries), Failures(replies, k, queries);
            && t.successful + t.failed == |queries|
            && t.failed == |f|
            && |t.errors| == Min(t.failed, 20)
            && t.errors == f[..|t.errors|]
  {
    if queries != [] {
      var n := |queries| - 1;
      TallyCountsEveryQuery(replies, k, queries[..n]);
    }
  }

  /** The target database is enforced: nothing executed creates a database, and what selects one selects the target. */
  lemma OnlyTheTargetIsSelected(t: Trace, targetDB: string, q: string)
    requires q in Executed(t, targetDB)
    ensures q == "USE " + SafeQuoteIdentifier(targetDB) || Classify(q) == Ordinary
  {
    if q in HitQueries(t.hits, targetDB) {
      SelectedByHits(t.hits, targetDB, q);
    }
  }

  lemma {:induction false} SelectedByHits(hits: seq<Hit>, targetDB: string, q: string)
    requires q in HitQueries(hits, targetDB)
    ensures q == "USE " + SafeQuoteIdentifier(targetDB) || Classify(q) == Ordinary
  {
    if q !in Queries(hits[0], targetDB) {
      SelectedByHits(hits[1..], targetDB, q);
    }
  }
}
