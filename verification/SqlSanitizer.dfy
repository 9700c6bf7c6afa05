/**
 The line-based rewriter that runs before an import: it drops CREATE DATABASE
 lines, redirects USE lines and qualified names to the target database.
 */
module SqlSanitizer {
  import opened Text
  import opened SqlScanner

  // ----- Reading lines through a bounded buffer -----

  /** A line or a piece of one: its bytes without the line break, whether it was cut short, and the bytes consumed. */
  datatype Chunk = Chunk(line: string, isPrefix: bool, n: nat)

  /** One read: a whole line, a full buffer (a carriage return at its end is left for the next read), or the end of input. */
  function ReadLine(rest: string, size: nat): (c: Chunk)
    requires rest != [] && size > 1
    ensures 1 <= c.n <= |rest|
  {
    var k := NewlineAt(rest);
    if k < |rest| && k < size then Chunk(DropReturn(rest[..k]), false, k + 1)
    else if |rest| >= size then
      var n := if rest[size - 1] == '\r' then size - 1 else size;
      Chunk(rest[..n], true, n)
    else Chunk(rest, false, |rest|)
  }

  // ----- The database named by a statement -----

  const CUTSET: string := "`;(), \t\r\n"

  function TrimSetLeft(s: string): string {
    if s != [] && s[0] in CUTSET then TrimSetLeft(s[1..]) else s
  }

  function TrimSetRight(s: string): string {
    if s != [] && s[|s| - 1] in CUTSET then TrimSetRight(s[..|s| - 1]) else s
  }

  function TrimSet(s: string): string {
    TrimSetRight(TrimSetLeft(s))
  }

  function IndexByte(s: string, c: char): (r: Option<nat>)
    ensures r.Some? ==> r.value < |s|
  {
    if s == [] then None
    else if s[0] == c then Some(0)
    else
      match IndexByte(s[1..], c)
      case None => None
      case Some(k) => Some(k + 1)
  }

  /** The first name after DATABASE or SCHEMA that is not part of IF NOT EXISTS or a comment. */
  function FirstCandidate(fields: seq<string>): Option<string> {
    if fields == [] then None
    else
      var cand := TrimSet(fields[0]);
      if !EqualFold(cand, "IF") && !EqualFold(cand, "NOT") && !EqualFold(cand, "EXISTS") && !Contains(cand, "/*") then Some(cand)
      else FirstCandidate(fields[1..])
  }

  function NameAmong(fields: seq<string>): string {
    if |fields| < 2 then ""
    else if EqualFold(fields[0], "USE") then TrimSet(fields[1])
    else if (EqualFold(fields[0], "DATABASE") || EqualFold(fields[0], "SCHEMA")) && FirstCandidate(fields[1..]).Some? then
      FirstCandidate(fields[1..]).value
    else NameAmong(fields[1..])
  }

  function Backticked(line: string): Option<string> {
    match IndexByte(line, '`')
    case None => None
    case Some(first) =>
      var after := line[first + 1..];
      match IndexByte(after, '`')
      case None => None
      case Some(second) => Some(after[..second])
  }

  function ExtractDBName(line: string): string {
    match Backticked(line)
    case Some(name) => name
    case None => NameAmong(Fields(line))
  }

  // ----- Rewriting one line -----

  function Detect(trimmed: string, detected: string, targetDB: string): string {
    var name := ExtractDBName(trimmed);
    if name != "" && !EqualFold(name, targetDB) then name else detected
  }

  /** Redirects names qualified by the detected database, quoted ones first; "" means none was detected. */
  function Qualify(line: string, detected: string, targetDB: string): string {
    if detected == "" then line
    else
      ReplaceAll(ReplaceAll(line, "`" + detected + "`.", "`" + targetDB + "`."),
                 detected + ".", "`" + targetDB + "`.")
  }

  /** The target database and the two lines that stand in for statements about another one. */
  datatype Target = Target(db: string, useLine: string, skippedLine: string)

  function TargetFor(db: string): Target {
    var q := SafeQuoteIdentifier(db);
    Target(db, "USE " + q + ";", "-- [Hostvra] Preserved target schema: " + q + " (skipped conflicting CREATE DATABASE)")
  }

  function LineText(line: string, detected: string, tg: Target): string {
    match Classify(Trim(line))
    case CreateDatabase => tg.skippedLine
    case UseDatabase => tg.useLine
    case Ordinary => Qualify(line, detected, tg.db)
  }

  function DetectedAfter(line: string, detected: string, tg: Target): string {
    if Classify(Trim(line)).Ordinary? then detected else Detect(Trim(line), detected, tg.db)
  }

  /** The rest of the input after the remaining pieces of a long line. */
  function SkipLong(rest: string, size: nat): (r: string)
    requires size > 1
    ensures |r| <= |rest|
    decreases |rest|
  {
    if rest == [] then []
    else
      var c := ReadLine(rest, size);
      if c.isPrefix then SkipLong(rest[c.n..], size) else rest[c.n..]
  }

  /** Everything written for the remaining input. */
  function Body(rest: string, size: nat, detected: string, tg: Target): string
    requires size > 1
    decreases |rest|
  {
    if rest == [] then ""
    else
      var c := ReadLine(rest, size);
      var ordinary := Classify(Trim(c.line)).Ordinary?;
      LineText(c.line, detected, tg) + (if ordinary && c.isPrefix then "" else "\n") +
      Body(if !ordinary && c.isPrefix then SkipLong(rest[c.n..], size) else rest[c.n..], size,
           DetectedAfter(c.line, detected, tg), tg)
  }

  function Unlines(lines: seq<string>): string {
    if lines == [] then "" else lines[0] + "\n" + Unlines(lines[1..])
  }

  /** The lines that force the character set and select the target. */
  function HeaderLines(tg: Target): seq<string> {
    ["/*!40101 SET NAMES utf8mb4 */;", "/*!40014 SET FOREIGN_KEY_CHECKS=0 */;", "/*!40101 SET UNIQUE_CHECKS=0 */;", tg.useLine, ""]
  }

  function FooterLines(): seq<string> {
    ["", "/*!40014 SET FOREIGN_KEY_CHECKS=1 */;", "/*!40101 SET UNIQUE_CHECKS=1 */;"]
  }

  /** At most one byte over the limit is ever read, so that the caller can see the limit was passed. */
  function Limited(input: string, maxBytes: nat): string {
    input[..Min(maxBytes + 1, |input|)]
  }

  function Sanitized(input: string, size: nat, targetDB: string, maxBytes: nat): string
    requires size > 1
  {
    var tg := TargetFor(targetDB);
    Unlines(HeaderLines(tg)) + Body(Limited(input, maxBytes), size, "", tg) + Unlines(FooterLines())
  }

  // ----- The sanitiser -----

  method CandidateFrom(fields: seq<string>, from: nat) returns (r: Option<string>)
    requires from <= |fields|
    ensures r == FirstCandidate(fields[from..])
  {
    var j := from;
    while j < |fields|
      invariant from <= j <= |fields|
      invariant FirstCandidate(fields[j..]) == FirstCandidate(fields[from..])
    {
      assert fields[j..][0] == fields[j] && fields[j..][1..] == fields[j + 1..];
      var cand := TrimSet(fields[j]);
      if !EqualFold(cand, "IF") && !EqualFold(cand, "NOT") && !EqualFold(cand, "EXISTS") && !Contains(cand, "/*") {
        return Some(cand);
      }
      j := j + 1;
    }
    return None;
  }

  method ExtractName(line: string) returns (name: string)
    ensures name == ExtractDBName(line)
  {
    var quoted := Backticked(line);
    if quoted.Some? {
      return quoted.value;
    }
    var fields := Fields(line);
    var i := 0;
    assert fields[0..] == fields;
    while i + 1 < |fields|
      invariant i <= |fields|
      invariant NameAmong(fields[i..]) == NameAmong(fields)
    {
      var f := fields[i];
      ghost var here := fields[i..];
      assert here[0] == f && here[1..] == fields[i + 1..] && here[1] == fields[i + 1];
      if EqualFold(f, "USE") {
        return TrimSet(fields[i + 1]);
      }
      if EqualFold(f, "DATABASE") || EqualFold(f, "SCHEMA") {
        var cand := CandidateFrom(fields, i + 1);
        if cand.Some? { return cand.value; }
      }
      i := i + 1;
    }
    name := "";
  }

  method QualifyLine(line: string, detected: string, targetDB: string) returns (r: string)
    ensures r == Qualify(line, detected, targetDB)
  {
    r := line;
    if detected != "" {
      var oldQuoted := "`" + detected + "`.";
      var newQuoted := "`" + targetDB + "`.";
      if Contains(r, oldQuoted) {
        r := ReplaceAll(r, oldQuoted, newQuoted);
      } else {
        ReplaceAbsent(r, oldQuoted, newQuoted);
      }
      var oldUnquoted := detected + ".";
      if Contains(r, oldUnquoted) {
        r := ReplaceAll(r, oldUnquoted, newQuoted);
      } else {
        ReplaceAbsent(r, oldUnquoted, newQuoted);
      }
    }
  }

  /** Streams the input into a sanitised copy and returns it with the number of bytes written. */
  method SanitizeAndBufferSQL(input: string, targetDB: string, maxBytes: nat, size: nat) returns (out: string, totalWritten: nat)
    requires size > 1
    ensures out == Sanitized(input, size, targetDB, maxBytes)
    ensures totalWritten == |out|
  {
    out, totalWritten := CopyLines(Unlines(HeaderLines(TargetFor(targetDB))), input[..Min(maxBytes + 1, |input|)],
                                   Unlines(FooterLines()), TargetFor(targetDB), size);
  }

  method CopyLines(header: string, input: string, footer: string, tg: Target, size: nat)
    returns (out: string, totalWritten: nat)
    requires size > 1
    ensures out == header + Body(input, size, "", tg) + footer
    ensures totalWritten == |out|
  {
    out, totalWritten := header, |header|;
    var rest := input;
    var detectedOldDB := "";
    ghost var later := Body(rest, size, detectedOldDB, tg);
    ghost var goal := out + later;
    while rest != []
      invariant later == Body(rest, size, detectedOldDB, tg) && goal == out + later
      invariant totalWritten == |out|
      decreases |rest|
    {
      rest, detectedOldDB, out, totalWritten, later := NextLine(rest, size, tg, detectedOldDB, out, totalWritten, later);
    }
    assert later == "" && out + later == out;
    out := out + footer;
    totalWritten := totalWritten + |footer|;
  }

  /** Reads, rewrites and writes one line. */
  method NextLine(rest: string, size: nat, tg: Target, detectedOldDB: string, out: string, totalWritten: nat,
                  ghost later: string)
    returns (after: string, next: string, newOut: string, newTotal: nat, ghost newLater: string)
    requires size > 1 && rest != [] && totalWritten == |out|
    requires later == Body(rest, size, detectedOldDB, tg)
    ensures |after| < |rest| && newTotal == |newOut|
    ensures newLater == Body(after, size, next, tg) && newOut + newLater == out + later
  {
    var c := ReadLine(rest, size);
    after := rest[c.n..];
    var text;
    text, next := RewriteLine(c, tg, detectedOldDB);
    if !Classify(Trim(c.line)).Ordinary? && c.isPrefix {
      after := SkipPieces(after, size);
    }
    newLater := Body(after, size, next, tg);
    newOut, newTotal := out + text, totalWritten + |text|;
    Assoc(out, text, newLater);
  }

  /** What is written for one chunk, line break included, and the database detected so far. */
  method RewriteLine(c: Chunk, tg: Target, detectedOldDB: string) returns (text: string, next: string)
    ensures text == LineText(c.line, detectedOldDB, tg) +
                    (if Classify(Trim(c.line)).Ordinary? && c.isPrefix then "" else "\n")
    ensures next == DetectedAfter(c.line, detectedOldDB, tg)
  {
    next := detectedOldDB;
    var trimmed := Trim(c.line);
    var kind := Classify(trimmed);
    if !kind.Ordinary? {
      var name := ExtractName(trimmed);
      if name != "" && !EqualFold(name, tg.db) {
        next := name;
      }
    }
    match kind {
      case CreateDatabase => text := tg.skippedLine + "\n";
      case UseDatabase => text := tg.useLine + "\n";
      case Ordinary =>
        text := QualifyLine(c.line, detectedOldDB, tg.db);
        text := text + (if c.isPrefix then "" else "\n");
    }
  }

  /** Reads on to the end of a long line. */
  method SkipPieces(rest: string, size: nat) returns (r: string)
    requires size > 1
    ensures r == SkipLong(rest, size)
  {
    r := rest;
    var isPrefix := true;
    while isPrefix && r != []
      invariant SkipLong(rest, size) == if isPrefix then SkipLong(r, size) else r
      decreases |r|
    {
      var c := ReadLine(r, size);
      r := r[c.n..];
      isPrefix := c.isPrefix;
    }
  }
}
