/**
 The php.ini editor: reading directives and updating them in place, line by line.
 */
module Ini {
  import opened Text

  /** The longest line the line scanner accepts, exclusive. */
  const MAX_LINE := 65536

  const CUSTOM_HEADER := "; --- Hostvra Custom Directives ---"

  // ----- The directive pattern: blanks, key, blanks, `=`, value, comment -----

  predicate IsKeyChar(c: char) {
    'a' <= c <= 'z' || 'A' <= c <= 'Z' || '0' <= c <= '9' || c == '_' || c == '.'
  }

  predicate ValidKey(k: string) {
    k != "" && forall i :: 0 <= i < |k| ==> IsKeyChar(k[i])
  }

  function DropWs(s: string): string {
    if s != "" && IsWs(s[|s| - 1]) then DropWs(s[..|s| - 1]) else s
  }

  function KeyRun(s: string): string {
    if s != "" && IsKeyChar(s[0]) then [s[0]] + KeyRun(s[1..]) else ""
  }

  function AfterKey(s: string): string {
    if s != "" && IsKeyChar(s[0]) then AfterKey(s[1..]) else s
  }

  function BeforeSemi(s: string): string {
    if s != "" && s[0] != ';' then [s[0]] + BeforeSemi(s[1..]) else ""
  }

  /** The comment, from its semicolon on. */
  function FromSemi(s: string): string {
    if s != "" && s[0] != ';' then FromSemi(s[1..]) else s
  }

  datatype Directive = Directive(key: string, after: string) {
    /** The value between the blanks, up to the comment. */
    function Value(): string { DropWs(SkipWs(BeforeSemi(after))) }

    function Comment(): string { FromSemi(after) }
  }

  /** A key at the front of `s`, then `=`; `after` is what follows it. */
  function DirectiveAt(s: string): Option<Directive> {
    var rest := SkipWs(AfterKey(s));
    if KeyRun(s) == "" || rest == "" || rest[0] != '=' then None
    else Some(Directive(KeyRun(s), rest[1..]))
  }

  function CutQuotesLeft(s: string): string {
    if s != "" && (s[0] == '"' || s[0] == '\'') then CutQuotesLeft(s[1..]) else s
  }

  function CutQuotesRight(s: string): string {
    if s != "" && (s[|s| - 1] == '"' || s[|s| - 1] == '\'') then CutQuotesRight(s[..|s| - 1]) else s
  }

  function Unquote(s: string): string {
    CutQuotesRight(CutQuotesLeft(s))
  }

  // ----- Reading -----

  /** What one line contributes to the directive map. */
  function Reading(line: string): Option<(string, string)> {
    var t := Trim(DropReturn(line));
    if t == "" || t[0] == ';' || t[0] == '#' || t[0] == '[' then None
    else match DirectiveAt(t)
      case None => None
      case Some(d) => Some((d.key, Unquote(d.Value())))
  }

  function Note(acc: map<string, string>, line: string): map<string, string> {
    match Reading(line)
    case None => acc
    case Some(kv) => acc[kv.0 := kv.1]
  }

  /** All lines in order, the last one for a key winning; a line too long for the scanner ends the reading. */
  function Noted(lines: seq<string>, acc: map<string, string>): map<string, string> {
    if lines == [] || |lines[0]| >= MAX_LINE then acc
    else Noted(lines[1..], Note(acc, lines[0]))
  }

  function Directives(content: string): map<string, string> {
    Noted(SplitOn(content, '\n'), map[])
  }

  method ParseDirectives(content: string) returns (result: map<string, string>)
    ensures result == Directives(content)
  {
    result := map[];
    var rest := content;
    ghost var whole := SplitOn(content, '\n');
    while rest != ""
      invariant Noted(SplitOn(rest, '\n'), result) == Noted(whole, map[])
      decreases |rest|
    {
      var k := NewlineAt(rest);
      var line := rest[..k];
      FirstLineSplit(rest, k);
      if |line| >= MAX_LINE { return; }
      result := Noting(line, result);
      if k < |rest| { rest := rest[k + 1..]; } else { rest := ""; }
      assert Reading("") == None;
    }
    assert Reading("") == None;
    assert SplitOn(rest, '\n') == [""] && [""][1..] == [];
  }

  method Noting(line: string, acc: map<string, string>) returns (r: map<string, string>)
    ensures r == Note(acc, line)
  {
    r := acc;
    var t := Trim(DropReturn(line));
    StartsWithByte(t, ";");
    StartsWithByte(t, "#");
    StartsWithByte(t, "[");
    if t == "" || HasPrefix(t, ";") || HasPrefix(t, "#") || HasPrefix(t, "[") { return; }
    var m := DirectiveAt(t);
    if m.Some? {
      r := r[m.value.key := Unquote(m.value.Value())];
    }
  }

  // ----- Updating -----

  predicate Section(line: string) {
    var t := Trim(line);
    t != "" && t[0] == '['
  }

  /** The directive a line holds, commented out or not. */
  function Held(line: string): Option<Directive> {
    var s := SkipWs(line);
    DirectiveAt(if s != "" && s[0] == ';' then SkipWs(s[1..]) else s)
  }

  function Written(k: string, v: string, comment: string): string {
    k + (" = " + (v + (if comment == "" then "" else " " + comment)))
  }

  /** The updated key a line is rewritten for. */
  function Target(line: string, updates: map<string, string>): Option<string> {
    if Section(line) then None
    else match Held(line)
      case None => None
      case Some(d) => if d.key in updates then Some(d.key) else None
  }

  function Edited(line: string, updates: map<string, string>): string {
    match Target(line, updates)
    case None => line
    case Some(k) => Written(k, updates[k], Held(line).value.Comment())
  }

  function EditedAll(lines: seq<string>, updates: map<string, string>): seq<string> {
    if lines == [] then [] else [Edited(lines[0], updates)] + EditedAll(lines[1..], updates)
  }

  function Targets(lines: seq<string>, updates: map<string, string>): set<string> {
    if lines == [] then {}
    else (match Target(lines[0], updates) case None => {} case Some(k) => {k}) + Targets(lines[1..], updates)
  }

  /** The lines appended for keys no line holds, in the order the update map is walked. */
  function Missing(order: seq<string>, updates: map<string, string>, seen: set<string>): seq<string>
    requires forall i :: 0 <= i < |order| ==> order[i] in updates
  {
    if order == [] then []
    else (if order[0] in seen then [] else [Written(order[0], updates[order[0]], "")]) + Missing(order[1..], updates, seen)
  }

  function Appended(missing: seq<string>): seq<string> {
    if missing == [] then [] else ["", CUSTOM_HEADER] + missing
  }

  function UpdatedLines(lines: seq<string>, updates: map<string, string>, order: seq<string>): seq<string>
    requires KeyOrder(order, updates)
  {
    WalkIn(order, updates);
    EditedAll(lines, updates) + Appended(Missing(order, updates, Targets(lines, updates)))
  }

  lemma WalkIn(order: seq<string>, updates: map<string, string>)
    requires KeyOrder(order, updates)
    ensures forall i :: 0 <= i < |order| ==> order[i] in updates
  {
    forall i | 0 <= i < |order| ensures order[i] in updates { assert order[i] in order; }
  }

  function Updated(content: string, updates: map<string, string>, order: seq<string>): string
    requires KeyOrder(order, updates)
  {
    Join(UpdatedLines(SplitOn(content, '\n'), updates, order), "\n")
  }

  lemma EditedNext(lines: seq<string>, i: nat, updates: map<string, string>)
    requires i < |lines|
    ensures EditedAll(lines[i..], updates) == [Edited(lines[i], updates)] + EditedAll(lines[i + 1..], updates)
    ensures Targets(lines[i..], updates) ==
            (match Target(lines[i], updates) case None => {} case Some(k) => {k}) + Targets(lines[i + 1..], updates)
  {
    assert lines[i..][0] == lines[i] && lines[i..][1..] == lines[i + 1..];
  }

  lemma AppendNext(done: seq<string>, x: string, later: seq<string>)
    ensures done + ([x] + later) == done + [x] + later
  {
  }

  method EditLines(lines: seq<string>, updates: map<string, string>) returns (newLines: seq<string>, updatedKeys: set<string>)
    ensures newLines == EditedAll(lines, updates) && updatedKeys == Targets(lines, updates)
  {
    newLines, updatedKeys := [], {};
    var i := 0;
    while i < |lines|
      invariant 0 <= i <= |lines|
      invariant newLines + EditedAll(lines[i..], updates) == EditedAll(lines, updates)
      invariant updatedKeys + Targets(lines[i..], updates) == Targets(lines, updates)
    {
      var text, hit := EditLine(lines[i], updates);
      EditedNext(lines, i, updates);
      AppendNext(newLines, text, EditedAll(lines[i + 1..], updates));
      newLines := newLines + [text];
      if hit.Some? { updatedKeys := updatedKeys + {hit.value}; }
      i := i + 1;
    }
    assert lines[|lines|..] == [] && newLines + [] == newLines && updatedKeys + {} == updatedKeys;
  }

  /** `order` is the order in which the update map is walked, which the language leaves open. */
  method UpdateDirectives(content: string, updates: map<string, string>, order: seq<string>) returns (r: string)
    requires KeyOrder(order, updates)
    ensures r == Updated(content, updates, order)
  {
    WalkIn(order, updates);
    var newLines, updatedKeys := EditLines(SplitOn(content, '\n'), updates);
    var missing := CollectMissing(updates, order, updatedKeys);
    if |missing| > 0 {
      var custom := ["", CUSTOM_HEADER] + missing;
      newLines := newLines + custom;
    } else {
      assert newLines + [] == newLines;
    }
    r := Join(newLines, "\n");
  }

  method EditLine(line: string, updates: map<string, string>) returns (text: string, hit: Option<string>)
    ensures text == Edited(line, updates) && hit == Target(line, updates)
  {
    var trimmed := Trim(line);
    StartsWithByte(trimmed, "[");
    if HasPrefix(trimmed, "[") { return line, None; }
    var matches := Held(line);
    if matches.Some? && matches.value.key in updates {
      var key, newVal, comment := matches.value.key, updates[matches.value.key], "";
      if matches.value.Comment() != "" { comment := " " + matches.value.Comment(); }
      return key + (" = " + (newVal + comment)), Some(key);
    }
    return line, None;
  }

  method CollectMissing(updates: map<string, string>, order: seq<string>, updatedKeys: set<string>) returns (missing: seq<string>)
    requires forall i :: 0 <= i < |order| ==> order[i] in updates
    ensures missing == Missing(order, updates, updatedKeys)
  {
    missing := [];
    var i := 0;
    while i < |order|
      invariant 0 <= i <= |order|
      invariant missing + Missing(order[i..], updates, updatedKeys) == Missing(order, updates, updatedKeys)
    {
      assert order[i..][0] == order[i] && order[i..][1..] == order[i + 1..];
      ghost var later := Missing(order[i + 1..], updates, updatedKeys);
      if order[i] !in updatedKeys {
        var line := order[i] + (" = " + (updates[order[i]] + ""));
        assert missing + ([line] + later) == missing + [line] + later;
        missing := missing + [line];
      } else {
        assert [] + later == later;
      }
      i := i + 1;
    }
    assert order[|order|..] == [];
  }
}
