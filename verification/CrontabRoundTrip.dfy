/**
 What is saved to the crontab is what is loaded from it, up to the spacing of
 schedule, command and description.
 */
module CrontabRoundTrip {
  import opened Text
  import opened Words
  import opened Crontab

  // ----- Bytes of a text and of its words -----

  /** None of the bytes that could start a comment, a mark or a variable line. */
  predicate Harmless(s: string) {
    forall i :: 0 <= i < |s| ==> s[i] != 'H' && s[i] != '#' && s[i] != 'S' && s[i] != 'P'
  }

  predicate AllHarmless(ws: seq<string>) {
    forall i :: 0 <= i < |ws| ==> Harmless(ws[i])
  }

  lemma {:induction false} FieldsCover(s: string)
    requires AllHarmless(Fields(s))
    ensures Harmless(s)
    decreases |s|
  {
    if s == "" {
    } else if IsSpace(s[0]) {
      FieldsCover(s[1..]);
      assert s == [s[0]] + s[1..];
    } else {
      var n := WordEnd(s);
      var fs := Fields(s);
      assert fs == [s[..n]] + Fields(s[n..]) && fs[1..] == Fields(s[n..]);
      assert Harmless(fs[0]);
      FieldsCover(s[n..]);
      assert s == s[..n] + s[n..];
    }
  }

  lemma {:induction false} JoinHarmless(ws: seq<string>, sep: string)
    requires AllHarmless(ws) && Harmless(sep)
    ensures Harmless(Join(ws, sep))
  {
    if |ws| > 1 { JoinHarmless(ws[1..], sep); }
  }

  lemma AtoiHarmless(s: string)
    requires Atoi(s).Some?
    ensures Harmless(s) && s != "" && s[0] != '@'
  {
    if s[0] == '+' || s[0] == '-' {
      assert s == [s[0]] + s[1..];
    }
  }

  lemma SingleHarmless(s: string, min: int, max: int)
    requires ValidateSingleCronVal(s, min, max)
    ensures Harmless(s) && s != "" && s[0] != '@'
  {
    if "*/" <= s {
      AtoiHarmless(s[2..]);
      assert s == "*/" + s[2..];
    } else {
      AtoiHarmless(s);
    }
  }

  /** A valid field is made of digits, signs, commas, slashes and stars. */
  lemma CronFieldHarmless(f: string, min: int, max: int)
    requires ValidateCronField(f, min, max)
    ensures Harmless(f) && f != "" && f[0] != '@'
  {
    if f == "*" {
    } else if Contains(f, ",") {
      ListHarmless(f, ',', SplitOn(f, ','), min, max);
    } else if Contains(f, "-") {
      var parts := SplitOn(f, '-');
      AtoiHarmless(parts[0]);
      AtoiHarmless(parts[1]);
      JoinSplit(f, '-');
      JoinHarmless(parts, "-");
      JoinHead(parts, "-");
    } else {
      SingleHarmless(f, min, max);
    }
  }

  lemma ListHarmless(f: string, c: char, parts: seq<string>, min: int, max: int)
    requires c == ',' && parts == SplitOn(f, c) && AllSingle(parts, min, max)
    ensures Harmless(f) && f != "" && f[0] != '@'
  {
    forall i | 0 <= i < |parts| ensures Harmless(parts[i]) { SingleHarmless(parts[i], min, max); }
    SingleHarmless(parts[0], min, max);
    JoinSplit(f, c);
    JoinHarmless(parts, [c]);
    JoinHead(parts, [c]);
  }

  lemma JoinHead(parts: seq<string>, sep: string)
    requires parts != [] && parts[0] != ""
    ensures Join(parts, sep) != "" && Join(parts, sep)[0] == parts[0][0]
  {
  }

  lemma MacroFacts(m: string)
    requires IsMacro(m)
    ensures IsWord(m) && Harmless(m) && m[0] == '@'
  {
  }

  lemma OneWord(s: string, e: string)
    requires e == Trim(s) && IsWord(e) && Harmless(e)
    ensures Fields(s) == [e] && Harmless(s)
  {
    FieldsTrim(s);
    FieldsWord(e);
    assert forall i :: 0 <= i < |Fields(s)| ==> Fields(s)[i] == e;
    FieldsCover(s);
  }

  predicate FiveFields(parts: seq<string>) {
    && |parts| == 5
    && ValidateCronField(parts[0], 0, 59) && ValidateCronField(parts[1], 0, 23) && ValidateCronField(parts[2], 1, 31)
    && ValidateCronField(parts[3], 1, 12) && ValidateCronField(parts[4], 0, 7)
  }

  lemma FiveShape(s: string, fs: seq<string>)
    requires fs == Fields(s) && FiveFields(fs)
    ensures Harmless(s) && IsWord(fs[0]) && fs[0][0] != '@'
  {
    FieldsAreWords(s);
    CronFieldHarmless(fs[0], 0, 59);
    CronFieldHarmless(fs[1], 0, 23);
    CronFieldHarmless(fs[2], 1, 31);
    CronFieldHarmless(fs[3], 1, 12);
    CronFieldHarmless(fs[4], 0, 7);
    FieldsCover(s);
  }

  /** The shape of an accepted schedule: one macro word, or five words that are no macro. */
  lemma ScheduleShape(s: string)
    requires ValidateSchedule(s)
    ensures Harmless(s)
    ensures (|Fields(s)| == 1 && Fields(s)[0] == Trim(s) && Fields(s)[0][..1] == "@")
         || (FiveFields(Fields(s)) && IsWord(Fields(s)[0]) && Fields(s)[0][0] != '@')
  {
    var e := Trim(s);
    if IsMacro(e) {
      MacroFacts(e);
      OneWord(s, e);
    } else {
      FieldsTrim(s);
      FiveShape(s, Fields(s));
    }
  }

  // ----- The mark -----

  lemma MarkFacts(m: string)
    requires m == MARK
    ensures |m| == 11 && m[0] == 'H' && forall i :: 0 <= i < |m| ==> m[i] != '#' && m[i] != ' '
  {
  }

  lemma {:induction false} ContainsApart(a: string, b: string, p: string)
    requires p != "" && Free(p, ' ') && !Contains(a, p) && !Contains(b, p)
    ensures !Contains(a + (" " + b), p)
    decreases |a|
  {
    var s := a + (" " + b);
    HasPrefixIs(s, p);
    assert s[|a|] == ' ';
    if p <= s {
      assert forall i :: 0 <= i < |p| ==> p[i] == s[i];
      assert |p| <= |a| && p <= a;
      HasPrefixIs(a, p);
    }
    if a == "" {
      assert s[1..] == b;
    } else {
      assert s[1..] == a[1..] + (" " + b);
      ContainsApart(a[1..], b, p);
    }
  }

  lemma {:induction false} ContainsNeeds(s: string, p: string)
    requires p != "" && Contains(s, p)
    ensures exists i :: 0 <= i < |s| && s[i] == p[0]
  {
    HasPrefixIs(s, p);
    if p <= s {
      assert s[0] == p[0];
    } else {
      ContainsNeeds(s[1..], p);
      var i :| 0 <= i < |s[1..]| && s[1..][i] == p[0];
      assert s[i + 1] == p[0];
    }
  }

  // ----- Finding the identity comment -----

  lemma {:induction false} SkipWsJoin(x: string, m: string)
    requires m != "" && !IsWs(m[0])
    ensures SkipWs(x + m) == SkipWs(x) + m
  {
    if x == "" {
      assert x + m == m && "" + m == m;
    } else {
      assert (x + m)[0] == x[0] && (x + m)[1..] == x[1..] + m;
      if IsWs(x[0]) { SkipWsJoin(x[1..], m); }
    }
  }

  /** A text without `#` that starts across a `#` starts before it. */
  lemma PrefixBefore(p: string, k: string, m: string)
    requires p <= k + m && m != "" && m[0] == '#' && Free(p, '#')
    ensures p <= k
  {
    var s := k + m;
    assert s[|k|] == '#';
    assert forall i :: 0 <= i < |p| ==> p[i] == s[i];
    assert |p| <= |k|;
  }

  lemma NoIdHere(h: string, m: string)
    requires h != "" && m != "" && m[0] == '#' && !Contains(h, MARK)
    ensures IdAt(h + m) == None
  {
    var s := h + m;
    assert s[0] == h[0];
    if h[0] == '#' {
      var x := h[1..];
      assert s[1..] == x + m;
      SkipWsJoin(x, m);
      SkipWsSuffix(x);
      var k := SkipWs(x);
      if MARK <= k + m {
        MarkFacts(MARK);
        PrefixBefore(MARK, k, m);
        HasPrefixIs(k, MARK);
        assert k == h[|h| - |k|..];
        ContainsDrop(h, |h| - |k|, MARK);
      }
    }
  }

  lemma {:induction false} FindIdIn(h: string, m: string)
    requires m != "" && m[0] == '#' && !Contains(h, MARK) && IdAt(m).Some?
    ensures FindId(h + m) == IdAt(m)
    decreases |h|
  {
    if h == "" {
      assert h + m == m;
    } else {
      NoIdHere(h, m);
      assert (h + m)[1..] == h[1..] + m;
      FindIdIn(h[1..], m);
    }
  }

  lemma NoCutHere(h: string, m: string, c: string, mark: string)
    requires c == "# " + mark && mark != "" && Free(mark, '#')
    requires h != "" && m != "" && m[0] == '#' && !Contains(h, mark)
    ensures !(c <= h + m)
  {
    var s := h + m;
    if c <= s {
      assert s[0] == '#' && s[1] == ' ' && c[2..] == mark && mark <= s[2..];
      assert |h| >= 2 by { assert s[|h|] == '#'; }
      assert s[2..] == h[2..] + m;
      PrefixBefore(mark, h[2..], m);
      HasPrefixIs(h[2..], mark);
      ContainsDrop(h, 2, mark);
    }
  }

  lemma {:induction false} IndexOfCut(h: string, m: string)
    requires CUT <= m && !Contains(h, MARK)
    ensures IndexOf(h + m, CUT) == Some(|h|)
    decreases |h|
  {
    CutFacts(CUT, MARK);
    assert m[0] == CUT[0];
    if h == "" {
      assert h + m == m;
    } else {
      MarkFacts(MARK);
      NoCutHere(h, m, CUT, MARK);
      assert (h + m)[1..] == h[1..] + m;
      IndexOfCut(h[1..], m);
    }
  }

  lemma CutFacts(c: string, m: string)
    requires c == CUT && m == MARK
    ensures c == "# " + m && c[0] == '#' && m != ""
  {
  }

  predicate GoodId(id: string) {
    IsWord(id)
  }

  lemma {:induction false} WordThen(id: string, rest: string)
    requires (forall i :: 0 <= i < |id| ==> !IsWs(id[i])) && rest != "" && IsWs(rest[0])
    ensures Word(id + rest) == id && AfterWord(id + rest) == rest
  {
    if id == "" {
      assert id + rest == rest;
    } else {
      assert (id + rest)[0] == id[0] && (id + rest)[1..] == id[1..] + rest;
      WordThen(id[1..], rest);
      assert id == [id[0]] + id[1..];
    }
  }

  /** The comment a saved entry ends with. */
  function IdComment(id: string, d: string): string {
    CUT + (id + (" #" + d))
  }

  lemma MarkedWord(id: string, d: string, mark: string)
    requires GoodId(id) && |mark| == 11
    ensures var tail := mark + (id + (" #" + d)); Word(tail[11..]) == id && AfterWord(tail[11..]) == " #" + d
  {
    var rest := " #" + d;
    assert (mark + (id + rest))[11..] == id + rest;
    WordThen(id, rest);
  }

  lemma SecondComment(d: string)
    ensures var note := SkipWs(" #" + d); note != "" && note[0] == '#' && note[1..] == d
  {
    var rest := " #" + d;
    assert rest[0] == ' ' && rest[1..] == "#" + d && rest[1..][0] == '#';
    assert SkipWs(rest) == rest[1..] && rest[1..][1..] == d;
  }

  lemma CommentBlank(id: string, d: string, mark: string)
    requires mark == MARK
    ensures var m := IdComment(id, d); m[0] == '#' && SkipWs(m[1..]) == mark + (id + (" #" + d))
  {
    var tail := mark + (id + (" #" + d));
    var m := IdComment(id, d);
    CutFacts(CUT, mark);
    MarkFacts(mark);
    assert m == "# " + tail && m[0] == '#' && m[1..] == " " + tail;
    assert tail[0] == 'H' && (" " + tail)[1..] == tail;
    assert SkipWs(m[1..]) == tail;
  }

  lemma IdCommentIsFound(id: string, d: string, mark: string)
    requires GoodId(id) && mark == MARK
    ensures IdAt(IdComment(id, d)) == Some(IdNote(id, Trim(d)))
  {
    CommentBlank(id, d, mark);
    MarkFacts(mark);
    MarkedWord(id, d, mark);
    SecondComment(d);
    assert mark <= mark + (id + (" #" + d));
  }

  // ----- Trimming an entry -----

  lemma {:induction false} TrimLeftBefore(a: string, b: string)
    requires !Blank(a)
    ensures TrimLeft(a + b) == TrimLeft(a) + b
    decreases |a|
  {
    assert a != "" && (a + b)[0] == a[0] && (a + b)[1..] == a[1..] + b;
    if IsSpace(a[0]) {
      assert a == [a[0]] + a[1..];
      TrimLeftBefore(a[1..], b);
    }
  }

  lemma {:induction false} TrimRightSame(d: string)
    ensures Trim(TrimRight(d)) == Trim(d)
  {
    var q := TrimRightSplit(d);
    assert "" + TrimRight(d) + q == d;
    TrimAbsorbs("", TrimRight(d), q);
  }

  /** Trimming an entry only trims its schedule on the left and its description on the right. */
  lemma TrimEntry(h: string, id: string, d: string)
    requires !Blank(h) && GoodId(id)
    ensures Trim(h + IdComment(id, " " + d)) == TrimLeft(h) + IdComment(id, TrimRight(" " + d))
  {
    var l := TrimLeft(h);
    var e := " " + d;
    TrimLeftBefore(h, IdComment(id, e));
    var a := l + (CUT + (id + " #"));
    assert l + IdComment(id, e) == a + e by { EntryRegroup(l, CUT, id, e); }
    assert a[|a| - 1] == '#';
    TrimRightAfter(a, e);
    EntryRegroup(l, CUT, id, TrimRight(e));
  }

  lemma EntryRegroup(l: string, c: string, id: string, e: string)
    ensures l + (c + (id + (" #" + e))) == (l + (c + (id + " #"))) + e
  {
  }

  /** A disabled line, trimmed, uncovers the trimmed entry. */
  lemma TrimDisabled(p: string, e: string)
    requires p != "" && !IsSpace(p[0]) && Trim(e) != ""
    ensures var t := Trim(p + (" " + e)); p <= t && Trim(t[|p|..]) == Trim(e)
  {
    var x, y := TrimSplit(e);
    var t := Trim(e);
    var b := p + (" " + (x + t));
    PaddedEntry(p, x, t, y);
    assert b[|b| - 1] == t[|t| - 1];
    TrimPadded("", b, y);
    BlankConcat(" ", x);
    TrimPadded(" " + x, t, "");
  }

  lemma PaddedEntry(p: string, x: string, t: string, y: string)
    ensures var b := p + (" " + (x + t));
            p + (" " + (x + t + y)) == "" + b + y && b[|p|..] == (" " + x) + t + "" && p <= b
  {
  }

  // ----- One entry -----

  /** What the manager accepts and the format can hold, line breaks in the schedule aside. */
  predicate Acceptable(j: CronJob) {
    && ValidateSchedule(j.schedule)
    && ValidUser(j.user)
    && Trim(j.command) != "" && Free(j.command, '\n') && !Contains(j.command, MARK)
    && GoodId(j.id)
  }

  /** No line break after the first visible byte of the schedule, and none at all behind the disabling prefix. */
  predicate Unbroken(j: CronJob) {
    Free(if j.enabled then TrimLeft(j.schedule) else j.schedule, '\n')
  }

  predicate Storable(j: CronJob) {
    Acceptable(j) && Unbroken(j)
  }

  /** What it takes for the identity comment to be found, whatever is left of the schedule. */
  predicate Framed(j: CronJob) {
    Harmless(j.schedule) && ValidUser(j.user) && !Contains(j.command, MARK) && GoodId(j.id)
  }

  /** A job with the spacing it has after a save and a load. */
  function Normal(j: CronJob): CronJob {
    j.(schedule := Spaced(j.schedule), command := Spaced(j.command), description := Trim(ReplaceAll(j.description, "\n", " ")))
  }

  /** The entry up to its identity comment. */
  function Head(j: CronJob): string {
    j.schedule + (" " + (j.user + (" " + (j.command + " "))))
  }

  function Remark(j: CronJob): string {
    ReplaceAll(j.description, "\n", " ")
  }

  lemma EntryParts(j: CronJob)
    ensures Entry(j) == Head(j) + IdComment(j.id, " " + Remark(j))
  {
    CutFacts(CUT, MARK);
    EntryPieces(j.schedule, j.user, j.command, j.id, Remark(j), " # HOSTVRA_ID:", CUT);
  }

  lemma EntryPieces(a: string, b: string, c: string, id: string, d: string, mark: string, cut: string)
    requires mark == " " + cut
    ensures a + (" " + (b + (" " + (c + (mark + (id + (" # " + d))))))) ==
            (a + (" " + (b + (" " + (c + " "))))) + (cut + (id + (" #" + (" " + d))))
  {
    assert " # " + d == " #" + (" " + d);
    var t := id + (" #" + (" " + d));
    assert mark + t == " " + (cut + t);
    ShiftRight(a, b, c, cut + t);
  }

  lemma ShiftRight(a: string, b: string, c: string, t: string)
    ensures a + (" " + (b + (" " + (c + (" " + t))))) == (a + (" " + (b + (" " + (c + " "))))) + t
  {
  }

  lemma UserFacts(u: string, mark: string)
    requires ValidUser(u) && mark == MARK
    ensures IsWord(u) && !Contains(u, mark)
  {
    MarkFacts(mark);
    MarkEnds(mark);
    if Contains(u, mark) { ContainsEach(u, mark, 10); }
  }

  lemma MarkEnds(mark: string)
    requires mark == MARK
    ensures |mark| == 11 && mark[10] == ':'
  {
  }

  lemma {:induction false} ContainsEach(s: string, p: string, k: nat)
    requires k < |p| && Contains(s, p)
    ensures exists i :: 0 <= i < |s| && s[i] == p[k]
  {
    HasPrefixIs(s, p);
    if p <= s {
      assert s[k] == p[k];
    } else {
      ContainsEach(s[1..], p, k);
      var i :| 0 <= i < |s[1..]| && s[1..][i] == p[k];
      assert s[i + 1] == p[k];
    }
  }

  lemma HeadHoldsNoMark(j: CronJob, mark: string)
    requires Framed(j) && mark == MARK
    ensures !Contains(Head(j), mark)
  {
    MarkFacts(mark);
    if Contains(j.schedule, mark) { ContainsNeeds(j.schedule, mark); }
    UserFacts(j.user, mark);
    NoneInNothing(mark);
    ContainsApart(j.command, "", mark);
    assert j.command + (" " + "") == j.command + " ";
    ContainsApart(j.user, j.command + " ", mark);
    ContainsApart(j.schedule, j.user + (" " + (j.command + " ")), mark);
  }

  lemma NoneInNothing(p: string)
    requires p != ""
    ensures !Contains("", p)
  {
  }

  lemma HeadFields(j: CronJob)
    requires ValidUser(j.user)
    ensures Fields(Head(j)) == Fields(j.schedule) + ([j.user] + Fields(j.command))
  {
    var c := j.command + " ";
    FieldsApart(j.command, " ");
    FieldsBlank(" ");
    assert Fields(c) == Fields(j.command) + [];
    UserFacts(j.user, MARK);
    FieldsWord(j.user);
    var u := " " + c;
    FieldsApart(j.user, u);
    assert u[1..] == c;
    var v := " " + (j.user + u);
    FieldsApart(j.schedule, v);
    assert v[1..] == j.user + u;
  }

  lemma {:induction false} VisibleHasFields(s: string)
    requires !Blank(s)
    ensures Fields(s) != []
  {
    assert s != "";
    if IsSpace(s[0]) {
      assert s == [s[0]] + s[1..];
      VisibleHasFields(s[1..]);
    }
  }

  lemma {:induction false} FirstVisible(s: string)
    requires Fields(s) != [] && Fields(s)[0] != ""
    ensures !Blank(s) && TrimLeft(s) != "" && TrimLeft(s)[0] == Fields(s)[0][0]
  {
    assert s != "";
    if IsSpace(s[0]) {
      FirstVisible(s[1..]);
      assert s == [s[0]] + s[1..];
    }
  }

  /** The job read off an entry's fields. */
  lemma JobOfHead(j: CronJob, fields: seq<string>, note: Option<IdNote>, newId: string)
    requires Acceptable(j) && fields == Fields(j.schedule) + ([j.user] + Fields(j.command))
    requires note == Some(IdNote(j.id, Normal(j).description))
    ensures JobOf(fields, note, j.enabled, newId) == Parsed(Normal(j))
  {
    ScheduleShape(j.schedule);
    TrimIsBlank(j.command);
    VisibleHasFields(j.command);
    var s, c := Fields(j.schedule), Fields(j.command);
    var n := |s|;
    assert fields[0] == s[0] && fields[n] == j.user && fields[..n] == s && fields[n + 1..] == c;
    assert ("@" <= s[0]) == (s[0] != "" && s[0][0] == '@');
    if n == 1 {
      assert s[0][0] == s[0][..1][0];
      assert Join(s, " ") == s[0];
    }
  }

  lemma FirstByte(j: CronJob)
    requires Acceptable(j)
    ensures var l := TrimLeft(Head(j)); l != "" && l[0] != 'S' && l[0] != 'P'
  {
    ScheduleShape(j.schedule);
    FieldsAreWords(j.schedule);
    FirstVisible(j.schedule);
    var later := " " + (j.user + (" " + (j.command + " ")));
    TrimLeftBefore(j.schedule, later);
    var q := TrimLeftSplit(j.schedule);
    assert TrimLeft(j.schedule)[0] == j.schedule[|q|];
  }

  /** A head starts with a byte of the schedule or, when that is blank, of the user. */
  lemma HeadVisible(j: CronJob)
    requires Framed(j)
    ensures !Blank(Head(j)) && var l := TrimLeft(Head(j)); l != "" && l[0] != '#'
  {
    var named := j.user + (" " + (j.command + " "));
    var later := " " + named;
    assert later[1] == j.user[0] && !IsSpace(j.user[0]) && later[1..] == named && named[0] == j.user[0];
    BlankConcat(j.schedule, later);
    if Blank(j.schedule) {
      TrimLeftDrops(j.schedule, later);
    } else {
      TrimLeftBefore(j.schedule, later);
      TrimIsBlank(j.schedule);
      var q := TrimLeftSplit(j.schedule);
      assert TrimLeft(j.schedule) != "";
      assert TrimLeft(j.schedule)[0] == j.schedule[|q|];
    }
  }

  /** The trimmed entry and what is found in it. */
  lemma RawEntry(j: CronJob)
    requires Framed(j)
    ensures var t := Trim(Entry(j));
            && t != "" && TrimLeft(Head(j)) != "" && t[0] == TrimLeft(Head(j))[0] && t[0] != '#'
            && FindId(t) == Some(IdNote(j.id, Normal(j).description))
            && IndexOf(t, CUT).Some?
            && Fields(Trim(t[..IndexOf(t, CUT).value])) == Fields(j.schedule) + ([j.user] + Fields(j.command))
  {
    var h := Head(j);
    var l := TrimLeft(h);
    var d := TrimRight(" " + Remark(j));
    var m := IdComment(j.id, d);
    EntryParts(j);
    HeadVisible(j);
    TrimEntry(h, j.id, Remark(j));
    HeadHoldsNoMark(j, MARK);
    var p := TrimLeftSplit(h);
    assert h[|p|..] == l;
    if Contains(l, MARK) { ContainsDrop(h, |p|, MARK); }
    IdCommentIsFound(j.id, d, MARK);
    TrimRightSame(" " + Remark(j));
    assert " " + Remark(j) + "" == " " + Remark(j);
    TrimAbsorbs(" ", Remark(j), "");
    assert CUT <= m;
    CutFacts(CUT, MARK);
    FindIdIn(l, m);
    IndexOfCut(l, m);
    assert (l + m)[..|l|] == l;
    FieldsTrim(l);
    FieldsTrimLeft(h);
    HeadFields(j);
  }

  /** A saved line is read back as the job it was saved for. */
  lemma LineRoundTrip(j: CronJob, newId: string)
    requires Storable(j)
    ensures ParseLine(JobLine(j), newId) == Parsed(Normal(j))
  {
    ScheduleShape(j.schedule);
    RawEntry(j);
    FirstByte(j);
    JobOfHead(j, Fields(j.schedule) + ([j.user] + Fields(j.command)), FindId(Trim(Entry(j))), newId);
    if j.enabled {
      assert "" + Entry(j) == Entry(j);
      VisibleLine(Trim(Entry(j)));
    } else {
      DisabledLine(Entry(j), DISABLED);
    }
  }

  lemma VisibleLine(t: string)
    requires t != "" && t[0] != '#' && t[0] != 'S' && t[0] != 'P'
    ensures !Ignored(t) && !(DISABLED <= t)
  {
  }

  lemma DisabledLine(e: string, mark: string)
    requires mark == DISABLED && Trim(e) != ""
    ensures var t := Trim("# DISABLED: " + e); mark <= t && !Ignored(t) && Trim(t[|mark|..]) == Trim(e)
  {
    assert mark[0] == '#' && "# DISABLED: " + e == mark + (" " + e);
    TrimDisabled(mark, e);
    var t := Trim("# DISABLED: " + e);
    assert t[0] == mark[0];
  }

  // ----- The whole file -----

  predicate AllStorable(jobs: seq<CronJob>) {
    forall i :: 0 <= i < |jobs| ==> Storable(jobs[i])
  }

  function NormalAll(jobs: seq<CronJob>): seq<CronJob> {
    if jobs == [] then [] else [Normal(jobs[0])] + NormalAll(jobs[1..])
  }

  lemma {:induction false} BreaksReplaced(s: string, b: string, put: string)
    requires |b| == 1 && Free(put, b[0])
    ensures Free(ReplaceAll(s, b, put), b[0])
    decreases |s|
  {
    if s != "" {
      BreaksReplaced(s[1..], b, put);
      if b <= s { assert s[|b|..] == s[1..]; }
      assert !(b <= s) ==> s[0] != b[0] by { if s[0] == b[0] { assert b == [s[0]] && s == [s[0]] + s[1..]; } }
    }
  }

  lemma EntryFree(j: CronJob, m: string)
    requires Free(j.schedule, '\n') && ValidUser(j.user) && Free(j.command, '\n') && GoodId(j.id) && m == " # HOSTVRA_ID:"
    ensures Free(Entry(j), '\n')
  {
    BreaksReplaced(j.description, "\n", " ");
    assert Free(j.user, '\n') && Free(j.id, '\n');
    assert Free(m, '\n');
    var d := m + (j.id + (" # " + Remark(j)));
    assert Free(d, '\n');
    assert Free(j.user + (" " + (j.command + d)), '\n');
  }

  /** One line off the front of a text. */
  lemma LineOff(l: string, rest: string, gen: nat -> string, i: nat)
    requires Free(l, '\n')
    ensures ReadFrom(l + "\n" + rest, gen, i) ==
            match ParseLine(l, gen(i))
              case Panic => Broken
              case Skip => ReadFrom(rest, gen, i + 1)
              case Parsed(j) => Prepend([j], ReadFrom(rest, gen, i + 1))
  {
    assert l + "\n" + rest == l + (['\n'] + rest);
    SplitPiece(l, '\n', rest);
    assert ([l] + SplitOn(rest, '\n'))[1..] == SplitOn(rest, '\n');
  }

  // ----- Schedules with line breaks -----

  /** A piece of an accepted schedule: too few fields for a job of its own. */
  predicate Short(x: string) {
    var fs := Fields(x);
    Harmless(x) && |fs| <= 5 && (|fs| <= 1 || forall i :: 0 <= i < |fs| ==> fs[i] != "" && fs[i][0] != '@')
  }

  lemma ScheduleIsShort(s: string)
    requires ValidateSchedule(s)
    ensures Short(s) && Fields(s) != []
  {
    ScheduleShape(s);
    if FiveFields(Fields(s)) { NoMacroField(Fields(s)); }
  }

  lemma NoMacroField(fs: seq<string>)
    requires FiveFields(fs)
    ensures forall i :: 0 <= i < |fs| ==> fs[i] != "" && fs[i][0] != '@'
  {
    CronFieldHarmless(fs[0], 0, 59);
    CronFieldHarmless(fs[1], 0, 23);
    CronFieldHarmless(fs[2], 1, 31);
    CronFieldHarmless(fs[3], 1, 12);
    CronFieldHarmless(fs[4], 0, 7);
  }

  lemma ShortPieces(a: string, c: string, b: string)
    requires Short(a + (c + b)) && c == "\n"
    ensures Short(a) && Short(b) && Fields(a + (c + b)) == Fields(a) + Fields(b)
  {
    var s := a + (c + b);
    FieldsApart(a, c + b);
    assert (c + b)[1..] == b;
    forall i | 0 <= i < |a| ensures a[i] == s[i] {}
    forall i | 0 <= i < |b| ensures b[i] == s[|a| + 1 + i] {}
    forall i | 0 <= i < |Fields(a)| ensures Fields(a)[i] == Fields(s)[i] {}
    forall i | 0 <= i < |Fields(b)| ensures Fields(b)[i] == Fields(s)[|Fields(a)| + i] {}
  }

  lemma {:induction false} NoHash(s: string)
    requires Free(s, '#')
    ensures FindId(s) == None
  {
    if s != "" { NoHash(s[1..]); }
  }

  lemma FewFields(fs: seq<string>, enabled: bool, newId: string)
    requires |fs| <= 5 && (|fs| <= 1 || (fs[0] != "" && fs[0][0] != '@'))
    ensures JobOf(fs, None, enabled, newId) == Skip
  {
  }

  lemma TrimmedBytes(x: string)
    requires Harmless(x)
    ensures Harmless(Trim(x))
  {
    var p, q := TrimSplit(x);
    forall i | 0 <= i < |Trim(x)| ensures Trim(x)[i] == x[|p| + i] {}
  }

  lemma QuietLine(x: string, newId: string)
    requires Short(x)
    ensures ParseLine(x, newId) == Skip
  {
    var t := Trim(x);
    TrimmedBytes(x);
    NoHash(t);
    FieldsTrim(x);
    FewFields(Fields(t), true, newId);
    if t != "" { VisibleLine(t); }
  }

  lemma QuietDisabled(x: string, p: string, newId: string)
    requires Short(x) && p == "# DISABLED: "
    ensures ParseLine(p + x, newId) == Skip
  {
    var t := Trim(x);
    TrimmedBytes(x);
    NoHash(t);
    FieldsTrim(x);
    FewFields(Fields(t), false, newId);
    if t == "" {
      TrimIsBlank(x);
      BlankDisabled(x, DISABLED);
    } else {
      DisabledLine(x, DISABLED);
    }
  }

  lemma BlankDisabled(x: string, mark: string)
    requires Blank(x) && mark == DISABLED
    ensures var t := Trim("# DISABLED: " + x); mark <= t && !Ignored(t) && Trim(t[|mark|..]) == ""
  {
    assert mark[0] == '#' && mark[|mark| - 1] == ':' && "# DISABLED: " + x == "" + mark + (" " + x);
    TrimPadded("", mark, " " + x);
    assert mark[|mark|..] == "";
  }

  /** A piece of a schedule at its first line break. */
  lemma BrokenInTwo(x: string, n: nat)
    requires Short(x) && n == NewlineAt(x) && n < |x|
    ensures x == x[..n] + ("\n" + x[n + 1..]) && Free(x[..n], '\n') && x[n] == '\n'
    ensures Short(x[..n]) && Short(x[n + 1..]) && Fields(x) == Fields(x[..n]) + Fields(x[n + 1..])
  {
    AbsentIsFree(x[..n], '\n');
    LineThenRest(x, n);
    assert "\n" == ['\n'];
    ShortPieces(x[..n], "\n", x[n + 1..]);
  }

  lemma BreakSkipped(a: string, d: string, e: string, rest: string, gen: nat -> string, i: nat)
    requires Short(a) && Free(a, '\n')
    ensures ReadFrom(((a + ("\n" + d)) + e) + "\n" + rest, gen, i) ==
            ReadFrom((d + e) + "\n" + rest, gen, i + 1)
  {
    BreakRegroup(a, d, e, rest);
    LineOff(a, (d + e) + "\n" + rest, gen, i);
    QuietLine(a, gen(i));
  }

  lemma FieldsBroken(a: string, b: string)
    ensures Fields(a + ("\n" + b)) == Fields(a) + Fields(b)
  {
    FieldsApart(a, "\n" + b);
    assert ("\n" + b)[1..] == b;
  }

  lemma BrokenJoin(a: string, b: string, y: string)
    requires b == "" || b[|b| - 1] == '\n'
    ensures var w := a + ("\n" + b); w[|w| - 1] == '\n' && a + ("\n" + (b + y)) == w + y
  {
  }

  /** The lines a schedule spreads over hold no job but for the last one, which the entry goes on from. */
  lemma {:induction false} SkipBroken(x: string, e: string, rest: string, gen: nat -> string, i: nat)
    returns (b: string, y: string, k: nat)
    requires Short(x)
    ensures ReadFrom((x + e) + "\n" + rest, gen, i) == ReadFrom((y + e) + "\n" + rest, gen, k)
    ensures x == b + y && (b == "" || b[|b| - 1] == '\n') && Free(y, '\n')
    ensures Harmless(y) && Fields(x) == Fields(b) + Fields(y)
    decreases |x|
  {
    var n := NewlineAt(x);
    if n == |x| {
      AbsentIsFree(x[..n], '\n');
      b, y, k := "", x, i;
      assert x[..n] == x && "" + x == x && [] + Fields(x) == Fields(x);
    } else {
      var a, d := x[..n], x[n + 1..];
      BrokenInTwo(x, n);
      BreakSkipped(a, d, e, rest, gen, i);
      b, y, k := SkipBroken(d, e, rest, gen, i + 1);
      BrokenJoin(a, b, y);
      FieldsBroken(a, b);
      AssocOf(Fields(a), Fields(b), Fields(y));
      b := a + ("\n" + b);
    }
  }

  lemma BreakRegroup(a: string, d: string, e: string, rest: string)
    ensures ((a + ("\n" + d)) + e) + "\n" + rest == a + "\n" + ((d + e) + "\n" + rest)
  {
  }

  /** The entry behind its schedule. */
  function Trailer(j: CronJob): string {
    " " + (j.user + (" " + (j.command + (" # HOSTVRA_ID:" + (j.id + (" # " + Remark(j)))))))
  }

  /** A line read from the tail of a schedule can be cut, and is no disabled job. */
  lemma TailCut(j: CronJob, y: string, newId: string)
    requires Acceptable(j) && Harmless(y)
    ensures var r := ParseLine(y + Trailer(j), newId); r != Panic && (r.Parsed? ==> r.job.enabled)
  {
    var k := j.(schedule := y);
    assert Entry(k) == y + Trailer(j);
    RawEntry(k);
    PrefixHead(DISABLED, Trim(Entry(k)));
  }

  /** With fewer fields it is not the job it was saved for. */
  lemma TailLine(j: CronJob, b: string, y: string, newId: string)
    requires Acceptable(j) && Harmless(y) && Fields(j.schedule) == Fields(b) + Fields(y) && !Blank(b)
    ensures var r := ParseLine(y + Trailer(j), newId); r.Parsed? ==> r.job.command != Normal(j).command
  {
    var k := j.(schedule := y);
    assert Entry(k) == y + Trailer(j);
    RawEntry(k);
    var t := Trim(Entry(k));
    PrefixHead(DISABLED, t);
    ScheduleIsShort(j.schedule);
    VisibleHasFields(b);
    ShorterCommand(Fields(j.schedule), Fields(y), |Fields(b)|, j.user, j.command, FindId(t), newId);
  }

  lemma ShorterCommand(s: seq<string>, y: seq<string>, n: nat, user: string, command: string, note: Option<IdNote>, newId: string)
    requires 0 < n <= |s| <= 5 && y == s[n..] && ValidUser(user)
    requires |s| == 1 || forall i :: 0 <= i < |s| ==> s[i] != "" && s[i][0] != '@'
    ensures var r := JobOf(y + ([user] + Fields(command)), note, true, newId); r.Parsed? ==> r.job.command != Spaced(command)
  {
    var fs := y + ([user] + Fields(command));
    assert fs[0] == if |y| > 0 then s[n] else user;
    assert fs[0] != "" && fs[0][0] != '@';
    if |fs| >= 7 {
      FieldsAreWords(command);
      assert fs[6..] == Fields(command)[5 - |y|..];
      FieldsOfJoin(fs[6..]);
      SpacedTwice(command);
    }
  }

  /** A block of blanks in front changes nothing for the line behind it. */
  lemma BlankLed(b: string, e: string, newId: string)
    requires Blank(b)
    ensures ParseLine(b + e, newId) == ParseLine(e, newId)
  {
    assert b + e + "" == b + e;
    TrimAbsorbs(b, e, "");
  }

  /** No byte of an unbroken schedule but blanks comes before its last line. */
  lemma BrokenOff(s: string, b: string, y: string)
    requires s == b + y && (b == "" || b[|b| - 1] == '\n') && Free(y, '\n')
    ensures Blank(b) <==> Free(TrimLeft(s), '\n')
  {
    if Blank(b) {
      TrimLeftDrops(b, y);
      var q := TrimLeftSplit(y);
      forall i | 0 <= i < |TrimLeft(y)| ensures TrimLeft(y)[i] != '\n' { assert y[|q| + i] == TrimLeft(y)[i]; }
    } else {
      TrimLeftBefore(b, y);
      var q := TrimLeftSplit(b);
      var l := TrimLeft(b);
      BlankConcat(q, l);
      assert l != "";
      assert l[|l| - 1] == b[|b| - 1];
      assert TrimLeft(s)[|l| - 1] == '\n';
    }
  }

  /**
   What one saved job is read back as: at most one job, and that very job exactly when no
   line break cuts its schedule off.
   */
  lemma OneJobRead(j: CronJob, rest: string, gen: nat -> string, i: nat) returns (ks: seq<CronJob>, k: nat)
    requires Acceptable(j)
    ensures ReadFrom(JobLine(j) + "\n" + rest, gen, i) == Prepend(ks, ReadFrom(rest, gen, k))
    ensures |ks| <= 1 && (ks == [Normal(j)] <==> Unbroken(j))
  {
    assert Entry(j) == j.schedule + Trailer(j);
    if j.enabled {
      assert JobLine(j) == Entry(j);
      ks, k := EnabledJobRead(j, rest, gen, i);
    } else if Free(j.schedule, '\n') {
      EntryFree(j, " # HOSTVRA_ID:");
      PrefixFree("# DISABLED: ", Entry(j));
      LineRoundTrip(j, gen(i));
      LineOff(JobLine(j), rest, gen, i);
      ks, k := [Normal(j)], i + 1;
    } else {
      ks, k := DisabledJobRead(j, rest, gen, i);
    }
  }

  lemma PrefixFree(p: string, e: string)
    requires p == "# DISABLED: " && Free(e, '\n')
    ensures Free(p + e, '\n')
  {
    assert Free(p, '\n');
  }

  lemma NothingPrepended(r: LoadResult)
    ensures Prepend([], r) == r
  {
    if r.Jobs? { assert [] + r.jobs == r.jobs; }
  }

  /** The job read off the last line of a schedule, if any. */
  function TailJobs(j: CronJob, y: string, newId: string): seq<CronJob> {
    match ParseLine(y + Trailer(j), newId)
    case Parsed(x) => [x]
    case _ => []
  }

  /** A schedule and its last line. */
  predicate TailOf(j: CronJob, b: string, y: string) {
    && Harmless(y) && Free(y, '\n') && Fields(j.schedule) == Fields(b) + Fields(y)
    && (j.enabled ==> j.schedule == b + y && (b == "" || b[|b| - 1] == '\n'))
  }

  lemma TailRead(j: CronJob, y: string, rest: string, gen: nat -> string, i: nat)
    requires Acceptable(j) && Harmless(y) && Free(y, '\n')
    ensures ReadFrom((y + Trailer(j)) + "\n" + rest, gen, i) ==
            Prepend(TailJobs(j, y, gen(i)), ReadFrom(rest, gen, i + 1))
  {
    var e := y + Trailer(j);
    assert Entry(j.(schedule := y)) == e;
    EntryFree(j.(schedule := y), " # HOSTVRA_ID:");
    LineOff(e, rest, gen, i);
    TailCut(j, y, gen(i));
    NothingPrepended(ReadFrom(rest, gen, i + 1));
  }

  lemma TailJobsIff(j: CronJob, b: string, y: string, newId: string)
    requires Acceptable(j) && TailOf(j, b, y)
    ensures |TailJobs(j, y, newId)| <= 1 && (TailJobs(j, y, newId) == [Normal(j)] <==> j.enabled && Unbroken(j))
  {
    TailCut(j, y, newId);
    if !Blank(b) { TailLine(j, b, y, newId); }
    if j.enabled { TailIsWhole(j, b, y, newId); }
  }

  lemma EnabledTail(j: CronJob, e: string, rest: string, gen: nat -> string, i: nat) returns (b: string, y: string, k: nat)
    requires ValidateSchedule(j.schedule)
    ensures ReadFrom((j.schedule + e) + "\n" + rest, gen, i) == ReadFrom((y + e) + "\n" + rest, gen, k)
    ensures TailOf(j, b, y)
  {
    ScheduleIsShort(j.schedule);
    b, y, k := SkipBroken(j.schedule, e, rest, gen, i);
  }

  /** The last line of an enabled schedule is read by itself. */
  lemma EnabledLastLine(j: CronJob, rest: string, gen: nat -> string, i: nat) returns (b: string, y: string, n: nat)
    requires Acceptable(j)
    ensures ReadFrom((j.schedule + Trailer(j)) + "\n" + rest, gen, i) ==
            Prepend(TailJobs(j, y, gen(n)), ReadFrom(rest, gen, n + 1))
    ensures TailOf(j, b, y)
  {
    b, y, n := EnabledTail(j, Trailer(j), rest, gen, i);
    TailRead(j, y, rest, gen, n);
  }

  lemma EnabledJobRead(j: CronJob, rest: string, gen: nat -> string, i: nat) returns (ks: seq<CronJob>, k: nat)
    requires Acceptable(j) && j.enabled
    ensures ReadFrom((j.schedule + Trailer(j)) + "\n" + rest, gen, i) == Prepend(ks, ReadFrom(rest, gen, k))
    ensures |ks| <= 1 && (ks == [Normal(j)] <==> Unbroken(j))
  {
    var b, y, n := EnabledLastLine(j, rest, gen, i);
    ks := EnabledTailJobs(j, b, y, gen(n));
    k := n + 1;
  }

  lemma EnabledTailJobs(j: CronJob, b: string, y: string, newId: string) returns (ks: seq<CronJob>)
    requires Acceptable(j) && j.enabled && TailOf(j, b, y)
    ensures ks == TailJobs(j, y, newId) && |ks| <= 1 && (ks == [Normal(j)] <==> Unbroken(j))
  {
    ks := TailJobs(j, y, newId);
    TailJobsIff(j, b, y, newId);
  }

  lemma TailIsWhole(j: CronJob, b: string, y: string, newId: string)
    requires Acceptable(j) && j.enabled && j.schedule == b + y && (b == "" || b[|b| - 1] == '\n') && Free(y, '\n')
    ensures Blank(b) <==> Unbroken(j)
    ensures Unbroken(j) ==> ParseLine(y + Trailer(j), newId) == Parsed(Normal(j))
  {
    BrokenOff(j.schedule, b, y);
    if Unbroken(j) {
      assert b + (y + Trailer(j)) == (b + y) + Trailer(j) == Entry(j) == JobLine(j);
      BlankLed(b, y + Trailer(j), newId);
      LineRoundTrip(j, newId);
    }
  }

  lemma DisabledTail(j: CronJob, p: string, e: string, rest: string, gen: nat -> string, i: nat) returns (b: string, y: string, k: nat)
    requires ValidateSchedule(j.schedule) && !j.enabled && !Free(j.schedule, '\n') && p == "# DISABLED: "
    ensures ReadFrom((p + (j.schedule + e)) + "\n" + rest, gen, i) == ReadFrom((y + e) + "\n" + rest, gen, k)
    ensures TailOf(j, b, y)
  {
    var s := j.schedule;
    ScheduleIsShort(s);
    var n := NewlineAt(s);
    AbsentIsFree(s[..n], '\n');
    assert s[..|s|] == s;
    var a, d := s[..n], s[n + 1..];
    BrokenInTwo(s, n);
    DisabledSkipped(p, a, d, e, rest, gen, i);
    b, y, k := SkipBroken(d, e, rest, gen, i + 1);
    FieldsBroken(a, b);
    AssocOf(Fields(a), Fields(b), Fields(y));
    b := a + ("\n" + b);
  }

  lemma DisabledJobRead(j: CronJob, rest: string, gen: nat -> string, i: nat) returns (ks: seq<CronJob>, k: nat)
    requires Acceptable(j) && !j.enabled && !Free(j.schedule, '\n')
    ensures ReadFrom(("# DISABLED: " + (j.schedule + Trailer(j))) + "\n" + rest, gen, i) ==
            Prepend(ks, ReadFrom(rest, gen, k))
    ensures |ks| <= 1 && ks != [Normal(j)]
  {
    var b, y, n := DisabledLastLine(j, rest, gen, i);
    ks := DisabledTailJobs(j, b, y, gen(n));
    k := n + 1;
  }

  /** The last line of a disabled schedule is read by itself. */
  lemma DisabledLastLine(j: CronJob, rest: string, gen: nat -> string, i: nat) returns (b: string, y: string, n: nat)
    requires Acceptable(j) && !j.enabled && !Free(j.schedule, '\n')
    ensures ReadFrom(("# DISABLED: " + (j.schedule + Trailer(j))) + "\n" + rest, gen, i) ==
            Prepend(TailJobs(j, y, gen(n)), ReadFrom(rest, gen, n + 1))
    ensures TailOf(j, b, y)
  {
    b, y, n := DisabledTail(j, "# DISABLED: ", Trailer(j), rest, gen, i);
    TailRead(j, y, rest, gen, n);
  }

  lemma DisabledTailJobs(j: CronJob, b: string, y: string, newId: string) returns (ks: seq<CronJob>)
    requires Acceptable(j) && !j.enabled && TailOf(j, b, y)
    ensures ks == TailJobs(j, y, newId) && |ks| <= 1 && ks != [Normal(j)]
  {
    ks := TailJobs(j, y, newId);
    TailJobsIff(j, b, y, newId);
  }

  lemma DisabledSkipped(p: string, a: string, d: string, e: string, rest: string, gen: nat -> string, i: nat)
    requires Short(a) && Free(a, '\n') && p == "# DISABLED: "
    ensures ReadFrom((p + ((a + ("\n" + d)) + e)) + "\n" + rest, gen, i) ==
            ReadFrom((d + e) + "\n" + rest, gen, i + 1)
  {
    FirstLineOff(p, a, d, e, rest);
    PrefixFree(p, a);
    LineOff(p + a, (d + e) + "\n" + rest, gen, i);
    QuietDisabled(a, p, gen(i));
  }

  lemma FirstLineOff(p: string, a: string, d: string, e: string, rest: string)
    ensures (p + ((a + ("\n" + d)) + e)) + "\n" + rest == (p + a) + "\n" + ((d + e) + "\n" + rest)
  {
  }

  predicate AllAcceptable(jobs: seq<CronJob>) {
    forall i :: 0 <= i < |jobs| ==> Acceptable(jobs[i])
  }

  predicate AllUnbroken(jobs: seq<CronJob>) {
    forall i :: 0 <= i < |jobs| ==> Unbroken(jobs[i])
  }

  lemma UnbrokenSplit(jobs: seq<CronJob>)
    requires jobs != []
    ensures AllUnbroken(jobs) <==> Unbroken(jobs[0]) && AllUnbroken(jobs[1..])
    ensures AllAcceptable(jobs) ==> Acceptable(jobs[0]) && AllAcceptable(jobs[1..])
  {
    assert forall i :: 0 < i < |jobs| ==> jobs[i] == jobs[1..][i - 1];
  }

  lemma {:induction false} JobLinesRead(jobs: seq<CronJob>, gen: nat -> string, i: nat)
    requires AllAcceptable(jobs)
    ensures var r := ReadFrom(JobLines(jobs), gen, i);
            r.Jobs? && |r.jobs| <= |jobs| && (r.jobs == NormalAll(jobs) <==> AllUnbroken(jobs))
    decreases |jobs|
  {
    if jobs == [] {
      NothingRead(gen, i);
    } else {
      UnbrokenSplit(jobs);
      var ks, k := OneJobRead(jobs[0], JobLines(jobs[1..]), gen, i);
      JobLinesRead(jobs[1..], gen, k);
      NormalCount(jobs[1..]);
      OneByOne(ks, ReadFrom(JobLines(jobs[1..]), gen, k), Normal(jobs[0]), NormalAll(jobs[1..]));
    }
  }

  lemma NothingRead(gen: nat -> string, i: nat)
    ensures ReadFrom("", gen, i) == Jobs([])
  {
    assert Trim("") == "";
    var lines := SplitOn("", '\n');
    assert lines == [""] && lines[1..] == [] && ParseLine(lines[0], gen(i)) == Skip;
    assert ParseLines(lines, gen, i) == ParseLines(lines[1..], gen, i + 1);
  }

  lemma {:induction false} NormalCount(jobs: seq<CronJob>)
    ensures |NormalAll(jobs)| == |jobs|
  {
    if jobs != [] { NormalCount(jobs[1..]); }
  }

  lemma OneByOne(ks: seq<CronJob>, later: LoadResult, head: CronJob, tail: seq<CronJob>)
    requires |ks| <= 1 && later.Jobs? && |later.jobs| <= |tail|
    ensures var r := Prepend(ks, later);
            r.Jobs? && |r.jobs| <= 1 + |tail| && (r.jobs == [head] + tail <==> ks == [head] && later.jobs == tail)
  {
    var all := ks + later.jobs;
    if all == [head] + tail {
      assert |all| == |[head] + tail|;
      assert ks == all[..1] && later.jobs == all[1..] && ([head] + tail)[..1] == [head] && ([head] + tail)[1..] == tail;
    }
  }

  lemma SkippedLine(l: string, gen: nat -> string, i: nat, rest: string)
    requires Free(l, '\n') && Tight(l) && Ignored(l)
    ensures ReadFrom(l + "\n" + rest, gen, i) == ReadFrom(rest, gen, i + 1)
  {
    assert "" + l + "" == l;
    TrimPadded("", l, "");
    LineOff(l, rest, gen, i);
  }

  lemma TitleFacts(l: string)
    requires l == TITLE
    ensures Free(l, '\n') && Tight(l) && Ignored(l)
  {
    assert l[2] == 'H' && DISABLED[2] == 'D';
  }

  lemma NoticeHalves(a: string, b: string)
    requires a == "# Generated automatically" && b == " - DO NOT EDIT MANUALLY"
    ensures Free(a, '\n') && Free(b, '\n') && Tight(a + b) && "# G" <= a && NOTICE == a + b
  {
    assert a[..3] == "# G";
  }

  lemma NoticeFacts(l: string)
    requires l == NOTICE
    ensures Free(l, '\n') && Tight(l) && Ignored(l)
  {
    var a, b := "# Generated automatically", " - DO NOT EDIT MANUALLY";
    NoticeHalves(a, b);
    NotDisabled(a + b);
  }

  lemma NotDisabled(l: string)
    requires "# G" <= l
    ensures Ignored(l)
  {
    assert l[2] == 'G' && DISABLED[2] == 'D' && l[0] == '#';
  }

  lemma ShellFacts(l: string)
    requires l == SHELL_LINE
    ensures Free(l, '\n') && Tight(l) && Ignored(l)
  {
    assert "SHELL=" <= l;
  }

  lemma PathHalves(a: string, b: string)
    requires a == "PATH=/sbin:/bin:/usr/sbin:/usr/bin" && b == ":/usr/local/sbin:/usr/local/bin"
    ensures Free(a, '\n') && Free(b, '\n') && "PATH=" <= a && Tight(a + b) && PATH_LINE == a + b
  {
  }

  lemma PathFacts(l: string)
    requires l == PATH_LINE
    ensures Free(l, '\n') && Tight(l) && Ignored(l)
  {
    var a, b := "PATH=/sbin:/bin:/usr/sbin:/usr/bin", ":/usr/local/sbin:/usr/local/bin";
    PathHalves(a, b);
    assert "PATH=" <= a + b;
  }

  predicate Idle(l: string) {
    Free(l, '\n') && Tight(l) && Ignored(l)
  }

  function Three(a: string, b: string, c: string, rest: string): string {
    a + "\n" + (b + "\n" + (c + "\n" + rest))
  }

  lemma TwoSkipped(a: string, b: string, rest: string, gen: nat -> string, i: nat)
    requires Idle(a) && Idle(b)
    ensures ReadFrom(a + "\n" + (b + "\n" + rest), gen, i) == ReadFrom(rest, gen, i + 2)
  {
    SkippedLine(a, gen, i, b + "\n" + rest);
    SkippedLine(b, gen, i + 1, rest);
  }

  lemma ThreeSkipped(whole: string, a: string, b: string, c: string, rest: string, gen: nat -> string, i: nat)
    requires Idle(a) && Idle(b) && Idle(c) && whole == Three(a, b, c, rest)
    ensures ReadFrom(whole, gen, i) == ReadFrom(rest, gen, i + 3)
  {
    TwoSkipped(a, b, c + "\n" + rest, gen, i);
    SkippedLine(c, gen, i + 2, rest);
  }

  lemma SixSkipped(whole: string, half: string, a: string, b: string, c: string, d: string, e: string, rest: string,
                   gen: nat -> string, i: nat, j: nat)
    requires Idle(a) && Idle(b) && Idle(c) && Idle(d) && Idle(e)
    requires half == Three(c, d, e, rest) && whole == Three(a, b, e, half)
    requires j == i + 3
    ensures ReadFrom(whole, gen, i) == ReadFrom(rest, gen, j + 3)
  {
    ThreeSkipped(whole, a, b, e, half, gen, i);
    ThreeSkipped(half, c, d, e, rest, gen, j);
  }

  lemma HeaderRegroup(a: string, b: string, c: string, d: string, rest: string)
    ensures (a + "\n" + (b + "\n" + ("\n" + (c + "\n" + (d + "\n" + "\n"))))) + rest ==
            Three(a, b, "", Three(c, d, "", rest))
  {
    assert "" + "\n" == "\n";
    var x := d + "\n" + "\n";
    assert x + rest == d + "\n" + ("\n" + rest);
    var y := c + "\n" + x;
    assert y + rest == c + "\n" + (x + rest);
    var z := "\n" + y;
    assert z + rest == "\n" + (y + rest);
    var w := b + "\n" + z;
    assert w + rest == b + "\n" + (z + rest);
    assert (a + "\n" + w) + rest == a + "\n" + (w + rest);
  }

  lemma HeaderSkipped(jobs: seq<CronJob>, gen: nat -> string)
    ensures ParsedFile(Printed(jobs), gen) == ReadFrom(JobLines(jobs), gen, 6)
  {
    TitleFacts(TITLE);
    NoticeFacts(NOTICE);
    ShellFacts(SHELL_LINE);
    PathFacts(PATH_LINE);
    HeaderRegroup(TITLE, NOTICE, SHELL_LINE, PATH_LINE, JobLines(jobs));
    SixSkipped(Printed(jobs), Three(SHELL_LINE, PATH_LINE, "", JobLines(jobs)), TITLE, NOTICE, SHELL_LINE, PATH_LINE, "",
               JobLines(jobs), gen, 0, 3);
  }

  /**
   Loading a saved file gives the saved jobs, in order, up to their spacing, exactly when no
   schedule is cut off by a line break; otherwise some job is lost or changed.
   */
  lemma FileRoundTripIff(jobs: seq<CronJob>, gen: nat -> string)
    requires AllAcceptable(jobs)
    ensures ParsedFile(Printed(jobs), gen) == Jobs(NormalAll(jobs)) <==> AllUnbroken(jobs)
  {
    HeaderSkipped(jobs, gen);
    JobLinesRead(jobs, gen, 6);
  }

  lemma FileRoundTrip(jobs: seq<CronJob>, gen: nat -> string)
    requires AllStorable(jobs)
    ensures ParsedFile(Printed(jobs), gen) == Jobs(NormalAll(jobs))
  {
    FileRoundTripIff(jobs, gen);
  }
}
