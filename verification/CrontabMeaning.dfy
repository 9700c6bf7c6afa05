/**
 What the crontab manager accepts, prints and changes, said of the texts and lists themselves.
 */
module CrontabMeaning {
  import opened Text
  import opened Words
  import opened Crontab
  import opened CrontabRoundTrip

  // ----- Schedules -----

  /** One entry of a list in a schedule field. */
  datatype Item = At(n: nat) | EveryNth(n: nat)

  /** What a field of a schedule asks for. */
  datatype Slot = Every | One(item: Item) | Span(first: nat, last: nat) | Among(items: seq<Item>)

  function ItemText(item: Item): string {
    match item
    case At(n) => Decimal(n)
    case EveryNth(n) => "*/" + Decimal(n)
  }

  function ItemTexts(items: seq<Item>): seq<string> {
    seq(|items|, i requires 0 <= i < |items| => ItemText(items[i]))
  }

  function SlotText(slot: Slot): string {
    match slot
    case Every => "*"
    case One(item) => ItemText(item)
    case Span(first, last) => Decimal(first) + ("-" + Decimal(last))
    case Among(items) => Join(ItemTexts(items), ",")
  }

  predicate ItemFits(item: Item, min: nat, max: nat) {
    match item
    case At(n) => min <= n <= max
    case EveryNth(n) => 0 < n <= MAX_INT
  }

  predicate SlotFits(slot: Slot, min: nat, max: nat) {
    match slot
    case Every => true
    case One(item) => ItemFits(item, min, max)
    case Span(first, last) => min <= first <= last <= max
    case Among(items) => forall i :: 0 <= i < |items| ==> ItemFits(items[i], min, max)
  }

  lemma NumberText(n: nat)
    ensures var s := Decimal(n);
            && s != "" && AllDigits(s) && Atoi(s) == (if n <= MAX_INT then Some(n) else None)
            && Free(s, ',') && Free(s, '-') && IsWord(s)
  {
    DecimalIsRead(n);
  }

  lemma ItemIff(item: Item, min: nat, max: nat)
    requires max <= MAX_INT
    ensures ValidateSingleCronVal(ItemText(item), min, max) <==> ItemFits(item, min, max)
    ensures var s := ItemText(item); s != "*" && Free(s, ',') && Free(s, '-') && IsWord(s)
  {
    NumberText(item.n);
    match item {
      case At(n) => PlainNumber(Decimal(n), min, max);
      case EveryNth(n) => Stepped("*/", Decimal(n), min, max);
    }
  }

  lemma PlainNumber(d: string, min: nat, max: nat)
    requires d != "" && IsDigit(d[0])
    ensures d != "*" && (ValidateSingleCronVal(d, min, max) <==> Atoi(d).Some? && min <= Atoi(d).value <= max)
  {
    PrefixHead("*/", d);
  }

  lemma Stepped(mark: string, d: string, min: nat, max: nat)
    requires mark == "*/" && IsWord(d) && Free(d, ',') && Free(d, '-')
    ensures var s := mark + d;
            && (ValidateSingleCronVal(s, min, max) <==> Atoi(d).Some? && Atoi(d).value > 0)
            && s != "*" && Free(s, ',') && Free(s, '-') && IsWord(s)
  {
    var s := mark + d;
    assert mark <= s && s[2..] == d;
    assert mark[0] == '*' && mark[1] == '/';
  }

  /** A text with the byte in it contains it. */
  lemma HoldsByte(a: string, p: string, b: string)
    requires |p| == 1
    ensures Contains(a + (p + b), p)
  {
    HasPrefixIs(p + b, p);
    assert p + b == p || p <= p + b;
    ContainsAppend(a, p + b, p);
  }

  /** A field is accepted exactly when what it asks for lies within the bounds of the field. */
  lemma FieldIff(slot: Slot, min: nat, max: nat)
    requires max <= MAX_INT && (slot.Among? ==> |slot.items| >= 2)
    ensures ValidateCronField(SlotText(slot), min, max) <==> SlotFits(slot, min, max)
    ensures IsWord(SlotText(slot))
  {
    var f := SlotText(slot);
    match slot {
      case Every =>
      case One(item) =>
        ItemIff(item, min, max);
        NoByte(f, ",");
        NoByte(f, "-");
      case Span(first, last) =>
        SpanIff(first, last, min, max);
      case Among(items) =>
        AmongIff(items, min, max);
    }
  }

  lemma SpanIff(first: nat, last: nat, min: nat, max: nat)
    requires max <= MAX_INT
    ensures var f := Decimal(first) + ("-" + Decimal(last));
            (ValidateCronField(f, min, max) <==> min <= first <= last <= max) && IsWord(f)
  {
    NumberText(first);
    NumberText(last);
    DashedField(Decimal(first), Decimal(last), min, max);
  }

  lemma DashedField(a: string, b: string, min: nat, max: nat)
    requires IsWord(a) && Free(a, ',') && Free(a, '-') && IsWord(b) && Free(b, ',') && Free(b, '-')
    ensures var f := a + ("-" + b); (ValidateCronField(f, min, max) <==> ValidRange([a, b], min, max)) && IsWord(f)
  {
    var f := a + ("-" + b);
    HoldsByte(a, "-", b);
    NoByte(f, ",");
    SplitPiece(a, '-', b);
    SplitWhole(b, '-');
    assert [a] + [b] == [a, b];
    assert |f| > 1;
  }

  lemma {:induction false} JoinOfWords(ws: seq<string>, sep: string)
    requires ws != [] && AllWords(ws) && IsWord(sep)
    ensures IsWord(Join(ws, sep))
  {
    if |ws| > 1 { JoinOfWords(ws[1..], sep); }
  }

  lemma AmongIff(items: seq<Item>, min: nat, max: nat)
    requires max <= MAX_INT && |items| >= 2
    ensures var f := Join(ItemTexts(items), ",");
            (ValidateCronField(f, min, max) <==> forall i :: 0 <= i < |items| ==> ItemFits(items[i], min, max)) && IsWord(f)
  {
    var ts := ItemTexts(items);
    forall i | 0 <= i < |items|
      ensures ValidateSingleCronVal(ts[i], min, max) <==> ItemFits(items[i], min, max)
      ensures Free(ts[i], ',') && IsWord(ts[i])
    {
      ItemIff(items[i], min, max);
    }
    ListedField(ts, ",", min, max);
  }

  lemma ListedField(ts: seq<string>, comma: string, min: nat, max: nat)
    requires comma == "," && |ts| >= 2 && AllWords(ts) && AllFree(ts, ',')
    ensures var f := Join(ts, comma); (ValidateCronField(f, min, max) <==> AllSingle(ts, min, max)) && IsWord(f)
  {
    var f, later := Join(ts, comma), Join(ts[1..], comma);
    SplitJoin(ts, ',');
    JoinOfWords(ts, comma);
    Assoc(ts[0], comma, later);
    HoldsByte(ts[0], comma, later);
    assert |f| > 1;
  }

  /** Five fields make a schedule exactly when each fits: minutes, hours, days, months and weekdays, in this order. */
  lemma ScheduleIff(minute: Slot, hour: Slot, day: Slot, month: Slot, weekday: Slot)
    requires forall s :: s in {minute, hour, day, month, weekday} && s.Among? ==> |s.items| >= 2
    ensures ValidateSchedule(Join([SlotText(minute), SlotText(hour), SlotText(day), SlotText(month), SlotText(weekday)], " ")) <==>
            && SlotFits(minute, 0, 59) && SlotFits(hour, 0, 23) && SlotFits(day, 1, 31)
            && SlotFits(month, 1, 12) && SlotFits(weekday, 0, 7)
  {
    var fs := [SlotText(minute), SlotText(hour), SlotText(day), SlotText(month), SlotText(weekday)];
    FieldIff(minute, 0, 59);
    FieldIff(hour, 0, 23);
    FieldIff(day, 1, 31);
    FieldIff(month, 1, 12);
    FieldIff(weekday, 0, 7);
    FieldsOfJoin(fs);
    FieldsTrim(Join(fs, " "));
    if IsMacro(Trim(Join(fs, " "))) {
      MacroFacts(Trim(Join(fs, " ")));
      FieldsWord(Trim(Join(fs, " ")));
      assert false;
    }
  }

  /** A single word is a schedule exactly when it is one of the five macros. */
  lemma MacroIff(w: string)
    requires IsWord(w)
    ensures ValidateSchedule(w) <==> w in {"@reboot", "@hourly", "@daily", "@weekly", "@monthly"}
  {
    FieldsWord(w);
    assert "" + w + "" == w;
    TrimPadded("", w, "");
  }

  // ----- What is refused -----

  /** The visible part of a user name, with `root` for an empty one. */
  lemma UserIs(p: string, u: string, q: string)
    requires Blank(p) && Blank(q) && Tight(u)
    ensures EffectiveUser(p + u + q) == if p + u + q == "" then "root" else u
  {
    TrimPadded(p, u, q);
    assert "" + "root" + "" == "root";
    TrimPadded("", "root", "");
  }

  /** The conditions on a job that is added or updated. */
  ghost predicate Passes(op: Op) {
    op.Add? || op.Update? ==>
      && ValidateSchedule(op.job.schedule) && !Blank(op.job.command) && !op.dangerous
      && 1 <= |EffectiveUser(op.job.user)| <= 32
      && forall c :: c in EffectiveUser(op.job.user) ==> 'a' <= c <= 'z' || 'A' <= c <= 'Z' || '0' <= c <= '9' || c == '_' || c == '-'
  }

  /** The list an operation finds: that of the file, or the empty one when an addition cannot read it. */
  function ListIn(file: Option<string>, gen: nat -> string, disk: Disk): seq<CronJob> {
    if disk.readOk && Loaded(file, gen).Jobs? then Loaded(file, gen).jobs else []
  }

  function IdOf(op: Op): string {
    match op
    case Add(job, _, newId) => if job.id == "" then newId else job.id
    case Update(job, _) => job.id
    case Delete(id) => id
    case Toggle(id) => id
  }

  /** Each answer, by what holds of the call, the file and the disk. */
  lemma AnswerIff(file: Option<string>, op: Op, gen: nat -> string, disk: Disk)
    ensures var a := FileAnswer(file, op, gen, disk);
            var known := exists j :: j in ListIn(file, gen, disk) && j.id == IdOf(op);
            var broken := disk.readOk && Loaded(file, gen).Broken?;
            var works := Passes(op) && (op.Add? || disk.readOk) && !broken;
            && (Refused(op) <==> !Passes(op))
            && (a == ReadFailed <==> Passes(op) && !disk.readOk && !op.Add?)
            && (a == Crashed <==> Passes(op) && broken)
            && (a == AlreadyExists <==> works && op.Add? && known)
            && (a == NotFound <==> works && !op.Add? && !known)
            && (a == WriteFailed <==> works && known == !op.Add? && !disk.writeOk)
            && (a == Done <==> works && known == !op.Add? && disk.writeOk)
  {
    var js := ListIn(file, gen, disk);
    var known := exists j :: j in js && j.id == IdOf(op);
    assert HasId(js, IdOf(op)) <==> known;
    if op.Add? || op.Update? {
      TrimIsBlank(op.job.command);
      UserChars(EffectiveUser(op.job.user));
    }
  }

  lemma UserChars(u: string)
    ensures ValidUser(u) <==>
            (1 <= |u| <= 32 && forall c :: c in u ==> 'a' <= c <= 'z' || 'A' <= c <= 'Z' || '0' <= c <= '9' || c == '_' || c == '-')
  {
    assert forall i :: 0 <= i < |u| ==> u[i] in u;
  }

  /** A refused job is told the first thing that is wrong with it. */
  lemma RefusalIff(file: Option<string>, op: Op, gen: nat -> string, disk: Disk)
    requires op.Add? || op.Update?
    ensures var a := FileAnswer(file, op, gen, disk);
            var scheduled := ValidateSchedule(op.job.schedule);
            && (a == InvalidSchedule <==> !scheduled)
            && (a == EmptyCommand <==> scheduled && Blank(op.job.command))
            && (a == DangerousCommand <==> scheduled && !Blank(op.job.command) && op.dangerous)
            && (a == InvalidUser <==> scheduled && !Blank(op.job.command) && !op.dangerous && !ValidUser(EffectiveUser(op.job.user)))
  {
    TrimIsBlank(op.job.command);
  }

  // ----- What an operation does to the list -----

  /** The first job with the id. */
  predicate FirstWith(jobs: seq<CronJob>, id: string, k: nat) {
    k < |jobs| && jobs[k].id == id && forall i :: 0 <= i < k ==> jobs[i].id != id
  }

  /** An addition puts one enabled job at the end, an update and a toggle touch one job, and all others stay in place. */
  lemma ChangeAt(jobs: seq<CronJob>, op: Op, k: nat)
    requires !op.Delete? && (!op.Add? ==> FirstWith(jobs, IdOf(op), k))
    ensures match op
            case Add(j, _, _) =>
              Changed(jobs, op) == jobs + [CronJob(IdOf(op), j.schedule, j.command, EffectiveUser(j.user), j.description, true)]
            case Update(j, _) =>
              Changed(jobs, op) == jobs[k := CronJob(j.id, j.schedule, j.command, EffectiveUser(j.user), j.description, j.enabled)]
            case Toggle(_) =>
              && |Changed(jobs, op)| == |jobs| && (forall i :: 0 <= i < |jobs| && i != k ==> Changed(jobs, op)[i] == jobs[i])
              && var j := jobs[k];
                 Changed(jobs, op)[k] == CronJob(j.id, j.schedule, j.command, j.user, j.description, !j.enabled)
            case Delete(_) => true
  {
    match op {
      case Update(j, _) => ReplacedAt(jobs, j.id, Prepared(op), k);
      case Toggle(id) => ToggledAt(jobs, id, k);
      case _ =>
    }
  }

  lemma {:induction false} WithoutConcat(a: seq<CronJob>, b: seq<CronJob>, id: string)
    ensures Without(a + b, id) == Without(a, id) + Without(b, id)
  {
    if a == [] {
      assert a + b == b;
    } else {
      assert (a + b)[0] == a[0] && (a + b)[1..] == a[1..] + b;
      WithoutConcat(a[1..], b, id);
      var h := if a[0].id == id then [] else [a[0]];
      AssocOf(h, Without(a[1..], id), Without(b, id));
    }
  }

  lemma {:induction false} NoneWithout(jobs: seq<CronJob>, id: string)
    requires !HasId(jobs, id)
    ensures Without(jobs, id) == jobs
  {
    if jobs != [] {
      assert jobs[0].id != id;
      assert !HasId(jobs[1..], id) by {
        forall i | 0 <= i < |jobs[1..]| ensures jobs[1..][i].id != id { assert jobs[1..][i] == jobs[i + 1]; }
      }
      NoneWithout(jobs[1..], id);
    }
  }

  /** A deletion takes out the job with the id, wherever it stands, and keeps the others in their order. */
  lemma DeleteAt(before: seq<CronJob>, job: CronJob, behind: seq<CronJob>, op: Op)
    requires op.Delete? && job.id == op.id && !HasId(before, op.id)
    ensures Changed(before + [job] + behind, op) == before + Without(behind, op.id)
    ensures !HasId(behind, op.id) ==> Changed(before + [job] + behind, op) == before + behind
  {
    NoneWithout(before, op.id);
    WithoutOne(job, op.id);
    WithoutMiddle(before, [job], behind, op.id);
    if !HasId(behind, op.id) { NoneWithout(behind, op.id); }
  }

  lemma WithoutMiddle(a: seq<CronJob>, x: seq<CronJob>, b: seq<CronJob>, id: string)
    requires Without(a, id) == a && Without(x, id) == []
    ensures Without(a + x + b, id) == a + Without(b, id)
  {
    WithoutConcat(a + x, b, id);
    WithoutConcat(a, x, id);
  }

  lemma WithoutOne(job: CronJob, id: string)
    requires job.id == id
    ensures Without([job], id) == []
  {
  }

  // ----- What is printed -----

  /** The line of an enabled job begins with the words of its schedule, its user and the words of its command; any other is a comment. */
  lemma PrintedWords(j: CronJob)
    requires IsWord(j.user)
    ensures j.enabled ==> Fields(j.schedule) + [j.user] + Fields(j.command) + ["#"] <= Fields(JobLine(j))
    ensures !j.enabled ==> "#" <= JobLine(j)
  {
    if j.enabled {
      var t := j.id + (" # " + ReplaceAll(j.description, "\n", " "));
      CommentWord(t, " # HOSTVRA_ID:");
      var w := " # HOSTVRA_ID:" + t;
      FieldsApart(j.command, w);
      var c := j.command + w;
      FieldsWord(j.user);
      FieldsApart(j.user, " " + c);
      assert (" " + c)[1..] == c;
      var v := " " + (j.user + (" " + c));
      assert v[1..] == j.user + (" " + c);
      FieldsApart(j.schedule, v);
      assert "" + Entry(j) == Entry(j);
      WordsRegroup(Fields(j.schedule), [j.user], Fields(j.command), Fields(w));
    }
  }

  lemma CommentWord(t: string, m: string)
    requires m == " # HOSTVRA_ID:"
    ensures ["#"] <= Fields(m + t)
  {
    var s := m + t;
    assert s[0] == ' ' && s[1] == '#' && s[2] == ' ';
    var r := s[1..];
    assert r[0] == '#' && r[1..][0] == ' ';
    assert WordEnd(r) == 1 && r[..1] == "#";
  }

  lemma WordsRegroup(a: seq<string>, b: seq<string>, c: seq<string>, d: seq<string>)
    requires ["#"] <= d
    ensures a + b + c + ["#"] <= a + (b + (c + d))
  {
    assert a + (b + (c + d)) == a + b + c + d;
    assert d == ["#"] + d[1..];
    assert a + b + c + d == a + b + c + ["#"] + d[1..];
  }

  /** A line written by hand, without an identity comment: five words of schedule, the user, and the command. */
  lemma ForeignLine(ws: seq<string>, line: string, newId: string)
    requires AllWords(ws) && |ws| >= 7 && line == Join(ws, " ") && Free(line, '#')
    requires ws[0][0] != '@' && ws[0][0] != 'S' && ws[0][0] != 'P'
    ensures ParseLine(line, newId) == Parsed(CronJob(newId, Join(ws[..5], " "), Join(ws[6..], " "), ws[5], "", true))
  {
    JoinIsTight(ws);
    FieldsOfJoin(ws);
    NoHash(line);
    UnmarkedLine(line, newId);
    UnmarkedJob(ws, newId);
  }

  lemma UnmarkedLine(line: string, newId: string)
    requires Tight(line) && line != "" && line[0] != '#' && line[0] != 'S' && line[0] != 'P' && FindId(line) == None
    ensures ParseLine(line, newId) == JobOf(Fields(line), None, true, newId)
  {
    assert "" + line + "" == line;
    TrimPadded("", line, "");
    VisibleLine(line);
  }

  lemma UnmarkedJob(ws: seq<string>, newId: string)
    requires |ws| >= 7 && ws[0] != "" && ws[0][0] != '@'
    ensures JobOf(ws, None, true, newId) == Parsed(CronJob(newId, Join(ws[..5], " "), Join(ws[6..], " "), ws[5], "", true))
  {
  }

  lemma {:induction false} JoinIsTight(ws: seq<string>)
    requires AllWords(ws) && ws != []
    ensures Tight(Join(ws, " ")) && Join(ws, " ") != "" && Join(ws, " ")[0] == ws[0][0]
  {
    if |ws| > 1 { JoinIsTight(ws[1..]); }
  }

  // ----- What saving and loading does to a job -----

  lemma {:induction false} WordEndSame(a: string, b: string)
    requires |a| == |b| && forall i :: 0 <= i < |a| ==> a[i] == b[i] || (IsSpace(a[i]) && IsSpace(b[i]))
    ensures WordEnd(a) == WordEnd(b) && a[..WordEnd(a)] == b[..WordEnd(a)]
  {
    if a != "" && !IsSpace(a[0]) {
      WordEndSame(a[1..], b[1..]);
      var n := WordEnd(a[1..]);
      assert a[..n + 1] == [a[0]] + a[1..][..n] && b[..n + 1] == [b[0]] + b[1..][..n];
    }
  }

  lemma {:induction false} FieldsSame(a: string, b: string)
    requires |a| == |b| && forall i :: 0 <= i < |a| ==> a[i] == b[i] || (IsSpace(a[i]) && IsSpace(b[i]))
    ensures Fields(a) == Fields(b)
    decreases |a|
  {
    if a != "" {
      if IsSpace(a[0]) {
        FieldsSame(a[1..], b[1..]);
      } else {
        WordEndSame(a, b);
        FieldsSame(a[WordEnd(a)..], b[WordEnd(a)..]);
      }
    }
  }

  /** Saving and loading keeps the words of every text, the identity, the user and the switch. */
  lemma NormalKeepsWords(j: CronJob)
    ensures var n := Normal(j);
            && n.id == j.id && n.user == j.user && n.enabled == j.enabled
            && Fields(n.schedule) == Fields(j.schedule) && Fields(n.command) == Fields(j.command)
            && Fields(n.description) == Fields(j.description)
  {
    SpacedTwice(j.schedule);
    SpacedTwice(j.command);
    ReplaceByte(j.description, "\n", " ");
    FieldsTrim(ReplaceAll(j.description, "\n", " "));
    FieldsSame(ReplaceAll(j.description, "\n", " "), j.description);
  }

  /** A job with single blanks between its words, and a description without line breaks or blanks at its ends, stays byte for byte. */
  lemma TidyIsNormal(j: CronJob, schedule: seq<string>, command: seq<string>)
    requires AllWords(schedule) && AllWords(command) && j.schedule == Join(schedule, " ") && j.command == Join(command, " ")
    requires Tight(j.description) && Free(j.description, '\n')
    ensures Normal(j) == j
  {
    FieldsOfJoin(schedule);
    FieldsOfJoin(command);
    NoByte(j.description, "\n");
    ReplaceAbsent(j.description, "\n", " ");
    assert "" + j.description + "" == j.description;
    TrimPadded("", j.description, "");
  }
}
