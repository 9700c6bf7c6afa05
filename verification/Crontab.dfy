/**
 The crontab file behind the scheduled jobs: validation, printing, parsing, and the
 operations that load the file, edit the list and save it again.
 */
module Crontab {
  import opened Text

  datatype CronJob = CronJob(id: string, schedule: string, command: string, user: string, description: string, enabled: bool)

  // ----- Validation -----

  predicate ValidateSingleCronVal(val: string, min: int, max: int) {
    if "*/" <= val then
      var step := Atoi(val[2..]);
      step.Some? && step.value > 0
    else
      var n := Atoi(val);
      n.Some? && min <= n.value <= max
  }

  predicate AllSingle(parts: seq<string>, min: int, max: int) {
    forall i :: 0 <= i < |parts| ==> ValidateSingleCronVal(parts[i], min, max)
  }

  predicate ValidRange(parts: seq<string>, min: int, max: int) {
    && |parts| == 2
    && Atoi(parts[0]).Some? && Atoi(parts[1]).Some?
    && min <= Atoi(parts[0]).value <= Atoi(parts[1]).value <= max
  }

  predicate ValidateCronField(field: string, min: int, max: int) {
    if field == "*" then true
    else if Contains(field, ",") then AllSingle(SplitOn(field, ','), min, max)
    else if Contains(field, "-") then ValidRange(SplitOn(field, '-'), min, max)
    else ValidateSingleCronVal(field, min, max)
  }

  predicate IsMacro(s: string) {
    s == "@reboot" || s == "@hourly" || s == "@daily" || s == "@weekly" || s == "@monthly"
  }

  predicate ValidateSchedule(expr: string) {
    var e := Trim(expr);
    var parts := Fields(e);
    IsMacro(e) ||
    (&& |parts| == 5
     && ValidateCronField(parts[0], 0, 59) && ValidateCronField(parts[1], 0, 23) && ValidateCronField(parts[2], 1, 31)
     && ValidateCronField(parts[3], 1, 12) && ValidateCronField(parts[4], 0, 7))
  }

  predicate IsUserChar(c: char) {
    'a' <= c <= 'z' || 'A' <= c <= 'Z' || IsDigit(c) || c == '_' || c == '-'
  }

  predicate ValidUser(u: string) {
    1 <= |u| <= 32 && forall i :: 0 <= i < |u| ==> IsUserChar(u[i])
  }

  datatype Outcome =
    | Done
    | InvalidSchedule
    | EmptyCommand
    | DangerousCommand
    | InvalidUser
    | AlreadyExists
    | NotFound
    | Crashed
    | ReadFailed
    | WriteFailed

  /** How the disk answers one call. */
  datatype Disk = Disk(readOk: bool, writeOk: bool)

  function EffectiveUser(u: string): string {
    Trim(if u == "" then "root" else u)
  }

  /** `dangerous` is the verdict of the destructive-command patterns. */
  function Check(job: CronJob, dangerous: bool): Outcome {
    if !ValidateSchedule(job.schedule) then InvalidSchedule
    else if Trim(job.command) == "" then EmptyCommand
    else if dangerous then DangerousCommand
    else if !ValidUser(EffectiveUser(job.user)) then InvalidUser
    else Done
  }

  // ----- Printing -----

  const TITLE := "# Hostvra Automated System Crontab"
  const NOTICE := "# Generated automatically" + " - DO NOT EDIT MANUALLY"
  const SHELL_LINE := "SHELL=/bin/bash"
  const PATH_LINE := "PATH=/sbin:/bin:/usr/sbin:/usr/bin" + ":/usr/local/sbin:/usr/local/bin"

  function Header(): string {
    TITLE + "\n" + (NOTICE + "\n" + ("\n" + (SHELL_LINE + "\n" + (PATH_LINE + "\n" + "\n"))))
  }

  /** The entry without its line break and without the disabling prefix. */
  function Entry(j: CronJob): string {
    j.schedule + (" " + (j.user + (" " + (j.command + (" # HOSTVRA_ID:" + (j.id + (" # " + ReplaceAll(j.description, "\n", " "))))))))
  }

  function JobLine(j: CronJob): string {
    (if j.enabled then "" else "# DISABLED: ") + Entry(j)
  }

  function JobLines(jobs: seq<CronJob>): string {
    if jobs == [] then "" else JobLine(jobs[0]) + "\n" + JobLines(jobs[1..])
  }

  function Printed(jobs: seq<CronJob>): string {
    Header() + JobLines(jobs)
  }

  // ----- Parsing -----

  function Word(s: string): string {
    if s != "" && !IsWs(s[0]) then [s[0]] + Word(s[1..]) else ""
  }

  function AfterWord(s: string): string {
    if s != "" && !IsWs(s[0]) then AfterWord(s[1..]) else s
  }

  const MARK := "HOSTVRA_ID:"
  const CUT := "# HOSTVRA_ID:"

  datatype IdNote = IdNote(id: string, description: string)

  /** The identity comment starting at the first byte: `#`, blanks, the mark, a word, and nothing else or a second comment. */
  function IdAt(s: string): Option<IdNote> {
    if s == "" || s[0] != '#' then None
    else
      var m := SkipWs(s[1..]);
      if !(MARK <= m) then None
      else
        var id, rest := Word(m[|MARK|..]), AfterWord(m[|MARK|..]);
        var note := SkipWs(rest);
        if id == "" then None
        else if rest == "" then Some(IdNote(id, ""))
        else if note != "" && note[0] == '#' then Some(IdNote(id, Trim(note[1..])))
        else None
  }

  /** The leftmost identity comment. */
  function FindId(s: string): Option<IdNote> {
    if s == "" then None
    else if IdAt(s).Some? then IdAt(s)
    else FindId(s[1..])
  }

  /** Where `p` first occurs; none when it does not. */
  function IndexOf(s: string, p: string): (r: Option<nat>)
    ensures r.Some? ==> r.value + |p| <= |s|
  {
    if p <= s then Some(0)
    else if s == "" then None
    else match IndexOf(s[1..], p)
      case None => None
      case Some(i) => Some(i + 1)
  }

  datatype LineResult = Skip | Parsed(job: CronJob) | Panic

  /** The job the fields of an entry describe. */
  function JobOf(fields: seq<string>, note: Option<IdNote>, enabled: bool, newId: string): LineResult {
    if |fields| < 2 then Skip
    else
      var id := if note.Some? then note.value.id else newId;
      var description := if note.Some? then note.value.description else "";
      if "@" <= fields[0] then
        Parsed(CronJob(id, fields[0], Join(fields[2..], " "), fields[1], description, enabled))
      else if |fields| >= 7 then
        Parsed(CronJob(id, Join(fields[..5], " "), Join(fields[6..], " "), fields[5], description, enabled))
      else Skip
  }

  const DISABLED := "# DISABLED:"

  predicate Ignored(line: string) {
    line == "" || ("#" <= line && !(DISABLED <= line)) || "SHELL=" <= line || "PATH=" <= line
  }

  /** `newId` is the random id given to an entry without one. The cut at the mark fails when the comment is spaced differently. */
  function ParseLine(text: string, newId: string): LineResult {
    var line := Trim(text);
    if Ignored(line) then Skip
    else
      var enabled := !(DISABLED <= line);
      var raw := if enabled then line else Trim(line[|DISABLED|..]);
      var note := FindId(raw);
      if note.None? then JobOf(Fields(raw), note, enabled, newId)
      else match IndexOf(raw, CUT)
        case None => Panic
        case Some(i) => JobOf(Fields(Trim(raw[..i])), note, enabled, newId)
  }

  datatype LoadResult = Jobs(jobs: seq<CronJob>) | Broken

  function Prepend(js: seq<CronJob>, r: LoadResult): LoadResult {
    match r
    case Broken => Broken
    case Jobs(later) => Jobs(js + later)
  }

  /** `gen(i)` is the id generated for line `i` should it need one. */
  function ParseLines(lines: seq<string>, gen: nat -> string, i: nat): LoadResult {
    if lines == [] then Jobs([])
    else match ParseLine(lines[0], gen(i))
      case Panic => Broken
      case Skip => ParseLines(lines[1..], gen, i + 1)
      case Parsed(j) => Prepend([j], ParseLines(lines[1..], gen, i + 1))
  }

  /** What is read from a text whose first line is line `i` of the file. */
  function ReadFrom(text: string, gen: nat -> string, i: nat): LoadResult {
    ParseLines(SplitOn(text, '\n'), gen, i)
  }

  function ParsedFile(content: string, gen: nat -> string): LoadResult {
    ReadFrom(content, gen, 0)
  }

  function Loaded(file: Option<string>, gen: nat -> string): LoadResult {
    match file
    case None => Jobs([])
    case Some(content) => ParsedFile(content, gen)
  }

  // ----- The list operations -----

  predicate HasId(jobs: seq<CronJob>, id: string) {
    exists i :: 0 <= i < |jobs| && jobs[i].id == id
  }

  /** The first job with an id replaced by another. */
  function Replaced(jobs: seq<CronJob>, id: string, job: CronJob): seq<CronJob> {
    if jobs == [] then []
    else if jobs[0].id == id then [job] + jobs[1..]
    else [jobs[0]] + Replaced(jobs[1..], id, job)
  }

  function Without(jobs: seq<CronJob>, id: string): seq<CronJob> {
    if jobs == [] then []
    else (if jobs[0].id == id then [] else [jobs[0]]) + Without(jobs[1..], id)
  }

  /** The first job with an id switched on or off. */
  function Toggled(jobs: seq<CronJob>, id: string): seq<CronJob> {
    if jobs == [] then []
    else if jobs[0].id == id then [jobs[0].(enabled := !jobs[0].enabled)] + jobs[1..]
    else [jobs[0]] + Toggled(jobs[1..], id)
  }

  datatype Op =
    | Add(job: CronJob, dangerous: bool, newId: string)
    | Update(job: CronJob, dangerous: bool)
    | Delete(id: string)
    | Toggle(id: string)

  /** The job as stored by an addition or an update. */
  function Prepared(op: Op): CronJob
    requires op.Add? || op.Update?
  {
    var j := op.job.(user := EffectiveUser(op.job.user));
    if op.Add? then j.(id := if j.id == "" then op.newId else j.id, enabled := true) else j
  }

  /** What an operation answers on a list of jobs. */
  function Answer(jobs: seq<CronJob>, op: Op): Outcome {
    match op
    case Add(job, dangerous, _) =>
      if Check(job, dangerous) != Done then Check(job, dangerous)
      else if HasId(jobs, Prepared(op).id) then AlreadyExists
      else Done
    case Update(job, dangerous) =>
      if Check(job, dangerous) != Done then Check(job, dangerous)
      else if HasId(jobs, job.id) then Done
      else NotFound
    case Delete(id) => if HasId(jobs, id) then Done else NotFound
    case Toggle(id) => if HasId(jobs, id) then Done else NotFound
  }

  /** The list after an operation that is carried out. */
  function Changed(jobs: seq<CronJob>, op: Op): seq<CronJob> {
    match op
    case Add(_, _, _) => jobs + [Prepared(op)]
    case Update(job, _) => Replaced(jobs, job.id, Prepared(op))
    case Delete(id) => Without(jobs, id)
    case Toggle(id) => Toggled(jobs, id)
  }

  predicate Refused(op: Op) {
    (op.Add? || op.Update?) && Check(op.job, op.dangerous) != Done
  }

  /** The list an operation works on: an addition takes a file it cannot read for an empty one. */
  function Seen(file: Option<string>, gen: nat -> string, disk: Disk): LoadResult {
    if disk.readOk then Loaded(file, gen) else Jobs([])
  }

  /** What an operation answers on a file. Validation comes before the file is read. */
  function FileAnswer(file: Option<string>, op: Op, gen: nat -> string, disk: Disk): Outcome {
    if Refused(op) then Check(op.job, op.dangerous)
    else if !disk.readOk && !op.Add? then ReadFailed
    else match Seen(file, gen, disk)
      case Broken => Crashed
      case Jobs(js) => if Answer(js, op) == Done && !disk.writeOk then WriteFailed else Answer(js, op)
  }

  function FileAfter(file: Option<string>, op: Op, gen: nat -> string, disk: Disk): Option<string> {
    if FileAnswer(file, op, gen, disk) == Done then Some(Printed(Changed(Seen(file, gen, disk).jobs, op))) else file
  }

  // ----- The manager -----

  /** One pass over the lines of the file. */
  method ParseCrontab(content: string, gen: nat -> string) returns (r: LoadResult)
    ensures r == ParsedFile(content, gen)
  {
    var lines := SplitOn(content, '\n');
    var jobs: seq<CronJob> := [];
    var i := 0;
    while i < |lines|
      invariant 0 <= i <= |lines|
      invariant Prepend(jobs, ParseLines(lines[i..], gen, i)) == ParseLines(lines, gen, 0)
    {
      assert lines[i..][0] == lines[i] && lines[i..][1..] == lines[i + 1..];
      var one := ParseLine(lines[i], gen(i));
      match one {
        case Panic =>
          return Broken;
        case Skip =>
        case Parsed(j) =>
          PrependTwice(jobs, j, ParseLines(lines[i + 1..], gen, i + 1));
          jobs := jobs + [j];
      }
      i := i + 1;
    }
    assert lines[|lines|..] == [] && jobs + [] == jobs;
    r := Jobs(jobs);
  }

  lemma PrependTwice(jobs: seq<CronJob>, j: CronJob, r: LoadResult)
    ensures Prepend(jobs, Prepend([j], r)) == Prepend(jobs + [j], r)
  {
    if r.Jobs? { assert jobs + ([j] + r.jobs) == jobs + [j] + r.jobs; }
  }

  lemma {:induction false} PrintedEnds(jobs: seq<CronJob>, a: string)
    requires a != "" && a[|a| - 1] == '\n'
    ensures HasSuffix(a + JobLines(jobs), "\n")
  {
    if jobs == [] {
      assert a + "" == a;
    } else {
      var line := JobLine(jobs[0]) + "\n";
      Assoc(a, line, JobLines(jobs[1..]));
      PrintedEnds(jobs[1..], a + line);
    }
  }

  method PrintJobs(jobs: seq<CronJob>) returns (content: string)
    ensures content == Printed(jobs)
  {
    content := Header();
    var i := 0;
    while i < |jobs|
      invariant 0 <= i <= |jobs|
      invariant content + JobLines(jobs[i..]) == Printed(jobs)
    {
      var j := jobs[i];
      assert jobs[i..][0] == j && jobs[i..][1..] == jobs[i + 1..];
      var prefix := if j.enabled then "" else "# DISABLED: ";
      var line := prefix + Entry(j) + "\n";
      Assoc(content, line, JobLines(jobs[i + 1..]));
      content := content + line;
      i := i + 1;
    }
    assert jobs[|jobs|..] == [] && content + "" == content;
  }

  method FindJob(jobs: seq<CronJob>, id: string) returns (at: nat)
    ensures at <= |jobs| && (at < |jobs| <==> HasId(jobs, id))
    ensures at < |jobs| ==> jobs[at].id == id
    ensures forall i :: 0 <= i < at ==> jobs[i].id != id
  {
    at := 0;
    while at < |jobs| && jobs[at].id != id
      invariant at <= |jobs| && forall i :: 0 <= i < at ==> jobs[i].id != id
    {
      at := at + 1;
    }
  }

  lemma {:induction false} ReplacedAt(jobs: seq<CronJob>, id: string, job: CronJob, at: nat)
    requires at < |jobs| && jobs[at].id == id && forall i :: 0 <= i < at ==> jobs[i].id != id
    ensures Replaced(jobs, id, job) == jobs[at := job]
  {
    if at == 0 {
      assert jobs[0 := job] == [job] + jobs[1..];
    } else {
      ReplacedAt(jobs[1..], id, job, at - 1);
      assert jobs[at := job] == [jobs[0]] + jobs[1..][at - 1 := job];
    }
  }

  lemma {:induction false} ToggledAt(jobs: seq<CronJob>, id: string, at: nat)
    requires at < |jobs| && jobs[at].id == id && forall i :: 0 <= i < at ==> jobs[i].id != id
    ensures Toggled(jobs, id) == jobs[at := jobs[at].(enabled := !jobs[at].enabled)]
  {
    var job := jobs[at].(enabled := !jobs[at].enabled);
    if at == 0 {
      assert jobs[0 := job] == [job] + jobs[1..];
    } else {
      ToggledAt(jobs[1..], id, at - 1);
      assert jobs[at := job] == [jobs[0]] + jobs[1..][at - 1 := job];
    }
  }

  method DropJob(jobs: seq<CronJob>, id: string) returns (kept: seq<CronJob>, found: bool)
    ensures kept == Without(jobs, id) && found == HasId(jobs, id)
  {
    kept, found := [], false;
    var i := 0;
    while i < |jobs|
      invariant 0 <= i <= |jobs|
      invariant kept + Without(jobs[i..], id) == Without(jobs, id)
      invariant found <==> exists k :: 0 <= k < i && jobs[k].id == id
    {
      assert jobs[i..][0] == jobs[i] && jobs[i..][1..] == jobs[i + 1..];
      if jobs[i].id == id {
        found := true;
        assert [] + Without(jobs[i + 1..], id) == Without(jobs[i + 1..], id);
      } else {
        assert kept + ([jobs[i]] + Without(jobs[i + 1..], id)) == kept + [jobs[i]] + Without(jobs[i + 1..], id);
        kept := kept + [jobs[i]];
      }
      i := i + 1;
    }
    assert jobs[|jobs|..] == [] && kept + [] == kept;
  }

  class CronManager {
    /** The crontab file; none when it does not exist. */
    var file: Option<string>

    constructor ()
      ensures file == None
    {
      file := None;
    }

    method LoadJobs(gen: nat -> string, disk: Disk) returns (ok: bool, r: LoadResult)
      ensures ok == disk.readOk && r == Seen(file, gen, disk)
    {
      ok, r := disk.readOk, Jobs([]);
      if ok && file.Some? { r := ParseCrontab(file.value, gen); }
    }

    /** The file is replaced by a rename, so a failed write leaves it as it was. */
    method SaveJobs(jobs: seq<CronJob>, disk: Disk) returns (ok: bool)
      modifies this
      ensures ok == disk.writeOk
      ensures file == if ok then Some(Printed(jobs)) else old(file)
    {
      var content := PrintJobs(jobs);
      PrintedEnds(jobs, Header());
      if !HasSuffix(content, "\n") { content := content + "\n"; }
      if !disk.writeOk { return false; }
      file := Some(content);
      return true;
    }

    method AddJob(job: CronJob, dangerous: bool, newId: string, gen: nat -> string, disk: Disk) returns (r: Outcome)
      modifies this
      ensures r == FileAnswer(old(file), Add(job, dangerous, newId), gen, disk)
      ensures file == FileAfter(old(file), Add(job, dangerous, newId), gen, disk)
    {
      var bad := Check(job, dangerous);
      if bad != Done { return bad; }
      var stored := job.(user := EffectiveUser(job.user));
      if stored.id == "" { stored := stored.(id := newId); }
      stored := stored.(enabled := true);
      var _, existing := LoadJobs(gen, disk);
      if existing.Broken? { return Crashed; }
      var at := FindJob(existing.jobs, stored.id);
      if at < |existing.jobs| { return AlreadyExists; }
      var ok := SaveJobs(existing.jobs + [stored], disk);
      return if ok then Done else WriteFailed;
    }

    method UpdateJob(job: CronJob, dangerous: bool, gen: nat -> string, disk: Disk) returns (r: Outcome)
      modifies this
      ensures r == FileAnswer(old(file), Update(job, dangerous), gen, disk)
      ensures file == FileAfter(old(file), Update(job, dangerous), gen, disk)
    {
      var bad := Check(job, dangerous);
      if bad != Done { return bad; }
      var stored := job.(user := EffectiveUser(job.user));
      var readOk, existing := LoadJobs(gen, disk);
      if !readOk { return ReadFailed; }
      if existing.Broken? { return Crashed; }
      var at := FindJob(existing.jobs, job.id);
      if at == |existing.jobs| { return NotFound; }
      ReplacedAt(existing.jobs, job.id, stored, at);
      var ok := SaveJobs(existing.jobs[at := stored], disk);
      return if ok then Done else WriteFailed;
    }

    method DeleteJob(id: string, gen: nat -> string, disk: Disk) returns (r: Outcome)
      modifies this
      ensures r == FileAnswer(old(file), Delete(id), gen, disk)
      ensures file == FileAfter(old(file), Delete(id), gen, disk)
    {
      var readOk, existing := LoadJobs(gen, disk);
      if !readOk { return ReadFailed; }
      if existing.Broken? { return Crashed; }
      var kept, found := DropJob(existing.jobs, id);
      if !found { return NotFound; }
      var ok := SaveJobs(kept, disk);
      return if ok then Done else WriteFailed;
    }

    method ToggleJob(id: string, gen: nat -> string, disk: Disk) returns (r: Outcome)
      modifies this
      ensures r == FileAnswer(old(file), Toggle(id), gen, disk)
      ensures file == FileAfter(old(file), Toggle(id), gen, disk)
    {
      var readOk, existing := LoadJobs(gen, disk);
      if !readOk { return ReadFailed; }
      if existing.Broken? { return Crashed; }
      var at := FindJob(existing.jobs, id);
      if at == |existing.jobs| { return NotFound; }
      ToggledAt(existing.jobs, id, at);
      var job := existing.jobs[at];
      var ok := SaveJobs(existing.jobs[at := job.(enabled := !job.enabled)], disk);
      return if ok then Done else WriteFailed;
    }
  }
}
