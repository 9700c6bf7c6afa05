/**
 The crontab file as a store: over any run of operations it holds the list a plain
 in-memory list would hold.
 */
module CrontabStore {
  import opened Text
  import opened Words
  import opened Crontab
  import opened CrontabRoundTrip

  // ----- Normal jobs -----

  lemma {:induction false} JoinFree(ws: seq<string>, c: char)
    requires AllFree(ws, c) && c != ' '
    ensures Free(Join(ws, " "), c)
  {
    if |ws| > 1 { JoinFree(ws[1..], c); }
  }

  lemma SpacedFree(s: string)
    ensures Free(Spaced(s), '\n') && Free(TrimLeft(Spaced(s)), '\n')
  {
    FieldsAreWords(s);
    forall i | 0 <= i < |Fields(s)| ensures Free(Fields(s)[i], '\n') {
      assert IsWord(Fields(s)[i]);
    }
    JoinFree(Fields(s), '\n');
    var q := TrimLeftSplit(Spaced(s));
    forall i | 0 <= i < |TrimLeft(Spaced(s))| ensures TrimLeft(Spaced(s))[i] != '\n' {
      assert Spaced(s)[|q| + i] == TrimLeft(Spaced(s))[i];
    }
  }

  lemma {:induction false} FieldsHoldNone(s: string, p: string)
    requires !Contains(s, p)
    ensures forall i :: 0 <= i < |Fields(s)| ==> !Contains(Fields(s)[i], p)
    decreases |s|
  {
    if s == "" {
    } else if IsSpace(s[0]) {
      FieldsHoldNone(s[1..], p);
    } else {
      var n := WordEnd(s);
      if Contains(s[n..], p) { ContainsDrop(s, n, p); }
      assert s[..n] + s[n..] == s;
      if Contains(s[..n], p) { ContainsAppend(s[..n], s[n..], p); }
      FieldsHoldNone(s[n..], p);
      var fs := Fields(s);
      forall i | 0 <= i < |fs| ensures !Contains(fs[i], p) {
        if i > 0 { assert fs[i] == Fields(s[n..])[i - 1]; }
      }
    }
  }

  lemma {:induction false} JoinHoldsNone(ws: seq<string>, p: string)
    requires p != "" && Free(p, ' ') && forall i :: 0 <= i < |ws| ==> !Contains(ws[i], p)
    ensures !Contains(Join(ws, " "), p)
  {
    if |ws| > 1 {
      JoinHoldsNone(ws[1..], p);
      ContainsApart(ws[0], Join(ws[1..], " "), p);
      assert ws[0] + " " + Join(ws[1..], " ") == ws[0] + (" " + Join(ws[1..], " "));
    }
  }

  lemma TrimOfWord(w: string)
    requires IsWord(w)
    ensures Trim(w) == w
  {
    assert "" + w + "" == w;
    TrimPadded("", w, "");
  }

  lemma MacroKept(s: string, e: string)
    requires e == Trim(s) && IsWord(e) && Harmless(e)
    ensures Trim(Spaced(s)) == e
  {
    OneWord(s, e);
    TrimOfWord(e);
  }

  lemma ScheduleKept(s: string)
    requires ValidateSchedule(s)
    ensures ValidateSchedule(Spaced(s))
  {
    var e := Trim(s);
    if IsMacro(e) {
      MacroFacts(e);
      MacroKept(s, e);
    } else {
      SpacedTwice(s);
      FieldsTrim(s);
      FieldsTrim(Spaced(s));
    }
  }

  lemma TrimTwice(s: string)
    ensures Trim(Trim(s)) == Trim(s)
  {
    var p, q := TrimSplit(s);
    assert "" + Trim(s) + "" == Trim(s);
    TrimPadded("", Trim(s), "");
  }

  lemma NoteKept(d: string, b: string, r: string)
    requires b == "\n" && r == ReplaceAll(d, b, " ")
    ensures ReplaceAll(Trim(r), b, " ") == Trim(r)
  {
    BreaksReplaced(d, b, " ");
    var p, q := TrimSplit(r);
    forall i | 0 <= i < |Trim(r)| ensures Trim(r)[i] != '\n' { assert r[|p| + i] == Trim(r)[i]; }
    NoByte(Trim(r), b);
    ReplaceAbsent(Trim(r), b, " ");
  }

  lemma CommandKept(c: string)
    requires Trim(c) != "" && !Contains(c, MARK)
    ensures Trim(Spaced(c)) != "" && !Contains(Spaced(c), MARK)
  {
    MarkFacts(MARK);
    FieldsHoldNone(c, MARK);
    JoinHoldsNone(Fields(c), MARK);
    TrimIsBlank(c);
    VisibleHasFields(c);
    SpacedTwice(c);
    if Trim(Spaced(c)) == "" {
      FieldsTrim(Spaced(c));
      FieldsBlank("");
    }
  }

  /** Normalising keeps a job storable and is done after one round. */
  lemma NormalIsStable(j: CronJob)
    requires Storable(j)
    ensures Storable(Normal(j)) && Normal(Normal(j)) == Normal(j)
  {
    ScheduleKept(j.schedule);
    SpacedFree(j.schedule);
    SpacedTwice(j.schedule);
    CommandKept(j.command);
    SpacedFree(j.command);
    SpacedTwice(j.command);
    NoteKept(j.description, "\n", Remark(j));
    TrimTwice(Remark(j));
  }

  // ----- The list operations respect normal form -----

  predicate AllNormal(jobs: seq<CronJob>) {
    forall i :: 0 <= i < |jobs| ==> Storable(jobs[i]) && Normal(jobs[i]) == jobs[i]
  }

  predicate UniqueIds(jobs: seq<CronJob>) {
    forall i, k :: 0 <= i < k < |jobs| ==> jobs[i].id != jobs[k].id
  }

  lemma {:induction false} NormalAllSame(jobs: seq<CronJob>)
    requires AllNormal(jobs)
    ensures NormalAll(jobs) == jobs
  {
    if jobs != [] { NormalAllSame(jobs[1..]); }
  }

  /** The operation with its job in normal form. */
  function NormalOp(op: Op): Op {
    match op
    case Add(job, dangerous, newId) => Add(Normal(job), dangerous, newId)
    case Update(job, dangerous) => Update(Normal(job), dangerous)
    case _ => op
  }

  lemma {:induction false} NormalReplaced(jobs: seq<CronJob>, id: string, job: CronJob)
    requires AllNormal(jobs)
    ensures NormalAll(Replaced(jobs, id, job)) == Replaced(jobs, id, Normal(job))
  {
    if jobs != [] {
      if jobs[0].id == id {
        NormalAllSame(jobs[1..]);
        assert ([job] + jobs[1..])[1..] == jobs[1..];
      } else {
        NormalReplaced(jobs[1..], id, job);
        assert ([jobs[0]] + Replaced(jobs[1..], id, job))[1..] == Replaced(jobs[1..], id, job);
      }
    }
  }

  lemma {:induction false} NormalAppend(jobs: seq<CronJob>, job: CronJob)
    requires AllNormal(jobs)
    ensures NormalAll(jobs + [job]) == jobs + [Normal(job)]
  {
    if jobs == [] {
      assert [] + [job] == [job] && [job][1..] == [];
    } else {
      assert (jobs + [job])[1..] == jobs[1..] + [job];
      NormalAppend(jobs[1..], job);
    }
  }

  lemma {:induction false} WithoutNormal(jobs: seq<CronJob>, id: string)
    requires AllNormal(jobs)
    ensures AllNormal(Without(jobs, id))
  {
    if jobs != [] { WithoutNormal(jobs[1..], id); }
  }

  lemma {:induction false} ToggledNormal(jobs: seq<CronJob>, id: string)
    requires AllNormal(jobs)
    ensures AllNormal(Toggled(jobs, id))
  {
    if jobs != [] {
      SpacedFree(jobs[0].schedule);
      assert Storable(jobs[0].(enabled := !jobs[0].enabled));
      ToggledNormal(jobs[1..], id);
    }
  }

  lemma {:induction false} ReplacedStorable(jobs: seq<CronJob>, id: string, job: CronJob)
    requires AllStorable(jobs) && Storable(job)
    ensures AllStorable(Replaced(jobs, id, job))
  {
    if jobs != [] { ReplacedStorable(jobs[1..], id, job); }
  }

  /** What a caller must add to the manager's own checks for the format to hold the job. */
  predicate FormatOk(op: Op) {
    match op
    case Add(job, _, newId) => JobFits(job.(enabled := true)) && (job.id == "" || GoodId(job.id)) && GoodId(newId)
    case Update(job, _) => JobFits(job)
    case _ => true
  }

  predicate JobFits(job: CronJob) {
    Unbroken(job) && Free(job.command, '\n') && !Contains(job.command, MARK)
  }

  lemma StoredId(jobs: seq<CronJob>, id: string)
    requires AllStorable(jobs) && HasId(jobs, id)
    ensures GoodId(id)
  {
    var i :| 0 <= i < |jobs| && jobs[i].id == id;
    assert Storable(jobs[i]);
  }

  lemma AddIsNormal(jobs: seq<CronJob>, op: Op)
    requires op.Add? && AllNormal(jobs) && FormatOk(op) && Answer(jobs, op) == Done
    ensures AllStorable(jobs + [Prepared(op)]) && NormalAll(jobs + [Prepared(op)]) == jobs + [Normal(Prepared(op))]
    ensures AllNormal(jobs + [Normal(Prepared(op))]) && Prepared(NormalOp(op)) == Normal(Prepared(op))
  {
    NormalIsStable(Prepared(op));
    NormalAppend(jobs, Prepared(op));
  }

  lemma UpdateIsNormal(jobs: seq<CronJob>, op: Op)
    requires op.Update? && AllNormal(jobs) && FormatOk(op) && Answer(jobs, op) == Done
    ensures AllStorable(Replaced(jobs, op.job.id, Prepared(op)))
    ensures NormalAll(Replaced(jobs, op.job.id, Prepared(op))) == Replaced(jobs, op.job.id, Normal(Prepared(op)))
    ensures AllNormal(Replaced(jobs, op.job.id, Normal(Prepared(op)))) && Prepared(NormalOp(op)) == Normal(Prepared(op))
  {
    StoredId(jobs, op.job.id);
    NormalIsStable(Prepared(op));
    NormalReplaced(jobs, op.job.id, Prepared(op));
    ReplacedStorable(jobs, op.job.id, Prepared(op));
    ReplacedNormal(jobs, op.job.id, Normal(Prepared(op)));
  }

  /** A change to a normal list, and the list it amounts to once saved and loaded. */
  lemma ChangeIsNormal(jobs: seq<CronJob>, op: Op)
    requires AllNormal(jobs) && FormatOk(op) && Answer(jobs, op) == Done
    ensures AllStorable(Changed(jobs, op)) && NormalAll(Changed(jobs, op)) == Changed(jobs, NormalOp(op))
    ensures AllNormal(Changed(jobs, NormalOp(op)))
  {
    match op {
      case Add(_, _, _) => AddIsNormal(jobs, op);
      case Update(_, _) => UpdateIsNormal(jobs, op);
      case Delete(id) =>
        WithoutNormal(jobs, id);
        NormalAllSame(Without(jobs, id));
      case Toggle(id) =>
        ToggledNormal(jobs, id);
        NormalAllSame(Toggled(jobs, id));
    }
  }

  lemma {:induction false} ReplacedNormal(jobs: seq<CronJob>, id: string, job: CronJob)
    requires AllNormal(jobs) && Storable(job) && Normal(job) == job
    ensures AllNormal(Replaced(jobs, id, job))
  {
    if jobs != [] { ReplacedNormal(jobs[1..], id, job); }
  }

  // ----- Ids stay unique -----

  function Ids(jobs: seq<CronJob>): seq<string> {
    if jobs == [] then [] else [jobs[0].id] + Ids(jobs[1..])
  }

  lemma {:induction false} IdsAt(jobs: seq<CronJob>)
    ensures |Ids(jobs)| == |jobs| && forall i :: 0 <= i < |jobs| ==> Ids(jobs)[i] == jobs[i].id
  {
    if jobs != [] { IdsAt(jobs[1..]); }
  }

  lemma {:induction false} ReplacedIds(jobs: seq<CronJob>, id: string, job: CronJob)
    requires job.id == id
    ensures Ids(Replaced(jobs, id, job)) == Ids(jobs)
  {
    if jobs != [] { ReplacedIds(jobs[1..], id, job); }
  }

  lemma {:induction false} ToggledIds(jobs: seq<CronJob>, id: string)
    ensures Ids(Toggled(jobs, id)) == Ids(jobs)
  {
    if jobs != [] { ToggledIds(jobs[1..], id); }
  }

  lemma TailHas(jobs: seq<CronJob>, x: string)
    requires jobs != [] && HasId(jobs[1..], x)
    ensures HasId(jobs, x)
  {
    var i :| 0 <= i < |jobs[1..]| && jobs[1..][i].id == x;
    assert jobs[i + 1].id == x;
  }

  lemma {:induction false} WithoutHas(jobs: seq<CronJob>, id: string, x: string)
    ensures HasId(Without(jobs, id), x) ==> HasId(jobs, x) && x != id
  {
    if jobs != [] && HasId(Without(jobs, id), x) {
      var i :| 0 <= i < |Without(jobs, id)| && Without(jobs, id)[i].id == x;
      var later := Without(jobs[1..], id);
      if jobs[0].id == id || i > 0 {
        assert later[if jobs[0].id == id then i else i - 1].id == x;
        WithoutHas(jobs[1..], id, x);
        TailHas(jobs, x);
      } else {
        assert jobs[0].id == x;
      }
    }
  }

  lemma HeadUnique(jobs: seq<CronJob>)
    requires jobs != [] && UniqueIds(jobs)
    ensures UniqueIds(jobs[1..]) && !HasId(jobs[1..], jobs[0].id)
  {
    assert forall i :: 0 <= i < |jobs[1..]| ==> jobs[1..][i] == jobs[i + 1];
  }

  lemma ConsUnique(head: CronJob, later: seq<CronJob>)
    requires UniqueIds(later) && !HasId(later, head.id)
    ensures UniqueIds([head] + later)
  {
    var w := [head] + later;
    assert forall i :: 0 < i < |w| ==> w[i] == later[i - 1];
  }

  lemma {:induction false} WithoutUnique(jobs: seq<CronJob>, id: string)
    requires UniqueIds(jobs)
    ensures UniqueIds(Without(jobs, id))
  {
    if jobs != [] {
      HeadUnique(jobs);
      WithoutUnique(jobs[1..], id);
      WithoutHas(jobs[1..], id, jobs[0].id);
      if jobs[0].id != id { ConsUnique(jobs[0], Without(jobs[1..], id)); }
    }
  }

  lemma UniqueKept(jobs: seq<CronJob>, op: Op)
    requires UniqueIds(jobs) && Answer(jobs, op) == Done
    ensures UniqueIds(Changed(jobs, op))
  {
    match op {
      case Add(job, _, _) =>
      case Update(job, _) =>
        ReplacedIds(jobs, job.id, Prepared(op));
        IdsAt(jobs);
        IdsAt(Changed(jobs, op));
      case Delete(id) =>
        WithoutUnique(jobs, id);
      case Toggle(id) =>
        ToggledIds(jobs, id);
        IdsAt(jobs);
        IdsAt(Changed(jobs, op));
    }
  }

  // ----- Runs -----

  /** One call: the operation and how the disk answers. */
  datatype Call = Call(op: Op, disk: Disk)

  function RunFile(file: Option<string>, calls: seq<Call>, gen: nat -> string): Option<string>
    decreases |calls|
  {
    if calls == [] then file
    else RunFile(FileAfter(file, calls[0].op, gen, calls[0].disk), calls[1..], gen)
  }

  /** The answers of the manager over a run. */
  function FileAnswers(file: Option<string>, calls: seq<Call>, gen: nat -> string): seq<Outcome>
    decreases |calls|
  {
    if calls == [] then []
    else [FileAnswer(file, calls[0].op, gen, calls[0].disk)] +
         FileAnswers(FileAfter(file, calls[0].op, gen, calls[0].disk), calls[1..], gen)
  }

  function SeenList(jobs: seq<CronJob>, call: Call): seq<CronJob> {
    if call.disk.readOk then jobs else []
  }

  function ListAnswer(jobs: seq<CronJob>, call: Call): Outcome {
    if Refused(call.op) then Check(call.op.job, call.op.dangerous)
    else if !call.disk.readOk && !call.op.Add? then ReadFailed
    else
      var a := Answer(SeenList(jobs, call), call.op);
      if a == Done && !call.disk.writeOk then WriteFailed else a
  }

  function ListStep(jobs: seq<CronJob>, call: Call): seq<CronJob> {
    if ListAnswer(jobs, call) == Done then Changed(SeenList(jobs, call), NormalOp(call.op)) else jobs
  }

  function RunList(jobs: seq<CronJob>, calls: seq<Call>): seq<CronJob>
    decreases |calls|
  {
    if calls == [] then jobs else RunList(ListStep(jobs, calls[0]), calls[1..])
  }

  function ListAnswers(jobs: seq<CronJob>, calls: seq<Call>): seq<Outcome>
    decreases |calls|
  {
    if calls == [] then []
    else [ListAnswer(jobs, calls[0])] + ListAnswers(ListStep(jobs, calls[0]), calls[1..])
  }

  /** The file holds the list. */
  ghost predicate Holds(file: Option<string>, jobs: seq<CronJob>) {
    && AllNormal(jobs) && UniqueIds(jobs)
    && (file == None ==> jobs == [])
    && (file.Some? ==> exists js :: AllStorable(js) && file.value == Printed(js) && NormalAll(js) == jobs)
  }

  lemma HeldIsLoaded(file: Option<string>, jobs: seq<CronJob>, gen: nat -> string)
    requires Holds(file, jobs)
    ensures Loaded(file, gen) == Jobs(jobs)
  {
    if file.Some? {
      var js :| AllStorable(js) && file.value == Printed(js) && NormalAll(js) == jobs;
      FileRoundTrip(js, gen);
    }
  }

  /** Normalising the job of an operation changes no answer. */
  lemma SameUnique(jobs: seq<CronJob>, op: Op)
    requires AllNormal(jobs) && FormatOk(op) && UniqueIds(jobs) && Answer(jobs, op) == Done
    ensures UniqueIds(Changed(jobs, NormalOp(op)))
  {
    match op {
      case Update(job, _) =>
        ReplacedIds(jobs, job.id, Prepared(NormalOp(op)));
        IdsAt(jobs);
        IdsAt(Changed(jobs, NormalOp(op)));
      case _ =>
        UniqueKept(jobs, op);
    }
  }

  lemma StepHolds(file: Option<string>, jobs: seq<CronJob>, call: Call, gen: nat -> string)
    requires Holds(file, jobs) && FormatOk(call.op)
    ensures FileAnswer(file, call.op, gen, call.disk) == ListAnswer(jobs, call)
    ensures Holds(FileAfter(file, call.op, gen, call.disk), ListStep(jobs, call))
  {
    HeldIsLoaded(file, jobs, gen);
    var seen := SeenList(jobs, call);
    assert Seen(file, gen, call.disk) == Jobs(seen) && AllNormal(seen) && UniqueIds(seen);
    if ListAnswer(jobs, call) == Done {
      ChangeIsNormal(seen, call.op);
      SameUnique(seen, call.op);
      var js := Changed(seen, call.op);
      assert FileAfter(file, call.op, gen, call.disk) == Some(Printed(js));
    }
  }

  /**
   Over every run from an empty store the loaded file is the list, every answer is the
   one the list gives, and ids stay unique.
   */
  lemma {:induction false} StoreRefinesList(file: Option<string>, jobs: seq<CronJob>, calls: seq<Call>, gen: nat -> string)
    requires Holds(file, jobs) && forall i :: 0 <= i < |calls| ==> FormatOk(calls[i].op)
    ensures Loaded(RunFile(file, calls, gen), gen) == Jobs(RunList(jobs, calls))
    ensures FileAnswers(file, calls, gen) == ListAnswers(jobs, calls)
    ensures UniqueIds(RunList(jobs, calls))
    decreases |calls|
  {
    if calls == [] {
      HeldIsLoaded(file, jobs, gen);
    } else {
      StepHolds(file, jobs, calls[0], gen);
      StoreRefinesList(FileAfter(file, calls[0].op, gen, calls[0].disk), ListStep(jobs, calls[0]), calls[1..], gen);
    }
  }

  /** Every job of a list is in what the file holds. */
  ghost predicate Keeps(file: Option<string>, jobs: seq<CronJob>, gen: nat -> string) {
    Loaded(file, gen).Jobs? && forall k :: 0 <= k < |jobs| ==> jobs[k] in Loaded(file, gen).jobs
  }

  /** An addition under a new id loses the jobs there are exactly when the file cannot be read and can be written. */
  lemma AddLosesTheOthersIff(file: Option<string>, jobs: seq<CronJob>, call: Call, gen: nat -> string)
    requires Holds(file, jobs) && call.op.Add? && FormatOk(call.op) && !Refused(call.op)
    requires jobs != [] && !HasId(jobs, Prepared(call.op).id)
    ensures !Keeps(FileAfter(file, call.op, gen, call.disk), jobs, gen) <==> !call.disk.readOk && call.disk.writeOk
  {
    StepHolds(file, jobs, call, gen);
    var after := ListStep(jobs, call);
    HeldIsLoaded(FileAfter(file, call.op, gen, call.disk), after, gen);
    assert jobs[0].id != Prepared(call.op).id;
    assert !call.disk.readOk && call.disk.writeOk ==> after == [] + [Prepared(NormalOp(call.op))];
    assert jobs[0] in after <==> Keeps(FileAfter(file, call.op, gen, call.disk), jobs, gen);
  }

  // ----- Undoing -----

  const READY := Disk(true, true)

  lemma {:induction false} ToggledTwice(jobs: seq<CronJob>, id: string)
    ensures Toggled(Toggled(jobs, id), id) == jobs
    ensures HasId(Toggled(jobs, id), id) == HasId(jobs, id)
  {
    ToggledIds(jobs, id);
    IdsAt(jobs);
    IdsAt(Toggled(jobs, id));
    if jobs != [] {
      if jobs[0].id == id {
        var flipped := jobs[0].(enabled := !jobs[0].enabled);
        assert Toggled(jobs, id) == [flipped] + jobs[1..] && ([flipped] + jobs[1..])[1..] == jobs[1..];
      } else {
        ToggledTwice(jobs[1..], id);
        assert ([jobs[0]] + Toggled(jobs[1..], id))[1..] == Toggled(jobs[1..], id);
      }
    }
    SameIds(jobs, Toggled(jobs, id), id);
  }

  lemma SameIds(a: seq<CronJob>, b: seq<CronJob>, id: string)
    requires |a| == |b| && forall i :: 0 <= i < |a| ==> a[i].id == b[i].id
    ensures HasId(a, id) == HasId(b, id)
  {
    if HasId(a, id) {
      var i :| 0 <= i < |a| && a[i].id == id;
      assert b[i].id == id;
    }
    if HasId(b, id) {
      var i :| 0 <= i < |b| && b[i].id == id;
      assert a[i].id == id;
    }
  }

  /** Toggling a job twice brings back the loaded list. */
  lemma ToggleTwiceRestores(file: Option<string>, jobs: seq<CronJob>, id: string, gen: nat -> string)
    requires Holds(file, jobs)
    ensures var once := FileAfter(file, Toggle(id), gen, READY);
            Loaded(FileAfter(once, Toggle(id), gen, READY), gen) == Loaded(file, gen)
  {
    var c := Call(Toggle(id), READY);
    StepHolds(file, jobs, c, gen);
    var once := FileAfter(file, Toggle(id), gen, READY);
    StepHolds(once, ListStep(jobs, c), c, gen);
    HeldIsLoaded(file, jobs, gen);
    HeldIsLoaded(FileAfter(once, Toggle(id), gen, READY), ListStep(ListStep(jobs, c), c), gen);
    ToggledTwice(jobs, id);
  }

  /** Deleting what was just added brings back the loaded list. */
  lemma DeleteUndoesAdd(file: Option<string>, jobs: seq<CronJob>, op: Op, gen: nat -> string)
    requires Holds(file, jobs) && op.Add? && FormatOk(op) && FileAnswer(file, op, gen, READY) == Done
    ensures var added := FileAfter(file, op, gen, READY);
            Loaded(FileAfter(added, Delete(Prepared(op).id), gen, READY), gen) == Loaded(file, gen)
  {
    var id := Prepared(op).id;
    var c, d := Call(op, READY), Call(Delete(id), READY);
    StepHolds(file, jobs, c, gen);
    var added, more := FileAfter(file, op, gen, READY), ListStep(jobs, c);
    StepHolds(added, more, d, gen);
    HeldIsLoaded(file, jobs, gen);
    HeldIsLoaded(FileAfter(added, Delete(id), gen, READY), ListStep(more, d), gen);
    assert more == jobs + [Prepared(NormalOp(op))];
    assert more[|jobs|].id == id;
    WithoutAdded(jobs, Prepared(NormalOp(op)));
  }

  lemma {:induction false} WithoutAdded(jobs: seq<CronJob>, job: CronJob)
    requires !HasId(jobs, job.id)
    ensures Without(jobs + [job], job.id) == jobs
  {
    if jobs == [] {
      assert [] + [job] == [job] && [job][1..] == [];
    } else {
      assert (jobs + [job])[1..] == jobs[1..] + [job];
      assert jobs[0].id != job.id;
      assert forall i :: 0 <= i < |jobs[1..]| ==> jobs[1..][i] == jobs[i + 1];
      WithoutAdded(jobs[1..], job);
    }
  }

  // ----- Comments that cannot be cut off -----

  /** The entry on a trimmed line. */
  function RawOf(line: string): string {
    if DISABLED <= line then Trim(line[|DISABLED|..]) else line
  }

  /** A line with an identity comment that is recognised but not spelt the way the cut looks for it. */
  predicate Uncuttable(text: string) {
    var line := Trim(text);
    !Ignored(line) && FindId(RawOf(line)).Some? && IndexOf(RawOf(line), CUT).None?
  }

  predicate SomeUncuttable(lines: seq<string>) {
    exists k :: 0 <= k < |lines| && Uncuttable(lines[k])
  }

  lemma PanicIff(text: string, newId: string)
    ensures ParseLine(text, newId) == Panic <==> Uncuttable(text)
  {
  }

  lemma {:induction false} ParseCrashesIff(lines: seq<string>, gen: nat -> string, i: nat)
    ensures ParseLines(lines, gen, i) == Broken <==> SomeUncuttable(lines)
    decreases |lines|
  {
    if lines != [] {
      PanicIff(lines[0], gen(i));
      ParseCrashesIff(lines[1..], gen, i + 1);
      assert forall k :: 0 < k < |lines| ==> lines[k] == lines[1..][k - 1];
    }
  }

  /** Loading crashes exactly when some line carries an identity comment that cannot be cut off. */
  lemma LoadCrashesIff(content: string, gen: nat -> string)
    ensures ParsedFile(content, gen) == Broken <==> SomeUncuttable(SplitOn(content, '\n'))
  {
    ParseCrashesIff(SplitOn(content, '\n'), gen, 0);
  }

  /** An identity comment without the space after `#` is recognised but cannot be cut off: loading the file crashes. */
  lemma TightCommentCrashes(w: string, id: string, mark: string, newId: string)
    requires IsWord(w) && Harmless(w) && !Contains(w, MARK) && GoodId(id) && Free(id, '#') && mark == MARK
    ensures ParseLine(w + (" " + ("#" + (mark + id))), newId) == Panic
  {
    var m := "#" + (mark + id);
    var h := w + " ";
    var t := w + (" " + m);
    assert t == h + m;
    TightTrimmed(w, id, mark);
    VisibleLine(t);
    TightComment(m, mark, id);
    HeadOfTight(w, mark);
    FindIdIn(h, m);
    MarkFacts(mark);
    NoCutAnywhere(h, m, mark);
  }

  lemma TightTrimmed(w: string, id: string, mark: string)
    requires IsWord(w) && GoodId(id)
    ensures var t := w + (" " + ("#" + (mark + id))); Trim(t) == t && t != "" && t[0] == w[0]
  {
    var t := w + (" " + ("#" + (mark + id)));
    assert "" + t + "" == t && t[|t| - 1] == id[|id| - 1];
    TrimPadded("", t, "");
  }

  lemma HeadOfTight(w: string, mark: string)
    requires !Contains(w, mark) && mark == MARK
    ensures !Contains(w + " ", mark)
  {
    MarkFacts(mark);
    NoneInNothing(mark);
    ContainsApart(w, "", mark);
    assert w + (" " + "") == w + " ";
  }

  lemma TightComment(m: string, mark: string, id: string)
    requires mark == MARK && m == "#" + (mark + id) && GoodId(id)
    ensures IdAt(m) == Some(IdNote(id, ""))
  {
    MarkFacts(mark);
    var x := mark + id;
    assert m[1..] == x && x[0] == 'H' && SkipWs(x) == x && x[|mark|..] == id;
    WholeWord(id);
  }

  lemma {:induction false} WholeWord(id: string)
    requires forall i :: 0 <= i < |id| ==> !IsWs(id[i])
    ensures Word(id) == id && AfterWord(id) == ""
  {
    if id != "" {
      WholeWord(id[1..]);
      assert id == [id[0]] + id[1..];
    }
  }

  lemma {:induction false} NoCutAnywhere(h: string, m: string, mark: string)
    requires mark == MARK && !Contains(h, mark) && m != "" && m[0] == '#' && |m| > 1 && m[1] != ' ' && Free(m[1..], '#')
    ensures IndexOf(h + m, CUT) == None
    decreases |h|
  {
    CutFacts(CUT, mark);
    MarkFacts(mark);
    if h == "" {
      assert h + m == m;
      NoCutFrom(m, CUT);
    } else {
      NoCutHere(h, m, CUT, mark);
      assert (h + m)[1..] == h[1..] + m;
      NoCutAnywhere(h[1..], m, mark);
    }
  }

  lemma NoCutFrom(m: string, c: string)
    requires c == CUT && |m| > 1 && m[1] != ' ' && Free(m[1..], '#')
    ensures IndexOf(m, c) == None
  {
    assert c[0] == '#' && c[1] == ' ';
    NoCutFree(m[1..], c);
  }

  lemma {:induction false} NoCutFree(s: string, c: string)
    requires c != "" && c[0] == '#' && Free(s, '#')
    ensures IndexOf(s, c) == None
  {
    PrefixHead(c, s);
    if s != "" { NoCutFree(s[1..], c); }
  }
}
