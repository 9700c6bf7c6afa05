/**
 Runs of the FTP user manager: the file is a list of accounts, and stored password
 hashes are left alone by everything but a new password for that very name.
 */
module FtpRuns {
  import opened Text
  import opened Ftp
  import opened FtpStore

  // ----- Operations on accounts -----

  /** A new hash for one exact name. */
  function Rekeyed(accounts: seq<Account>, name: string, hash: string): seq<Account> {
    if accounts == [] then []
    else [if accounts[0].user.name == name then accounts[0].(hash := hash) else accounts[0]] + Rekeyed(accounts[1..], name, hash)
  }

  function EditFirstAccount(accounts: seq<Account>, op: Op): seq<Account> {
    if accounts == [] then []
    else if EqualFold(accounts[0].user.name, op.name) then
      [accounts[0].(user := Edited(accounts[0].user, op))] + accounts[1..]
    else [accounts[0]] + EditFirstAccount(accounts[1..], op)
  }

  function WithoutAccount(accounts: seq<Account>, name: string): seq<Account> {
    if accounts == [] then []
    else (if EqualFold(accounts[0].user.name, name) then [] else [accounts[0]]) + WithoutAccount(accounts[1..], name)
  }

  function ChangedAccounts(accounts: seq<Account>, op: Op, sha: Digest): seq<Account> {
    match op
    case Create(_, password, _, _, _, _, _) => accounts + [Account(NewUser(op), sha(password))]
    case ChangePassword(name, password) => Rekeyed(accounts, name, sha(password))
    case Delete(name) => WithoutAccount(accounts, name)
    case _ => EditFirstAccount(accounts, op)
  }

  predicate Distinct(accounts: seq<Account>) {
    forall i, k :: 0 <= i < k < |accounts| ==> !EqualFold(accounts[i].user.name, accounts[k].user.name)
  }

  // ----- Looking up a hash -----

  function HashOf(accounts: seq<Account>, name: string): Option<string> {
    if accounts == [] then None
    else if accounts[0].user.name == name then Some(accounts[0].hash)
    else HashOf(accounts[1..], name)
  }

  lemma TailDistinct(accounts: seq<Account>)
    requires accounts != [] && Distinct(accounts)
    ensures Distinct(accounts[1..])
    ensures forall i :: 0 <= i < |accounts[1..]| ==> !EqualFold(accounts[0].user.name, accounts[1..][i].user.name)
  {
    assert forall i :: 0 <= i < |accounts[1..]| ==> accounts[1..][i] == accounts[i + 1];
  }

  lemma {:induction false} AbsentHash(accounts: seq<Account>, name: string)
    requires forall i :: 0 <= i < |accounts| ==> accounts[i].user.name != name
    ensures HashOf(accounts, name) == None
  {
    if accounts != [] { AbsentHash(accounts[1..], name); }
  }

  lemma {:induction false} MapHolds(accounts: seq<Account>, acc: map<string, string>, name: string)
    requires Distinct(accounts)
    ensures var m := HashMap(accounts, acc);
            && (name in m <==> HashOf(accounts, name).Some? || name in acc)
            && (name in m ==> m[name] == if HashOf(accounts, name).Some? then HashOf(accounts, name).value else acc[name])
  {
    if accounts != [] {
      TailDistinct(accounts);
      MapHolds(accounts[1..], acc[accounts[0].user.name := accounts[0].hash], name);
      if accounts[0].user.name == name {
        forall i | 0 <= i < |accounts[1..]| ensures accounts[1..][i].user.name != name {
          assert !EqualFold(accounts[0].user.name, accounts[1..][i].user.name);
        }
        AbsentHash(accounts[1..], name);
      }
    }
  }

  lemma {:induction false} HashAt(accounts: seq<Account>, i: nat)
    requires Distinct(accounts) && i < |accounts|
    ensures HashOf(accounts, accounts[i].user.name) == Some(accounts[i].hash)
  {
    if i > 0 {
      assert !EqualFold(accounts[0].user.name, accounts[i].user.name);
      TailDistinct(accounts);
      HashAt(accounts[1..], i - 1);
    }
  }

  /** Every account other than the target finds its own hash. */
  predicate Keyed(accounts: seq<Account>, stored: map<string, string>, target: string) {
    forall i :: 0 <= i < |accounts| ==>
      accounts[i].user.name == target ||
      (accounts[i].user.name in stored && stored[accounts[i].user.name] == accounts[i].hash && accounts[i].hash != "")
  }

  lemma {:induction false} HashesKept(accounts: seq<Account>, stored: map<string, string>, target: string, password: string, sha: Digest)
    requires Keyed(accounts, stored, target) && password != "" && sha(password) != ""
    ensures WithHashes(Users(accounts), stored, target, password, sha) == Rekeyed(accounts, target, sha(password))
  {
    if accounts != [] {
      HashesKept(accounts[1..], stored, target, password, sha);
      assert ([accounts[0].user] + Users(accounts[1..]))[1..] == Users(accounts[1..]);
    }
  }

  /** Every account finds its own hash. */
  predicate AllStored(accounts: seq<Account>, stored: map<string, string>) {
    forall a :: a in accounts ==> a.user.name in stored && stored[a.user.name] == a.hash && a.hash != ""
  }

  lemma {:induction false} HashesUntouched(accounts: seq<Account>, stored: map<string, string>, sha: Digest)
    requires AllStored(accounts, stored)
    ensures WithHashes(Users(accounts), stored, "", "", sha) == accounts
  {
    if accounts != [] {
      HashesUntouched(accounts[1..], stored, sha);
      assert ([accounts[0].user] + Users(accounts[1..]))[1..] == Users(accounts[1..]);
      assert accounts == [accounts[0]] + accounts[1..];
    }
  }

  lemma StoredKeys(accounts: seq<Account>)
    requires AllOk(accounts) && Distinct(accounts)
    ensures AllStored(accounts, HashMap(accounts, map[]))
  {
    forall a | a in accounts
      ensures var m := HashMap(accounts, map[]); a.user.name in m && m[a.user.name] == a.hash && a.hash != ""
    {
      var i :| 0 <= i < |accounts| && accounts[i] == a;
      HashAt(accounts, i);
      MapHolds(accounts, map[], a.user.name);
      assert AccountOk(accounts[i]);
    }
  }

  lemma EditedStored(a: seq<Account>, b: seq<Account>, stored: map<string, string>)
    requires AllStored(a, stored) && |a| == |b|
    requires forall i :: 0 <= i < |b| ==> b[i].user.name == a[i].user.name && b[i].hash == a[i].hash
    ensures AllStored(b, stored)
  {
    forall x | x in b ensures x.user.name in stored && stored[x.user.name] == x.hash && x.hash != "" {
      var i :| 0 <= i < |b| && b[i] == x;
      assert a[i] in a;
    }
  }

  // ----- Users and accounts change alike -----

  lemma {:induction false} UsersAt(accounts: seq<Account>)
    ensures |Users(accounts)| == |accounts| && forall i :: 0 <= i < |accounts| ==> Users(accounts)[i] == accounts[i].user
  {
    if accounts != [] { UsersAt(accounts[1..]); }
  }

  lemma {:induction false} UsersAppend(accounts: seq<Account>, a: Account)
    ensures Users(accounts + [a]) == Users(accounts) + [a.user]
  {
    if accounts == [] {
      assert [] + [a] == [a] && [a][1..] == [];
    } else {
      assert (accounts + [a])[1..] == accounts[1..] + [a];
      UsersAppend(accounts[1..], a);
    }
  }

  lemma {:induction false} UsersEdited(accounts: seq<Account>, op: Op)
    ensures Users(EditFirstAccount(accounts, op)) == EditFirst(Users(accounts), op)
  {
    if accounts != [] {
      var us := [accounts[0].user] + Users(accounts[1..]);
      assert us[1..] == Users(accounts[1..]);
      if EqualFold(accounts[0].user.name, op.name) {
        var a := accounts[0].(user := Edited(accounts[0].user, op));
        assert ([a] + accounts[1..])[1..] == accounts[1..];
      } else {
        UsersEdited(accounts[1..], op);
        assert ([accounts[0]] + EditFirstAccount(accounts[1..], op))[1..] == EditFirstAccount(accounts[1..], op);
      }
    }
  }

  lemma {:induction false} UsersWithout(accounts: seq<Account>, name: string)
    ensures Users(WithoutAccount(accounts, name)) == Without(Users(accounts), name)
  {
    if accounts != [] {
      var us := [accounts[0].user] + Users(accounts[1..]);
      assert us[1..] == Users(accounts[1..]);
      UsersWithout(accounts[1..], name);
      var later := WithoutAccount(accounts[1..], name);
      if EqualFold(accounts[0].user.name, name) {
        assert [] + later == later;
      } else {
        assert ([accounts[0]] + later)[1..] == later;
      }
    }
  }

  /** A shortened list holds only accounts of the list it comes from. */
  predicate ComesFrom(b: seq<Account>, a: seq<Account>) {
    forall x :: x in b ==> x in a
  }

  lemma {:induction false} WithoutComes(accounts: seq<Account>, name: string)
    requires Distinct(accounts) && AllOk(accounts)
    ensures Distinct(WithoutAccount(accounts, name)) && AllOk(WithoutAccount(accounts, name))
    ensures ComesFrom(WithoutAccount(accounts, name), accounts)
  {
    if accounts != [] {
      TailDistinct(accounts);
      WithoutComes(accounts[1..], name);
      var later := WithoutAccount(accounts[1..], name);
      if !EqualFold(accounts[0].user.name, name) {
        PutFirst(accounts, later);
      } else {
        assert [] + later == later;
      }
    }
  }

  lemma PutFirst(accounts: seq<Account>, later: seq<Account>)
    requires accounts != [] && AllOk(accounts) && Distinct(later) && AllOk(later) && ComesFrom(later, accounts[1..])
    requires forall i :: 0 <= i < |accounts[1..]| ==> !EqualFold(accounts[0].user.name, accounts[1..][i].user.name)
    ensures var w := [accounts[0]] + later; Distinct(w) && AllOk(w)
  {
    var w := [accounts[0]] + later;
    forall i | 0 <= i < |later| ensures !EqualFold(accounts[0].user.name, later[i].user.name) {
      assert later[i] in accounts[1..];
    }
    assert forall i :: 0 < i < |w| ==> w[i] == later[i - 1];
  }

  /** An edited list keeps every name and hash in place. */
  lemma {:induction false} EditKeeps(accounts: seq<Account>, op: Op)
    requires op.Modify? || op.Toggle?
    ensures var b := EditFirstAccount(accounts, op);
            && |b| == |accounts|
            && forall i :: 0 <= i < |b| ==>
                 (b[i].user.name == accounts[i].user.name && b[i].hash == accounts[i].hash &&
                  (b[i].user == accounts[i].user || b[i].user == Edited(accounts[i].user, op)))
  {
    if accounts != [] && !EqualFold(accounts[0].user.name, op.name) { EditKeeps(accounts[1..], op); }
  }

  lemma {:induction false} RekeyKeeps(accounts: seq<Account>, name: string, hash: string)
    ensures var b := Rekeyed(accounts, name, hash);
            && |b| == |accounts| && Users(b) == Users(accounts)
            && forall i :: 0 <= i < |b| ==>
                 b[i] == if accounts[i].user.name == name then accounts[i].(hash := hash) else accounts[i]
  {
    if accounts != [] {
      RekeyKeeps(accounts[1..], name, hash);
      var b := Rekeyed(accounts, name, hash);
      assert b[1..] == Rekeyed(accounts[1..], name, hash);
    }
  }

  // ----- One step -----

  /** What a caller must add to the manager's own checks for the format to hold the user. */
  predicate FormatOk(op: Op) {
    match op
    case Create(name, _, home, _, quota, upload, download) =>
      && name != "" && !IsSpace(name[0]) && Free(name, '\n') && Free(home, ':') && Free(home, '\n')
      && Int64(quota) && Int64(upload) && Int64(download)
    case Modify(_, home, _, quota, upload, download) =>
      Free(home, ':') && Free(home, '\n') && Int64(quota) && Int64(upload) && Int64(download)
    case _ => true
  }

  predicate GoodAccounts(accounts: seq<Account>) {
    AllOk(accounts) && Distinct(accounts)
  }

  lemma AppendGood(accounts: seq<Account>, a: Account)
    requires GoodAccounts(accounts) && AccountOk(a)
    requires forall i :: 0 <= i < |accounts| ==> !EqualFold(accounts[i].user.name, a.user.name)
    ensures GoodAccounts(accounts + [a])
  {
  }

  lemma CreateIsGood(accounts: seq<Account>, op: Op, sha: Digest)
    requires op.Create? && GoodAccounts(accounts) && FormatOk(op) && DigestOk(sha) && Answer(Users(accounts), op) == Done
    ensures GoodAccounts(accounts + [Account(NewUser(op), sha(op.password))])
  {
    UsersAt(accounts);
    NameFacts(op.name);
    assert HashOk(sha(op.password));
    forall i | 0 <= i < |accounts| ensures !EqualFold(accounts[i].user.name, op.name) {
      assert Users(accounts)[i].name == accounts[i].user.name;
    }
    AppendGood(accounts, Account(NewUser(op), sha(op.password)));
  }

  lemma EditIsGood(accounts: seq<Account>, op: Op)
    requires GoodAccounts(accounts) && FormatOk(op) && (op.Modify? || op.Toggle?)
    ensures GoodAccounts(EditFirstAccount(accounts, op))
  {
    EditKeeps(accounts, op);
    var b := EditFirstAccount(accounts, op);
    forall i | 0 <= i < |b| ensures AccountOk(b[i]) { assert AccountOk(accounts[i]); }
    KeptGood(accounts, b);
  }

  lemma ChangeIsGood(accounts: seq<Account>, op: Op, sha: Digest)
    requires GoodAccounts(accounts) && FormatOk(op) && DigestOk(sha) && Answer(Users(accounts), op) == Done
    ensures GoodAccounts(ChangedAccounts(accounts, op, sha))
  {
    match op {
      case Create(_, _, _, _, _, _, _) => CreateIsGood(accounts, op, sha);
      case ChangePassword(name, password) =>
        RekeyKeeps(accounts, name, sha(password));
        assert HashOk(sha(password));
        KeptGood(accounts, ChangedAccounts(accounts, op, sha));
      case Delete(name) => WithoutComes(accounts, name);
      case _ => EditIsGood(accounts, op);
    }
  }

  lemma KeptGood(a: seq<Account>, b: seq<Account>)
    requires Distinct(a) && |b| == |a| && AllOk(b) && forall i :: 0 <= i < |b| ==> b[i].user.name == a[i].user.name
    ensures GoodAccounts(b)
  {
  }

  lemma DeleteSaved(accounts: seq<Account>, name: string, sha: Digest)
    requires GoodAccounts(accounts)
    ensures WithHashes(Without(Users(accounts), name), HashMap(accounts, map[]), "", "", sha) == WithoutAccount(accounts, name)
  {
    StoredKeys(accounts);
    UsersWithout(accounts, name);
    WithoutComes(accounts, name);
    HashesUntouched(WithoutAccount(accounts, name), HashMap(accounts, map[]), sha);
  }

  lemma EditSaved(accounts: seq<Account>, op: Op, sha: Digest)
    requires GoodAccounts(accounts) && (op.Modify? || op.Toggle?)
    ensures WithHashes(EditFirst(Users(accounts), op), HashMap(accounts, map[]), "", "", sha) == EditFirstAccount(accounts, op)
  {
    StoredKeys(accounts);
    UsersEdited(accounts, op);
    EditKeeps(accounts, op);
    EditedStored(accounts, EditFirstAccount(accounts, op), HashMap(accounts, map[]));
    HashesUntouched(EditFirstAccount(accounts, op), HashMap(accounts, map[]), sha);
  }

  lemma PasswordSaved(accounts: seq<Account>, op: Op, sha: Digest)
    requires GoodAccounts(accounts) && DigestOk(sha) && op.ChangePassword? && op.password != ""
    ensures WithHashes(Users(accounts), HashMap(accounts, map[]), op.name, op.password, sha) ==
            Rekeyed(accounts, op.name, sha(op.password))
  {
    StoredKeys(accounts);
    assert HashOk(sha(op.password));
    HashesKept(accounts, HashMap(accounts, map[]), op.name, op.password, sha);
  }

  /** Saving the edited users with the stored hashes gives the edited accounts. */
  lemma SaveIsChange(accounts: seq<Account>, op: Op, sha: Digest)
    requires GoodAccounts(accounts) && DigestOk(sha) && Answer(Users(accounts), op) == Done
    ensures WithHashes(Changed(Users(accounts), op), HashMap(accounts, map[]),
                       if NewPassword(op) != "" then op.name else "", NewPassword(op), sha) == ChangedAccounts(accounts, op, sha)
  {
    match op {
      case Create(_, _, _, _, _, _, _) => CreateSaved(accounts, op, sha);
      case ChangePassword(_, _) => PasswordSaved(accounts, op, sha);
      case Delete(name) => DeleteSaved(accounts, name, sha);
      case _ => EditSaved(accounts, op, sha);
    }
  }

  lemma CreateSaved(accounts: seq<Account>, op: Op, sha: Digest)
    requires op.Create? && GoodAccounts(accounts) && DigestOk(sha) && Answer(Users(accounts), op) == Done
    ensures WithHashes(Changed(Users(accounts), op), HashMap(accounts, map[]), op.name, op.password, sha) ==
            ChangedAccounts(accounts, op, sha)
  {
    var a := Account(NewUser(op), sha(op.password));
    var b := accounts + [a];
    StoredKeys(accounts);
    UsersAt(accounts);
    forall i | 0 <= i < |accounts| ensures accounts[i].user.name != op.name {
      assert !EqualFold(Users(accounts)[i].name, op.name);
    }
    UsersAppend(accounts, a);
    assert HashOk(sha(op.password));
    HashesKept(b, HashMap(accounts, map[]), op.name, op.password, sha);
    RekeyKeeps(b, op.name, sha(op.password));
    assert Rekeyed(b, op.name, sha(op.password)) == b;
  }

  // ----- Runs -----

  /** One call: the operation and how the disk answers. */
  datatype Call = Call(op: Op, disk: Disk)

  const READY := Disk(true, true, true)

  function RunFile(file: Option<string>, calls: seq<Call>, sha: Digest): Option<string>
    decreases |calls|
  {
    if calls == [] then file else RunFile(FileAfter(file, calls[0].op, sha, calls[0].disk), calls[1..], sha)
  }

  /** Every account back to the default password. */
  function Reset(accounts: seq<Account>, sha: Digest): seq<Account> {
    if accounts == [] then [] else [accounts[0].(hash := sha(DEFAULT_PASSWORD))] + Reset(accounts[1..], sha)
  }

  /** The accounts an operation works on, given what can be read. */
  function SeenAccounts(accounts: seq<Account>, disk: Disk, sha: Digest): seq<Account> {
    if !disk.listOk then [] else if !disk.hashesOk then Reset(accounts, sha) else accounts
  }

  function ListAnswer(accounts: seq<Account>, call: Call): Outcome {
    if Refused(call.op) then Answer([], call.op)
    else if !call.disk.listOk && !call.op.Create? then ReadFailed
    else
      var a := Answer(if call.disk.listOk then Users(accounts) else [], call.op);
      if a == Done && !call.disk.writeOk then WriteFailed else a
  }

  function Step(accounts: seq<Account>, call: Call, sha: Digest): seq<Account> {
    if ListAnswer(accounts, call) == Done then ChangedAccounts(SeenAccounts(accounts, call.disk, sha), call.op, sha) else accounts
  }

  lemma {:induction false} ResetKeeps(accounts: seq<Account>, sha: Digest)
    ensures Users(Reset(accounts, sha)) == Users(accounts) && |Reset(accounts, sha)| == |accounts|
    ensures forall i :: 0 <= i < |accounts| ==> Reset(accounts, sha)[i] == accounts[i].(hash := sha(DEFAULT_PASSWORD))
  {
    if accounts != [] { ResetKeeps(accounts[1..], sha); }
  }

  lemma ResetGood(accounts: seq<Account>, sha: Digest)
    requires GoodAccounts(accounts) && DigestOk(sha)
    ensures GoodAccounts(Reset(accounts, sha))
  {
    ResetKeeps(accounts, sha);
    assert HashOk(sha(DEFAULT_PASSWORD));
    var b := Reset(accounts, sha);
    forall i | 0 <= i < |b| ensures AccountOk(b[i]) { assert AccountOk(accounts[i]); }
    KeptGood(accounts, b);
  }

  lemma {:induction false} ResetMap(accounts: seq<Account>, acc: map<string, string>, sha: Digest)
    requires forall n :: n in acc ==> acc[n] == sha(DEFAULT_PASSWORD)
    ensures forall n :: n in HashMap(Reset(accounts, sha), acc) ==> HashMap(Reset(accounts, sha), acc)[n] == sha(DEFAULT_PASSWORD)
    decreases |accounts|
  {
    if accounts != [] {
      var a := accounts[0].(hash := sha(DEFAULT_PASSWORD));
      ResetMap(accounts[1..], acc[a.user.name := a.hash], sha);
      assert ([a] + Reset(accounts[1..], sha))[1..] == Reset(accounts[1..], sha);
    }
  }

  /** Finding no hash and finding the default one come to the same. */
  lemma {:induction false} NoneIsDefault(users: seq<FTPUser>, stored: map<string, string>, target: string, password: string, sha: Digest)
    requires forall n :: n in stored ==> stored[n] == sha(DEFAULT_PASSWORD)
    ensures WithHashes(users, map[], target, password, sha) == WithHashes(users, stored, target, password, sha)
  {
    if users != [] { NoneIsDefault(users[1..], stored, target, password, sha); }
  }

  /** Only a creation, refused of nothing, gets by with an unread list: it is alone there, under its own new hash. */
  lemma AloneSaved(op: Op, stored: map<string, string>, sha: Digest)
    requires op.Create? && DigestOk(sha) && Answer([], op) == Done
    ensures WithHashes(Changed([], op), stored, op.name, op.password, sha) == ChangedAccounts([], op, sha)
  {
    assert HashOk(sha(op.password));
    var us := [] + [NewUser(op)];
    assert us == [NewUser(op)] && us[1..] == [];
    assert ChangedAccounts([], op, sha) == [Account(NewUser(op), sha(op.password))];
  }

  function RunAccounts(accounts: seq<Account>, calls: seq<Call>, sha: Digest): seq<Account>
    decreases |calls|
  {
    if calls == [] then accounts else RunAccounts(Step(accounts, calls[0], sha), calls[1..], sha)
  }

  /** The file holds the accounts. */
  predicate Holds(file: Option<string>, accounts: seq<Account>) {
    GoodAccounts(accounts) && ((file == None && accounts == []) || file == Some(Printed(accounts)))
  }

  lemma HeldIsLoaded(file: Option<string>, accounts: seq<Account>)
    requires Holds(file, accounts)
    ensures Loaded(file) == Users(accounts) && Hashes(file) == HashMap(accounts, map[])
  {
    if file.Some? { FileRoundTrip(accounts); }
  }

  /** What is saved is the changed accounts, whatever could be read. */
  lemma SaveIsStep(file: Option<string>, accounts: seq<Account>, call: Call, sha: Digest)
    requires Holds(file, accounts) && DigestOk(sha) && ListAnswer(accounts, call) == Done
    ensures WithHashes(Changed(Seen(file, call.disk), call.op), SeenHashes(file, call.disk),
                       if NewPassword(call.op) != "" then call.op.name else "", NewPassword(call.op), sha) ==
            ChangedAccounts(SeenAccounts(accounts, call.disk, sha), call.op, sha)
  {
    HeldIsLoaded(file, accounts);
    var op := call.op;
    if !call.disk.listOk {
      AloneSaved(op, SeenHashes(file, call.disk), sha);
    } else if !call.disk.hashesOk {
      ResetGood(accounts, sha);
      ResetKeeps(accounts, sha);
      ResetMap(accounts, map[], sha);
      SaveIsChange(Reset(accounts, sha), op, sha);
      NoneIsDefault(Changed(Users(accounts), op), HashMap(Reset(accounts, sha), map[]),
                    if NewPassword(op) != "" then op.name else "", NewPassword(op), sha);
    } else {
      SaveIsChange(accounts, op, sha);
    }
  }

  lemma SeenIsGood(accounts: seq<Account>, disk: Disk, sha: Digest)
    requires GoodAccounts(accounts) && DigestOk(sha)
    ensures GoodAccounts(SeenAccounts(accounts, disk, sha))
    ensures Users(SeenAccounts(accounts, disk, sha)) == if disk.listOk then Users(accounts) else []
  {
    ResetGood(accounts, sha);
    ResetKeeps(accounts, sha);
  }

  lemma StepHolds(file: Option<string>, accounts: seq<Account>, call: Call, sha: Digest)
    requires Holds(file, accounts) && FormatOk(call.op) && DigestOk(sha)
    ensures FileAnswer(file, call.op, call.disk) == ListAnswer(accounts, call)
    ensures Holds(FileAfter(file, call.op, sha, call.disk), Step(accounts, call, sha))
  {
    HeldIsLoaded(file, accounts);
    if ListAnswer(accounts, call) == Done {
      SeenIsGood(accounts, call.disk, sha);
      ChangeIsGood(SeenAccounts(accounts, call.disk, sha), call.op, sha);
      SaveIsStep(file, accounts, call, sha);
    }
  }

  predicate AllFormatOk(calls: seq<Call>) {
    forall i :: 0 <= i < |calls| ==> FormatOk(calls[i].op)
  }

  function FileAnswers(file: Option<string>, calls: seq<Call>, sha: Digest): seq<Outcome>
    decreases |calls|
  {
    if calls == [] then []
    else [FileAnswer(file, calls[0].op, calls[0].disk)] +
         FileAnswers(FileAfter(file, calls[0].op, sha, calls[0].disk), calls[1..], sha)
  }

  function ListAnswers(accounts: seq<Account>, calls: seq<Call>, sha: Digest): seq<Outcome>
    decreases |calls|
  {
    if calls == [] then [] else [ListAnswer(accounts, calls[0])] + ListAnswers(Step(accounts, calls[0], sha), calls[1..], sha)
  }

  /** Over every run the file holds the account list with the same operations applied, and every answer is the list's. */
  lemma {:induction false} StoreRefinesAccounts(file: Option<string>, accounts: seq<Account>, calls: seq<Call>, sha: Digest)
    requires Holds(file, accounts) && AllFormatOk(calls) && DigestOk(sha)
    ensures Holds(RunFile(file, calls, sha), RunAccounts(accounts, calls, sha))
    ensures Loaded(RunFile(file, calls, sha)) == Users(RunAccounts(accounts, calls, sha))
    ensures FileAnswers(file, calls, sha) == ListAnswers(accounts, calls, sha)
    decreases |calls|
  {
    if calls == [] {
      HeldIsLoaded(file, accounts);
    } else {
      assert FormatOk(calls[0].op);
      StepHolds(file, accounts, calls[0], sha);
      StoreRefinesAccounts(FileAfter(file, calls[0].op, sha, calls[0].disk), Step(accounts, calls[0], sha), calls[1..], sha);
    }
  }

  // ----- The hash frame -----

  /** The operations that may touch the stored hash of a name. */
  predicate Touches(op: Op, name: string) {
    (op.ChangePassword? && op.name == name) || (op.Delete? && EqualFold(name, op.name))
  }

  /** A call that leaves a name alone and can read what it is about to replace. */
  predicate Spares(call: Call, name: string) {
    !Touches(call.op, name) && call.disk.listOk && call.disk.hashesOk
  }

  lemma {:induction false} WithoutHash(accounts: seq<Account>, name: string, other: string)
    requires !EqualFold(name, other)
    ensures HashOf(WithoutAccount(accounts, other), name) == HashOf(accounts, name)
  {
    if accounts != [] {
      WithoutHash(accounts[1..], name, other);
      var later := WithoutAccount(accounts[1..], other);
      if EqualFold(accounts[0].user.name, other) {
        assert [] + later == later;
      } else {
        assert ([accounts[0]] + later)[1..] == later;
      }
    }
  }

  lemma {:induction false} SameHash(a: seq<Account>, b: seq<Account>, name: string)
    requires |a| == |b|
    requires forall i :: 0 <= i < |a| ==>
      a[i].user.name == b[i].user.name && (a[i].user.name == name ==> a[i].hash == b[i].hash)
    ensures HashOf(a, name) == HashOf(b, name)
  {
    if a != [] { SameHash(a[1..], b[1..], name); }
  }

  lemma {:induction false} HashAppend(accounts: seq<Account>, a: Account, name: string)
    requires HashOf(accounts, name).Some?
    ensures HashOf(accounts + [a], name) == HashOf(accounts, name)
  {
    assert (accounts + [a])[0] == accounts[0] && (accounts + [a])[1..] == accounts[1..] + [a];
    if accounts[0].user.name != name { HashAppend(accounts[1..], a, name); }
  }

  lemma ChangeKeepsHash(accounts: seq<Account>, op: Op, sha: Digest, name: string)
    requires HashOf(accounts, name).Some? && !Touches(op, name)
    ensures HashOf(ChangedAccounts(accounts, op, sha), name) == HashOf(accounts, name)
  {
    match op {
      case Create(_, password, _, _, _, _, _) =>
        HashAppend(accounts, Account(NewUser(op), sha(password)), name);
      case ChangePassword(n, password) =>
        RekeyKeeps(accounts, n, sha(password));
        SameHash(Rekeyed(accounts, n, sha(password)), accounts, name);
      case Delete(n) =>
        WithoutHash(accounts, name, n);
      case _ =>
        EditKeeps(accounts, op);
        SameHash(EditFirstAccount(accounts, op), accounts, name);
    }
  }

  /**
   Over every run on a readable file, a user who is neither deleted nor given a new password
   under the exact name keeps the stored hash: through creations, changes of directory or
   limits, and any number of disablings and enablings.
   */
  lemma {:induction false} HashFrame(accounts: seq<Account>, calls: seq<Call>, sha: Digest, name: string)
    requires HashOf(accounts, name).Some? && forall i :: 0 <= i < |calls| ==> Spares(calls[i], name)
    ensures HashOf(RunAccounts(accounts, calls, sha), name) == HashOf(accounts, name)
    decreases |calls|
  {
    if calls != [] {
      assert Spares(calls[0], name);
      ChangeKeepsHash(accounts, calls[0].op, sha, name);
      HashFrame(Step(accounts, calls[0], sha), calls[1..], sha, name);
    }
  }

  /** The same on the file: the hash written for the name is still the one read before the run. */
  lemma StoredHashFrame(file: Option<string>, accounts: seq<Account>, calls: seq<Call>, sha: Digest, name: string)
    requires Holds(file, accounts) && AllFormatOk(calls) && DigestOk(sha) && HashOf(accounts, name).Some?
    requires forall i :: 0 <= i < |calls| ==> Spares(calls[i], name)
    ensures name in Hashes(file) && name in Hashes(RunFile(file, calls, sha))
    ensures Hashes(RunFile(file, calls, sha))[name] == Hashes(file)[name]
  {
    StoreRefinesAccounts(file, accounts, calls, sha);
    HeldIsLoaded(file, accounts);
    HeldIsLoaded(RunFile(file, calls, sha), RunAccounts(accounts, calls, sha));
    HashFrame(accounts, calls, sha, name);
    MapHolds(accounts, map[], name);
    MapHolds(RunAccounts(accounts, calls, sha), map[], name);
  }

  // ----- Files that cannot be read -----

  lemma {:induction false} ResetHash(accounts: seq<Account>, sha: Digest, name: string)
    requires HashOf(accounts, name).Some?
    ensures HashOf(Reset(accounts, sha), name) == Some(sha(DEFAULT_PASSWORD))
  {
    if accounts[0].user.name != name { ResetHash(accounts[1..], sha, name); }
  }

  /** An operation that is carried out keeps the password of a bystander exactly when it could read the hashes back. */
  lemma BystanderKeepsHashIff(accounts: seq<Account>, call: Call, sha: Digest, name: string)
    requires HashOf(accounts, name).Some? && HashOf(accounts, name) != Some(sha(DEFAULT_PASSWORD))
    requires !Touches(call.op, name) && call.disk.listOk && ListAnswer(accounts, call) == Done
    ensures HashOf(Step(accounts, call, sha), name) == HashOf(accounts, name) <==> call.disk.hashesOk
  {
    ResetHash(accounts, sha, name);
    ChangeKeepsHash(SeenAccounts(accounts, call.disk, sha), call.op, sha, name);
  }

  /** Creating a user under a new name loses the others exactly when the file cannot be read and can be written. */
  lemma CreateLosesTheOthersIff(file: Option<string>, accounts: seq<Account>, call: Call, sha: Digest)
    requires Holds(file, accounts) && DigestOk(sha) && call.op.Create? && FormatOk(call.op) && !Refused(call.op)
    requires accounts != [] && !Known(Users(accounts), call.op.name)
    ensures !(forall u :: u in Users(accounts) ==> u in Loaded(FileAfter(file, call.op, sha, call.disk))) <==>
            !call.disk.listOk && call.disk.writeOk
  {
    StepHolds(file, accounts, call, sha);
    var after := Step(accounts, call, sha);
    HeldIsLoaded(FileAfter(file, call.op, sha, call.disk), after);
    HeldIsLoaded(file, accounts);
    if call.disk.listOk && call.disk.writeOk {
      var seen := SeenAccounts(accounts, call.disk, sha);
      SeenIsGood(accounts, call.disk, sha);
      UsersAppend(seen, Account(NewUser(call.op), sha(call.op.password)));
    } else if call.disk.writeOk {
      UsersAppend([], Account(NewUser(call.op), sha(call.op.password)));
      assert Users(accounts)[0] in Users(accounts) && Users(accounts)[0].name != call.op.name;
      assert forall u :: u in Users(after) ==> u.name == call.op.name;
    }
  }

  // ----- Names in another case -----

  lemma ReadyStep(accounts: seq<Account>, op: Op, sha: Digest)
    requires Answer(Users(accounts), op) == Done
    ensures Step(accounts, Call(op, READY), sha) == ChangedAccounts(accounts, op, sha)
  {
  }

  /**
   A password change is accepted when the name is known in any case, but stored only for the
   exact name: it takes effect on a user if and only if the names agree byte for byte.
   */
  lemma PasswordTakesEffectIff(accounts: seq<Account>, op: Op, sha: Digest, i: nat)
    requires GoodAccounts(accounts) && op.ChangePassword? && Answer(Users(accounts), op) == Done && i < |accounts|
    requires sha(op.password) != accounts[i].hash
    ensures var after := Step(accounts, Call(op, READY), sha);
            |after| == |accounts| && (after[i].hash == sha(op.password) <==> accounts[i].user.name == op.name)
  {
    ReadyStep(accounts, op, sha);
    RekeyKeeps(accounts, op.name, sha(op.password));
  }

  /** A user known only in another case keeps the old password although the change is reported as done. */
  lemma OtherCaseChangesNothing(accounts: seq<Account>, op: Op, sha: Digest)
    requires HashOf(accounts, op.name).None?
    requires op.ChangePassword? && Answer(Users(accounts), op) == Done
    ensures Step(accounts, Call(op, READY), sha) == accounts
  {
    RekeyAbsent(accounts, op.name, sha(op.password));
    ReadyPassword(accounts, op, sha);
  }

  lemma ReadyPassword(accounts: seq<Account>, op: Op, sha: Digest)
    requires op.ChangePassword? && Answer(Users(accounts), op) == Done
    ensures Step(accounts, Call(op, READY), sha) == Rekeyed(accounts, op.name, sha(op.password))
  {
    ReadyStep(accounts, op, sha);
  }

  lemma {:induction false} RekeyAbsent(accounts: seq<Account>, name: string, hash: string)
    requires HashOf(accounts, name).None?
    ensures Rekeyed(accounts, name, hash) == accounts
  {
    if accounts != [] { RekeyAbsent(accounts[1..], name, hash); }
  }
}
