/**
 The virtual user file of the FTP server: parsing, printing with the stored password
 hashes, and the operations that load, edit and save it.
 */
module Ftp {
  import opened Text

  datatype FTPUser = FTPUser(name: string, home: string, uid: int, gid: int, upload: int, download: int, quota: int, enabled: bool)

  /** The one-way digest of a password, as lower-case hexadecimal. */
  type Digest = string -> string

  // ----- Reading -----

  const DISABLED := "# DISABLED:"
  const DEFAULT_PASSWORD := "default_secure_pass"

  /** An integer field; a malformed one counts as zero, one out of range as the nearest bound. */
  function IntField(s: string): int {
    var digits := if s != "" && (s[0] == '+' || s[0] == '-') then s[1..] else s;
    if digits == "" || !AllDigits(digits) then 0
    else if Atoi(s).Some? then Atoi(s).value
    else if s[0] == '-' then -MAX_INT - 1
    else MAX_INT
  }

  function UserOf(parts: seq<string>, enabled: bool): Option<FTPUser> {
    if |parts| < 6 then None
    else Some(FTPUser(parts[0], parts[5], IntField(parts[2]), IntField(parts[3]),
                      if |parts| >= 8 then IntField(parts[6]) else 0,
                      if |parts| >= 8 then IntField(parts[7]) else 0,
                      if |parts| >= 9 then IntField(parts[8]) else 0, enabled))
  }

  function ParseLine(text: string): Option<FTPUser> {
    var line := Trim(text);
    if line == "" || ("#" <= line && !(DISABLED <= line)) then None
    else if DISABLED <= line then UserOf(SplitOn(Trim(line[|DISABLED|..]), ':'), false)
    else UserOf(SplitOn(line, ':'), true)
  }

  function ParseLines(lines: seq<string>): seq<FTPUser> {
    if lines == [] then []
    else match ParseLine(lines[0])
      case None => ParseLines(lines[1..])
      case Some(u) => [u] + ParseLines(lines[1..])
  }

  function Parsed(content: string): seq<FTPUser> {
    ParseLines(SplitOn(content, '\n'))
  }

  function Loaded(file: Option<string>): seq<FTPUser> {
    match file
    case None => []
    case Some(content) => Parsed(content)
  }

  /** The name and hash a line holds, comment or not. */
  function HashLine(text: string): Option<(string, string)> {
    var line := Trim(text);
    var bare := Trim(if DISABLED <= line then line[|DISABLED|..] else line);
    var parts := SplitOn(bare, ':');
    if |parts| >= 2 then Some((parts[0], parts[1])) else None
  }

  /** The hashes by name, a later line winning. */
  function Collect(lines: seq<string>, acc: map<string, string>): map<string, string> {
    if lines == [] then acc
    else match HashLine(lines[0])
      case None => Collect(lines[1..], acc)
      case Some(kv) => Collect(lines[1..], acc[kv.0 := kv.1])
  }

  function Hashes(file: Option<string>): map<string, string> {
    match file
    case None => map[]
    case Some(content) => Collect(SplitOn(content, '\n'), map[])
  }

  // ----- Writing -----

  const BANNER := "# Hostvra Pure-FTPd Virtual" + " User Database\n\n"

  function Entry(u: FTPUser, hash: string): string {
    u.name + (":" + (hash + (":" + (IntText(u.uid) + (":" + (IntText(u.gid) + ("::" + (u.home + (":" +
    (IntText(u.upload) + (":" + (IntText(u.download) + (":" + (IntText(u.quota) + "::::::"))))))))))))))
  }

  function UserLine(u: FTPUser, hash: string): string {
    (if u.enabled then "" else "# DISABLED: ") + Entry(u, hash)
  }

  /** The hash written for a user: the stored one, the new one for the named user, the default one when there is none. */
  function HashFor(name: string, stored: map<string, string>, target: string, password: string, sha: Digest): string {
    var kept := if name in stored then stored[name] else "";
    var h := if name == target && password != "" then sha(password) else kept;
    if h == "" then sha(DEFAULT_PASSWORD) else h
  }

  datatype Account = Account(user: FTPUser, hash: string)

  function WithHashes(users: seq<FTPUser>, stored: map<string, string>, target: string, password: string, sha: Digest): seq<Account> {
    if users == [] then []
    else [Account(users[0], HashFor(users[0].name, stored, target, password, sha))] +
         WithHashes(users[1..], stored, target, password, sha)
  }

  function Lines(accounts: seq<Account>): string {
    if accounts == [] then ""
    else UserLine(accounts[0].user, accounts[0].hash) + "\n" + Lines(accounts[1..])
  }

  function Printed(accounts: seq<Account>): string {
    BANNER + Lines(accounts)
  }

  // ----- The operations -----

  datatype Outcome = Done | InvalidUser | ShortPassword | AlreadyExists | NotFound | ReadFailed | WriteFailed

  /** `homeOk` is the verdict on the home directory: absolute, clean, outside the system directories. */
  datatype Op =
    | Create(name: string, password: string, home: string, homeOk: bool, quota: int, upload: int, download: int)
    | ChangePassword(name: string, password: string)
    | Modify(name: string, home: string, homeOk: bool, quota: int, upload: int, download: int)
    | Delete(name: string)
    | Toggle(name: string)

  predicate IsNameChar(c: char) {
    'a' <= c <= 'z' || 'A' <= c <= 'Z' || IsDigit(c) || c == '_' || c == '.'
  }

  predicate ValidName(name: string) {
    3 <= |name| <= 32 && forall i :: 0 <= i < |name| ==> IsNameChar(name[i])
  }

  /** The name is validated without its outer blanks, and stored with them. */
  predicate ValidParams(name: string, homeOk: bool) {
    ValidName(Trim(name)) && homeOk
  }

  predicate Known(users: seq<FTPUser>, name: string) {
    exists i :: 0 <= i < |users| && EqualFold(users[i].name, name)
  }

  function Answer(users: seq<FTPUser>, op: Op): Outcome {
    match op
    case Create(name, password, _, homeOk, _, _, _) =>
      if !ValidParams(name, homeOk) then InvalidUser
      else if |password| < 6 then ShortPassword
      else if Known(users, name) then AlreadyExists
      else Done
    case ChangePassword(name, password) =>
      if |password| < 6 then ShortPassword else if Known(users, name) then Done else NotFound
    case Modify(name, _, homeOk, _, _, _) =>
      if !ValidParams(name, homeOk) then InvalidUser else if Known(users, name) then Done else NotFound
    case Delete(name) => if Known(users, name) then Done else NotFound
    case Toggle(name) => if Known(users, name) then Done else NotFound
  }

  function NewUser(op: Op): FTPUser
    requires op.Create?
  {
    FTPUser(op.name, op.home, 33, 33, op.upload, op.download, op.quota, true)
  }

  /** What an operation makes of the user it is for. */
  function Edited(u: FTPUser, op: Op): FTPUser {
    match op
    case Modify(_, home, _, quota, upload, download) => u.(home := home, quota := quota, upload := upload, download := download)
    case Toggle(_) => u.(enabled := !u.enabled)
    case _ => u
  }

  /** The first user with a name, in whatever case, edited. */
  function EditFirst(users: seq<FTPUser>, op: Op): seq<FTPUser> {
    if users == [] then []
    else if EqualFold(users[0].name, op.name) then [Edited(users[0], op)] + users[1..]
    else [users[0]] + EditFirst(users[1..], op)
  }

  function Without(users: seq<FTPUser>, name: string): seq<FTPUser> {
    if users == [] then []
    else (if EqualFold(users[0].name, name) then [] else [users[0]]) + Without(users[1..], name)
  }

  function Changed(users: seq<FTPUser>, op: Op): seq<FTPUser> {
    match op
    case Create(_, _, _, _, _, _, _) => users + [NewUser(op)]
    case Delete(name) => Without(users, name)
    case ChangePassword(_, _) => users
    case _ => EditFirst(users, op)
  }

  function NewPassword(op: Op): string {
    match op
    case Create(_, password, _, _, _, _, _) => password
    case ChangePassword(_, password) => password
    case _ => ""
  }

  /** How the disk answers one call: reading the users, reading the hashes back for the save, writing. */
  datatype Disk = Disk(listOk: bool, hashesOk: bool, writeOk: bool)

  /** Refused before the file is read. */
  predicate Refused(op: Op) {
    Answer([], op) == InvalidUser || Answer([], op) == ShortPassword
  }

  /** The users an operation works on: a creation takes a file it cannot read for an empty one. */
  function Seen(file: Option<string>, disk: Disk): seq<FTPUser> {
    if disk.listOk then Loaded(file) else []
  }

  /** The hashes a save goes by: none at all when they cannot be read. */
  function SeenHashes(file: Option<string>, disk: Disk): map<string, string> {
    if disk.hashesOk then Hashes(file) else map[]
  }

  function FileAnswer(file: Option<string>, op: Op, disk: Disk): Outcome {
    if Refused(op) then Answer([], op)
    else if !disk.listOk && !op.Create? then ReadFailed
    else
      var a := Answer(Seen(file, disk), op);
      if a == Done && !disk.writeOk then WriteFailed else a
  }

  function FileAfter(file: Option<string>, op: Op, sha: Digest, disk: Disk): Option<string> {
    if FileAnswer(file, op, disk) != Done then file
    else Some(Printed(WithHashes(Changed(Seen(file, disk), op), SeenHashes(file, disk),
                                 if NewPassword(op) != "" then op.name else "", NewPassword(op), sha)))
  }

  // ----- The manager -----

  method FindUser(users: seq<FTPUser>, name: string) returns (at: nat)
    ensures at <= |users| && (at < |users| <==> Known(users, name))
    ensures at < |users| ==> EqualFold(users[at].name, name)
    ensures forall i :: 0 <= i < at ==> !EqualFold(users[i].name, name)
  {
    at := 0;
    while at < |users| && !EqualFold(users[at].name, name)
      invariant at <= |users| && forall i :: 0 <= i < at ==> !EqualFold(users[i].name, name)
    {
      at := at + 1;
    }
  }

  lemma {:induction false} EditFirstAt(users: seq<FTPUser>, op: Op, at: nat)
    requires at < |users| && EqualFold(users[at].name, op.name)
    requires forall i :: 0 <= i < at ==> !EqualFold(users[i].name, op.name)
    ensures EditFirst(users, op) == users[at := Edited(users[at], op)]
  {
    if at == 0 {
      assert users[0 := Edited(users[0], op)] == [Edited(users[0], op)] + users[1..];
    } else {
      EditFirstAt(users[1..], op, at - 1);
      assert users[at := Edited(users[at], op)] == [users[0]] + users[1..][at - 1 := Edited(users[at], op)];
    }
  }

  method ParsePasswd(content: string) returns (users: seq<FTPUser>)
    ensures users == Parsed(content)
  {
    var lines := SplitOn(content, '\n');
    users := [];
    var i := 0;
    while i < |lines|
      invariant 0 <= i <= |lines|
      invariant users + ParseLines(lines[i..]) == Parsed(content)
    {
      assert lines[i..][0] == lines[i] && lines[i..][1..] == lines[i + 1..];
      var u := ParseLine(lines[i]);
      if u.Some? {
        assert users + ([u.value] + ParseLines(lines[i + 1..])) == users + [u.value] + ParseLines(lines[i + 1..]);
        users := users + [u.value];
      }
      i := i + 1;
    }
    assert lines[|lines|..] == [] && users + [] == users;
  }

  method ReadHashes(content: string) returns (hashes: map<string, string>)
    ensures hashes == Hashes(Some(content))
  {
    var lines := SplitOn(content, '\n');
    hashes := map[];
    var i := 0;
    while i < |lines|
      invariant 0 <= i <= |lines|
      invariant Collect(lines[i..], hashes) == Hashes(Some(content))
    {
      assert lines[i..][0] == lines[i] && lines[i..][1..] == lines[i + 1..];
      var kv := HashLine(lines[i]);
      if kv.Some? { hashes := hashes[kv.value.0 := kv.value.1]; }
      i := i + 1;
    }
    assert lines[|lines|..] == [];
  }

  method DropUser(users: seq<FTPUser>, name: string) returns (kept: seq<FTPUser>, found: bool)
    ensures kept == Without(users, name) && found == Known(users, name)
  {
    kept, found := [], false;
    var i := 0;
    while i < |users|
      invariant 0 <= i <= |users|
      invariant kept + Without(users[i..], name) == Without(users, name)
      invariant found <==> exists k :: 0 <= k < i && EqualFold(users[k].name, name)
    {
      assert users[i..][0] == users[i] && users[i..][1..] == users[i + 1..];
      if EqualFold(users[i].name, name) {
        found := true;
        assert [] + Without(users[i + 1..], name) == Without(users[i + 1..], name);
      } else {
        assert kept + ([users[i]] + Without(users[i + 1..], name)) == kept + [users[i]] + Without(users[i + 1..], name);
        kept := kept + [users[i]];
      }
      i := i + 1;
    }
    assert users[|users|..] == [] && kept + [] == kept;
  }

  method ChooseHash(name: string, stored: map<string, string>, target: string, password: string, sha: Digest)
    returns (hash: string)
    ensures hash == HashFor(name, stored, target, password, sha)
  {
    hash := if name in stored then stored[name] else "";
    if name == target && password != "" { hash := sha(password); }
    if hash == "" { hash := sha(DEFAULT_PASSWORD); }
  }

  lemma LinesCons(a: Account, later: seq<Account>)
    ensures Lines([a] + later) == UserLine(a.user, a.hash) + "\n" + Lines(later)
  {
    assert ([a] + later)[1..] == later;
  }

  method AppendLines(text0: string, users: seq<FTPUser>, stored: map<string, string>, target: string, password: string, sha: Digest)
    returns (text: string)
    ensures text == text0 + Lines(WithHashes(users, stored, target, password, sha))
  {
    text := text0;
    ghost var all := text0 + Lines(WithHashes(users, stored, target, password, sha));
    var i := 0;
    while i < |users|
      invariant 0 <= i <= |users|
      invariant text + Lines(WithHashes(users[i..], stored, target, password, sha)) == all
    {
      var u := users[i];
      assert users[i..][0] == u && users[i..][1..] == users[i + 1..];
      var hash := ChooseHash(u.name, stored, target, password, sha);
      var line := UserLine(u, hash) + "\n";
      ghost var later := WithHashes(users[i + 1..], stored, target, password, sha);
      LinesCons(Account(u, hash), later);
      Assoc(text, line, Lines(later));
      text := text + line;
      i := i + 1;
    }
    assert users[|users|..] == [] && text + "" == text;
  }

  class FTPManager {
    /** The user file; none when it does not exist. */
    var file: Option<string>

    constructor ()
      ensures file == None
    {
      file := None;
    }

    method LoadUsers(disk: Disk) returns (ok: bool, users: seq<FTPUser>)
      ensures ok == disk.listOk && users == Seen(file, disk)
    {
      ok, users := disk.listOk, [];
      if ok && file.Some? { users := ParsePasswd(file.value); }
    }

    /** The hashes are read back from the file that is about to be replaced; a failure to read them is passed over. */
    method SaveUsers(users: seq<FTPUser>, target: string, password: string, sha: Digest, disk: Disk) returns (r: Outcome)
      modifies this
      ensures r == if disk.writeOk then Done else WriteFailed
      ensures file == if disk.writeOk then Some(Printed(WithHashes(users, SeenHashes(old(file), disk), target, password, sha)))
                      else old(file)
    {
      var hashes: map<string, string> := map[];
      if disk.hashesOk && file.Some? { hashes := ReadHashes(file.value); }
      var text := AppendLines(BANNER, users, hashes, target, password, sha);
      if !disk.writeOk { return WriteFailed; }
      file := Some(text);
      return Done;
    }

    method CreateUser(name: string, password: string, home: string, homeOk: bool, quota: int, upload: int, download: int,
                      sha: Digest, disk: Disk)
      returns (r: Outcome)
      modifies this
      ensures r == FileAnswer(old(file), Create(name, password, home, homeOk, quota, upload, download), disk)
      ensures file == FileAfter(old(file), Create(name, password, home, homeOk, quota, upload, download), sha, disk)
    {
      if !ValidParams(name, homeOk) { return InvalidUser; }
      if |password| < 6 { return ShortPassword; }
      var _, existing := LoadUsers(disk);
      var at := FindUser(existing, name);
      if at < |existing| { return AlreadyExists; }
      var added := FTPUser(name, home, 33, 33, upload, download, quota, true);
      r := SaveUsers(existing + [added], name, password, sha, disk);
    }

    method ChangePassword(name: string, password: string, sha: Digest, disk: Disk) returns (r: Outcome)
      modifies this
      ensures r == FileAnswer(old(file), Op.ChangePassword(name, password), disk)
      ensures file == FileAfter(old(file), Op.ChangePassword(name, password), sha, disk)
    {
      if |password| < 6 { return ShortPassword; }
      var readOk, existing := LoadUsers(disk);
      if !readOk { return ReadFailed; }
      var at := FindUser(existing, name);
      if at == |existing| { return NotFound; }
      r := SaveUsers(existing, name, password, sha, disk);
    }

    method UpdateUser(name: string, home: string, homeOk: bool, quota: int, upload: int, download: int, sha: Digest, disk: Disk)
      returns (r: Outcome)
      modifies this
      ensures r == FileAnswer(old(file), Modify(name, home, homeOk, quota, upload, download), disk)
      ensures file == FileAfter(old(file), Modify(name, home, homeOk, quota, upload, download), sha, disk)
    {
      if !ValidParams(name, homeOk) { return InvalidUser; }
      var readOk, existing := LoadUsers(disk);
      if !readOk { return ReadFailed; }
      var at := FindUser(existing, name);
      if at == |existing| { return NotFound; }
      EditFirstAt(existing, Modify(name, home, homeOk, quota, upload, download), at);
      var u := existing[at].(home := home, quota := quota, upload := upload, download := download);
      r := SaveUsers(existing[at := u], "", "", sha, disk);
    }

    method DeleteUser(name: string, sha: Digest, disk: Disk) returns (r: Outcome)
      modifies this
      ensures r == FileAnswer(old(file), Delete(name), disk)
      ensures file == FileAfter(old(file), Delete(name), sha, disk)
    {
      var readOk, existing := LoadUsers(disk);
      if !readOk { return ReadFailed; }
      var kept, found := DropUser(existing, name);
      if !found { return NotFound; }
      r := SaveUsers(kept, "", "", sha, disk);
    }

    method ToggleUser(name: string, sha: Digest, disk: Disk) returns (r: Outcome)
      modifies this
      ensures r == FileAnswer(old(file), Toggle(name), disk)
      ensures file == FileAfter(old(file), Toggle(name), sha, disk)
    {
      var readOk, existing := LoadUsers(disk);
      if !readOk { return ReadFailed; }
      var at := FindUser(existing, name);
      if at == |existing| { return NotFound; }
      EditFirstAt(existing, Toggle(name), at);
      var u := existing[at].(enabled := !existing[at].enabled);
      r := SaveUsers(existing[at := u], "", "", sha, disk);
    }
  }
}
